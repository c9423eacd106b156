/** The field types the generator builds from a schema, and what their shape means for Clone: an Optional stands
    outermost or not at all, so that no copy loses an explicit null. */
module FieldTypes {
  import opened Wrappers
  import opened CopyCompiler
  import opened CopyCorrect
  import opened DeepCopy

  // ---------------------------------------------------------------- from schema nodes to field types

  /** A property's schema, as far as its Go type depends on it. */
  datatype Node =
    | Always(accepts: bool)                        // true or false in place of a schema
    | RefTo(name: string, union: bool)             // a definition of this package
    | OrNull(node: Node)                           // anyOf a schema and null
    | Basic(go: string, nullable: bool)            // string, boolean, integer or number
    | ArrayOf(items: Option<Node>, nullable: bool)
    | ObjectOf(value: Node, nullable: bool)        // additional properties only
    | Unsupported

  datatype Category = Plain | SliceOf | MapTo | Raw | Union

  datatype Resolved = Resolved(go: GoType, cat: Category, nullable: bool)

  /** The type of a slice element or a map value. */
  function ElemType(res: Resolved): GoType {
    if res.nullable && res.cat.Plain? then Pointer(res.go) else res.go
  }

  function Resolve(n: Node): Option<Resolved> {
    match n
    case Always(accepts) => if accepts then Some(Resolved(RawMessage, Raw, false)) else None
    case RefTo(name, union) => Some(Resolved(Ident(name), if union then Union else Plain, false))
    case OrNull(node) =>
      var res := Resolve(node);
      if res.Some? then Some(res.value.(nullable := true)) else None
    case Basic(go, nullable) => Some(Resolved(Ident(go), Plain, nullable))
    case ArrayOf(items, nullable) =>
      if items.None? then None
      else
        var elem := Resolve(items.value);
        if elem.Some? then Some(Resolved(Slice(ElemType(elem.value)), SliceOf, nullable)) else None
    case ObjectOf(value, nullable) =>
      var elem := Resolve(value);
      if elem.Some? && !elem.value.cat.Union? then Some(Resolved(MapOf(ElemType(elem.value)), MapTo, nullable))
      else None
    case Unsupported => None
  }

  /** The type of a field, and of an optional field that the cycle pass boxes. */
  function FieldType(res: Resolved, required: bool, boxed: bool): GoType {
    var value := if res.cat.Plain? && required && res.nullable then Pointer(res.go) else res.go;
    if required then value else if boxed then Optional(Pointer(value)) else Optional(value)
  }

  // ---------------------------------------------------------------- what a field type says of its schema

  /** The schema admits null. */
  predicate AdmitsNull(n: Node) {
    match n
    case OrNull(_) => true
    case Basic(_, nullable) => nullable
    case ArrayOf(_, nullable) => nullable
    case ObjectOf(_, nullable) => nullable
    case _ => false
  }

  /** Its Go type has a nil of its own: a slice, a map, a raw message or the interface of a union. */
  predicate HasNil(n: Node) {
    match n
    case OrNull(node) => HasNil(node)
    case RefTo(_, union) => union
    case Basic(_, _) => false
    case _ => true
  }

  predicate OfUnion(n: Node) {
    match n
    case OrNull(node) => OfUnion(node)
    case RefTo(_, union) => union
    case _ => false
  }

  /** The Go type spells the schema, null apart. */
  predicate Spells(t: GoType, n: Node)
    decreases n, 0
  {
    match n
    case Always(accepts) => accepts && t == RawMessage
    case RefTo(name, _) => t == Ident(name)
    case OrNull(node) => Spells(t, node)
    case Basic(go, _) => t == Ident(go)
    case ArrayOf(items, _) => items.Some? && t.Slice? && Fills(t.elem, items.value)
    case ObjectOf(value, _) => t.MapOf? && !OfUnion(value) && Fills(t.elem, value)
    case Unsupported => false
  }

  /** The Go type spells the schema, with a pointer exactly where null is admitted and has no nil to stand for it. */
  predicate Fills(t: GoType, n: Node)
    decreases n, 1
  {
    if AdmitsNull(n) && !HasNil(n) then t.Pointer? && Spells(t.elem, n) else Spells(t, n)
  }

  lemma {:induction false} ResolveFlags(n: Node)
    requires Resolve(n).Some?
    ensures Resolve(n).value.nullable == AdmitsNull(n)
    ensures Resolve(n).value.cat.Plain? == !HasNil(n) && Resolve(n).value.cat.Union? == OfUnion(n)
  {
    match n
    case OrNull(node) => ResolveFlags(node);
    case _ =>
  }

  /** A schema resolves exactly when some type spells it, and then to that one. */
  lemma {:induction false} ResolveSpells(n: Node)
    ensures Resolve(n).None? ==> forall t :: !Spells(t, n)
    ensures Resolve(n).Some? ==> forall t :: Spells(t, n) <==> t == Resolve(n).value.go
    decreases n, 0
  {
    match n
    case OrNull(node) => ResolveSpells(node);
    case ArrayOf(items, _) => if items.Some? { ElemFills(items.value); }
    case ObjectOf(value, _) =>
      ElemFills(value);
      if Resolve(value).Some? { ResolveFlags(value); }
    case _ =>
  }

  lemma {:induction false} ElemFills(n: Node)
    ensures Resolve(n).None? ==> forall t :: !Fills(t, n)
    ensures Resolve(n).Some? ==> forall t :: Fills(t, n) <==> t == ElemType(Resolve(n).value)
    decreases n, 1
  {
    hide Spells, Resolve;
    ResolveSpells(n);
    if Resolve(n).Some? { ResolveFlags(n); }
  }

  /** The type of a field spells its schema: a required field has a pointer exactly where null needs one, at every
      depth; an optional field wraps the bare type, in a pointer too when the cycle pass boxes it, and leaves null to
      Optional. */
  lemma {:induction false} FieldSpells(n: Node, required: bool, boxed: bool)
    requires Resolve(n).Some?
    ensures var t := FieldType(Resolve(n).value, required, boxed);
            && (required ==> Fills(t, n))
            && (!required && !boxed ==> t.Optional? && Spells(t.elem, n))
            && (!required && boxed ==> t.Optional? && t.elem.Pointer? && Spells(t.elem.elem, n))
  {
    hide Spells, Resolve;
    ResolveSpells(n);
    ResolveFlags(n);
  }

  /** The package declares the names of the schema as it says: basic types are scalars and unions are unions. */
  predicate Declared(p: Package, n: Node) {
    match n
    case RefTo(name, union) => !IsScalar(name) && name !in p.manual && (union <==> IsUnion(p, name))
    case OrNull(node) => Declared(p, node)
    case Basic(go, _) => IsScalar(go)
    case _ => true
  }

  lemma {:induction false} NilSpells(p: Package, t: GoType, n: Node)
    requires Spells(t, n) && Declared(p, n)
    ensures HasType(p, t, TNil) <==> HasNil(n)
  {
    match n
    case OrNull(node) => NilSpells(p, t, node);
    case RefTo(name, _) => if name in p.types { assert HasDecl(p, p.types[name], TNil) <==> IsUnion(p, name); }
    case _ =>
  }

  /** A required field has a nil for null exactly when its schema admits null or its type has a nil anyway; an optional
      one tells an absent value, null and every present one apart. */
  lemma {:induction false} NullHasItsPlace(p: Package, n: Node, boxed: bool)
    requires Resolve(n).Some? && Declared(p, n)
    ensures HasType(p, FieldType(Resolve(n).value, true, boxed), TNil) <==> AdmitsNull(n) || HasNil(n)
    ensures var t := FieldType(Resolve(n).value, false, boxed);
            HasType(p, t, TAbsent) && HasType(p, t, TNull) && !HasType(p, t, TNil)
  {
    hide Spells, Resolve, AdmitsNull, HasNil;
    var t := FieldType(Resolve(n).value, true, boxed);
    FieldSpells(n, true, boxed);
    if !(AdmitsNull(n) && !HasNil(n)) { NilSpells(p, t, n); }
  }

  predicate OptionalFree(t: GoType) {
    match t
    case Pointer(e) => OptionalFree(e)
    case Slice(e) => OptionalFree(e)
    case MapOf(e) => OptionalFree(e)
    case Optional(_) => false
    case _ => true
  }

  /** An Optional stands outermost or not at all. */
  predicate Generated(t: GoType) {
    if t.Optional? then OptionalFree(t.elem) else OptionalFree(t)
  }

  lemma {:induction false} ResolvedIsFree(n: Node)
    requires Resolve(n).Some?
    ensures OptionalFree(Resolve(n).value.go)
  {
    match n
    case OrNull(node) => ResolvedIsFree(node);
    case ArrayOf(items, _) => ResolvedIsFree(items.value);
    case ObjectOf(value, _) => ResolvedIsFree(value);
    case _ =>
  }

  /** Every field type that is built has that shape. */
  lemma {:induction false} FieldsAreGenerated(n: Node, required: bool, boxed: bool)
    requires Resolve(n).Some?
    ensures Generated(FieldType(Resolve(n).value, required, boxed))
  {
    ResolvedIsFree(n);
  }

  // ---------------------------------------------------------------- what it means for Clone

  lemma {:induction false} FreeIsSafe(p: Package, t: GoType, zeroed: bool)
    requires OptionalFree(t)
    ensures NullSafe(p, t, zeroed)
    decreases t
  {
    match t
    case Pointer(e) => FreeIsSafe(p, e, true);
    case Slice(e) => FreeIsSafe(p, e, true);
    case MapOf(e) => FreeIsSafe(p, e, true);
    case _ =>
  }

  ghost predicate AllGenerated(p: Package) {
    forall n, i :: IsStruct(p, n) && 0 <= i < |p.types[n].fields| ==> Generated(p.types[n].fields[i])
  }

  lemma {:induction false} GeneratedIsSafe(p: Package)
    requires AllGenerated(p)
    ensures SafeSchema(p)
  {
    forall n, i | IsStruct(p, n) && 0 <= i < |p.types[n].fields| ensures SafeField(p, p.types[n].fields[i]) {
      var t := p.types[n].fields[i];
      if t.Optional? { FreeIsSafe(p, t.elem, true); } else { FreeIsSafe(p, t, false); }
    }
  }

  /** Clone of a generated struct is exact: the result has the shape of the original, nulls and nils included, and every
      slice, map and pointer in it is new. */
  lemma {:induction false} GeneratedClonesAreExact(p: Package, fuel: nat, name: string, v: Value, t: Tree, st: State)
    returns (w: Value, su: State)
    requires Valid(p) && AllGenerated(p) && IsStruct(p, name) && HasType(p, Ident(name), t)
    requires Sound(st) && Shape(st.heap, v, t) && Fits(t, fuel + 1)
    ensures CallMethod(p, fuel, name, v, st) == Some((w, su))
    ensures Shape(su.heap, w, t) && Within(su.heap, w, t, st.next, su.next)
    ensures forall a :: a in st.heap ==> a in su.heap && su.heap[a] == st.heap[a]
  {
    hide CallMethod, Shape, Within, Fits, HasType, Copied, AllGenerated, SafeSchema, LosesNull, Valid;
    GeneratedIsSafe(p);
    SafeLosesNothing(p, Ident(name), t, false);
    ExactIffNoNullLost(p, Ident(name), t, false);
    w, su := CloneIsDeepCopy(p, fuel, name, v, t, st);
  }
}
