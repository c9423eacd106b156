/** The generator of Clone methods: field types, the copy statements emitted for them, and what running those does. */
module CopyCompiler {
  import opened Wrappers

  // ---------------------------------------------------------------- field types and declarations

  datatype GoType = Ident(name: string) | Pointer(elem: GoType) | Slice(elem: GoType) | MapOf(elem: GoType) | RawMessage
                  | Optional(elem: GoType) | Unsupported

  datatype Decl = EnumDecl | StructDecl(fields: seq<GoType>, names: seq<string>) | UnionDecl(variants: set<string>)

  /** The declarations, and the order in which each range over a map that runs in their methods goes through its keys:
      any function of the state it starts in, as Go fixes none. */
  datatype Package = Package(types: map<string, Decl>, manual: set<string>, ranges: (State, set<string>) -> seq<string>)

  predicate IsScalar(name: string) {
    name in {"bool", "string", "byte", "rune", "int", "int8", "int16", "int32", "int64",
             "uint", "uint8", "uint16", "uint32", "uint64", "uintptr",
             "float32", "float64", "complex64", "complex128"}
  }

  predicate IsStruct(p: Package, name: string) { name in p.types && p.types[name].StructDecl? }
  predicate IsUnion(p: Package, name: string) { name in p.types && p.types[name].UnionDecl? }

  /** The field types the emitter supports; Unsupported stands for every other Go type: arrays of fixed length, maps
      keyed by anything but string, qualified names, other generic types, functions and so on. */
  predicate Accepts(p: Package, t: GoType) {
    match t
    case Ident(name) => IsScalar(name) || name in p.manual || name in p.types
    case Pointer(e) => Accepts(p, e)
    case Slice(e) => Accepts(p, e)
    case MapOf(e) => Accepts(p, e)
    case RawMessage => true
    case Optional(e) => Accepts(p, e)
    case Unsupported => false
  }

  /** The type at the end of pointers, slices, maps and Optionals. */
  function Leaf(t: GoType): GoType {
    match t
    case Pointer(e) => Leaf(e)
    case Slice(e) => Leaf(e)
    case MapOf(e) => Leaf(e)
    case Optional(e) => Leaf(e)
    case _ => t
  }

  /** A field type is supported exactly when what it is built around is a raw message, or the name of a scalar, of a
      hand-written type or of a declared one; how it is built never matters. */
  lemma {:induction false} AcceptsByLeaf(p: Package, t: GoType)
    ensures Accepts(p, t) <==> Leaf(t) == RawMessage ||
                               (Leaf(t).Ident? && (IsScalar(Leaf(t).name) || Leaf(t).name in p.manual + p.types.Keys))
    decreases t
  {
    match t
    case Pointer(e) => AcceptsByLeaf(p, e);
    case Slice(e) => AcceptsByLeaf(p, e);
    case MapOf(e) => AcceptsByLeaf(p, e);
    case Optional(e) => AcceptsByLeaf(p, e);
    case _ =>
  }

  /** The scalars: integers of every width, signed or not, floats and complex numbers of theirs, and the other basic
      types. */
  lemma {:induction false} ScalarsAre(name: string)
    ensures IsScalar(name) <==>
              || name in {"bool", "string", "byte", "rune", "uintptr"}
              || (exists w :: w in {"", "8", "16", "32", "64"} && (name == "int" + w || name == "uint" + w))
              || name == "float" + "32" || name == "float" + "64" || name == "complex" + "64"
                 || name == "complex" + "128"
  {
    var widths := {"", "8", "16", "32", "64"};
    assert "int" + "" == "int" && "uint" + "" == "uint";
    assert "int" + "8" == "int8" && "int" + "16" == "int16" && "int" + "32" == "int32" && "int" + "64" == "int64";
    assert "uint" + "8" == "uint8" && "uint" + "16" == "uint16" && "uint" + "32" == "uint32"
           && "uint" + "64" == "uint64";
    assert "float" + "32" == "float32" && "float" + "64" == "float64";
    assert "complex" + "64" == "complex64" && "complex" + "128" == "complex128";
    assert "" in widths && "8" in widths && "16" in widths && "32" in widths && "64" in widths;
  }

  /** Every field is supported, every variant is a struct, and no name is declared in two ways. */
  ghost predicate Valid(p: Package) {
    && (forall n :: n in p.types ==> !IsScalar(n) && n !in p.manual)
    && (forall n :: n in p.manual ==> !IsScalar(n))
    && (forall n, i :: IsStruct(p, n) && 0 <= i < |p.types[n].fields| ==> Accepts(p, p.types[n].fields[i]))
    && (forall n, v :: IsUnion(p, n) && v in p.types[n].variants ==> IsStruct(p, v))
  }

  predicate NeedsClone(p: Package, t: GoType) {
    match t
    case Ident(name) => name in p.manual || (name in p.types && !p.types[name].EnumDecl?)
    case Pointer(_) => true
    case Slice(_) => true
    case MapOf(_) => true
    case RawMessage => true
    case Optional(e) => NeedsClone(p, e)
    case Unsupported => false
  }

  // ---------------------------------------------------------------- values with addresses

  datatype Value =
    | Scalar(n: int)
    | Text(s: string)
    | Nil
    | Ref(a: nat)
    | Struct(fs: seq<Value>)
    | Absent
    | Null
    | Present(v: Value)
    | Dyn(name: string, v: Value)       // a union holding a variant by value
    | DynPtr(name: string, a: nat)      // a union holding a pointer to a variant
    | DynNil(name: string)              // a union holding a nil pointer of a variant type
    | Opaque(n: int)                    // a hand-written type, with its own Clone
    | Zeroed                            // the zero of a declared type, overwritten before it is read

  datatype Cell = One(v: Value) | Many(vs: seq<Value>) | Table(m: map<string, Value>)

  type Heap = map<nat, Cell>

  /** The address-free shape of an acyclic value. */
  datatype Tree =
    | TScalar(n: int)
    | TNil
    | TPtr(t: Tree)
    | TMany(ts: seq<Tree>)
    | TTable(m: map<string, Tree>)
    | TStruct(ts: seq<Tree>)
    | TAbsent
    | TNull
    | TPresent(t: Tree)
    | TDyn(name: string, t: Tree)
    | TDynPtr(name: string, t: Tree)
    | TDynNil(name: string)
    | TOpaque(n: int)

  /** v has shape t in the heap. */
  ghost predicate Shape(h: Heap, v: Value, t: Tree)
    decreases t
  {
    match t
    case TScalar(n) => v == Scalar(n)
    case TNil => v == Nil
    case TPtr(e) => v.Ref? && v.a in h && h[v.a].One? && Shape(h, h[v.a].v, e)
    case TMany(ts) =>
      v.Ref? && v.a in h && h[v.a].Many? && |h[v.a].vs| == |ts|
      && forall i :: 0 <= i < |ts| ==> Shape(h, h[v.a].vs[i], ts[i])
    case TTable(m) =>
      v.Ref? && v.a in h && h[v.a].Table? && h[v.a].m.Keys == m.Keys
      && forall k :: k in m ==> Shape(h, h[v.a].m[k], m[k])
    case TStruct(ts) => v.Struct? && |v.fs| == |ts| && forall i :: 0 <= i < |ts| ==> Shape(h, v.fs[i], ts[i])
    case TAbsent => v == Absent
    case TNull => v == Null
    case TPresent(e) => v.Present? && Shape(h, v.v, e)
    case TDyn(name, e) => v.Dyn? && v.name == name && Shape(h, v.v, e)
    case TDynPtr(name, e) => v.DynPtr? && v.name == name && v.a in h && h[v.a].One? && Shape(h, h[v.a].v, e)
    case TDynNil(name) => v == DynNil(name)
    case TOpaque(n) => v == Opaque(n)
  }

  /** Every address in v, at any depth, lies in [lo, hi). */
  ghost predicate Within(h: Heap, v: Value, t: Tree, lo: nat, hi: nat)
    requires Shape(h, v, t)
    decreases t
  {
    match t
    case TPtr(e) => lo <= v.a < hi && Within(h, h[v.a].v, e, lo, hi)
    case TMany(ts) => lo <= v.a < hi && forall i :: 0 <= i < |ts| ==> Within(h, h[v.a].vs[i], ts[i], lo, hi)
    case TTable(m) => lo <= v.a < hi && forall k :: k in m ==> Within(h, h[v.a].m[k], m[k], lo, hi)
    case TStruct(ts) => forall i :: 0 <= i < |ts| ==> Within(h, v.fs[i], ts[i], lo, hi)
    case TPresent(e) => Within(h, v.v, e, lo, hi)
    case TDyn(_, e) => Within(h, v.v, e, lo, hi)
    case TDynPtr(_, e) => lo <= v.a < hi && Within(h, h[v.a].v, e, lo, hi)
    case _ => true
  }

  ghost predicate HasType(p: Package, ty: GoType, t: Tree)
    decreases t, 1
  {
    match ty
    case Ident(name) =>
      if IsScalar(name) then t.TScalar?
      else if name in p.manual then t.TOpaque?
      else if name !in p.types then false
      else HasDecl(p, p.types[name], t)
    case Pointer(e) => t.TNil? || (t.TPtr? && HasType(p, e, t.t))
    case Slice(e) => t.TNil? || (t.TMany? && forall i :: 0 <= i < |t.ts| ==> HasType(p, e, t.ts[i]))
    case MapOf(e) => t.TNil? || (t.TTable? && forall k :: k in t.m ==> HasType(p, e, t.m[k]))
    case RawMessage => t.TNil? || (t.TMany? && forall i :: 0 <= i < |t.ts| ==> t.ts[i].TScalar?)
    case Optional(e) => t.TAbsent? || t.TNull? || (t.TPresent? && HasType(p, e, t.t))
    case Unsupported => false
  }

  ghost predicate HasDecl(p: Package, d: Decl, t: Tree)
    decreases t, 0
  {
    match d
    case EnumDecl => t.TScalar?
    case StructDecl(fields, _) =>
      t.TStruct? && |t.ts| == |fields| && forall i :: 0 <= i < |t.ts| ==> HasType(p, fields[i], t.ts[i])
    case UnionDecl(variants) =>
      || t.TNil?
      || (t.TDynNil? && t.name in variants)
      || ((t.TDyn? || t.TDynPtr?) && t.name in variants && IsStruct(p, t.name) && HasType(p, Ident(t.name), t.t))
  }

  // ---------------------------------------------------------------- emitted statements

  datatype Name = Out | Receiver | Tmp(prefix: string, n: nat)

  datatype Place = Var(x: Name) | Sel(of: Place, i: nat) | Deref(of: Place) | At(of: Place, x: Name)

  datatype Stmt =
    | Skip
    | Seq(first: Stmt, second: Stmt)
    | Assign(dst: Place, src: Place)                    // dst = src
    | CallClone(dst: Place, src: Place, name: string)   // dst = src.Clone()
    | CallUnion(dst: Place, src: Place, name: string)   // dst = cloneName(src)
    | IfNotNil(src: Place, body: Stmt)                  // if src != nil { body }
    | New(dst: Place, elem: GoType)                     // dst = new(elem)
    | MakeSlice(dst: Place, elem: GoType, src: Place)   // dst = make([]elem, len(src))
    | MakeMap(dst: Place, src: Place)                   // dst = make(map[string]elem, len(src))
    | CopyElems(dst: Place, src: Place)                 // copy(dst, src)
    | RangeSlice(index: Name, src: Place, body: Stmt)   // for index := range src { body }
    | RangeMap(key: Name, value: Name, src: Place, body: Stmt)
    | SetKey(dst: Place, key: Name, value: Name)        // dst[key] = value
    | Declare(x: Name, ty: GoType)                      // var x ty
    | IfGet(value: Name, ok: Name, src: Place, body: Stmt) // if value, ok := src.Get(); ok { body }
    | SetSome(dst: Place, x: Name)                      // dst = Some(x)

  /** The statements that copy one value, and the next free variable number. */
  function EmitAssign(p: Package, t: GoType, dst: Place, src: Place, nv: nat): (r: (Stmt, nat))
    ensures r.1 >= nv
    decreases t
  {
    match t
    case Ident(name) =>
      if IsUnion(p, name) then (CallUnion(dst, src, name), nv)
      else if name in p.manual || IsStruct(p, name) then (CallClone(dst, src, name), nv)
      else (Assign(dst, src), nv)
    case Pointer(e) =>
      var (body, n) := EmitAssign(p, e, Deref(dst), Deref(src), nv);
      (IfNotNil(src, Seq(New(dst, e), body)), n)
    case Slice(e) =>
      if !NeedsClone(p, e) then (IfNotNil(src, Seq(MakeSlice(dst, e, src), CopyElems(dst, src))), nv)
      else
        var index := Tmp("i", nv + 1);
        var (body, n) := EmitAssign(p, e, At(dst, index), At(src, index), nv + 1);
        (IfNotNil(src, Seq(MakeSlice(dst, e, src), RangeSlice(index, src, body))), n)
    case MapOf(e) =>
      var key, value := Tmp("key", nv + 1), Tmp("value", nv + 2);
      if !NeedsClone(p, e) then
        (IfNotNil(src, Seq(MakeMap(dst, src), RangeMap(key, value, src, SetKey(dst, key, value)))), nv + 2)
      else
        var cloned := Tmp("cloned", nv + 3);
        var (body, n) := EmitAssign(p, e, Var(cloned), Var(value), nv + 3);
        (IfNotNil(src, Seq(MakeMap(dst, src), RangeMap(key, value, src,
          Seq(Declare(cloned, e), Seq(body, SetKey(dst, key, cloned)))))), n)
    case RawMessage => (IfNotNil(src, Seq(MakeSlice(dst, Ident("byte"), src), CopyElems(dst, src))), nv)
    case Optional(e) =>
      var value, ok, cloned := Tmp("value", nv + 1), Tmp("ok", nv + 2), Tmp("cloned", nv + 3);
      var (body, n) := EmitAssign(p, e, Var(cloned), Var(value), nv + 3);
      (IfGet(value, ok, src, Seq(Declare(cloned, e), Seq(body, SetSome(dst, cloned)))), n)
    case Unsupported => (Skip, nv)
  }

  /** The body of Clone after out := v, for the fields from i on. */
  function EmitFields(p: Package, fields: seq<GoType>, i: nat, nv: nat): Stmt
    requires i <= |fields|
    decreases |fields| - i
  {
    if i == |fields| then Skip
    else if !NeedsClone(p, fields[i]) then EmitFields(p, fields, i + 1, nv)
    else
      var (s, n) := EmitAssign(p, fields[i], Sel(Var(Out), i), Sel(Var(Receiver), i), nv);
      Seq(s, EmitFields(p, fields, i + 1, n))
  }

  // ---------------------------------------------------------------- running statements

  datatype State = State(vars: map<Name, Value>, heap: Heap, next: nat)

  ghost predicate Sound(st: State) {
    forall a: nat :: a in st.heap <==> a < st.next
  }

  function Zero(p: Package, t: GoType): Value {
    match t
    case Ident(name) =>
      if IsUnion(p, name) then Nil else if name in p.manual || IsStruct(p, name) then Zeroed else Scalar(0)
    case Optional(_) => Absent
    case _ => Nil
  }

  function Read(st: State, pl: Place): Option<Value> {
    match pl
    case Var(x) => if x in st.vars then Some(st.vars[x]) else None
    case Sel(q, i) =>
      var v := Read(st, q);
      if v.Some? && v.value.Struct? && i < |v.value.fs| then Some(v.value.fs[i]) else None
    case Deref(q) =>
      var v := Read(st, q);
      if v.Some? && v.value.Ref? && v.value.a in st.heap && st.heap[v.value.a].One? then Some(st.heap[v.value.a].v)
      else None
    case At(q, x) =>
      var v := Read(st, q);
      if v.Some? && v.value.Ref? && v.value.a in st.heap && st.heap[v.value.a].Many? && x in st.vars
        && st.vars[x].Scalar?
         && 0 <= st.vars[x].n < |st.heap[v.value.a].vs|
      then Some(st.heap[v.value.a].vs[st.vars[x].n]) else None
  }

  function Write(st: State, pl: Place, w: Value): Option<State> {
    match pl
    case Var(x) => Some(st.(vars := st.vars[x := w]))
    case Sel(q, i) =>
      var v := Read(st, q);
      if v.Some? && v.value.Struct? && i < |v.value.fs| then Write(st, q, Struct(v.value.fs[i := w])) else None
    case Deref(q) =>
      if Read(st, pl).None? then None
      else var a := Read(st, q).value.a; Some(st.(heap := st.heap[a := One(w)]))
    case At(q, x) =>
      if Read(st, pl).None? then None
      else
        var a := Read(st, q).value.a;
        Some(st.(heap := st.heap[a := Many(st.heap[a].vs[st.vars[x].n := w])]))
  }

  function Alloc(st: State, c: Cell): State {
    st.(heap := st.heap[st.next := c], next := st.next + 1)
  }

  function Deep(st: State, pl: Place): Option<Cell> {
    var v := Read(st, pl);
    if v.Some? && v.value.Ref? && v.value.a in st.heap then Some(st.heap[v.value.a]) else None
  }

  /** Each key once. */
  ghost predicate Lists(ks: seq<string>, keys: set<string>) {
    |ks| == |keys| && (set k | k in ks) == keys
  }

  /** The order in which a map is ranged over. */
  ghost function Order(p: Package, st: State, keys: set<string>): seq<string> {
    if Lists(p.ranges(st, keys), keys) then p.ranges(st, keys) else Listed(keys)
  }

  ghost function Listed(keys: set<string>): seq<string> {
    if keys == {} then [] else [Pick(keys)] + Listed(keys - {Pick(keys)})
  }

  ghost function Pick(keys: set<string>): (k: string)
    requires keys != {}
    ensures k in keys
  {
    var k :| k in keys; k
  }

  /** Runs a statement; None is a panic, an ill-typed operation, or calls nested deeper than fuel. */
  ghost function Exec(p: Package, fuel: nat, s: Stmt, st: State): Option<State>
    decreases 2 * fuel, s, 0
  {
    match s
    case Skip => Some(st)
    case Seq(a, b) =>
      var r := Exec(p, fuel, a, st);
      if r.Some? then Exec(p, fuel, b, r.value) else None
    case Assign(dst, src) =>
      var v := Read(st, src);
      if v.Some? then Write(st, dst, v.value) else None
    case CallClone(dst, src, name) =>
      var v := Read(st, src);
      if v.None? then None
      else if name in p.manual then Write(st, dst, v.value)
      else if fuel == 0 || !IsStruct(p, name) then None
      else
        var r := CallMethod(p, fuel - 1, name, v.value, st);
        if r.Some? then Write(st.(heap := r.value.1.heap, next := r.value.1.next), dst, r.value.0) else None
    case CallUnion(dst, src, name) =>
      var v := Read(st, src);
      if v.None? || fuel == 0 then None
      else
        var r := CallVariant(p, fuel - 1, name, v.value, st);
        if r.Some? then Write(st.(heap := r.value.1.heap, next := r.value.1.next), dst, r.value.0) else None
    case IfNotNil(src, body) =>
      var v := Read(st, src);
      if v.None? then None else if v.value.Nil? then Some(st) else Exec(p, fuel, body, st)
    case New(dst, e) => Write(Alloc(st, One(Zero(p, e))), dst, Ref(st.next))
    case MakeSlice(dst, e, src) =>
      var c := Deep(st, src);
      if c.None? || !c.value.Many? then None
      else Write(Alloc(st, Many(seq(|c.value.vs|, i => Zero(p, e)))), dst, Ref(st.next))
    case MakeMap(dst, src) => Write(Alloc(st, Table(map[])), dst, Ref(st.next))
    case CopyElems(dst, src) =>
      var c, d := Deep(st, src), Deep(st, dst);
      if c.None? || !c.value.Many? || d.None? || !d.value.Many? || |c.value.vs| != |d.value.vs| then None
      else Some(st.(heap := st.heap[Read(st, dst).value.a := c.value]))
    case RangeSlice(index, src, body) =>
      var c := Deep(st, src);
      if c.None? || !c.value.Many? then None else LoopSlice(p, fuel, index, body, 0, |c.value.vs|, st)
    case RangeMap(key, value, src, body) =>
      var c := Deep(st, src);
      if c.None? || !c.value.Table? then None
      else LoopMap(p, fuel, key, value, body, c.value.m, Order(p, st, c.value.m.Keys), st)
    case SetKey(dst, key, value) =>
      var d := Deep(st, dst);
      if d.None? || !d.value.Table? || key !in st.vars || !st.vars[key].Text? || value !in st.vars then None
      else Some(st.(heap := st.heap[Read(st, dst).value.a := Table(d.value.m[st.vars[key].s := st.vars[value]])]))
    case Declare(x, t) => Some(st.(vars := st.vars[x := Zero(p, t)]))
    case IfGet(value, ok, src, body) =>
      var v := Read(st, src);
      if v.None? then None
      else if v.value.Present? then Exec(p, fuel, body, st.(vars := st.vars[value := v.value.v][ok := Scalar(1)]))
      else if v.value.Absent? || v.value.Null? then Some(st)
      else None
    case SetSome(dst, x) => if x in st.vars then Write(st, dst, Present(st.vars[x])) else None
  }

  ghost function LoopSlice(p: Package, fuel: nat, index: Name, body: Stmt, k: nat, n: nat, st: State): Option<State>
    requires k <= n
    decreases 2 * fuel, body, n - k + 1
  {
    if k == n then Some(st)
    else
      var r := Exec(p, fuel, body, st.(vars := st.vars[index := Scalar(k)]));
      if r.Some? then LoopSlice(p, fuel, index, body, k + 1, n, r.value) else None
  }

  ghost function LoopMap(p: Package, fuel: nat, key: Name, value: Name, body: Stmt, m: map<string, Value>,
                         ks: seq<string>, st: State): Option<State>
    decreases 2 * fuel, body, |ks| + 1
  {
    if ks == [] then Some(st)
    else if ks[0] !in m then None
    else
      var r := Exec(p, fuel, body, st.(vars := st.vars[key := Text(ks[0])][value := m[ks[0]]]));
      if r.Some? then LoopMap(p, fuel, key, value, body, m, ks[1..], r.value) else None
  }

  /** v.Clone() on a struct: out := v, the emitted fields, return out. */
  ghost function CallMethod(p: Package, fuel: nat, name: string, v: Value, st: State): Option<(Value, State)>
    requires IsStruct(p, name)
    decreases 2 * fuel + 1, Skip, 0
  {
    var r := Exec(p, fuel, EmitFields(p, p.types[name].fields, 0, 0), st.(vars := map[Receiver := v, Out := v]));
    if r.Some? && Out in r.value.vars then Some((r.value.vars[Out], r.value)) else None
  }

  /** The type switch of a union's clone function. */
  ghost function CallVariant(p: Package, fuel: nat, name: string, v: Value, st: State): Option<(Value, State)>
    decreases 2 * fuel + 1, Skip, 1
  {
    if !IsUnion(p, name) then None
    else if v.Nil? then Some((Nil, st))
    else if !(v.Dyn? || v.DynPtr? || v.DynNil?) || v.name !in p.types[name].variants || !IsStruct(p, v.name) then None
    else if v.DynNil? then Some((v, st))
    else if v.Dyn? then
      var r := CallMethod(p, fuel, v.name, v.v, st);
      if r.Some? then Some((Dyn(v.name, r.value.0), r.value.1)) else None
    else if v.a !in st.heap || !st.heap[v.a].One? then None
    else
      var r := CallMethod(p, fuel, v.name, st.heap[v.a].v, st);
      if r.Some? then Some((DynPtr(v.name, r.value.1.next), Alloc(r.value.1, One(r.value.0)))) else None
  }
}
