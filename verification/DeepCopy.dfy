/** Clone as its callers see it: a copy that shares nothing with the original, and when it is an exact one. */
module DeepCopy {
  import opened Wrappers
  import opened CopyCompiler
  import opened CopyCorrect

  // ---------------------------------------------------------------- every acyclic value is copied

  lemma {:induction false} SomeDepth(t: Tree) returns (n: nat)
    ensures Fits(t, n)
    decreases t, 1, 0
  {
    match t
    case TPtr(e) => n := SomeDepth(e); n := n + 1;
    case TMany(ts) => n := SomeDepthOfAll(t, ts, 0); n := n + 1;
    case TTable(m) => n := SomeDepthOfTable(t, m, m.Keys); n := n + 1;
    case TStruct(ts) => n := SomeDepthOfAll(t, ts, 0); n := n + 1;
    case TPresent(e) => n := SomeDepth(e); n := n + 1;
    case TDyn(_, e) => n := SomeDepth(e); n := n + 1;
    case TDynPtr(_, e) => n := SomeDepth(e); n := n + 1;
    case _ => n := 1;
  }

  lemma {:induction false} SomeDepthOfAll(t: Tree, ts: seq<Tree>, from: nat) returns (n: nat)
    requires (t.TMany? || t.TStruct?) && t.ts == ts && from <= |ts|
    ensures forall i :: from <= i < |ts| ==> Fits(ts[i], n)
    decreases t, 0, |ts| - from
  {
    if from == |ts| {
      n := 0;
    } else {
      var a := SomeDepth(ts[from]);
      var b := SomeDepthOfAll(t, ts, from + 1);
      n := a + b;
      FitsMore(ts[from], a, n);
      forall i | from < i < |ts| ensures Fits(ts[i], n) { FitsMore(ts[i], b, n); }
    }
  }

  lemma {:induction false} SomeDepthOfTable(t: Tree, m: map<string, Tree>, keys: set<string>) returns (n: nat)
    requires t.TTable? && t.m == m && keys <= m.Keys
    ensures forall k :: k in keys ==> Fits(m[k], n)
    decreases t, 0, |keys|
  {
    if keys == {} {
      n := 0;
    } else {
      var k := Pick(keys);
      var a := SomeDepth(m[k]);
      var b := SomeDepthOfTable(t, m, keys - {k});
      n := a + b;
      forall j | j in keys ensures Fits(m[j], n) {
        if j == k { FitsMore(m[k], a, n); } else { FitsMore(m[j], b, n); }
      }
    }
  }

  /** Every address of a value is allocated. */
  lemma {:induction false} ShapeAllocated(st: State, v: Value, t: Tree)
    requires Sound(st) && Shape(st.heap, v, t)
    ensures Within(st.heap, v, t, 0, st.next)
    decreases t
  {
    match t
    case TPtr(e) => ShapeAllocated(st, st.heap[v.a].v, e);
    case TMany(ts) =>
      forall i | 0 <= i < |ts| ensures Within(st.heap, st.heap[v.a].vs[i], ts[i], 0, st.next) {
        ShapeAllocated(st, st.heap[v.a].vs[i], ts[i]);
      }
    case TTable(m) =>
      forall k | k in m ensures Within(st.heap, st.heap[v.a].m[k], m[k], 0, st.next) {
        ShapeAllocated(st, st.heap[v.a].m[k], m[k]);
      }
    case TStruct(ts) =>
      forall i | 0 <= i < |ts| ensures Within(st.heap, v.fs[i], ts[i], 0, st.next) {
        ShapeAllocated(st, v.fs[i], ts[i]);
      }
    case TPresent(e) => ShapeAllocated(st, v.v, e);
    case TDyn(_, e) => ShapeAllocated(st, v.v, e);
    case TDynPtr(_, e) => ShapeAllocated(st, st.heap[v.a].v, e);
    case _ =>
  }

  /** Clone never panics, changes no existing cell, and returns the copied shape made of new cells only. */
  lemma {:induction false} CloneIsDeepCopy(p: Package, fuel: nat, name: string, v: Value, t: Tree, st: State)
    returns (w: Value, su: State)
    requires Valid(p) && IsStruct(p, name) && HasType(p, Ident(name), t)
    requires Sound(st) && Shape(st.heap, v, t) && Fits(t, fuel + 1)
    ensures CallMethod(p, fuel, name, v, st) == Some((w, su))
    ensures forall a :: a in st.heap ==> a in su.heap && su.heap[a] == st.heap[a]
    ensures Shape(su.heap, w, Copied(p, Ident(name), t, false))
    ensures Within(su.heap, w, Copied(p, Ident(name), t, false), st.next, su.next)
    ensures Shape(su.heap, v, t) && Within(su.heap, v, t, 0, st.next)
  {
    hide CallMethod, Shape, Within, Fits, HasType, Copied;
    ShapeAllocated(st, v, t);
    StructShape(p, name, t);
    w, su := MethodOk(p, fuel, name, v, t, st);
    ShapeFrame(st.heap, su.heap, v, t, 0, st.next);
  }

  /** Whatever is later written to one of the two, to cells it owns or to new ones, the other keeps its value. */
  lemma {:induction false} CloneIsIsolated(p: Package, fuel: nat, name: string, v: Value, t: Tree, st: State,
                                           after: Heap)
    requires Valid(p) && IsStruct(p, name) && HasType(p, Ident(name), t)
    requires Sound(st) && Shape(st.heap, v, t) && Fits(t, fuel + 1)
    ensures var r := CallMethod(p, fuel, name, v, st);
            && r.Some?
            && ((forall a: nat :: a < st.next ==> a in after && a in r.value.1.heap && after[a] == r.value.1.heap[a])
                ==> Shape(after, v, t))
            && ((forall a: nat :: st.next <= a < r.value.1.next ==>
                   a in after && a in r.value.1.heap && after[a] == r.value.1.heap[a])
                ==> Shape(after, r.value.0, Copied(p, Ident(name), t, false)))
  {
    hide CallMethod, Shape, Within, Fits, HasType, Copied;
    var w, su := CloneIsDeepCopy(p, fuel, name, v, t, st);
    if forall a: nat :: a < st.next ==> a in after && after[a] == su.heap[a] {
      ShapeFrame(su.heap, after, v, t, 0, st.next);
    }
    if forall a: nat :: st.next <= a < su.next ==> a in after && a in su.heap && after[a] == su.heap[a] {
      ShapeFrame(su.heap, after, w, Copied(p, Ident(name), t, false), st.next, su.next);
    }
  }

  // ---------------------------------------------------------------- when the copy is exact

  /** Somewhere in the value an explicit null stands where the copy starts from a fresh zero: directly under a pointer
      or a present Optional, or as an element of a slice or map that is copied element by element. */
  ghost predicate LosesNull(p: Package, ty: GoType, t: Tree, zeroed: bool)
    requires HasType(p, ty, t)
    decreases t, 0
  {
    match ty
    case Ident(name) =>
      assert !IsScalar(name) && name !in p.manual ==> HasDecl(p, p.types[name], t);
      if IsScalar(name) || name in p.manual then false
      else if IsStruct(p, name) then
        exists i :: 0 <= i < |t.ts| && FieldLosesNull(p, p.types[name].fields[i], t.ts[i])
      else IsUnion(p, name) && (t.TDyn? || t.TDynPtr?) && LosesNull(p, Ident(t.name), t.t, false)
    case Pointer(e) => t.TPtr? && LosesNull(p, e, t.t, true)
    case Slice(e) => t.TMany? && NeedsClone(p, e) && exists i :: 0 <= i < |t.ts| && LosesNull(p, e, t.ts[i], true)
    case MapOf(e) => t.TTable? && NeedsClone(p, e) && exists k :: k in t.m && LosesNull(p, e, t.m[k], true)
    case RawMessage => false
    case Optional(e) => (t.TNull? && zeroed) || (t.TPresent? && LosesNull(p, e, t.t, true))
    case Unsupported => false
  }

  ghost predicate FieldLosesNull(p: Package, ty: GoType, t: Tree)
    requires HasType(p, ty, t)
    decreases t, 1
  {
    NeedsClone(p, ty) && LosesNull(p, ty, t, false)
  }

  /** The copy has the shape of the original exactly when no null is lost. */
  lemma {:induction false} ExactIffNoNullLost(p: Package, ty: GoType, t: Tree, zeroed: bool)
    requires HasType(p, ty, t)
    ensures Copied(p, ty, t, zeroed) == t <==> !LosesNull(p, ty, t, zeroed)
    decreases t, 0
  {
    match ty
    case Ident(name) => ExactNamed(p, name, t, zeroed);
    case Pointer(e) => if t.TPtr? { ExactIffNoNullLost(p, e, t.t, true); }
    case Slice(e) =>
      if t.TMany? && NeedsClone(p, e) { ExactElems(p, e, t, zeroed); }
    case MapOf(e) =>
      if t.TTable? && NeedsClone(p, e) { ExactTable(p, e, t, zeroed); }
    case RawMessage =>
    case Optional(e) => if t.TPresent? { ExactIffNoNullLost(p, e, t.t, true); }
    case Unsupported =>
  }

  lemma {:induction false} ExactNamed(p: Package, name: string, t: Tree, zeroed: bool)
    requires HasType(p, Ident(name), t)
    ensures Copied(p, Ident(name), t, zeroed) == t <==> !LosesNull(p, Ident(name), t, zeroed)
    decreases t, 0, 1
  {
    if !IsScalar(name) && name !in p.manual {
      assert HasDecl(p, p.types[name], t);
      if IsStruct(p, name) {
        ExactStruct(p, name, t, zeroed);
      } else if IsUnion(p, name) && (t.TDyn? || t.TDynPtr?) {
        ExactIffNoNullLost(p, Ident(t.name), t.t, false);
      }
    }
  }

  lemma {:induction false} ExactStruct(p: Package, name: string, t: Tree, zeroed: bool)
    requires HasType(p, Ident(name), t) && IsStruct(p, name) && !IsScalar(name) && name !in p.manual
    ensures Copied(p, Ident(name), t, zeroed) == t <==> !LosesNull(p, Ident(name), t, zeroed)
    decreases t, 0, 0
  {
    assert HasDecl(p, p.types[name], t);
    var fields := p.types[name].fields;
    var c := Copied(p, Ident(name), t, zeroed);
    forall i | 0 <= i < |t.ts| ensures c.ts[i] == t.ts[i] <==> !FieldLosesNull(p, fields[i], t.ts[i]) {
      assert c.ts[i] == CopiedField(p, fields[i], t.ts[i]);
      if NeedsClone(p, fields[i]) { ExactIffNoNullLost(p, fields[i], t.ts[i], false); }
    }
    if !LosesNull(p, Ident(name), t, zeroed) {
      assert c.ts == t.ts;
    }
  }

  lemma {:induction false} ExactElems(p: Package, e: GoType, t: Tree, zeroed: bool)
    requires t.TMany? && NeedsClone(p, e) && HasType(p, Slice(e), t)
    ensures Copied(p, Slice(e), t, zeroed) == t <==> !LosesNull(p, Slice(e), t, zeroed)
    decreases t, 0, 0
  {
    var c := Copied(p, Slice(e), t, zeroed);
    forall i | 0 <= i < |t.ts| ensures c.ts[i] == t.ts[i] <==> !LosesNull(p, e, t.ts[i], true) {
      ExactIffNoNullLost(p, e, t.ts[i], true);
    }
    if !LosesNull(p, Slice(e), t, zeroed) {
      assert c.ts == t.ts;
    }
  }

  lemma {:induction false} ExactTable(p: Package, e: GoType, t: Tree, zeroed: bool)
    requires t.TTable? && NeedsClone(p, e) && HasType(p, MapOf(e), t)
    ensures Copied(p, MapOf(e), t, zeroed) == t <==> !LosesNull(p, MapOf(e), t, zeroed)
    decreases t, 0, 0
  {
    var c := Copied(p, MapOf(e), t, zeroed);
    forall k | k in t.m ensures c.m[k] == t.m[k] <==> !LosesNull(p, e, t.m[k], true) {
      ExactIffNoNullLost(p, e, t.m[k], true);
    }
    if !LosesNull(p, MapOf(e), t, zeroed) {
      assert c.m == t.m;
    }
  }

  // ---------------------------------------------------------------- schemas that lose nothing

  /** No Optional in the type is copied into a fresh zero. */
  predicate NullSafe(p: Package, ty: GoType, zeroed: bool) {
    match ty
    case Ident(_) => true
    case Pointer(e) => NullSafe(p, e, true)
    case Slice(e) => NeedsClone(p, e) ==> NullSafe(p, e, true)
    case MapOf(e) => NeedsClone(p, e) ==> NullSafe(p, e, true)
    case RawMessage => true
    case Optional(e) => !zeroed && NullSafe(p, e, true)
    case Unsupported => true
  }

  ghost predicate SafeField(p: Package, ty: GoType) {
    NeedsClone(p, ty) ==> NullSafe(p, ty, false)
  }

  ghost predicate SafeSchema(p: Package) {
    forall n, i :: IsStruct(p, n) && 0 <= i < |p.types[n].fields| ==> SafeField(p, p.types[n].fields[i])
  }

  /** Every value of the field type comes out as it went in. */
  ghost predicate ExactField(p: Package, ty: GoType) {
    forall t :: HasType(p, ty, t) ==> CopiedField(p, ty, t) == t
  }

  /** Whether copies are exact can be read off the schema. */
  lemma {:induction false} ExactIffSafeSchema(p: Package)
    requires Valid(p)
    ensures SafeSchema(p) <==>
              forall n, i :: IsStruct(p, n) && 0 <= i < |p.types[n].fields| ==> ExactField(p, p.types[n].fields[i])
  {
    forall n, i | IsStruct(p, n) && 0 <= i < |p.types[n].fields|
      ensures SafeSchema(p) ==> ExactField(p, p.types[n].fields[i])
      ensures ExactField(p, p.types[n].fields[i]) ==> SafeField(p, p.types[n].fields[i])
    {
      var ty := p.types[n].fields[i];
      if SafeSchema(p) {
        forall t | HasType(p, ty, t) ensures CopiedField(p, ty, t) == t { SafeFieldExact(p, ty, t); }
      }
      if !SafeField(p, ty) {
        var t := UnsafeWitness(p, ty, false);
        ExactIffNoNullLost(p, ty, t, false);
        assert CopiedField(p, ty, t) != t;
      }
    }
  }

  lemma {:induction false} SafeFieldExact(p: Package, ty: GoType, t: Tree)
    requires SafeSchema(p) && SafeField(p, ty) && HasType(p, ty, t)
    ensures CopiedField(p, ty, t) == t
  {
    if NeedsClone(p, ty) {
      SafeLosesNothing(p, ty, t, false);
      ExactIffNoNullLost(p, ty, t, false);
    }
  }

  lemma {:induction false} SafeLosesNothing(p: Package, ty: GoType, t: Tree, zeroed: bool)
    requires SafeSchema(p) && NullSafe(p, ty, zeroed) && HasType(p, ty, t)
    ensures !LosesNull(p, ty, t, zeroed)
    decreases t
  {
    match ty
    case Ident(name) =>
      if !IsScalar(name) && name !in p.manual {
        assert HasDecl(p, p.types[name], t);
        if IsStruct(p, name) {
          var fields := p.types[name].fields;
          forall i | 0 <= i < |t.ts| ensures !FieldLosesNull(p, fields[i], t.ts[i]) {
            assert SafeField(p, fields[i]);
            if NeedsClone(p, fields[i]) { SafeLosesNothing(p, fields[i], t.ts[i], false); }
          }
        } else if IsUnion(p, name) && (t.TDyn? || t.TDynPtr?) {
          SafeLosesNothing(p, Ident(t.name), t.t, false);
        }
      }
    case Pointer(e) => if t.TPtr? { SafeLosesNothing(p, e, t.t, true); }
    case Slice(e) =>
      if t.TMany? && NeedsClone(p, e) {
        forall i | 0 <= i < |t.ts| ensures !LosesNull(p, e, t.ts[i], true) { SafeLosesNothing(p, e, t.ts[i], true); }
      }
    case MapOf(e) =>
      if t.TTable? && NeedsClone(p, e) {
        forall k | k in t.m ensures !LosesNull(p, e, t.m[k], true) { SafeLosesNothing(p, e, t.m[k], true); }
      }
    case RawMessage =>
    case Optional(e) => if t.TPresent? { SafeLosesNothing(p, e, t.t, true); }
    case Unsupported =>
  }

  /** An unsafe type has a value whose copy differs. */
  lemma {:induction false} UnsafeWitness(p: Package, ty: GoType, zeroed: bool) returns (t: Tree)
    requires !NullSafe(p, ty, zeroed)
    ensures HasType(p, ty, t) && LosesNull(p, ty, t, zeroed)
    decreases ty
  {
    match ty
    case Pointer(e) =>
      var w := UnsafeWitness(p, e, true);
      t := TPtr(w);
    case Slice(e) =>
      var w := UnsafeWitness(p, e, true);
      t := TMany([w]);
      assert LosesNull(p, e, t.ts[0], true);
    case MapOf(e) =>
      var w := UnsafeWitness(p, e, true);
      t := TTable(map["" := w]);
      assert LosesNull(p, e, t.m[""], true);
    case Optional(e) =>
      if zeroed {
        t := TNull;
      } else {
        var w := UnsafeWitness(p, e, true);
        t := TPresent(w);
      }
  }

  /** A pointer to an explicit null: the copy points to an absent value. */
  lemma {:induction false} LostNull() returns (p: Package, st: State, v: Value, w: Value, su: State)
    ensures Valid(p) && IsStruct(p, "Holder") && p.types["Holder"].fields == [Pointer(Optional(Ident("string")))]
    ensures Sound(st) && v == Struct([Ref(0)]) && 0 in st.heap && st.heap[0] == One(Null)
    ensures CallMethod(p, 2, "Holder", v, st) == Some((w, su))
    ensures exists a :: a in su.heap && w == Struct([Ref(a)]) && su.heap[a] == One(Absent)
  {
    hide CallMethod, Within, HasType, Copied;
    p, st, v := Holder(), State(map[], map[0 := One(Null)], 1), Struct([Ref(0)]);
    var t := TStruct([TPtr(TNull)]);
    HolderTyped(st, t);
    w, su := CloneIsDeepCopy(p, 2, "Holder", v, t, st);
    HolderCopied(t);
    assert Shape(su.heap, w.fs[0], TPtr(TAbsent)) by { FirstField(su.heap, w, [TPtr(TAbsent)]); }
    assert w == Struct([Ref(w.fs[0].a)]);
  }

  function Holder(): Package {
    Package(map["Holder" := StructDecl([Pointer(Optional(Ident("string")))], ["Value"])], {}, (_, _) => [])
  }

  lemma {:induction false} HolderTyped(st: State, t: Tree)
    requires st.heap == map[0 := One(Null)] && t == TStruct([TPtr(TNull)])
    ensures Valid(Holder()) && HasType(Holder(), Ident("Holder"), t) && Shape(st.heap, Struct([Ref(0)]), t)
            && Fits(t, 3)
  {
    var field := Pointer(Optional(Ident("string")));
    assert Accepts(Holder(), field) && HasType(Holder(), field, TPtr(TNull));
    assert HasDecl(Holder(), Holder().types["Holder"], t);
    assert Shape(st.heap, Ref(0), TPtr(TNull));
    assert Fits(TPtr(TNull), 2);
  }

  lemma {:induction false} HolderCopied(t: Tree)
    requires t == TStruct([TPtr(TNull)]) && HasType(Holder(), Ident("Holder"), t)
    ensures Copied(Holder(), Ident("Holder"), t, false) == TStruct([TPtr(TAbsent)])
  {
    var field := Pointer(Optional(Ident("string")));
    assert HasDecl(Holder(), Holder().types["Holder"], t);
    assert CopiedField(Holder(), field, TPtr(TNull)) == TPtr(TAbsent);
    assert Copied(Holder(), Ident("Holder"), t, false).ts == [TPtr(TAbsent)];
  }

  lemma {:induction false} FirstField(h: Heap, w: Value, ts: seq<Tree>)
    requires |ts| == 1 && Shape(h, w, TStruct(ts))
    ensures w.Struct? && |w.fs| == 1 && Shape(h, w.fs[0], ts[0])
  {
  }
}
