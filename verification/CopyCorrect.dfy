/** The emitted Clone is a deep copy: what it keeps, what it loses, and that nothing it returns is shared. */
module CopyCorrect {
  import opened Wrappers
  import opened CopyCompiler

  /** The shape of a copy. Only an explicit null can be lost: an Optional that is copied into a fresh zero, because it
      sits under a pointer, slice, map or Optional, comes out absent, since nothing is emitted for the null case. */
  ghost function Copied(p: Package, ty: GoType, t: Tree, zeroed: bool): Tree
    requires HasType(p, ty, t)
    decreases t, 0
  {
    match ty
    case Ident(name) =>
      assert !IsScalar(name) && name !in p.manual ==> HasDecl(p, p.types[name], t);
      if IsScalar(name) || name in p.manual then t
      else if IsStruct(p, name) then
        TStruct(seq(|t.ts|, i requires 0 <= i < |t.ts| => CopiedField(p, p.types[name].fields[i], t.ts[i])))
      else if IsUnion(p, name) && t.TDyn? then TDyn(t.name, Copied(p, Ident(t.name), t.t, false))
      else if IsUnion(p, name) && t.TDynPtr? then TDynPtr(t.name, Copied(p, Ident(t.name), t.t, false))
      else t
    case Pointer(e) => if t.TNil? then t else TPtr(Copied(p, e, t.t, true))
    case Slice(e) =>
      if t.TNil? || !NeedsClone(p, e) then t
      else TMany(seq(|t.ts|, i requires 0 <= i < |t.ts| => Copied(p, e, t.ts[i], true)))
    case MapOf(e) =>
      if t.TNil? || !NeedsClone(p, e) then t
      else TTable(map k | k in t.m :: Copied(p, e, t.m[k], true))
    case RawMessage => t
    case Optional(e) =>
      if t.TPresent? then TPresent(Copied(p, e, t.t, true))
      else if t.TNull? && zeroed then TAbsent
      else t
    case Unsupported => t
  }

  ghost function CopiedField(p: Package, ty: GoType, t: Tree): Tree
    requires HasType(p, ty, t)
    decreases t, 1
  {
    if NeedsClone(p, ty) then Copied(p, ty, t, false) else t
  }

  /** Calls of Clone nest no deeper than n in a copy of t. */
  ghost predicate Fits(t: Tree, n: nat)
    decreases t
  {
    n > 0 &&
    match t
    case TPtr(e) => Fits(e, n - 1)
    case TMany(ts) => forall i :: 0 <= i < |ts| ==> Fits(ts[i], n - 1)
    case TTable(m) => forall k :: k in m ==> Fits(m[k], n - 1)
    case TStruct(ts) => forall i :: 0 <= i < |ts| ==> Fits(ts[i], n - 1)
    case TPresent(e) => Fits(e, n - 1)
    case TDyn(_, e) => Fits(e, n - 1)
    case TDynPtr(_, e) => Fits(e, n - 1)
    case _ => true
  }

  lemma {:induction false} FitsMore(t: Tree, n: nat, m: nat)
    requires Fits(t, n) && n <= m
    ensures Fits(t, m)
    decreases t
  {
    match t
    case TPtr(e) => FitsMore(e, n - 1, m - 1);
    case TMany(ts) => forall i | 0 <= i < |ts| ensures Fits(ts[i], m - 1) { FitsMore(ts[i], n - 1, m - 1); }
    case TTable(tm) => forall k | k in tm ensures Fits(tm[k], m - 1) { FitsMore(tm[k], n - 1, m - 1); }
    case TStruct(ts) => forall i | 0 <= i < |ts| ensures Fits(ts[i], m - 1) { FitsMore(ts[i], n - 1, m - 1); }
    case TPresent(e) => FitsMore(e, n - 1, m - 1);
    case TDyn(_, e) => FitsMore(e, n - 1, m - 1);
    case TDynPtr(_, e) => FitsMore(e, n - 1, m - 1);
    case _ =>
  }

  // ---------------------------------------------------------------- shapes under a growing heap

  lemma {:induction false} ShapeFrame(h: Heap, k: Heap, v: Value, t: Tree, lo: nat, hi: nat)
    requires Shape(h, v, t) && Within(h, v, t, lo, hi)
    requires forall a: nat :: lo <= a < hi && a in h ==> a in k && k[a] == h[a]
    ensures Shape(k, v, t) && Within(k, v, t, lo, hi)
    decreases t
  {
    match t
    case TPtr(e) => ShapeFrame(h, k, h[v.a].v, e, lo, hi);
    case TMany(ts) =>
      forall i | 0 <= i < |ts| ensures Shape(k, h[v.a].vs[i], ts[i]) && Within(k, h[v.a].vs[i], ts[i], lo, hi) {
        ShapeFrame(h, k, h[v.a].vs[i], ts[i], lo, hi);
      }
    case TTable(m) =>
      forall x | x in m ensures Shape(k, h[v.a].m[x], m[x]) && Within(k, h[v.a].m[x], m[x], lo, hi) {
        ShapeFrame(h, k, h[v.a].m[x], m[x], lo, hi);
      }
    case TStruct(ts) =>
      forall i | 0 <= i < |ts| ensures Shape(k, v.fs[i], ts[i]) && Within(k, v.fs[i], ts[i], lo, hi) {
        ShapeFrame(h, k, v.fs[i], ts[i], lo, hi);
      }
    case TPresent(e) => ShapeFrame(h, k, v.v, e, lo, hi);
    case TDyn(_, e) => ShapeFrame(h, k, v.v, e, lo, hi);
    case TDynPtr(_, e) => ShapeFrame(h, k, h[v.a].v, e, lo, hi);
    case _ =>
  }

  lemma {:induction false} WithinWider(h: Heap, v: Value, t: Tree, lo: nat, hi: nat, lo': nat, hi': nat)
    requires Shape(h, v, t) && Within(h, v, t, lo, hi) && lo' <= lo && hi <= hi'
    ensures Within(h, v, t, lo', hi')
    decreases t
  {
    match t
    case TPtr(e) => WithinWider(h, h[v.a].v, e, lo, hi, lo', hi');
    case TMany(ts) =>
      forall i | 0 <= i < |ts| ensures Within(h, h[v.a].vs[i], ts[i], lo', hi') {
        WithinWider(h, h[v.a].vs[i], ts[i], lo, hi, lo', hi');
      }
    case TTable(m) =>
      forall x | x in m ensures Within(h, h[v.a].m[x], m[x], lo', hi') {
        WithinWider(h, h[v.a].m[x], m[x], lo, hi, lo', hi');
      }
    case TStruct(ts) =>
      forall i | 0 <= i < |ts| ensures Within(h, v.fs[i], ts[i], lo', hi') {
        WithinWider(h, v.fs[i], ts[i], lo, hi, lo', hi');
      }
    case TPresent(e) => WithinWider(h, v.v, e, lo, hi, lo', hi');
    case TDyn(_, e) => WithinWider(h, v.v, e, lo, hi, lo', hi');
    case TDynPtr(_, e) => WithinWider(h, h[v.a].v, e, lo, hi, lo', hi');
    case _ =>
  }

  /** A type that needs no copy holds no reference: its values mean the same in every heap and contain no address. */
  lemma {:induction false} NoReferences(p: Package, ty: GoType, t: Tree, h: Heap, v: Value, k: Heap, lo: nat, hi: nat)
    requires Valid(p) && Accepts(p, ty) && !NeedsClone(p, ty) && HasType(p, ty, t) && Shape(h, v, t)
    ensures Shape(k, v, t) && Within(k, v, t, lo, hi)
    decreases ty
  {
    if ty.Optional? && t.TPresent? {
      NoReferences(p, ty.elem, t.t, h, v.v, k, lo, hi);
    }
  }

  // ---------------------------------------------------------------- places

  function Vars(pl: Place): set<Name> {
    match pl
    case Var(x) => {x}
    case Sel(q, _) => Vars(q)
    case Deref(q) => Vars(q)
    case At(q, x) => Vars(q) + {x}
  }

  /** A variable numbered after nv. */
  predicate Later(x: Name, nv: nat) {
    x.Tmp? && x.n > nv
  }

  /** Two states that agree on earlier variables and on the cells below lim. */
  ghost predicate Agree(st: State, su: State, lim: nat, nv: nat) {
    && (forall x :: !Later(x, nv) ==> (x in st.vars <==> x in su.vars))
    && (forall x :: !Later(x, nv) && x in st.vars ==> st.vars[x] == su.vars[x])
    && (forall a: nat :: a < lim ==> (a in st.heap <==> a in su.heap))
    && (forall a: nat :: a < lim && a in st.heap ==> st.heap[a] == su.heap[a])
  }

  ghost predicate Named(pl: Place, nv: nat) {
    forall x :: x in Vars(pl) ==> !Later(x, nv)
  }

  /** Evaluating the place looks only at cells below lim. */
  ghost predicate Below(st: State, pl: Place, lim: nat) {
    match pl
    case Var(_) => true
    case Sel(q, _) => Below(st, q, lim)
    case Deref(q) => Below(st, q, lim) && (Read(st, q).Some? && Read(st, q).value.Ref? ==> Read(st, q).value.a < lim)
    case At(q, _) => Below(st, q, lim) && (Read(st, q).Some? && Read(st, q).value.Ref? ==> Read(st, q).value.a < lim)
  }

  lemma {:induction false} ReadFrame(st: State, su: State, pl: Place, lim: nat, nv: nat)
    requires Below(st, pl, lim) && Named(pl, nv) && Agree(st, su, lim, nv)
    ensures Read(su, pl) == Read(st, pl) && Below(su, pl, lim)
    decreases pl
  {
    match pl
    case Var(x) => assert x in Vars(pl);
    case Sel(q, _) => assert Named(q, nv); ReadFrame(st, su, q, lim, nv);
    case Deref(q) => assert Named(q, nv); ReadFrame(st, su, q, lim, nv);
    case At(q, x) => assert Named(q, nv) && x in Vars(pl); ReadFrame(st, su, q, lim, nv);
  }

  lemma {:induction false} BelowMore(st: State, pl: Place, lim: nat, more: nat)
    requires Below(st, pl, lim) && lim <= more
    ensures Below(st, pl, more)
    decreases pl
  {
    match pl
    case Var(_) =>
    case Sel(q, _) => BelowMore(st, q, lim, more);
    case Deref(q) => BelowMore(st, q, lim, more);
    case At(q, _) => BelowMore(st, q, lim, more);
  }

  /** Where a write to the place lands. */
  datatype Base = Local(x: Name) | OnHeap(a: nat)

  ghost function BaseOf(st: State, pl: Place): Base
    requires Read(st, pl).Some?
  {
    match pl
    case Var(x) => Local(x)
    case Sel(q, _) => BaseOf(st, q)
    case Deref(q) => OnHeap(Read(st, q).value.a)
    case At(q, _) => OnHeap(Read(st, q).value.a)
  }

  /** A readable place whose evaluation looks only at cells older than the one a write to it changes. */
  ghost predicate Steady(st: State, pl: Place) {
    && Read(st, pl).Some?
    && match pl
       case Var(_) => true
       case Sel(q, _) => Steady(st, q)
       case Deref(q) => Below(st, q, Read(st, q).value.a)
       case At(q, _) => Below(st, q, Read(st, q).value.a)
  }

  /** A write replaces the value of the place, in its base and nowhere else. */
  lemma {:induction false} WriteRead(st: State, pl: Place, w: Value, nv: nat)
    requires Steady(st, pl)
    ensures var r := Write(st, pl, w);
            && r.Some? && r.value.next == st.next && r.value.heap.Keys == st.heap.Keys
            && Read(r.value, pl) == Some(w)
            && (BaseOf(st, pl).Local? ==>
                  r.value.heap == st.heap && BaseOf(st, pl).x in st.vars && r.value.vars.Keys == st.vars.Keys
                  && forall x :: x in st.vars && x != BaseOf(st, pl).x ==> r.value.vars[x] == st.vars[x])
            && (BaseOf(st, pl).OnHeap? ==>
                  r.value.vars == st.vars && BaseOf(st, pl).a in st.heap
                  && forall a :: a in st.heap && a != BaseOf(st, pl).a ==> r.value.heap[a] == st.heap[a])
    decreases pl
  {
    match pl
    case Var(x) =>
    case Sel(q, i) =>
      WriteRead(st, q, Struct(Read(st, q).value.fs[i := w]), nv);
    case Deref(q) => StillReads(st, Write(st, pl, w).value, q, Read(st, q).value.a);
    case At(q, x) => StillReads(st, Write(st, pl, w).value, q, Read(st, q).value.a);
  }

  lemma {:induction false} StillReads(st: State, su: State, q: Place, a: nat)
    requires Below(st, q, a) && su.vars == st.vars
    requires forall b: nat :: b < a ==>
               (b in st.heap <==> b in su.heap) && (b in st.heap ==> su.heap[b] == st.heap[b])
    ensures Read(su, q) == Read(st, q) && Below(su, q, a)
    decreases q
  {
    match q
    case Var(_) =>
    case Sel(r, _) => StillReads(st, su, r, a);
    case Deref(r) => StillReads(st, su, r, a);
    case At(r, _) => StillReads(st, su, r, a);
  }

  lemma {:induction false} WriteSame(st: State, pl: Place)
    requires Steady(st, pl)
    ensures Write(st, pl, Read(st, pl).value) == Some(st)
    decreases pl
  {
    match pl
    case Var(_) => assert st.vars[pl.x := st.vars[pl.x]] == st.vars;
    case Sel(q, i) =>
      WriteSame(st, q);
      var fs := Read(st, q).value.fs;
      assert fs[i := fs[i]] == fs;
    case Deref(q) =>
      var a := Read(st, q).value.a;
      assert st.heap[a := One(st.heap[a].v)] == st.heap;
    case At(q, x) =>
      var a := Read(st, q).value.a;
      var vs := st.heap[a].vs;
      assert vs[st.vars[x].n := vs[st.vars[x].n]] == vs;
      assert st.heap[a := Many(vs)] == st.heap;
  }

  /** The same write in two agreeing states has agreeing results. */
  lemma {:induction false} WriteAgree(st: State, su: State, pl: Place, w: Value, lim: nat, nv: nat)
    requires Steady(st, pl) && Below(st, pl, lim) && Named(pl, nv) && Agree(st, su, lim, nv)
    ensures Steady(su, pl) && Below(su, pl, lim) && BaseOf(su, pl) == BaseOf(st, pl) && Read(su, pl) == Read(st, pl)
    ensures Write(st, pl, w).Some? && Write(su, pl, w).Some?
    ensures Agree(Write(st, pl, w).value, Write(su, pl, w).value, lim, nv)
    decreases pl
  {
    ReadFrame(st, su, pl, lim, nv);
    match pl
    case Var(x) =>
    case Sel(q, i) =>
      assert Named(q, nv);
      ReadFrame(st, su, q, lim, nv);
      WriteAgree(st, su, q, Struct(Read(st, q).value.fs[i := w]), lim, nv);
    case Deref(q) =>
      assert Named(q, nv);
      ReadFrame(st, su, q, lim, nv);
      AgreeLess(st, su, lim, Read(st, q).value.a, nv);
      ReadFrame(st, su, q, Read(st, q).value.a, nv);
    case At(q, x) =>
      assert Named(q, nv) && x in Vars(pl);
      ReadFrame(st, su, q, lim, nv);
      AgreeLess(st, su, lim, Read(st, q).value.a, nv);
      ReadFrame(st, su, q, Read(st, q).value.a, nv);
  }

  lemma {:induction false} AgreeLess(st: State, su: State, lim: nat, less: nat, nv: nat)
    requires Agree(st, su, lim, nv) && less <= lim
    ensures Agree(st, su, less, nv)
  {
  }

  lemma {:induction false} AgreeTrans(s: State, t: State, u: State, lim: nat, nv: nat)
    requires Agree(s, t, lim, nv) && Agree(t, u, lim, nv)
    ensures Agree(s, u, lim, nv)
  {
  }

  lemma {:induction false} AgreeEarlier(st: State, su: State, lim: nat, nv: nat, more: nat)
    requires Agree(st, su, lim, more) && nv <= more
    ensures Agree(st, su, lim, nv)
  {
  }

  /** Whatever can be read lies in the allocated heap. */
  lemma {:induction false} ReadableBelow(st: State, pl: Place)
    requires Sound(st) && Read(st, pl).Some?
    ensures Below(st, pl, st.next)
    decreases pl
  {
    match pl
    case Var(_) =>
    case Sel(q, _) => ReadableBelow(st, q);
    case Deref(q) => ReadableBelow(st, q);
    case At(q, _) => ReadableBelow(st, q);
  }

  // ---------------------------------------------------------------- what running an assignment means

  /** From st to su as if w had been written to the place: other old cells and earlier variables are untouched. */
  ghost predicate Effect(st: State, dst: Place, w: Value, nv: nat, su: State) {
    && Sound(su) && st.next <= su.next
    && Write(st, dst, w).Some? && Agree(Write(st, dst, w).value, su, st.next, nv)
  }

  /** w stands at dst, has the shape, and every address in it is new. */
  ghost predicate Done(st: State, dst: Place, nv: nat, su: State, w: Value, t: Tree) {
    && Effect(st, dst, w, nv, su)
    && Shape(su.heap, w, t) && Within(su.heap, w, t, st.next, su.next)
  }

  /** The two sides of an assignment: writing the destination cannot disturb the source. */
  ghost predicate Ready(st: State, dst: Place, src: Place, lim: nat, nv: nat) {
    && Sound(st) && lim <= st.next
    && Steady(st, dst) && Named(dst, nv) && Named(src, nv) && Below(st, src, lim)
    && (BaseOf(st, dst).Local? ==> BaseOf(st, dst).x !in Vars(src))
    && (BaseOf(st, dst).OnHeap? ==> lim <= BaseOf(st, dst).a)
  }

  ghost predicate Copies(p: Package, ty: GoType, t: Tree, zeroed: bool, st: State, dst: Place, src: Place, lim: nat,
                         nv: nat) {
    && Valid(p) && Accepts(p, ty) && HasType(p, ty, t)
    && Ready(st, dst, src, lim, nv)
    && Read(st, src).Some? && Shape(st.heap, Read(st, src).value, t) && Within(st.heap, Read(st, src).value, t, 0, lim)
    && Read(st, dst) == Some(if zeroed then Zero(p, ty) else Read(st, src).value)
  }

  /** Nothing is run and the destination already holds what it should. */
  lemma {:induction false} KeepOk(st: State, dst: Place, nv: nat, t: Tree)
    requires Sound(st) && Steady(st, dst)
    requires Shape(st.heap, Read(st, dst).value, t) && (t.TNil? || t.TAbsent? || t.TNull?)
    ensures Done(st, dst, nv, st, Read(st, dst).value, t)
  {
    WriteSame(st, dst);
  }

  /** A value built in a grown heap and then written. */
  lemma {:induction false} FinishOk(st: State, mid: State, dst: Place, nv: nat, w: Value, t: Tree)
    requires Sound(st) && Sound(mid) && st.next <= mid.next && Steady(st, dst) && Named(dst, nv)
    requires Agree(st, mid, st.next, nv)
    requires Shape(mid.heap, w, t) && Within(mid.heap, w, t, st.next, mid.next)
    ensures Write(mid, dst, w).Some? && Done(st, dst, nv, Write(mid, dst, w).value, w, t)
  {
    hide Write, Read, Below;
    ReadableBelow(st, dst);
    WriteAgree(st, mid, dst, w, st.next, nv);
    WriteRead(mid, dst, w, nv);
    WriteRead(st, dst, w, nv);
    var su := Write(mid, dst, w).value;
    forall a: nat | st.next <= a < mid.next && a in mid.heap ensures a in su.heap && su.heap[a] == mid.heap[a] {
      if BaseOf(mid, dst).OnHeap? { BaseBelow(st, dst); }
    }
    ShapeFrame(mid.heap, su.heap, w, t, st.next, mid.next);
  }

  lemma {:induction false} BaseBelow(st: State, dst: Place)
    requires Sound(st) && Read(st, dst).Some? && BaseOf(st, dst).OnHeap?
    ensures BaseOf(st, dst).a < st.next
    decreases dst
  {
    if dst.Sel? { BaseBelow(st, dst.of); }
  }

  /** A new cell, referred to from the destination. */
  lemma {:induction false} AllocOk(st: State, dst: Place, src: Place, lim: nat, nv: nat, c: Cell) returns (su: State)
    requires Ready(st, dst, src, lim, nv)
    ensures Write(Alloc(st, c), dst, Ref(st.next)) == Some(su)
    ensures Sound(su) && su.next == st.next + 1 && su.heap[st.next] == c
    ensures Read(su, dst) == Some(Ref(st.next)) && Below(su, dst, st.next)
    ensures Read(su, src) == Read(st, src) && Below(su, src, lim)
    ensures forall a: nat :: a < lim ==> su.heap[a] == st.heap[a]
    ensures Write(st, dst, Ref(st.next)).Some? && Agree(Write(st, dst, Ref(st.next)).value, su, st.next, nv)
  {
    hide Write, Read, Below;
    var mid := Alloc(st, c);
    var w := Ref(st.next);
    ReadableBelow(st, dst);
    WriteAgree(st, mid, dst, w, st.next, nv);
    WriteRead(mid, dst, w, nv);
    su := Write(mid, dst, w).value;
    WriteBelow(mid, dst, w, st.next);
    if BaseOf(st, dst).OnHeap? { BaseBelow(st, dst); }
    SourceStays(st, su, dst, src, lim, nv);
  }

  /** The path of the place is still read below the limit after the write. */
  lemma {:induction false} WriteBelow(st: State, pl: Place, w: Value, lim: nat)
    requires Steady(st, pl) && Below(st, pl, lim)
    ensures Write(st, pl, w).Some? && Below(Write(st, pl, w).value, pl, lim)
    decreases pl
  {
    WriteRead(st, pl, w, 0);
    match pl
    case Var(_) =>
    case Sel(q, i) => WriteBelow(st, q, Struct(Read(st, q).value.fs[i := w]), lim);
    case Deref(q) =>
      StillReads(st, Write(st, pl, w).value, q, Read(st, q).value.a);
      BelowMore(Write(st, pl, w).value, q, Read(st, q).value.a, lim);
    case At(q, x) =>
      StillReads(st, Write(st, pl, w).value, q, Read(st, q).value.a);
      BelowMore(Write(st, pl, w).value, q, Read(st, q).value.a, lim);
  }

  /** A source is untouched by a write to a destination that is ready for it. */
  lemma {:induction false} SourceStays(st: State, su: State, dst: Place, src: Place, lim: nat, nv: nat)
    requires Ready(st, dst, src, lim, nv)
    requires forall a: nat :: a < lim ==> a in su.heap && su.heap[a] == st.heap[a]
    requires su.vars.Keys >= st.vars.Keys && forall x :: x in Vars(src) && x in st.vars ==> su.vars[x] == st.vars[x]
    requires forall x :: x in Vars(src) && x in su.vars ==> x in st.vars
    ensures Read(su, src) == Read(st, src) && Below(su, src, lim)
    decreases src
  {
    SourceReads(st, su, src, lim);
  }

  lemma {:induction false} SourceReads(st: State, su: State, src: Place, lim: nat)
    requires Below(st, src, lim)
    requires forall a: nat :: a < lim ==>
               (a in st.heap <==> a in su.heap) && (a in st.heap ==> su.heap[a] == st.heap[a])
    requires forall x :: x in Vars(src) ==>
               (x in st.vars <==> x in su.vars) && (x in st.vars ==> su.vars[x] == st.vars[x])
    ensures Read(su, src) == Read(st, src) && Below(su, src, lim)
    decreases src
  {
    match src
    case Var(_) =>
    case Sel(q, _) => SourceReads(st, su, q, lim);
    case Deref(q) => SourceReads(st, su, q, lim);
    case At(q, _) => SourceReads(st, su, q, lim);
  }

  /** The write of a new reference followed by work on newer cells only is the write. */
  lemma {:induction false} GrownOk(st: State, dst: Place, nv: nat, su: State, sv: State)
    requires Write(st, dst, Ref(st.next)).Some? && Agree(Write(st, dst, Ref(st.next)).value, su, st.next, nv)
    requires Agree(su, sv, st.next, nv) && Sound(sv) && st.next < sv.next
    ensures Effect(st, dst, Ref(st.next), nv, sv)
  {
    AgreeTrans(Write(st, dst, Ref(st.next)).value, su, sv, st.next, nv);
  }

  // ---------------------------------------------------------------- the compiler is correct, type by type

  /** The cells below the limit are what they were. */
  ghost predicate Kept(st: State, su: State, lim: nat) {
    forall a: nat :: a < lim && a in st.heap ==> a in su.heap && su.heap[a] == st.heap[a]
  }

  /** The type inside all Optionals. */
  function Unwrapped(t: GoType): GoType {
    if t.Optional? then Unwrapped(t.elem) else t
  }

  /** Exactly which supported types are copied by an assignment: scalars and enums, in Optionals or not. */
  lemma {:induction false} NeedsCloneIs(p: Package, t: GoType)
    requires Valid(p) && Accepts(p, t)
    ensures !NeedsClone(p, t) <==>
            var u := Unwrapped(t);
            u.Ident? && (IsScalar(u.name) || (u.name in p.types && p.types[u.name] == EnumDecl))
  {
    if t.Optional? { NeedsCloneIs(p, t.elem); }
  }

  /** A new variable or cell of a type starts as its zero: 0, nil or absent; only declared types made of fields start as
      something that is never read. */
  lemma {:induction false} ZeroIsTyped(p: Package, t: GoType, h: Heap)
    requires Valid(p) && Accepts(p, t)
    ensures Zero(p, t) == Zeroed <==> t.Ident? && (t.name in p.manual || IsStruct(p, t.name))
    ensures Zero(p, t) != Zeroed ==>
              exists z :: z in {TScalar(0), TNil, TAbsent} && HasType(p, t, z) && Shape(h, Zero(p, t), z)
  {
    if t.Ident? && t.name in p.types {
      assert HasDecl(p, p.types[t.name], TNil) <==> IsUnion(p, t.name);
      assert HasDecl(p, p.types[t.name], TScalar(0)) <==> p.types[t.name].EnumDecl?;
    }
    var z := if t.Ident? && !IsUnion(p, t.name) then TScalar(0) else if t.Optional? then TAbsent else TNil;
    if Zero(p, t) != Zeroed { assert HasType(p, t, z) && Shape(h, Zero(p, t), z); }
  }

  // one rule for each statement form

  lemma {:induction false} RunSeq(p: Package, fuel: nat, a: Stmt, b: Stmt, st: State, mid: State)
    requires Exec(p, fuel, a, st) == Some(mid)
    ensures Exec(p, fuel, Seq(a, b), st) == Exec(p, fuel, b, mid)
  {
  }

  lemma {:induction false} RunIfNotNil(p: Package, fuel: nat, src: Place, body: Stmt, st: State)
    requires Read(st, src).Some?
    ensures Exec(p, fuel, IfNotNil(src, body), st) == if Read(st, src).value.Nil? then Some(st)
            else Exec(p, fuel, body, st)
  {
  }

  lemma {:induction false} RunNew(p: Package, fuel: nat, dst: Place, e: GoType, st: State)
    ensures Exec(p, fuel, New(dst, e), st) == Write(Alloc(st, One(Zero(p, e))), dst, Ref(st.next))
  {
  }

  lemma {:induction false} RunMakeSlice(p: Package, fuel: nat, dst: Place, e: GoType, src: Place, st: State,
                                        vs: seq<Value>)
    requires Deep(st, src) == Some(Many(vs))
    ensures Exec(p, fuel, MakeSlice(dst, e, src), st) == Write(Alloc(st, Many(Zeros(p, e, |vs|))), dst, Ref(st.next))
  {
    assert seq(|vs|, i => Zero(p, e)) == Zeros(p, e, |vs|);
  }

  ghost function Zeros(p: Package, e: GoType, n: nat): (r: seq<Value>)
    ensures |r| == n && forall i :: 0 <= i < n ==> r[i] == Zero(p, e)
  {
    seq(n, i => Zero(p, e))
  }

  lemma {:induction false} RunCopyElems(p: Package, fuel: nat, dst: Place, src: Place, st: State, vs: seq<Value>,
                                        ws: seq<Value>, b: nat)
    requires Deep(st, src) == Some(Many(vs)) && Deep(st, dst) == Some(Many(ws)) && |vs| == |ws|
             && Read(st, dst) == Some(Ref(b))
    ensures Exec(p, fuel, CopyElems(dst, src), st) == Some(st.(heap := st.heap[b := Many(vs)]))
  {
  }

  lemma {:induction false} RunAssign(p: Package, fuel: nat, dst: Place, src: Place, st: State)
    requires Read(st, src).Some?
    ensures Exec(p, fuel, Assign(dst, src), st) == Write(st, dst, Read(st, src).value)
  {
  }

  lemma {:induction false} RunCallClone(p: Package, fuel: nat, dst: Place, src: Place, name: string, st: State)
    requires Read(st, src).Some?
    ensures name in p.manual ==> Exec(p, fuel, CallClone(dst, src, name), st) == Write(st, dst, Read(st, src).value)
    ensures name !in p.manual && fuel > 0 && IsStruct(p, name) ==>
              var r := CallMethod(p, fuel - 1, name, Read(st, src).value, st);
              r.Some? ==> Exec(p, fuel, CallClone(dst, src, name), st) ==
                          Write(st.(heap := r.value.1.heap, next := r.value.1.next), dst, r.value.0)
  {
  }

  lemma {:induction false} RunCallUnion(p: Package, fuel: nat, dst: Place, src: Place, name: string, st: State)
    requires Read(st, src).Some? && fuel > 0
    ensures var r := CallVariant(p, fuel - 1, name, Read(st, src).value, st);
            r.Some? ==> Exec(p, fuel, CallUnion(dst, src, name), st) ==
                        Write(st.(heap := r.value.1.heap, next := r.value.1.next), dst, r.value.0)
  {
  }

  /** What a call of Clone on a struct gives. */
  ghost predicate Cloned(st: State, su: State, w: Value, t: Tree) {
    && Sound(su) && st.next <= su.next && Kept(st, su, st.next)
    && Shape(su.heap, w, t) && Within(su.heap, w, t, st.next, su.next)
  }

  /** Running the emitted statements copies the source to the destination, whatever the type and the acyclic value. */
  lemma {:induction false} AssignOk(p: Package, fuel: nat, ty: GoType, t: Tree, zeroed: bool, st: State, dst: Place,
                                    src: Place, lim: nat, nv: nat)
    returns (su: State, w: Value)
    requires Copies(p, ty, t, zeroed, st, dst, src, lim, nv) && Fits(t, fuel)
    ensures Exec(p, fuel, EmitAssign(p, ty, dst, src, nv).0, st) == Some(su)
    ensures Done(st, dst, nv, su, w, Copied(p, ty, t, zeroed))
    decreases t, 3, 0
  {
    hide Exec, Done, Shape, Within, Ready, Write, Fits;
    match ty
    case Ident(name) => su, w := IdentOk(p, fuel, name, t, zeroed, st, dst, src, lim, nv);
    case Pointer(e) => su, w := PointerOk(p, fuel, e, t, zeroed, st, dst, src, lim, nv);
    case Slice(e) =>
      if t.TNil? {
        su, w := NilOk(p, fuel, ty, t, zeroed, st, dst, src, lim, nv);
      } else if NeedsClone(p, e) {
        su, w := SliceOk(p, fuel, e, t, zeroed, st, dst, src, lim, nv);
      } else {
        su, w := FlatOk(p, fuel, e, t, st, dst, src, lim, nv);
      }
    case MapOf(e) =>
      if t.TNil? {
        su, w := NilOk(p, fuel, ty, t, zeroed, st, dst, src, lim, nv);
      } else {
        su, w := MapOk(p, fuel, e, t, zeroed, st, dst, src, lim, nv);
      }
    case RawMessage =>
      if t.TNil? {
        su, w := NilOk(p, fuel, ty, t, zeroed, st, dst, src, lim, nv);
      } else {
        su, w := FlatOk(p, fuel, Ident("byte"), t, st, dst, src, lim, nv);
      }
    case Optional(e) => su, w := OptionalOk(p, fuel, e, t, zeroed, st, dst, src, lim, nv);
    case Unsupported => assert false;
  }

  /** A nil pointer, slice, map or raw message. */
  lemma {:induction false} NilOk(p: Package, fuel: nat, ty: GoType, t: Tree, zeroed: bool, st: State, dst: Place,
                                 src: Place, lim: nat, nv: nat)
    returns (su: State, w: Value)
    requires Copies(p, ty, t, zeroed, st, dst, src, lim, nv) && t.TNil?
             && (ty.Pointer? || ty.Slice? || ty.MapOf? || ty.RawMessage?)
    ensures Exec(p, fuel, EmitAssign(p, ty, dst, src, nv).0, st) == Some(su)
    ensures Done(st, dst, nv, su, w, Copied(p, ty, t, zeroed))
  {
    hide Exec, Done, Within, Write, Below;
    su, w := st, Nil;
    KeepOk(st, dst, nv, t);
    var s := EmitAssign(p, ty, dst, src, nv).0;
    RunIfNotNil(p, fuel, src, s.body, st);
  }

  lemma {:induction false} IdentOk(p: Package, fuel: nat, name: string, t: Tree, zeroed: bool, st: State, dst: Place,
                                   src: Place, lim: nat, nv: nat)
    returns (su: State, w: Value)
    requires Copies(p, Ident(name), t, zeroed, st, dst, src, lim, nv) && Fits(t, fuel)
    ensures Exec(p, fuel, EmitAssign(p, Ident(name), dst, src, nv).0, st) == Some(su)
    ensures Done(st, dst, nv, su, w, Copied(p, Ident(name), t, zeroed))
    decreases t, 2, 1
  {
    hide Exec, CallMethod, CallVariant, Write, Shape, Within, Fits, Steady, Below, Agree, Sound;
    var v := Read(st, src).value;
    FitsPositive(t, fuel);
    if IsStruct(p, name) {
      StructShape(p, name, t);
      WithinWider(st.heap, v, t, 0, lim, 0, st.next);
      var sm;
      w, sm := MethodOk(p, fuel - 1, name, v, t, st);
      RunCallClone(p, fuel, dst, src, name, st);
      su := CalledOk(st, sm, dst, nv, w, Copied(p, Ident(name), t, false));
    } else if IsUnion(p, name) {
      WithinWider(st.heap, v, t, 0, lim, 0, st.next);
      var sm;
      w, sm := VariantOk(p, fuel - 1, name, v, t, st);
      RunCallUnion(p, fuel, dst, src, name, st);
      su := CalledOk(st, sm, dst, nv, w, Copied(p, Ident(name), t, false));
    } else {
      su, w := PlainOk(p, fuel, name, t, st, dst, src, lim, nv);
    }
  }

  /** A scalar, an enum or a hand-written type. */
  lemma {:induction false} PlainOk(p: Package, fuel: nat, name: string, t: Tree, st: State, dst: Place, src: Place,
                                   lim: nat, nv: nat)
    returns (su: State, w: Value)
    requires Copies(p, Ident(name), t, false, st, dst, src, lim, nv)
             || Copies(p, Ident(name), t, true, st, dst, src, lim, nv)
    requires !IsStruct(p, name) && !IsUnion(p, name)
    ensures Exec(p, fuel, EmitAssign(p, Ident(name), dst, src, nv).0, st) == Some(su)
    ensures Done(st, dst, nv, su, w, t)
  {
    hide Exec, CallMethod, CallVariant, Write, Within, Steady, Below;
    w := Read(st, src).value;
    if name in p.manual {
      RunCallClone(p, fuel, dst, src, name, st);
      OpaqueWithin(st.heap, w, t, st.next);
    } else {
      RunAssign(p, fuel, dst, src, st);
      NoReferences(p, Ident(name), t, st.heap, w, st.heap, st.next, st.next);
    }
    FinishOk(st, st, dst, nv, w, t);
    su := Write(st, dst, w).value;
  }

  /** The result of a call, written to the destination. */
  lemma {:induction false} CalledOk(st: State, sm: State, dst: Place, nv: nat, w: Value, t: Tree) returns (su: State)
    requires Sound(st) && Steady(st, dst) && Named(dst, nv) && Cloned(st, sm, w, t)
    ensures Write(st.(heap := sm.heap, next := sm.next), dst, w) == Some(su)
    ensures Done(st, dst, nv, su, w, t)
  {
    hide Write, Steady, Shape, Within;
    var mid := st.(heap := sm.heap, next := sm.next);
    FinishOk(st, mid, dst, nv, w, t);
    su := Write(mid, dst, w).value;
  }

  lemma {:induction false} FitsPositive(t: Tree, n: nat)
    requires Fits(t, n)
    ensures n > 0
  {
  }

  lemma {:induction false} StructShape(p: Package, name: string, t: Tree)
    requires Valid(p) && IsStruct(p, name) && HasType(p, Ident(name), t)
    ensures HasDecl(p, p.types[name], t) && t.TStruct?
  {
    assert HasDecl(p, p.types[name], t);
  }

  lemma {:induction false} OpaqueWithin(h: Heap, v: Value, t: Tree, lim: nat)
    requires Shape(h, v, t) && t.TOpaque?
    ensures Within(h, v, t, lim, lim)
  {
  }

  lemma {:induction false} VariantOk(p: Package, fuel: nat, name: string, v: Value, t: Tree, st: State)
    returns (w: Value, su: State)
    requires Valid(p) && IsUnion(p, name) && HasType(p, Ident(name), t) && Sound(st)
    requires Shape(st.heap, v, t) && Within(st.heap, v, t, 0, st.next) && Fits(t, fuel + 1)
    ensures CallVariant(p, fuel, name, v, st) == Some((w, su)) && Cloned(st, su, w, Copied(p, Ident(name), t, false))
    decreases t, 2, 0
  {
    hide Exec, CallMethod;
    assert HasDecl(p, p.types[name], t);
    if t.TNil? {
      w, su := Nil, st;
    } else if t.TDynNil? {
      w, su := v, st;
    } else if t.TDyn? {
      StructShape(p, t.name, t.t);
      FitsMore(t.t, fuel, fuel + 1);
      var r;
      r, su := MethodOk(p, fuel, t.name, v.v, t.t, st);
      w := Dyn(t.name, r);
    } else {
      StructShape(p, t.name, t.t);
      FitsMore(t.t, fuel, fuel + 1);
      var r, sm := MethodOk(p, fuel, t.name, st.heap[v.a].v, t.t, st);
      w, su := DynPtr(t.name, sm.next), Alloc(sm, One(r));
      BoxedOk(st, sm, r, Copied(p, Ident(t.name), t.t, false), t.name);
    }
  }

  /** &cloned: the copy of a variant behind a fresh pointer. */
  lemma {:induction false} BoxedOk(st: State, sm: State, r: Value, t: Tree, name: string)
    requires Cloned(st, sm, r, t) && Sound(st)
    ensures Cloned(st, Alloc(sm, One(r)), DynPtr(name, sm.next), TDynPtr(name, t))
  {
    var su := Alloc(sm, One(r));
    ShapeFrame(sm.heap, su.heap, r, t, st.next, sm.next);
    WithinWider(su.heap, r, t, st.next, sm.next, st.next, su.next);
  }

  lemma {:induction false} MethodOk(p: Package, fuel: nat, name: string, v: Value, t: Tree, st: State)
    returns (w: Value, su: State)
    requires Valid(p) && IsStruct(p, name) && HasType(p, Ident(name), t) && Sound(st) && t.TStruct?
    requires Shape(st.heap, v, t) && Within(st.heap, v, t, 0, st.next) && Fits(t, fuel + 1)
    ensures CallMethod(p, fuel, name, v, st) == Some((w, su)) && Cloned(st, su, w, Copied(p, Ident(name), t, false))
    decreases t, 1, 0
  {
    hide Exec, EmitFields, Accepts, HasType, Shape, Within, Fits, FieldsFit, Valid;
    StructShape(p, name, t);
    var s0 := st.(vars := map[Receiver := v, Out := v]);
    var fields := p.types[name].fields;
    FieldsReady(p, fuel, name, v, t, st.heap);
    var os;
    su, os := FieldsOk(p, fuel, fields, 0, 0, v, t, st.next, s0, v.fs);
    w := Struct(os);
    FieldsCloned(p, name, t, st, su, os);
  }

  /** Every field can be copied, and the values of the fields nest less deep than fuel allows. */
  ghost predicate FieldsFit(p: Package, fuel: nat, fields: seq<GoType>, t: Tree)
    requires t.TStruct? && |t.ts| == |fields|
  {
    forall j :: 0 <= j < |fields| ==> Accepts(p, fields[j]) && HasType(p, fields[j], t.ts[j]) && Fits(t.ts[j], fuel)
  }

  lemma {:induction false} FieldsReady(p: Package, fuel: nat, name: string, v: Value, t: Tree, h: Heap)
    requires Valid(p) && IsStruct(p, name) && HasDecl(p, p.types[name], t) && t.TStruct?
    requires Shape(h, v, t) && Fits(t, fuel + 1)
    ensures v.Struct? && |p.types[name].fields| == |t.ts| == |v.fs| && FieldsFit(p, fuel, p.types[name].fields, t)
  {
  }

  lemma {:induction false} FieldsCloned(p: Package, name: string, t: Tree, st: State, su: State, os: seq<Value>)
    requires IsStruct(p, name) && HasType(p, Ident(name), t) && HasDecl(p, p.types[name], t) && t.TStruct?
    requires Sound(su) && st.next <= su.next && Kept(st, su, st.next) && |os| == |t.ts|
    requires CopiedUpTo(p, p.types[name].fields, t, |os|, su, os, st.next)
    ensures Cloned(st, su, Struct(os), Copied(p, Ident(name), t, false))
  {
    hide Accepts;
  }

  /** The first i fields of the result are copies and hold only new addresses. */
  ghost predicate CopiedUpTo(p: Package, fields: seq<GoType>, t: Tree, i: nat, st: State, os: seq<Value>, lim: nat)
    requires t.TStruct? && i <= |fields| == |t.ts| == |os|
             && forall j :: 0 <= j < |fields| ==> HasType(p, fields[j], t.ts[j])
  {
    forall j :: 0 <= j < i ==> (Shape(st.heap, os[j], CopiedField(p, fields[j], t.ts[j]))
                                && Within(st.heap, os[j], CopiedField(p, fields[j], t.ts[j]), lim, st.next))
  }

  /** The fields from i on, when those before are already copied. */
  lemma {:induction false} FieldsOk(p: Package, fuel: nat, fields: seq<GoType>, i: nat, nv: nat, v: Value, t: Tree,
                                    lim: nat, si: State, os: seq<Value>)
    returns (su: State, ws: seq<Value>)
    requires Valid(p) && t.TStruct? && v.Struct? && i <= |fields| == |t.ts| == |v.fs| == |os|
    requires FieldsFit(p, fuel, fields, t)
    requires Sound(si) && lim <= si.next && si.vars.Keys >= {Receiver, Out} && si.vars[Receiver] == v
             && si.vars[Out] == Struct(os)
    requires Shape(si.heap, v, t) && Within(si.heap, v, t, 0, lim)
    requires CopiedUpTo(p, fields, t, i, si, os, lim)
    requires forall j :: i <= j < |fields| ==> os[j] == v.fs[j]
    ensures Exec(p, fuel, EmitFields(p, fields, i, nv), si) == Some(su)
    ensures Sound(su) && si.next <= su.next && Kept(si, su, lim)
    ensures |ws| == |fields| && Out in su.vars && su.vars[Out] == Struct(ws)
    ensures CopiedUpTo(p, fields, t, |fields|, su, ws, lim)
    decreases t, 0, |fields| - i
  {
    if i == |fields| {
      su, ws := si, os;
    } else if !NeedsClone(p, fields[i]) {
      hide Exec, EmitAssign, Shape, Within, Fits, Accepts, HasType, CopiedUpTo;
      SharedOk(p, fuel, fields, i, v, t, lim, si, os);
      su, ws := FieldsOk(p, fuel, fields, i + 1, nv, v, t, lim, si, os);
    } else {
      hide Exec, EmitAssign, Shape, Within, Fits, Accepts, HasType, CopiedUpTo;
      var dst, src := Sel(Var(Out), i), Sel(Var(Receiver), i);
      var sj, w, os' := FieldOk(p, fuel, fields, i, nv, v, t, lim, si, os);
      var (s, n) := EmitAssign(p, fields[i], dst, src, nv);
      su, ws := FieldsOk(p, fuel, fields, i + 1, n, v, t, lim, sj, os');
      RunSeq(p, fuel, s, EmitFields(p, fields, i + 1, n), si, sj);
    }
  }

  /** A field that needs no clone is already copied by the assignment of the whole struct. */
  lemma {:induction false} SharedOk(p: Package, fuel: nat, fields: seq<GoType>, i: nat, v: Value, t: Tree, lim: nat,
                                    si: State, os: seq<Value>)
    requires Valid(p) && t.TStruct? && v.Struct? && i < |fields| == |t.ts| == |v.fs| == |os|
    requires FieldsFit(p, fuel, fields, t) && lim <= si.next && Shape(si.heap, v, t)
    requires CopiedUpTo(p, fields, t, i, si, os, lim) && os[i] == v.fs[i] && !NeedsClone(p, fields[i])
    ensures CopiedUpTo(p, fields, t, i + 1, si, os, lim)
  {
    hide Fits, Accepts, HasType, Within, NeedsClone;
    NoReferences(p, fields[i], t.ts[i], si.heap, v.fs[i], si.heap, lim, si.next);
  }

  lemma {:induction false} FieldOk(p: Package, fuel: nat, fields: seq<GoType>, i: nat, nv: nat, v: Value, t: Tree,
                                   lim: nat, si: State, os: seq<Value>)
    returns (sj: State, w: Value, os': seq<Value>)
    requires Valid(p) && t.TStruct? && v.Struct? && i < |fields| == |t.ts| == |v.fs| == |os|
    requires FieldsFit(p, fuel, fields, t)
    requires Sound(si) && lim <= si.next && si.vars.Keys >= {Receiver, Out} && si.vars[Receiver] == v
             && si.vars[Out] == Struct(os)
    requires Shape(si.heap, v, t) && Within(si.heap, v, t, 0, lim)
    requires CopiedUpTo(p, fields, t, i, si, os, lim)
    requires forall j :: i <= j < |fields| ==> os[j] == v.fs[j]
    requires NeedsClone(p, fields[i])
    ensures Exec(p, fuel, EmitAssign(p, fields[i], Sel(Var(Out), i), Sel(Var(Receiver), i), nv).0, si) == Some(sj)
    ensures Sound(sj) && si.next <= sj.next && Kept(si, sj, lim) && os' == os[i := w]
    ensures sj.vars.Keys >= {Receiver, Out} && sj.vars[Receiver] == v && sj.vars[Out] == Struct(os')
    ensures Shape(sj.heap, v, t) && Within(sj.heap, v, t, 0, lim)
    ensures CopiedUpTo(p, fields, t, i + 1, sj, os', lim)
    decreases t, 0, 0
  {
    hide Exec, EmitAssign, Accepts, Fits;
    var dst, src := Sel(Var(Out), i), Sel(Var(Receiver), i);
    FieldReady(p, fields, i, nv, v, t, lim, si, os);
    sj, w := AssignOk(p, fuel, fields[i], t.ts[i], false, si, dst, src, lim, nv);
    os' := os[i := w];
    assert Write(si, dst, w) == Some(si.(vars := si.vars[Out := Struct(os')]));
    ShapeFrame(si.heap, sj.heap, v, t, 0, lim);
    WithinWider(sj.heap, w, CopiedField(p, fields[i], t.ts[i]), si.next, sj.next, lim, sj.next);
    forall j | 0 <= j < i
      ensures Shape(sj.heap, os'[j], CopiedField(p, fields[j], t.ts[j]))
           && Within(sj.heap, os'[j], CopiedField(p, fields[j], t.ts[j]), lim, sj.next)
    {
      ShapeFrame(si.heap, sj.heap, os[j], CopiedField(p, fields[j], t.ts[j]), lim, si.next);
      WithinWider(sj.heap, os[j], CopiedField(p, fields[j], t.ts[j]), lim, si.next, lim, sj.next);
    }
  }

  lemma {:induction false} FieldReady(p: Package, fields: seq<GoType>, i: nat, nv: nat, v: Value, t: Tree, lim: nat,
                                      si: State, os: seq<Value>)
    requires Valid(p) && t.TStruct? && v.Struct? && i < |fields| == |t.ts| == |v.fs| == |os|
    requires Accepts(p, fields[i]) && HasType(p, fields[i], t.ts[i]) && os[i] == v.fs[i]
    requires Sound(si) && lim <= si.next && si.vars.Keys >= {Receiver, Out} && si.vars[Receiver] == v
             && si.vars[Out] == Struct(os)
    requires Shape(si.heap, v, t) && Within(si.heap, v, t, 0, lim)
    ensures Copies(p, fields[i], t.ts[i], false, si, Sel(Var(Out), i), Sel(Var(Receiver), i), lim, nv)
  {
    hide Accepts, HasType, Valid;
    var dst, src := Sel(Var(Out), i), Sel(Var(Receiver), i);
    assert Read(si, Var(Receiver)) == Some(v) && Read(si, Var(Out)) == Some(Struct(os));
    assert Read(si, src) == Some(v.fs[i]) && Read(si, dst) == Some(os[i]);
    assert Vars(Var(Receiver)) == {Receiver} && Vars(Var(Out)) == {Out};
    assert Vars(src) == {Receiver} && Vars(dst) == {Out};
    assert Steady(si, Var(Out)) && Steady(si, dst);
    assert Below(si, Var(Receiver), lim) && Below(si, src, lim);
    assert BaseOf(si, Var(Out)) == Local(Out);
    assert BaseOf(si, dst) == Local(Out);
  }

  // ---------------------------------------------------------------- pointers

  /** After an allocation: st with a reference to the new cell written to the destination. */
  ghost predicate Grown(st: State, dst: Place, src: Place, lim: nat, nv: nat, c: Cell, su: State) {
    && Sound(su) && su.next == st.next + 1 && lim <= st.next && su.heap[st.next] == c
    && Read(su, dst) == Some(Ref(st.next)) && Below(su, dst, st.next) && Named(dst, nv)
    && Read(su, src) == Read(st, src) && Below(su, src, lim) && Named(src, nv)
    && (forall a: nat :: a < lim ==> a in st.heap && su.heap[a] == st.heap[a])
    && Write(st, dst, Ref(st.next)).Some? && Agree(Write(st, dst, Ref(st.next)).value, su, st.next, nv)
  }

  lemma {:induction false} GrowOk(st: State, dst: Place, src: Place, lim: nat, nv: nat, c: Cell) returns (su: State)
    requires Ready(st, dst, src, lim, nv)
    ensures Write(Alloc(st, c), dst, Ref(st.next)) == Some(su) && Grown(st, dst, src, lim, nv, c, su)
  {
    hide Write, Steady, Below, Agree;
    su := AllocOk(st, dst, src, lim, nv, c);
  }

  lemma {:induction false} PointerOk(p: Package, fuel: nat, e: GoType, t: Tree, zeroed: bool, st: State, dst: Place,
                                     src: Place, lim: nat, nv: nat)
    returns (su: State, w: Value)
    requires Copies(p, Pointer(e), t, zeroed, st, dst, src, lim, nv) && Fits(t, fuel)
    ensures Exec(p, fuel, EmitAssign(p, Pointer(e), dst, src, nv).0, st) == Some(su)
    ensures Done(st, dst, nv, su, w, Copied(p, Pointer(e), t, zeroed))
    decreases t, 2, 0
  {
    hide Exec, Done, Write, Below, Agree, Steady, Grown;
    var body := EmitAssign(p, e, Deref(dst), Deref(src), nv).0;
    if t.TNil? {
      su, w := NilOk(p, fuel, Pointer(e), t, zeroed, st, dst, src, lim, nv);
    } else {
      RunIfNotNil(p, fuel, src, Seq(New(dst, e), body), st);
      var s1 := GrowOk(st, dst, src, lim, nv, One(Zero(p, e)));
      RunNew(p, fuel, dst, e, st);
      RunSeq(p, fuel, New(dst, e), body, st, s1);
      FitsMore(t.t, fuel - 1, fuel);
      PointerReady(p, e, t, zeroed, st, dst, src, lim, nv, s1);
      var x;
      su, x := AssignOk(p, fuel, e, t.t, true, s1, Deref(dst), Deref(src), lim, nv);
      w := Ref(st.next);
      PointerDone(st, dst, src, lim, nv, One(Zero(p, e)), s1, su, x, Copied(p, e, t.t, true));
    }
  }

  /** The pointed-to value can be copied into the new cell. */
  lemma {:induction false} PointerReady(p: Package, e: GoType, t: Tree, zeroed: bool, st: State, dst: Place, src: Place,
                                        lim: nat, nv: nat, s1: State)
    requires Copies(p, Pointer(e), t, zeroed, st, dst, src, lim, nv) && t.TPtr?
    requires Grown(st, dst, src, lim, nv, One(Zero(p, e)), s1)
    ensures Copies(p, e, t.t, true, s1, Deref(dst), Deref(src), lim, nv)
  {
    hide Write, Agree;
    var v := Read(st, src).value;
    ShapeFrame(st.heap, s1.heap, v, t, 0, lim);
    assert Read(s1, Deref(src)) == Some(s1.heap[v.a].v);
    assert Read(s1, Deref(dst)) == Some(Zero(p, e));
  }

  /** A value written behind the new reference. */
  lemma {:induction false} PointerDone(st: State, dst: Place, src: Place, lim: nat, nv: nat, c: Cell, s1: State,
                                       su: State, x: Value, t: Tree)
    requires Grown(st, dst, src, lim, nv, c, s1) && c.One? && Done(s1, Deref(dst), nv, su, x, t)
    ensures Done(st, dst, nv, su, Ref(st.next), TPtr(t))
  {
    var b := st.next;
    assert Read(s1, Deref(dst)) == Some(c.v);
    PointerAgree(s1, dst, nv, su, x, b);
    GrownOk(st, dst, nv, s1, su);
    WithinWider(su.heap, x, t, s1.next, su.next, b, su.next);
  }

  lemma {:induction false} PointerAgree(s1: State, dst: Place, nv: nat, su: State, x: Value, b: nat)
    requires Read(s1, dst) == Some(Ref(b)) && Read(s1, Deref(dst)).Some? && Effect(s1, Deref(dst), x, nv, su)
             && b < s1.next
    ensures Agree(s1, su, b, nv) && b in su.heap && su.heap[b] == One(x)
  {
    assert Write(s1, Deref(dst), x) == Some(s1.(heap := s1.heap[b := One(x)]));
  }

  // ---------------------------------------------------------------- slices

  /** A slice whose elements hold no reference is copied at once. */
  lemma {:induction false} FlatOk(p: Package, fuel: nat, e: GoType, t: Tree, st: State, dst: Place, src: Place,
                                  lim: nat, nv: nat)
    returns (su: State, w: Value)
    requires Valid(p) && Accepts(p, e) && !NeedsClone(p, e) && t.TMany?
             && forall i :: 0 <= i < |t.ts| ==> HasType(p, e, t.ts[i])
    requires Ready(st, dst, src, lim, nv) && Read(st, src).Some?
    requires Shape(st.heap, Read(st, src).value, t) && Within(st.heap, Read(st, src).value, t, 0, lim)
    ensures Exec(p, fuel, IfNotNil(src, Seq(MakeSlice(dst, e, src), CopyElems(dst, src))), st) == Some(su)
    ensures Done(st, dst, nv, su, w, t)
  {
    hide Exec, Below, Agree, Steady, Write, Done, Grown, Ready;
    var v, b := Read(st, src).value, st.next;
    var vs := st.heap[v.a].vs;
    var zeros := Zeros(p, e, |vs|);
    var s1 := GrowOk(st, dst, src, lim, nv, Many(zeros));
    su, w := s1.(heap := s1.heap[b := Many(vs)]), Ref(b);
    RunIfNotNil(p, fuel, src, Seq(MakeSlice(dst, e, src), CopyElems(dst, src)), st);
    RunMakeSlice(p, fuel, dst, e, src, st, vs);
    RunSeq(p, fuel, MakeSlice(dst, e, src), CopyElems(dst, src), st, s1);
    DeepAfter(st, dst, src, lim, nv, Many(zeros), s1, v.a);
    RunCopyElems(p, fuel, dst, src, s1, vs, zeros, b);
    forall i | 0 <= i < |t.ts| ensures Shape(su.heap, vs[i], t.ts[i]) && Within(su.heap, vs[i], t.ts[i], b, b + 1) {
      NoReferences(p, e, t.ts[i], st.heap, vs[i], su.heap, b, b + 1);
    }
    Overwritten(st, dst, src, lim, nv, Many(zeros), s1, Many(vs));
    assert Within(su.heap, w, t, b, su.next);
    CellDone(st, dst, src, lim, nv, Many(zeros), s1, su, t);
  }

  /** Both sides of an assignment after the allocation. */
  lemma {:induction false} DeepAfter(st: State, dst: Place, src: Place, lim: nat, nv: nat, c: Cell, s1: State, a: nat)
    requires Grown(st, dst, src, lim, nv, c, s1) && Read(st, src) == Some(Ref(a)) && a < lim
    ensures a in st.heap && Deep(st, src) == Some(st.heap[a]) && Deep(s1, src) == Some(st.heap[a])
    ensures Deep(s1, dst) == Some(c) && Read(s1, dst) == Some(Ref(st.next)) && st.next in s1.heap
  {
    hide Write, Agree, Below, Read;
  }

  lemma {:induction false} Overwritten(st: State, dst: Place, src: Place, lim: nat, nv: nat, c: Cell, s1: State,
                                       d: Cell)
    requires Grown(st, dst, src, lim, nv, c, s1)
    ensures var su := s1.(heap := s1.heap[st.next := d]);
            Sound(su) && su.next == st.next + 1 && Agree(s1, su, st.next, nv)
  {
    hide Write, Below, Read;
  }

  /** The new cell has been filled, with nothing else touched. */
  lemma {:induction false} CellDone(st: State, dst: Place, src: Place, lim: nat, nv: nat, c: Cell, s1: State, su: State,
                                    t: Tree)
    requires Grown(st, dst, src, lim, nv, c, s1) && Agree(s1, su, st.next, nv) && Sound(su) && st.next < su.next
    requires Shape(su.heap, Ref(st.next), t) && Within(su.heap, Ref(st.next), t, st.next, su.next)
    ensures Done(st, dst, nv, su, Ref(st.next), t)
  {
    hide Write, Agree, Below, Read, Shape, Within;
    GrownOk(st, dst, nv, s1, su);
  }

  /** The cell at b is being filled: only cells from b on and later variables differ from s1. */
  ghost predicate Filling(s1: State, sk: State, b: nat, nv: nat, c: Cell) {
    && Sound(sk) && b < s1.next <= sk.next && Agree(s1, sk, b, nv) && b in sk.heap && sk.heap[b] == c
  }

  lemma {:induction false} FillingStart(st: State, dst: Place, src: Place, lim: nat, nv: nat, c: Cell, s1: State)
    requires Grown(st, dst, src, lim, nv, c, s1)
    ensures Filling(s1, s1, st.next, nv, c)
  {
    hide Write, Below, Read;
  }

  /** What stays readable while the cell is being filled. */
  lemma {:induction false} FillingReads(st: State, dst: Place, src: Place, lim: nat, nv: nat, c: Cell, s1: State,
                                        sk: State, d: Cell)
    requires Grown(st, dst, src, lim, nv, c, s1) && Filling(s1, sk, st.next, nv, d)
    ensures Read(sk, dst) == Some(Ref(st.next)) && Below(sk, dst, st.next)
    ensures Read(sk, src) == Read(st, src) && Below(sk, src, lim)
    ensures forall a: nat :: a < lim ==> a in st.heap && a in sk.heap && sk.heap[a] == st.heap[a]
  {
    hide Write, Below, Read;
    ReadFrame(s1, sk, dst, st.next, nv);
    AgreeLess(s1, sk, st.next, lim, nv);
    ReadFrame(s1, sk, src, lim, nv);
  }

  /** The elements copied so far, and the zeros after them. */
  ghost predicate CopiedElems(p: Package, e: GoType, ts: seq<Tree>, k: nat, heap: Heap, ws: seq<Value>, lo: nat,
                              hi: nat)
    requires forall i :: 0 <= i < |ts| ==> HasType(p, e, ts[i])
  {
    && |ws| == |ts|
    && (forall i :: 0 <= i < k && i < |ts| ==> Shape(heap, ws[i], Copied(p, e, ts[i], true))
                                               && Within(heap, ws[i], Copied(p, e, ts[i], true), lo, hi))
    && (forall i :: k <= i < |ts| ==> ws[i] == Zero(p, e))
  }

  lemma {:induction false} SliceOk(p: Package, fuel: nat, e: GoType, t: Tree, zeroed: bool, st: State, dst: Place,
                                   src: Place, lim: nat, nv: nat)
    returns (su: State, w: Value)
    requires Copies(p, Slice(e), t, zeroed, st, dst, src, lim, nv) && Fits(t, fuel)
    requires t.TMany? && NeedsClone(p, e)
    ensures Exec(p, fuel, EmitAssign(p, Slice(e), dst, src, nv).0, st) == Some(su)
    ensures Done(st, dst, nv, su, w, Copied(p, Slice(e), t, zeroed))
    decreases t, 2, 0
  {
    hide Exec, Done, Write, Below, Agree, Steady, Grown, Filling, CopiedElems, Within;
    var v, b := Read(st, src).value, st.next;
    var vs := st.heap[v.a].vs;
    var zeros := Zeros(p, e, |vs|);
    var index := Tmp("i", nv + 1);
    var body := EmitAssign(p, e, At(dst, index), At(src, index), nv + 1).0;
    var make, loop := MakeSlice(dst, e, src), RangeSlice(index, src, body);
    var s1 := GrowOk(st, dst, src, lim, nv, Many(zeros));
    RefWithin(st.heap, v, t, 0, lim);
    RunIfNotNil(p, fuel, src, Seq(make, loop), st);
    RunMakeSlice(p, fuel, dst, e, src, st, vs);
    RunSeq(p, fuel, make, loop, st, s1);
    DeepAfter(st, dst, src, lim, nv, Many(zeros), s1, v.a);
    RunRangeSlice(p, fuel, index, src, body, s1, vs);
    FillingStart(st, dst, src, lim, nv, Many(zeros), s1);
    assert CopiedElems(p, e, t.ts, 0, s1.heap, zeros, b + 1, s1.next) by {
      ZerosCopied(p, e, t.ts, s1.heap, zeros, b + 1, s1.next);
    }
    var ws;
    su, ws := LoopSliceOk(p, fuel, e, t, zeroed, st, dst, src, lim, nv, s1, zeros, 0, s1, zeros);
    w := Ref(b);
    SliceDone(p, e, t, st, dst, src, lim, nv, Many(zeros), s1, su, ws);
    assert Copied(p, Slice(e), t, zeroed) == CopiedMany(p, e, t);
  }

  lemma {:induction false} RefWithin(h: Heap, v: Value, t: Tree, lo: nat, hi: nat)
    requires (t.TMany? || t.TTable?) && Shape(h, v, t) && Within(h, v, t, lo, hi)
    ensures v.Ref? && lo <= v.a < hi
  {
  }

  lemma {:induction false} ZerosCopied(p: Package, e: GoType, ts: seq<Tree>, heap: Heap, ws: seq<Value>, lo: nat,
                                       hi: nat)
    requires forall i :: 0 <= i < |ts| ==> HasType(p, e, ts[i])
    requires |ws| == |ts| && forall i :: 0 <= i < |ws| ==> ws[i] == Zero(p, e)
    ensures CopiedElems(p, e, ts, 0, heap, ws, lo, hi)
  {
  }

  lemma {:induction false} RunRangeSlice(p: Package, fuel: nat, index: Name, src: Place, body: Stmt, st: State,
                                         vs: seq<Value>)
    requires Deep(st, src) == Some(Many(vs))
    ensures Exec(p, fuel, RangeSlice(index, src, body), st) == LoopSlice(p, fuel, index, body, 0, |vs|, st)
  {
  }

  ghost function CopiedMany(p: Package, e: GoType, t: Tree): (r: Tree)
    requires t.TMany? && forall i :: 0 <= i < |t.ts| ==> HasType(p, e, t.ts[i])
    ensures r.TMany? && |r.ts| == |t.ts| && forall i :: 0 <= i < |t.ts| ==> r.ts[i] == Copied(p, e, t.ts[i], true)
  {
    TMany(seq(|t.ts|, i requires 0 <= i < |t.ts| => Copied(p, e, t.ts[i], true)))
  }

  lemma {:induction false} SliceDone(p: Package, e: GoType, t: Tree, st: State, dst: Place, src: Place, lim: nat,
                                     nv: nat, c: Cell, s1: State, su: State, ws: seq<Value>)
    requires t.TMany? && forall i :: 0 <= i < |t.ts| ==> HasType(p, e, t.ts[i])
    requires Grown(st, dst, src, lim, nv, c, s1) && Filling(s1, su, st.next, nv, Many(ws))
    requires CopiedElems(p, e, t.ts, |t.ts|, su.heap, ws, st.next + 1, su.next)
    ensures Done(st, dst, nv, su, Ref(st.next), CopiedMany(p, e, t))
  {
    hide Write, Below, Read, Agree, Done, Copied;
    var r := CopiedMany(p, e, t);
    forall i | 0 <= i < |r.ts| ensures Shape(su.heap, ws[i], r.ts[i])
      && Within(su.heap, ws[i], r.ts[i], st.next, su.next) {
      WithinWider(su.heap, ws[i], r.ts[i], st.next + 1, su.next, st.next, su.next);
    }
    assert Shape(su.heap, Ref(st.next), r);
    assert Within(su.heap, Ref(st.next), r, st.next, su.next);
    CellDone(st, dst, src, lim, nv, c, s1, su, r);
  }

  /** The loop from element k on, when those before are already copied. */
  lemma {:induction false} LoopSliceOk(p: Package, fuel: nat, e: GoType, t: Tree, zeroed: bool, st: State, dst: Place,
                                       src: Place, lim: nat, nv: nat, s1: State, zeros: seq<Value>, k: nat, sk: State,
                                       ws: seq<Value>)
    returns (su: State, us: seq<Value>)
    requires Copies(p, Slice(e), t, zeroed, st, dst, src, lim, nv) && Fits(t, fuel) && t.TMany? && k <= |t.ts|
    requires Grown(st, dst, src, lim, nv, Many(zeros), s1) && Filling(s1, sk, st.next, nv, Many(ws))
    requires CopiedElems(p, e, t.ts, k, sk.heap, ws, st.next + 1, sk.next)
    ensures LoopSlice(p, fuel, Tmp("i", nv + 1),
                      EmitAssign(p, e, At(dst, Tmp("i", nv + 1)), At(src, Tmp("i", nv + 1)), nv + 1).0, k, |t.ts|,
                      sk) == Some(su)
    ensures Filling(s1, su, st.next, nv, Many(us)) && CopiedElems(p, e, t.ts, |t.ts|, su.heap, us, st.next + 1, su.next)
    decreases t, 1, |t.ts| - k
  {
    hide Exec, Copies, Fits, Grown, Filling, CopiedElems;
    if k == |t.ts| {
      su, us := sk, ws;
    } else {
      var index := Tmp("i", nv + 1);
      var body := EmitAssign(p, e, At(dst, index), At(src, index), nv + 1).0;
      var x, sj := ElemOk(p, fuel, e, t, zeroed, st, dst, src, lim, nv, s1, zeros, k, sk, ws);
      su, us := LoopSliceOk(p, fuel, e, t, zeroed, st, dst, src, lim, nv, s1, zeros, k + 1, sj, ws[k := x]);
    }
  }

  /** One turn of the loop. */
  lemma {:induction false} ElemOk(p: Package, fuel: nat, e: GoType, t: Tree, zeroed: bool, st: State, dst: Place,
                                  src: Place, lim: nat, nv: nat, s1: State, zeros: seq<Value>, k: nat, sk: State,
                                  ws: seq<Value>)
    returns (x: Value, sj: State)
    requires Copies(p, Slice(e), t, zeroed, st, dst, src, lim, nv) && Fits(t, fuel) && t.TMany? && k < |t.ts|
    requires Grown(st, dst, src, lim, nv, Many(zeros), s1) && Filling(s1, sk, st.next, nv, Many(ws))
    requires CopiedElems(p, e, t.ts, k, sk.heap, ws, st.next + 1, sk.next)
    ensures |ws| == |t.ts|
    ensures Exec(p, fuel, EmitAssign(p, e, At(dst, Tmp("i", nv + 1)), At(src, Tmp("i", nv + 1)), nv + 1).0,
                 sk.(vars := sk.vars[Tmp("i", nv + 1) := Scalar(k)])) == Some(sj)
    ensures Filling(s1, sj, st.next, nv, Many(ws[k := x]))
    ensures CopiedElems(p, e, t.ts, k + 1, sj.heap, ws[k := x], st.next + 1, sj.next)
    decreases t, 0, 0
  {
    hide Exec, Grown, Filling, Copies, EmitAssign, Done, CopiedElems, Fits;
    var index := Tmp("i", nv + 1);
    var si := sk.(vars := sk.vars[index := Scalar(k)]);
    assert Fits(t.ts[k], fuel) by { ElemFits(t, k, fuel); }
    ElemReady(p, e, t, zeroed, st, dst, src, lim, nv, s1, zeros, k, sk, ws, si);
    sj, x := AssignOk(p, fuel, e, t.ts[k], true, si, At(dst, index), At(src, index), lim, nv + 1);
    ElemDone(p, e, t, zeroed, st, dst, src, lim, nv, s1, zeros, k, sk, ws, si, sj, x);
  }

  lemma {:induction false} ElemFits(t: Tree, k: nat, fuel: nat)
    requires Fits(t, fuel) && t.TMany? && k < |t.ts|
    ensures Fits(t.ts[k], fuel)
  {
    FitsMore(t.ts[k], fuel - 1, fuel);
  }

  lemma {:induction false} ElemReady(p: Package, e: GoType, t: Tree, zeroed: bool, st: State, dst: Place, src: Place,
                                     lim: nat, nv: nat, s1: State, zeros: seq<Value>, k: nat, sk: State, ws: seq<Value>,
                                     si: State)
    requires Copies(p, Slice(e), t, zeroed, st, dst, src, lim, nv) && t.TMany? && k < |t.ts|
    requires Grown(st, dst, src, lim, nv, Many(zeros), s1) && Filling(s1, sk, st.next, nv, Many(ws))
    requires CopiedElems(p, e, t.ts, k, sk.heap, ws, st.next + 1, sk.next)
    requires si == sk.(vars := sk.vars[Tmp("i", nv + 1) := Scalar(k)])
    ensures HasType(p, e, t.ts[k])
    ensures Copies(p, e, t.ts[k], true, si, At(dst, Tmp("i", nv + 1)), At(src, Tmp("i", nv + 1)), lim, nv + 1)
  {
    hide Write, Copied, Agree, Valid, Shape, Within;
    var b, v := st.next, Read(st, src).value;
    assert Sound(si) && b < si.next && b in si.heap && si.heap[b] == Many(ws) && lim <= b;
    assert ws[k] == Zero(p, e);
    FillingReads(st, dst, src, lim, nv, Many(zeros), s1, sk, Many(ws));
    IndexSet(sk, dst, b, nv, k);
    IndexSet(sk, src, lim, nv, k);
    RefWithin(st.heap, v, t, 0, lim);
    ShapeFrame(st.heap, si.heap, v, t, 0, lim);
    ElemShape(si.heap, v, t, k, lim);
    AtReady(si, dst, src, b, nv, k, lim, v.a);
  }

  lemma {:induction false} ElemShape(h: Heap, v: Value, t: Tree, k: nat, lim: nat)
    requires t.TMany? && k < |t.ts| && Shape(h, v, t) && Within(h, v, t, 0, lim)
    ensures |h[v.a].vs| == |t.ts| && h[v.a].Many?
    ensures Shape(h, h[v.a].vs[k], t.ts[k]) && Within(h, h[v.a].vs[k], t.ts[k], 0, lim)
  {
  }

  /** Element k on both sides. */
  lemma {:induction false} AtReady(si: State, dst: Place, src: Place, b: nat, nv: nat, k: nat, lim: nat, a: nat)
    requires Sound(si) && b < si.next && lim <= b && a < lim
    requires Read(si, dst) == Some(Ref(b)) && Below(si, dst, b) && Named(dst, nv)
    requires Read(si, src) == Some(Ref(a)) && Below(si, src, lim) && Named(src, nv)
    requires Tmp("i", nv + 1) in si.vars && si.vars[Tmp("i", nv + 1)] == Scalar(k)
    requires si.heap[b].Many? && k < |si.heap[b].vs| && si.heap[a].Many? && k < |si.heap[a].vs|
    ensures Ready(si, At(dst, Tmp("i", nv + 1)), At(src, Tmp("i", nv + 1)), lim, nv + 1)
    ensures Read(si, At(dst, Tmp("i", nv + 1))) == Some(si.heap[b].vs[k])
    ensures Read(si, At(src, Tmp("i", nv + 1))) == Some(si.heap[a].vs[k])
  {
    NamedAt(dst, nv);
    NamedAt(src, nv);
    assert BaseOf(si, At(dst, Tmp("i", nv + 1))) == OnHeap(b);
  }

  lemma {:induction false} NamedAt(pl: Place, nv: nat)
    requires Named(pl, nv)
    ensures Named(At(pl, Tmp("i", nv + 1)), nv + 1)
  {
    var at, more := Vars(At(pl, Tmp("i", nv + 1))), nv + 1;
    forall x | x in at ensures !Later(x, more) {
      assert x in Vars(pl) ==> !Later(x, nv);
    }
  }

  lemma {:induction false} IndexSet(sk: State, pl: Place, lim: nat, nv: nat, k: nat)
    requires Below(sk, pl, lim) && Named(pl, nv)
    ensures var si := sk.(vars := sk.vars[Tmp("i", nv + 1) := Scalar(k)]);
            Read(si, pl) == Read(sk, pl) && Below(si, pl, lim)
  {
    hide Below, Read;
    ReadFrame(sk, sk.(vars := sk.vars[Tmp("i", nv + 1) := Scalar(k)]), pl, lim, nv);
  }

  lemma {:induction false} ElemDone(p: Package, e: GoType, t: Tree, zeroed: bool, st: State, dst: Place, src: Place,
                                    lim: nat, nv: nat, s1: State, zeros: seq<Value>, k: nat, sk: State, ws: seq<Value>,
                                    si: State, sj: State, x: Value)
    requires Copies(p, Slice(e), t, zeroed, st, dst, src, lim, nv) && t.TMany? && k < |t.ts|
    requires Grown(st, dst, src, lim, nv, Many(zeros), s1) && Filling(s1, sk, st.next, nv, Many(ws))
    requires CopiedElems(p, e, t.ts, k, sk.heap, ws, st.next + 1, sk.next)
    requires si == sk.(vars := sk.vars[Tmp("i", nv + 1) := Scalar(k)])
    requires HasType(p, e, t.ts[k]) && Done(si, At(dst, Tmp("i", nv + 1)), nv + 1, sj, x, Copied(p, e, t.ts[k], true))
    ensures |ws| == |t.ts| && Filling(s1, sj, st.next, nv, Many(ws[k := x]))
    ensures CopiedElems(p, e, t.ts, k + 1, sj.heap, ws[k := x], st.next + 1, sj.next)
  {
    hide Write, Copied, Copies, Grown, Filling, Below, Read, Shape, Within, Effect;
    var b := st.next;
    assert forall i :: 0 <= i < |t.ts| ==> HasType(p, e, t.ts[i]) by {
      ElemTypes(p, e, t, zeroed, st, dst, src, lim, nv);
    }
    ElemFilled(st, dst, src, lim, nv, s1, zeros, k, sk, ws, si, sj, x);
    GrowElems(p, e, t, k, sk.heap, sj.heap, ws, x, b + 1, sk.next, sj.next);
  }

  lemma {:induction false} ElemFilled(st: State, dst: Place, src: Place, lim: nat, nv: nat, s1: State,
                                      zeros: seq<Value>, k: nat, sk: State, ws: seq<Value>, si: State, sj: State,
                                      x: Value)
    requires Grown(st, dst, src, lim, nv, Many(zeros), s1) && Filling(s1, sk, st.next, nv, Many(ws)) && k < |ws|
    requires si == sk.(vars := sk.vars[Tmp("i", nv + 1) := Scalar(k)])
    requires Effect(si, At(dst, Tmp("i", nv + 1)), x, nv + 1, sj)
    ensures Filling(s1, sj, st.next, nv, Many(ws[k := x])) && st.next < sk.next <= sj.next
    ensures forall a: nat :: st.next < a < sk.next && a in sk.heap ==> a in sj.heap && sj.heap[a] == sk.heap[a]
  {
    hide Write, Grown, Below, Read;
    var b := st.next;
    assert Read(si, dst) == Some(Ref(b)) by {
      FillingReads(st, dst, src, lim, nv, Many(zeros), s1, sk, Many(ws));
      assert Named(dst, nv) by { NamedDst(st, dst, src, lim, nv, Many(zeros), s1); }
      IndexSet(sk, dst, b, nv, k);
    }
    ElemAgree(si, dst, nv, k, sj, x, b, ws);
    AgreeStep(s1, sk, si, sj, b, nv);
  }

  lemma {:induction false} ElemTypes(p: Package, e: GoType, t: Tree, zeroed: bool, st: State, dst: Place, src: Place,
                                     lim: nat, nv: nat)
    requires Copies(p, Slice(e), t, zeroed, st, dst, src, lim, nv) && t.TMany?
    ensures forall i :: 0 <= i < |t.ts| ==> HasType(p, e, t.ts[i])
  {
  }

  lemma {:induction false} NamedDst(st: State, dst: Place, src: Place, lim: nat, nv: nat, c: Cell, s1: State)
    requires Grown(st, dst, src, lim, nv, c, s1)
    ensures Named(dst, nv) && Named(src, nv)
  {
  }

  lemma {:induction false} ElemAgree(si: State, dst: Place, nv: nat, k: nat, sj: State, x: Value, b: nat,
                                     ws: seq<Value>)
    requires Read(si, dst) == Some(Ref(b)) && b in si.heap && si.heap[b] == Many(ws) && k < |ws| && b < si.next
    requires Tmp("i", nv + 1) in si.vars && si.vars[Tmp("i", nv + 1)] == Scalar(k)
    requires Effect(si, At(dst, Tmp("i", nv + 1)), x, nv + 1, sj) && Sound(si)
    ensures b in sj.heap && sj.heap[b] == Many(ws[k := x])
    ensures Agree(si, sj, b, nv + 1)
    ensures forall a: nat :: b < a < si.next ==> a in si.heap && a in sj.heap && sj.heap[a] == si.heap[a]
  {
    var pl := At(dst, Tmp("i", nv + 1));
    assert Read(si, pl) == Some(ws[k]);
    assert Write(si, pl, x) == Some(si.(heap := si.heap[b := Many(ws[k := x])]));
  }

  lemma {:induction false} AgreeStep(s1: State, sk: State, si: State, sj: State, b: nat, nv: nat)
    requires Agree(s1, sk, b, nv) && Agree(si, sj, b, nv + 1) && si.heap == sk.heap
    requires forall x :: !Later(x, nv) ==> (x in sk.vars <==> x in si.vars)
    requires forall x :: !Later(x, nv) && x in sk.vars ==> sk.vars[x] == si.vars[x]
    ensures Agree(s1, sj, b, nv)
  {
    assert Agree(sk, si, b, nv);
    AgreeEarlier(si, sj, b, nv, nv + 1);
    AgreeTrans(s1, sk, si, b, nv);
    AgreeTrans(s1, si, sj, b, nv);
  }

  lemma {:induction false} GrowElems(p: Package, e: GoType, t: Tree, k: nat, h: Heap, g: Heap, ws: seq<Value>, x: Value,
                                     lo: nat, mid: nat, hi: nat)
    requires t.TMany? && k < |t.ts| && forall i :: 0 <= i < |t.ts| ==> HasType(p, e, t.ts[i])
    requires CopiedElems(p, e, t.ts, k, h, ws, lo, mid) && lo <= mid <= hi
    requires forall a: nat :: lo <= a < mid && a in h ==> a in g && g[a] == h[a]
    requires Shape(g, x, Copied(p, e, t.ts[k], true)) && Within(g, x, Copied(p, e, t.ts[k], true), mid, hi)
    ensures CopiedElems(p, e, t.ts, k + 1, g, ws[k := x], lo, hi)
  {
    hide Copied, Shape, Within;
    WithinWider(g, x, Copied(p, e, t.ts[k], true), mid, hi, lo, hi);
    forall i | 0 <= i < k
      ensures Shape(g, ws[i], Copied(p, e, t.ts[i], true)) && Within(g, ws[i], Copied(p, e, t.ts[i], true), lo, hi)
    {
      ShapeFrame(h, g, ws[i], Copied(p, e, t.ts[i], true), lo, mid);
      WithinWider(g, ws[i], Copied(p, e, t.ts[i], true), lo, mid, lo, hi);
    }
  }

  // ---------------------------------------------------------------- a value copied into a declared variable

  /** After var cloned T, the copy of value into cloned: the variable, and nothing else that was there, changes. */
  ghost predicate Declared(s0: State, cloned: Name, nv: nat, su: State, x: Value) {
    && Sound(su) && s0.next <= su.next
    && cloned in su.vars && su.vars[cloned] == x
    && (forall y :: !Later(y, nv) && y != cloned ==>
          (y in s0.vars <==> y in su.vars) && (y in s0.vars ==> su.vars[y] == s0.vars[y]))
    && (forall a: nat :: a < s0.next ==> a in s0.heap && a in su.heap && su.heap[a] == s0.heap[a])
  }

  lemma {:induction false} DeclaredOk(p: Package, fuel: nat, e: GoType, t: Tree, s0: State, cloned: Name, value: Name,
                                      lim: nat, nv: nat, last: Stmt)
    returns (su: State, x: Value)
    requires Valid(p) && Accepts(p, e) && HasType(p, e, t) && Fits(t, fuel)
    requires Sound(s0) && lim <= s0.next && value in s0.vars && cloned != value && !Later(cloned, nv)
             && !Later(value, nv)
    requires Shape(s0.heap, s0.vars[value], t) && Within(s0.heap, s0.vars[value], t, 0, lim)
    ensures Exec(p, fuel, Seq(Declare(cloned, e), Seq(EmitAssign(p, e, Var(cloned), Var(value), nv).0, last)), s0)
            == Exec(p, fuel, last, su)
    ensures Declared(s0, cloned, nv, su, x)
    ensures Shape(su.heap, x, Copied(p, e, t, true)) && Within(su.heap, x, Copied(p, e, t, true), s0.next, su.next)
    decreases t, 4, 0
  {
    hide Exec, EmitAssign, Shape, Within, Fits, HasType, Accepts, Valid, Copied;
    var body := EmitAssign(p, e, Var(cloned), Var(value), nv).0;
    var s1 := s0.(vars := s0.vars[cloned := Zero(p, e)]);
    RunDeclare(p, fuel, cloned, e, s0);
    RunSeq(p, fuel, Declare(cloned, e), Seq(body, last), s0, s1);
    assert Read(s1, Var(cloned)) == Some(Zero(p, e)) && Read(s1, Var(value)) == Some(s0.vars[value]);
    assert Copies(p, e, t, true, s1, Var(cloned), Var(value), lim, nv);
    su, x := AssignOk(p, fuel, e, t, true, s1, Var(cloned), Var(value), lim, nv);
    RunSeq(p, fuel, body, last, s1, su);
    assert Write(s1, Var(cloned), x) == Some(s0.(vars := s1.vars[cloned := x]));
  }

  lemma {:induction false} RunDeclare(p: Package, fuel: nat, x: Name, e: GoType, st: State)
    ensures Exec(p, fuel, Declare(x, e), st) == Some(st.(vars := st.vars[x := Zero(p, e)]))
  {
  }

  // ---------------------------------------------------------------- optional values

  lemma {:induction false} OptionalOk(p: Package, fuel: nat, e: GoType, t: Tree, zeroed: bool, st: State, dst: Place,
                                      src: Place, lim: nat, nv: nat)
    returns (su: State, w: Value)
    requires Copies(p, Optional(e), t, zeroed, st, dst, src, lim, nv) && Fits(t, fuel)
    ensures Exec(p, fuel, EmitAssign(p, Optional(e), dst, src, nv).0, st) == Some(su)
    ensures Done(st, dst, nv, su, w, Copied(p, Optional(e), t, zeroed))
    decreases t, 2, 0
  {
    hide Exec, Done, Below, Agree, Steady, Write, Declared, Within;
    var value, ok, cloned := Tmp("value", nv + 1), Tmp("ok", nv + 2), Tmp("cloned", nv + 3);
    var body := EmitAssign(p, e, Var(cloned), Var(value), nv + 3).0;
    var v := Read(st, src).value;
    RunIfGet(p, fuel, value, ok, src, Seq(Declare(cloned, e), Seq(body, SetSome(dst, cloned))), st);
    if t.TPresent? {
      var s0 := st.(vars := st.vars[value := v.v][ok := Scalar(1)]);
      PresentWithin(st.heap, v, t, lim);
      FitsMore(t.t, fuel - 1, fuel);
      var sm, x := DeclaredOk(p, fuel, e, t.t, s0, cloned, value, lim, nv + 3, SetSome(dst, cloned));
      var c := Copied(p, e, t.t, true);
      w := Present(x);
      PresentAgree(st, s0, v.v, nv, sm, x);
      assert Shape(sm.heap, w, TPresent(c)) && Within(sm.heap, w, TPresent(c), st.next, sm.next) by {
        PresentCopy(sm.heap, x, c, st.next, sm.next);
      }
      FinishOk(st, sm, dst, nv, w, TPresent(c));
      su := Write(sm, dst, w).value;
      RunSetSome(p, fuel, dst, cloned, sm, x);
    } else {
      su, w := st, Read(st, dst).value;
      KeepOk(st, dst, nv, Copied(p, Optional(e), t, zeroed));
    }
  }

  lemma {:induction false} PresentWithin(h: Heap, v: Value, t: Tree, lim: nat)
    requires t.TPresent? && Shape(h, v, t) && Within(h, v, t, 0, lim)
    ensures v.Present? && Shape(h, v.v, t.t) && Within(h, v.v, t.t, 0, lim)
  {
  }

  lemma {:induction false} PresentCopy(h: Heap, x: Value, c: Tree, lo: nat, hi: nat)
    requires Shape(h, x, c) && Within(h, x, c, lo, hi)
    ensures Shape(h, Present(x), TPresent(c)) && Within(h, Present(x), TPresent(c), lo, hi)
  {
  }

  lemma {:induction false} PresentAgree(st: State, s0: State, v: Value, nv: nat, su: State, x: Value)
    requires s0 == st.(vars := st.vars[Tmp("value", nv + 1) := v][Tmp("ok", nv + 2) := Scalar(1)]) && Sound(st)
    requires Declared(s0, Tmp("cloned", nv + 3), nv + 3, su, x)
    ensures Agree(st, su, st.next, nv) && st.next <= su.next && Sound(su)
    ensures Tmp("cloned", nv + 3) in su.vars && su.vars[Tmp("cloned", nv + 3)] == x
  {
  }

  lemma {:induction false} RunIfGet(p: Package, fuel: nat, value: Name, ok: Name, src: Place, body: Stmt, st: State)
    requires Read(st, src).Some?
    ensures var v := Read(st, src).value;
            && (v.Present? ==> Exec(p, fuel, IfGet(value, ok, src, body), st) ==
                               Exec(p, fuel, body, st.(vars := st.vars[value := v.v][ok := Scalar(1)])))
            && (v.Absent? || v.Null? ==> Exec(p, fuel, IfGet(value, ok, src, body), st) == Some(st))
  {
  }

  lemma {:induction false} RunSetSome(p: Package, fuel: nat, dst: Place, x: Name, st: State, v: Value)
    requires x in st.vars && st.vars[x] == v
    ensures Exec(p, fuel, SetSome(dst, x), st) == Write(st, dst, Present(v))
  {
  }

  // ---------------------------------------------------------------- maps

  /** The image of one map value: copied, or itself when its type holds no reference. */
  ghost function Image(p: Package, e: GoType, t: Tree): Tree
    requires HasType(p, e, t)
  {
    if NeedsClone(p, e) then Copied(p, e, t, true) else t
  }

  ghost function CopiedTable(p: Package, e: GoType, t: Tree): (r: Tree)
    requires t.TTable? && forall k :: k in t.m ==> HasType(p, e, t.m[k])
    ensures r.TTable? && r.m.Keys == t.m.Keys && forall k :: k in t.m ==> r.m[k] == Image(p, e, t.m[k])
  {
    TTable(map k | k in t.m :: Image(p, e, t.m[k]))
  }

  lemma {:induction false} TableIs(p: Package, e: GoType, t: Tree, zeroed: bool)
    requires t.TTable? && HasType(p, MapOf(e), t)
    ensures Copied(p, MapOf(e), t, zeroed) == CopiedTable(p, e, t)
  {
    var r := CopiedTable(p, e, t);
    var c := Copied(p, MapOf(e), t, zeroed);
    assert c.m == r.m;
  }

  /** The keys copied so far. */
  ghost predicate CopiedKeys(p: Package, e: GoType, m: map<string, Tree>, done: set<string>, heap: Heap, wm: map<string,
                             Value>, lo: nat, hi: nat)
    requires forall k :: k in m ==> HasType(p, e, m[k])
  {
    && wm.Keys == done && done <= m.Keys
    && forall k :: k in wm ==> Shape(heap, wm[k], Image(p, e, m[k])) && Within(heap, wm[k], Image(p, e, m[k]), lo, hi)
  }

  ghost function KeysOf(ks: seq<string>): set<string> { set k | k in ks }

  lemma {:induction false} OrderCovers(p: Package, st: State, keys: set<string>)
    ensures KeysOf(Order(p, st, keys)) == keys
  {
    ListedCovers(keys);
  }

  lemma {:induction false} ListedCovers(keys: set<string>)
    ensures KeysOf(Listed(keys)) == keys
  {
    if keys != {} {
      var k := Pick(keys);
      ListedCovers(keys - {k});
      assert KeysOf(Listed(keys)) == {k} + KeysOf(Listed(keys - {k}));
    }
  }

  function KeyOf(nv: nat): Name { Tmp("key", nv + 1) }

  function ValueOf(nv: nat): Name { Tmp("value", nv + 2) }

  function ClonedOf(nv: nat): Name { Tmp("cloned", nv + 3) }

  /** The body of the loop over a map. */
  function MapBody(p: Package, e: GoType, dst: Place, nv: nat): Stmt {
    if NeedsClone(p, e) then
      Seq(Declare(ClonedOf(nv), e),
          Seq(EmitAssign(p, e, Var(ClonedOf(nv)), Var(ValueOf(nv)), nv + 3).0, SetKey(dst, KeyOf(nv), ClonedOf(nv))))
    else SetKey(dst, KeyOf(nv), ValueOf(nv))
  }

  lemma {:induction false} EmitMap(p: Package, e: GoType, dst: Place, src: Place, nv: nat)
    ensures EmitAssign(p, MapOf(e), dst, src, nv).0 ==
            IfNotNil(src, Seq(MakeMap(dst, src), RangeMap(KeyOf(nv), ValueOf(nv), src, MapBody(p, e, dst, nv))))
  {
  }

  lemma {:induction false} MapOk(p: Package, fuel: nat, e: GoType, t: Tree, zeroed: bool, st: State, dst: Place,
                                 src: Place, lim: nat, nv: nat)
    returns (su: State, w: Value)
    requires Copies(p, MapOf(e), t, zeroed, st, dst, src, lim, nv) && Fits(t, fuel)
    requires t.TTable?
    ensures Exec(p, fuel, EmitAssign(p, MapOf(e), dst, src, nv).0, st) == Some(su)
    ensures Done(st, dst, nv, su, w, Copied(p, MapOf(e), t, zeroed))
    decreases t, 2, 0
  {
    hide Exec, EmitAssign, MapBody, Done, Write, Below, Agree, Steady, Grown, Filling, CopiedKeys, Within, Copied,
         Order, Fits;
    var v, b := Read(st, src).value, st.next;
    var m := st.heap[v.a].m;
    var make, loop := MakeMap(dst, src), RangeMap(KeyOf(nv), ValueOf(nv), src, MapBody(p, e, dst, nv));
    var s1 := GrowOk(st, dst, src, lim, nv, Table(map[]));
    EmitMap(p, e, dst, src, nv);
    RefWithin(st.heap, v, t, 0, lim);
    RunIfNotNil(p, fuel, src, Seq(make, loop), st);
    RunMakeMap(p, fuel, dst, src, st);
    RunSeq(p, fuel, make, loop, st, s1);
    DeepAfter(st, dst, src, lim, nv, Table(map[]), s1, v.a);
    RunRangeMap(p, fuel, KeyOf(nv), ValueOf(nv), src, MapBody(p, e, dst, nv), s1, m);
    FillingStart(st, dst, src, lim, nv, Table(map[]), s1);
    OrderCovers(p, s1, m.Keys);
    NoKeys(p, e, t.m, s1.heap, b + 1, s1.next);
    var wm;
    su, wm := LoopMapOk(p, fuel, e, t, zeroed, st, dst, src, lim, nv, s1, m, Order(p, s1, m.Keys), {}, s1, map[]);
    w := Ref(b);
    MapDone(p, e, t, st, dst, src, lim, nv, s1, su, wm);
    TableIs(p, e, t, zeroed);
  }

  lemma {:induction false} RunMakeMap(p: Package, fuel: nat, dst: Place, src: Place, st: State)
    ensures Exec(p, fuel, MakeMap(dst, src), st) == Write(Alloc(st, Table(map[])), dst, Ref(st.next))
  {
  }

  lemma {:induction false} RunRangeMap(p: Package, fuel: nat, key: Name, value: Name, src: Place, body: Stmt, st: State,
                                       m: map<string, Value>)
    requires Deep(st, src) == Some(Table(m))
    ensures Exec(p, fuel, RangeMap(key, value, src, body), st)
            == LoopMap(p, fuel, key, value, body, m, Order(p, st, m.Keys), st)
  {
  }

  lemma {:induction false} NoKeys(p: Package, e: GoType, m: map<string, Tree>, heap: Heap, lo: nat, hi: nat)
    requires forall k :: k in m ==> HasType(p, e, m[k])
    ensures CopiedKeys(p, e, m, {}, heap, map[], lo, hi)
  {
  }

  lemma {:induction false} MapDone(p: Package, e: GoType, t: Tree, st: State, dst: Place, src: Place, lim: nat, nv: nat,
                                   s1: State, su: State, wm: map<string, Value>)
    requires t.TTable? && forall k :: k in t.m ==> HasType(p, e, t.m[k])
    requires Grown(st, dst, src, lim, nv, Table(map[]), s1) && Filling(s1, su, st.next, nv, Table(wm))
    requires CopiedKeys(p, e, t.m, t.m.Keys, su.heap, wm, st.next + 1, su.next)
    ensures Done(st, dst, nv, su, Ref(st.next), CopiedTable(p, e, t))
  {
    hide Write, Below, Read, Agree, Done, Image, Shape, Within, CopiedKeys, CopiedTable, Grown, HasType;
    TableShape(p, e, t, su.heap, wm, st.next, su.next);
    CellDone(st, dst, src, lim, nv, Table(map[]), s1, su, CopiedTable(p, e, t));
  }

  lemma {:induction false} TableShape(p: Package, e: GoType, t: Tree, heap: Heap, wm: map<string, Value>, b: nat,
                                      hi: nat)
    requires t.TTable? && forall k :: k in t.m ==> HasType(p, e, t.m[k])
    requires CopiedKeys(p, e, t.m, t.m.Keys, heap, wm, b + 1, hi) && b in heap && heap[b] == Table(wm) && b < hi
    ensures Shape(heap, Ref(b), CopiedTable(p, e, t)) && Within(heap, Ref(b), CopiedTable(p, e, t), b, hi)
  {
    hide Image, HasType;
    var r := CopiedTable(p, e, t);
    forall k | k in r.m ensures Shape(heap, wm[k], r.m[k]) && Within(heap, wm[k], r.m[k], b, hi) {
      WithinWider(heap, wm[k], r.m[k], b + 1, hi, b, hi);
    }
  }

  /** The loop over the keys ks, when those in done are already copied. */
  lemma {:induction false} LoopMapOk(p: Package, fuel: nat, e: GoType, t: Tree, zeroed: bool, st: State, dst: Place,
                                     src: Place, lim: nat, nv: nat, s1: State, m: map<string, Value>, ks: seq<string>,
                                     done: set<string>, sk: State, wm: map<string, Value>)
    returns (su: State, um: map<string, Value>)
    requires Copies(p, MapOf(e), t, zeroed, st, dst, src, lim, nv) && Fits(t, fuel) && t.TTable?
    requires Read(st, src).value.a in st.heap && st.heap[Read(st, src).value.a] == Table(m)
    requires Grown(st, dst, src, lim, nv, Table(map[]), s1) && Filling(s1, sk, st.next, nv, Table(wm))
    requires CopiedKeys(p, e, t.m, done, sk.heap, wm, st.next + 1, sk.next)
    requires done + KeysOf(ks) == t.m.Keys == m.Keys
    ensures LoopMap(p, fuel, KeyOf(nv), ValueOf(nv), MapBody(p, e, dst, nv), m, ks, sk) == Some(su)
    ensures Filling(s1, su, st.next, nv, Table(um))
            && CopiedKeys(p, e, t.m, t.m.Keys, su.heap, um, st.next + 1, su.next)
    decreases t, 1, |ks|
  {
    hide Exec, Copies, Fits, Grown, Filling, CopiedKeys, MapBody;
    if ks == [] {
      assert done == t.m.Keys;
      su, um := sk, wm;
    } else {
      assert KeysOf(ks) == {ks[0]} + KeysOf(ks[1..]);
      var x, sj := KeyOk(p, fuel, e, t, zeroed, st, dst, src, lim, nv, s1, m, ks[0], done, sk, wm);
      su, um := LoopMapOk(p, fuel, e, t, zeroed, st, dst, src, lim, nv, s1, m, ks[1..], done + {ks[0]}, sj,
                          wm[ks[0] := x]);
    }
  }

  /** The state in which the body runs for one key. */
  function AtKey(sk: State, nv: nat, k: string, v: Value): State {
    sk.(vars := sk.vars[KeyOf(nv) := Text(k)][ValueOf(nv) := v])
  }

  /** One turn of the loop. */
  lemma {:induction false} KeyOk(p: Package, fuel: nat, e: GoType, t: Tree, zeroed: bool, st: State, dst: Place,
                                 src: Place, lim: nat, nv: nat, s1: State, m: map<string, Value>, k: string,
                                 done: set<string>, sk: State, wm: map<string, Value>)
    returns (x: Value, sj: State)
    requires Copies(p, MapOf(e), t, zeroed, st, dst, src, lim, nv) && Fits(t, fuel) && t.TTable?
    requires Read(st, src).value.a in st.heap && st.heap[Read(st, src).value.a] == Table(m)
    requires Grown(st, dst, src, lim, nv, Table(map[]), s1) && Filling(s1, sk, st.next, nv, Table(wm))
    requires CopiedKeys(p, e, t.m, done, sk.heap, wm, st.next + 1, sk.next)
    requires k in m && k in t.m
    ensures Exec(p, fuel, MapBody(p, e, dst, nv), AtKey(sk, nv, k, m[k])) == Some(sj)
    ensures Filling(s1, sj, st.next, nv, Table(wm[k := x]))
    ensures CopiedKeys(p, e, t.m, done + {k}, sj.heap, wm[k := x], st.next + 1, sj.next)
    decreases t, 0, 0
  {
    hide Exec, Grown, Filling, Copies, EmitAssign, CopiedKeys, Fits, Declared, Shape, Within, Copied;
    var b := st.next;
    var s0 := AtKey(sk, nv, k, m[k]);
    EntryReady(p, e, t, zeroed, st, dst, src, lim, nv, s1, m, k, sk, wm);
    var sm, from;
    if NeedsClone(p, e) {
      EntryFits(t, k, fuel);
      from := ClonedOf(nv);
      sm, x := DeclaredOk(p, fuel, e, t.m[k], s0, ClonedOf(nv), ValueOf(nv), lim, nv + 3,
                          SetKey(dst, KeyOf(nv), ClonedOf(nv)));
      DeclaredAgree(sk, s0, nv, k, m[k], sm, x);
    } else {
      from, sm, x := ValueOf(nv), s0, m[k];
      NoReferences(p, e, t.m[k], sm.heap, x, sm.heap, s0.next, s0.next);
      PlainAgree(sk, s0, nv, k, m[k]);
    }
    sj := KeyDone(p, e, t, st, dst, src, lim, nv, s1, k, done, sk, wm, sm, from, x);
    RunSetKey(p, fuel, dst, KeyOf(nv), from, sm, b, wm, k, x);
  }

  lemma {:induction false} EntryFits(t: Tree, k: string, fuel: nat)
    requires Fits(t, fuel) && t.TTable? && k in t.m
    ensures Fits(t.m[k], fuel)
  {
    FitsMore(t.m[k], fuel - 1, fuel);
  }

  lemma {:induction false} EntryReady(p: Package, e: GoType, t: Tree, zeroed: bool, st: State, dst: Place, src: Place,
                                      lim: nat, nv: nat, s1: State, m: map<string, Value>, k: string, sk: State,
                                      wm: map<string, Value>)
    requires Copies(p, MapOf(e), t, zeroed, st, dst, src, lim, nv) && t.TTable? && k in m && k in t.m
    requires Read(st, src).value.a in st.heap && st.heap[Read(st, src).value.a] == Table(m)
    requires Grown(st, dst, src, lim, nv, Table(map[]), s1) && Filling(s1, sk, st.next, nv, Table(wm))
    ensures Valid(p) && Accepts(p, e) && forall j :: j in t.m ==> HasType(p, e, t.m[j])
    ensures Sound(sk) && lim <= st.next < sk.next
    ensures Shape(sk.heap, m[k], t.m[k]) && Within(sk.heap, m[k], t.m[k], 0, lim)
  {
    hide Write, Below, Steady, Agree, Valid;
    FillingReads(st, dst, src, lim, nv, Table(map[]), s1, sk, Table(wm));
    ShapeFrame(st.heap, sk.heap, m[k], t.m[k], 0, lim);
  }

  /** sk with later variables set and newer cells added. */
  ghost predicate Further(sk: State, sm: State, nv: nat, k: string, from: Name, x: Value) {
    && Sound(sm) && sk.next <= sm.next && Agree(sk, sm, sk.next, nv)
    && KeyOf(nv) in sm.vars && sm.vars[KeyOf(nv)] == Text(k) && from in sm.vars && sm.vars[from] == x
  }

  lemma {:induction false} DeclaredAgree(sk: State, s0: State, nv: nat, k: string, v: Value, sm: State, x: Value)
    requires s0 == AtKey(sk, nv, k, v) && Sound(sk) && Declared(s0, ClonedOf(nv), nv + 3, sm, x)
    ensures Further(sk, sm, nv, k, ClonedOf(nv), x)
  {
  }

  lemma {:induction false} PlainAgree(sk: State, s0: State, nv: nat, k: string, v: Value)
    requires s0 == AtKey(sk, nv, k, v) && Sound(sk)
    ensures Further(sk, s0, nv, k, ValueOf(nv), v)
  {
  }

  lemma {:induction false} FillingFurther(s1: State, sk: State, sm: State, b: nat, nv: nat, c: Cell, k: string,
                                          from: Name, x: Value, d: Cell)
    requires Filling(s1, sk, b, nv, c) && Further(sk, sm, nv, k, from, x)
    ensures Filling(s1, sm, b, nv, c) && Filling(s1, sm.(heap := sm.heap[b := d]), b, nv, d)
    ensures b in sm.heap && sm.heap[b] == c && b < sk.next <= sm.next
    ensures forall a: nat :: a < sk.next ==> a in sk.heap && a in sm.heap && sm.heap[a] == sk.heap[a]
  {
    AgreeLess(sk, sm, sk.next, b, nv);
    AgreeTrans(s1, sk, sm, b, nv);
  }

  lemma {:induction false} KeyDone(p: Package, e: GoType, t: Tree, st: State, dst: Place, src: Place, lim: nat, nv: nat,
                                   s1: State, k: string, done: set<string>, sk: State, wm: map<string, Value>,
                                   sm: State, from: Name, x: Value)
    returns (sj: State)
    requires t.TTable? && k in t.m && forall j :: j in t.m ==> HasType(p, e, t.m[j])
    requires Grown(st, dst, src, lim, nv, Table(map[]), s1) && Filling(s1, sk, st.next, nv, Table(wm))
    requires CopiedKeys(p, e, t.m, done, sk.heap, wm, st.next + 1, sk.next)
    requires Further(sk, sm, nv, k, from, x)
    requires Shape(sm.heap, x, Image(p, e, t.m[k])) && Within(sm.heap, x, Image(p, e, t.m[k]), sk.next, sm.next)
    ensures Deep(sm, dst) == Some(Table(wm)) && Read(sm, dst) == Some(Ref(st.next))
    ensures sj == sm.(heap := sm.heap[st.next := Table(wm[k := x])])
    ensures Filling(s1, sj, st.next, nv, Table(wm[k := x]))
    ensures CopiedKeys(p, e, t.m, done + {k}, sj.heap, wm[k := x], st.next + 1, sj.next)
  {
    hide Write, Below, Read, Shape, Within, Image, CopiedKeys, HasType, Grown, Filling, Further;
    var b := st.next;
    sj := sm.(heap := sm.heap[b := Table(wm[k := x])]);
    FillingFurther(s1, sk, sm, b, nv, Table(wm), k, from, x, Table(wm[k := x]));
    FillingReads(st, dst, src, lim, nv, Table(map[]), s1, sm, Table(wm));
    ShapeFrame(sm.heap, sj.heap, x, Image(p, e, t.m[k]), sk.next, sm.next);
    GrowKeys(p, e, t.m, k, done, sk.heap, sj.heap, wm, x, b + 1, sk.next, sj.next);
  }

  lemma {:induction false} GrowKeys(p: Package, e: GoType, m: map<string, Tree>, k: string, done: set<string>, h: Heap,
                                    g: Heap, wm: map<string, Value>, x: Value, lo: nat, mid: nat, hi: nat)
    requires k in m && forall j :: j in m ==> HasType(p, e, m[j])
    requires CopiedKeys(p, e, m, done, h, wm, lo, mid) && lo <= mid <= hi
    requires forall a: nat :: lo <= a < mid && a in h ==> a in g && g[a] == h[a]
    requires Shape(g, x, Image(p, e, m[k])) && Within(g, x, Image(p, e, m[k]), mid, hi)
    ensures CopiedKeys(p, e, m, done + {k}, g, wm[k := x], lo, hi)
  {
    hide Image, Shape, Within;
    WithinWider(g, x, Image(p, e, m[k]), mid, hi, lo, hi);
    forall j | j in wm && j != k
      ensures Shape(g, wm[j], Image(p, e, m[j])) && Within(g, wm[j], Image(p, e, m[j]), lo, hi)
    {
      ShapeFrame(h, g, wm[j], Image(p, e, m[j]), lo, mid);
      WithinWider(g, wm[j], Image(p, e, m[j]), lo, mid, lo, hi);
    }
  }

  lemma {:induction false} RunSetKey(p: Package, fuel: nat, dst: Place, key: Name, from: Name, st: State, b: nat,
                                     wm: map<string, Value>, k: string, x: Value)
    requires Deep(st, dst) == Some(Table(wm)) && Read(st, dst) == Some(Ref(b))
    requires key in st.vars && st.vars[key] == Text(k) && from in st.vars && st.vars[from] == x
    ensures Exec(p, fuel, SetKey(dst, key, from), st) == Some(st.(heap := st.heap[b := Table(wm[k := x])]))
  {
  }
}
