/** Which generated structs hold which by value, as a graph, and reachability in it. */
module TypeGraph {

  datatype Kind = EnumKind | StructKind | UnionKind

  datatype FieldVal = FieldVal(name: string, optional: bool, valueType: string, goType: string)

  datatype TypeVal = TypeVal(name: string, kind: Kind, fields: seq<FieldVal>)

  type Links = set<(string, string)>

  ghost function Structs(ts: seq<TypeVal>): set<string> {
    set i | 0 <= i < |ts| && ts[i].kind.StructKind? :: ts[i].name
  }

  /** Field j of type i holds a struct by value. */
  ghost predicate ByValue(ts: seq<TypeVal>, i: int, j: int) {
    0 <= i < |ts| && 0 <= j < |ts[i].fields| && ts[i].fields[j].valueType in Structs(ts)
  }

  ghost predicate Required(ts: seq<TypeVal>, i: int, j: int)
    requires ByValue(ts, i, j)
  {
    !ts[i].fields[j].optional
  }

  ghost function Link(ts: seq<TypeVal>, i: int, j: int): (string, string)
    requires ByValue(ts, i, j)
  {
    (ts[i].name, ts[i].fields[j].valueType)
  }

  /** Every value edge between structs. */
  ghost function Edges(ts: seq<TypeVal>): Links {
    set i, j | 0 <= i < |ts| && 0 <= j < |ts[i].fields| && ByValue(ts, i, j) && ts[i].kind.StructKind? :: Link(ts, i, j)
  }

  /** The edges no rewriting may touch. */
  ghost function RequiredEdges(ts: seq<TypeVal>): Links {
    set i, j | 0 <= i < |ts| && 0 <= j < |ts[i].fields| && ByValue(ts, i, j) && ts[i].kind.StructKind?
      && Required(ts, i, j)
      :: Link(ts, i, j)
  }

  /** The names are the registry's: unique, and a struct's is an identifier, so no pointer type spells one. */
  ghost predicate Registered(ts: seq<TypeVal>) {
    && (forall i, j :: 0 <= i < j < |ts| ==> ts[i].name != ts[j].name)
    && (forall i :: 0 <= i < |ts| && ts[i].kind.StructKind? ==> ts[i].name != "" && ts[i].name[0] != '*')
  }

  // ---------------------------------------------------------------- paths

  ghost predicate IsPath(g: Links, p: seq<string>) {
    p != [] && forall i :: 0 <= i < |p| - 1 ==> (p[i], p[i + 1]) in g
  }

  ghost predicate Joins(g: Links, p: seq<string>, a: string, b: string) {
    IsPath(g, p) && p[0] == a && p[|p| - 1] == b
  }

  ghost predicate Reach(g: Links, a: string, b: string) {
    exists p :: Joins(g, p, a, b)
  }

  /** No edge can be closed to a cycle. */
  ghost predicate Acyclic(g: Links) {
    forall a, b :: (a, b) in g ==> !Reach(g, b, a)
  }

  lemma {:induction false} ReachSelf(g: Links, a: string)
    ensures Reach(g, a, a)
  {
    assert Joins(g, [a], a, a);
  }

  lemma {:induction false} ReachEdge(g: Links, a: string, b: string)
    requires (a, b) in g
    ensures Reach(g, a, b)
  {
    assert Joins(g, [a, b], a, b);
  }

  lemma {:induction false} ReachTrans(g: Links, a: string, b: string, c: string)
    requires Reach(g, a, b) && Reach(g, b, c)
    ensures Reach(g, a, c)
  {
    var p :| Joins(g, p, a, b);
    var q :| Joins(g, q, b, c);
    var r := p + q[1..];
    forall i | 0 <= i < |r| - 1 ensures (r[i], r[i + 1]) in g {
      if i >= |p| - 1 { assert r[i] == q[i - |p| + 1] && r[i + 1] == q[i - |p| + 2]; }
    }
    assert Joins(g, r, a, c);
  }

  lemma {:induction false} ReachMonotone(g: Links, h: Links, a: string, b: string)
    requires Reach(g, a, b) && g <= h
    ensures Reach(h, a, b)
  {
    var p :| Joins(g, p, a, b);
    assert Joins(h, p, a, b);
  }

  lemma {:induction false} AcyclicMonotone(g: Links, h: Links)
    requires g <= h && Acyclic(h)
    ensures Acyclic(g)
  {
    forall a, b | (a, b) in g ensures !Reach(g, b, a) {
      if Reach(g, b, a) { ReachMonotone(g, h, b, a); }
    }
  }

  /** Reachability from a set that no edge leaves stays in the set. */
  lemma {:induction false} ReachStays(g: Links, s: set<string>, a: string, b: string)
    requires Reach(g, a, b) && a in s
    requires forall x, y :: (x, y) in g && x in s ==> y in s
    ensures b in s
  {
    var p :| Joins(g, p, a, b);
    for i := 0 to |p| - 1
      invariant p[i] in s
    {
      assert (p[i], p[i + 1]) in g;
    }
  }

  /** On a cycle every edge closes one: if b leads back to a, each edge of the way leads back to where it starts. */
  lemma {:induction false} CycleEdges(g: Links, p: seq<string>, a: string, b: string, i: nat)
    requires (a, b) in g && Joins(g, p, b, a) && i < |p| - 1
    ensures (p[i], p[i + 1]) in g && Reach(g, p[i + 1], p[i])
  {
    assert Joins(g, p[i + 1..], p[i + 1], a);
    assert Joins(g, p[..i + 1], b, p[i]);
    ReachEdge(g, a, b);
    ReachTrans(g, p[i + 1], a, b);
    ReachTrans(g, p[i + 1], b, p[i]);
  }

  /** A subgraph that keeps every edge lying on a cycle keeps every cycle. */
  lemma {:induction false} CycleSurvives(g: Links, r: Links, a: string, b: string)
    requires (a, b) in g && Reach(g, b, a)
    requires forall x, y :: (x, y) in g && Reach(g, y, x) ==> (x, y) in r
    ensures (a, b) in r && Reach(r, b, a)
  {
    var p :| Joins(g, p, b, a);
    forall i | 0 <= i < |p| - 1 ensures (p[i], p[i + 1]) in r {
      CycleEdges(g, p, a, b, i);
    }
    assert Joins(r, p, b, a);
  }

  // ---------------------------------------------------------------- boxing one field

  function Box(f: FieldVal): FieldVal {
    var boxed := "*" + f.valueType;
    f.(valueType := boxed, goType := "Optional[" + boxed + "]")
  }

  ghost function BoxAt(ts: seq<TypeVal>, i: int, j: int): seq<TypeVal>
    requires 0 <= i < |ts| && 0 <= j < |ts[i].fields|
  {
    ts[i := ts[i].(fields := ts[i].fields[j := Box(ts[i].fields[j])])]
  }

  /** How the types may have changed: some optional fields that lay on a cycle of the first graph are boxed. */
  ghost predicate Evolved(was: seq<TypeVal>, now: seq<TypeVal>) {
    && |was| == |now|
    && (forall i :: 0 <= i < |was| ==>
          was[i].name == now[i].name && was[i].kind == now[i].kind && |was[i].fields| == |now[i].fields|)
    && (forall i, j :: 0 <= i < |was| && 0 <= j < |was[i].fields| ==> FieldEvolved(was, now, i, j))
  }

  ghost predicate FieldEvolved(was: seq<TypeVal>, now: seq<TypeVal>, i: int, j: int)
    requires |was| == |now| && 0 <= i < |was| && 0 <= j < |was[i].fields| == |now[i].fields|
  {
    || now[i].fields[j] == was[i].fields[j]
    || (now[i].fields[j] == Box(was[i].fields[j]) && was[i].fields[j].optional && OnCycle(was, i, j))
  }

  /** The field is a value edge from which its owner can be reached again. */
  ghost predicate OnCycle(ts: seq<TypeVal>, i: int, j: int)
  {
    ByValue(ts, i, j) && ts[i].kind.StructKind? && Reach(Edges(ts), ts[i].fields[j].valueType, ts[i].name)
  }

  lemma {:induction false} EvolvedSelf(ts: seq<TypeVal>)
    ensures Evolved(ts, ts)
  {
  }

  lemma {:induction false} BoxedIsNoStruct(ts: seq<TypeVal>, f: FieldVal)
    requires Registered(ts)
    ensures Box(f).valueType !in Structs(ts)
  {
    assert Box(f).valueType[0] == '*';
  }

  lemma {:induction false} EvolvedEdges(was: seq<TypeVal>, now: seq<TypeVal>)
    requires Registered(was) && Evolved(was, now)
    ensures Registered(now) && Structs(now) == Structs(was)
    ensures Edges(now) <= Edges(was) && RequiredEdges(now) == RequiredEdges(was)
  {
    assert Structs(now) == Structs(was) by {
      forall n ensures n in Structs(now) <==> n in Structs(was) {
        if n in Structs(was) {
          var i :| 0 <= i < |was| && was[i].kind.StructKind? && was[i].name == n;
          assert now[i].name == n;
        }
        if n in Structs(now) {
          var i :| 0 <= i < |now| && now[i].kind.StructKind? && now[i].name == n;
          assert was[i].name == n;
        }
      }
    }
    forall i, j | ByValue(now, i, j) ensures ByValue(was, i, j) && now[i].fields[j] == was[i].fields[j] {
      assert FieldEvolved(was, now, i, j);
      BoxedIsNoStruct(was, was[i].fields[j]);
    }
    forall i, j | ByValue(was, i, j) && Required(was, i, j) ensures ByValue(now, i, j)
      && now[i].fields[j] == was[i].fields[j] {
      assert FieldEvolved(was, now, i, j);
    }
    forall e | e in Edges(now) ensures e in Edges(was) {
      var i, j :| ByValue(now, i, j) && now[i].kind.StructKind? && e == Link(now, i, j);
      assert e == Link(was, i, j);
    }
    SameRequired(was, now);
  }

  lemma {:induction false} SameRequired(was: seq<TypeVal>, now: seq<TypeVal>)
    requires |was| == |now| && forall i :: 0 <= i < |was| ==> was[i].name == now[i].name && was[i].kind == now[i].kind
    requires forall i, j :: ByValue(now, i, j) ==> ByValue(was, i, j) && now[i].fields[j] == was[i].fields[j]
    requires forall i, j :: ByValue(was, i, j) && Required(was, i, j) ==>
               ByValue(now, i, j) && now[i].fields[j] == was[i].fields[j]
    ensures RequiredEdges(now) == RequiredEdges(was)
  {
    forall e ensures e in RequiredEdges(now) <==> e in RequiredEdges(was) {
      if e in RequiredEdges(now) {
        var i, j :| ByValue(now, i, j) && now[i].kind.StructKind? && Required(now, i, j) && e == Link(now, i, j);
        assert e == Link(was, i, j) && Required(was, i, j);
      }
      if e in RequiredEdges(was) {
        var i, j :| ByValue(was, i, j) && was[i].kind.StructKind? && Required(was, i, j) && e == Link(was, i, j);
        assert e == Link(now, i, j) && Required(now, i, j);
      }
    }
  }

  lemma {:induction false} LinkInEdges(ts: seq<TypeVal>, i: int, j: int)
    requires ByValue(ts, i, j) && ts[i].kind.StructKind?
    ensures Link(ts, i, j) in Edges(ts)
    ensures Required(ts, i, j) ==> Link(ts, i, j) in RequiredEdges(ts)
  {
  }

  /** One more box on a field that is on a cycle now. */
  lemma {:induction false} BoxEvolves(was: seq<TypeVal>, now: seq<TypeVal>, i: int, j: int)
    requires Registered(was) && Evolved(was, now) && OnCycle(now, i, j) && now[i].fields[j].optional
    ensures Evolved(was, BoxAt(now, i, j))
  {
    EvolvedEdges(was, now);
    assert FieldEvolved(was, now, i, j);
    BoxedIsNoStruct(was, was[i].fields[j]);
    ReachMonotone(Edges(now), Edges(was), now[i].fields[j].valueType, now[i].name);
    var next := BoxAt(now, i, j);
    forall k, l | 0 <= k < |was| && 0 <= l < |was[k].fields| ensures FieldEvolved(was, next, k, l) {
      assert FieldEvolved(was, now, k, l);
    }
  }

  /** The optional fields still held by value: what each round takes one from. */
  ghost function Open(ts: seq<TypeVal>): set<(int, int)> {
    set i, j | 0 <= i < |ts| && 0 <= j < |ts[i].fields| && ByValue(ts, i, j) && ts[i].fields[j].optional :: (i, j)
  }

  lemma {:induction false} BoxCloses(ts: seq<TypeVal>, i: int, j: int)
    requires Registered(ts) && ByValue(ts, i, j) && ts[i].fields[j].optional
    ensures Open(BoxAt(ts, i, j)) < Open(ts)
  {
    var next := BoxAt(ts, i, j);
    BoxedIsNoStruct(ts, ts[i].fields[j]);
    assert Structs(next) == Structs(ts) by {
      forall n ensures n in Structs(next) <==> n in Structs(ts) {
        if n in Structs(ts) {
          var k :| 0 <= k < |ts| && ts[k].kind.StructKind? && ts[k].name == n;
          assert next[k].name == n;
        }
        if n in Structs(next) {
          var k :| 0 <= k < |next| && next[k].kind.StructKind? && next[k].name == n;
          assert ts[k].name == n;
        }
      }
    }
    assert (i, j) in Open(ts) && (i, j) !in Open(next);
    forall k, l | (k, l) in Open(next) ensures (k, l) in Open(ts) {
      assert ByValue(next, k, l) && (k, l) != (i, j);
      assert ByValue(ts, k, l);
    }
  }

  /** Nothing is left to box: no optional field is on a cycle. */
  ghost predicate Settled(ts: seq<TypeVal>) {
    forall i, j :: OnCycle(ts, i, j) ==> !ts[i].fields[j].optional
  }

  /** What then remains of cycles is made of required fields only. */
  lemma {:induction false} SettledCycles(ts: seq<TypeVal>)
    requires Settled(ts)
    ensures forall a, b :: (a, b) in Edges(ts) && Reach(Edges(ts), b, a) ==>
              (a, b) in RequiredEdges(ts) && Reach(RequiredEdges(ts), b, a)
    ensures Acyclic(Edges(ts)) <==> Acyclic(RequiredEdges(ts))
  {
    var g, r := Edges(ts), RequiredEdges(ts);
    assert r <= g;
    forall x, y | (x, y) in g && Reach(g, y, x) ensures (x, y) in r {
      var i, j :| ByValue(ts, i, j) && ts[i].kind.StructKind? && (x, y) == Link(ts, i, j);
      assert OnCycle(ts, i, j);
      LinkInEdges(ts, i, j);
    }
    forall a, b | (a, b) in g && Reach(g, b, a) ensures (a, b) in r && Reach(r, b, a) {
      CycleSurvives(g, r, a, b);
    }
    if Acyclic(g) { AcyclicMonotone(r, g); }
  }

  /** Only structs are reached, so only a struct's field can be on a cycle. */
  lemma {:induction false} OwnerIsStruct(ts: seq<TypeVal>, i: int, j: int)
    requires Registered(ts) && ByValue(ts, i, j) && Reach(Edges(ts), ts[i].fields[j].valueType, ts[i].name)
    ensures OnCycle(ts, i, j)
  {
    ReachStays(Edges(ts), Structs(ts), ts[i].fields[j].valueType, ts[i].name);
    var k :| 0 <= k < |ts| && ts[k].kind.StructKind? && ts[k].name == ts[i].name;
    assert k == i;
  }

  /** The edges of one struct are the value fields of its one declaration. */
  lemma {:induction false} EdgesOf(ts: seq<TypeVal>, i: int, b: string)
    requires Registered(ts) && 0 <= i < |ts| && ts[i].kind.StructKind?
    ensures (ts[i].name, b) in Edges(ts) <==>
            b in Structs(ts) && exists j :: 0 <= j < |ts[i].fields| && ts[i].fields[j].valueType == b
  {
    if (ts[i].name, b) in Edges(ts) {
      var k, j :| ByValue(ts, k, j) && ts[k].kind.StructKind? && (ts[i].name, b) == Link(ts, k, j);
      assert ByValue(ts, k, j);
      assert Link(ts, k, j).0 == ts[i].name;
      assert k == i;
    }
    if b in Structs(ts) && exists j :: 0 <= j < |ts[i].fields| && ts[i].fields[j].valueType == b {
      var j :| 0 <= j < |ts[i].fields| && ts[i].fields[j].valueType == b;
      assert ByValue(ts, i, j);
      LinkInEdges(ts, i, j);
    }
  }

  lemma {:induction false} EdgeOwner(ts: seq<TypeVal>, a: string, b: string)
    requires (a, b) in Edges(ts)
    ensures a in Structs(ts) && b in Structs(ts)
  {
  }

  // ---------------------------------------------------------------- the types that are emitted

  const OPTIONAL := "Optional["

  /** The Go type of the field spells its value type, wrapped when the field is optional; no value type is wrapped. */
  predicate Spelled(f: FieldVal) {
    && f.goType == (if f.optional then OPTIONAL + f.valueType + "]" else f.valueType)
    && !(OPTIONAL <= f.valueType)
  }

  ghost predicate AllSpelled(ts: seq<TypeVal>) {
    forall i, j :: 0 <= i < |ts| && 0 <= j < |ts[i].fields| ==> Spelled(ts[i].fields[j])
  }

  /** No struct has a name that spells an Optional. */
  ghost predicate Identified(ts: seq<TypeVal>) {
    forall n :: n in Structs(ts) ==> !(OPTIONAL <= n)
  }

  /** A field of this Go type holds a value of the named struct inside its owner. */
  predicate Embeds(goType: string, name: string) {
    goType == name || goType == OPTIONAL + name + "]"
  }

  /** The value graph as it is read off the emitted Go types alone. */
  ghost function EmittedEdges(ts: seq<TypeVal>): Links {
    set i, j, n | 0 <= i < |ts| && 0 <= j < |ts[i].fields| && ts[i].kind.StructKind? && n in Structs(ts)
                  && Embeds(ts[i].fields[j].goType, n) :: (ts[i].name, n)
  }

  /** How a field may have changed, spelled out: it is boxed when it is a pointer to what it was, in its value type and
      in the Go type that is emitted for it, and then it was optional and lay on a cycle; its name and whether it is
      optional never change. */
  lemma {:induction false} FieldChange(was: seq<TypeVal>, now: seq<TypeVal>, i: int, j: int)
    requires Evolved(was, now) && 0 <= i < |was| && 0 <= j < |was[i].fields|
    ensures var f, g := was[i].fields[j], now[i].fields[j];
            && g.name == f.name && g.optional == f.optional
            && (g != f ==>
                  && g.valueType == "*" + f.valueType && g.goType == "Optional[*" + f.valueType + "]"
                  && f.optional && OnCycle(was, i, j))
  {
    hide OnCycle;
    assert FieldEvolved(was, now, i, j);
    var f := was[i].fields[j];
    assert "Optional[" + ("*" + f.valueType) + "]" == "Optional[*" + f.valueType + "]";
  }

  lemma {:induction false} BoxSpelled(f: FieldVal)
    requires Spelled(f) && f.optional
    ensures Spelled(Box(f))
  {
    assert Box(f).valueType[0] == '*' && OPTIONAL[0] == 'O';
  }

  lemma {:induction false} EvolvedSpelled(was: seq<TypeVal>, now: seq<TypeVal>)
    requires Evolved(was, now) && AllSpelled(was)
    ensures AllSpelled(now)
  {
    hide OnCycle, Spelled;
    forall i, j | 0 <= i < |now| && 0 <= j < |now[i].fields| ensures Spelled(now[i].fields[j]) {
      assert FieldEvolved(was, now, i, j);
      if now[i].fields[j] != was[i].fields[j] { BoxSpelled(was[i].fields[j]); }
    }
  }

  /** What a spelled field embeds is its value type, for a name that is an identifier. */
  lemma {:induction false} EmbedsValue(f: FieldVal, n: string)
    requires Spelled(f) && !(OPTIONAL <= n)
    ensures Embeds(f.goType, n) <==> f.valueType == n
  {
    if f.optional && Embeds(f.goType, n) {
      assert OPTIONAL <= f.goType;
      assert (OPTIONAL + f.valueType + "]")[|OPTIONAL|..] == f.valueType + "]";
      assert (OPTIONAL + n + "]")[|OPTIONAL|..] == n + "]";
      assert f.valueType == (f.valueType + "]")[..|f.valueType|] && n == (n + "]")[..|n|];
    }
    assert f.goType == OPTIONAL + n + "]" ==> OPTIONAL <= f.goType;
  }

  /** Read off the emitted types, the value graph is the one the pass works on. */
  lemma {:induction false} EmittedIs(ts: seq<TypeVal>)
    requires AllSpelled(ts) && Identified(ts)
    ensures EmittedEdges(ts) == Edges(ts)
  {
    hide Embeds, Structs;
    forall e ensures e in EmittedEdges(ts) <==> e in Edges(ts) {
      if e in EmittedEdges(ts) {
        var i, j, n :| 0 <= i < |ts| && 0 <= j < |ts[i].fields| && ts[i].kind.StructKind? && n in Structs(ts)
                       && Embeds(ts[i].fields[j].goType, n) && e == (ts[i].name, n);
        EmbedsValue(ts[i].fields[j], n);
        assert ByValue(ts, i, j);
        LinkInEdges(ts, i, j);
      }
      if e in Edges(ts) {
        var i, j :| 0 <= i < |ts| && 0 <= j < |ts[i].fields| && ByValue(ts, i, j) && ts[i].kind.StructKind?
                    && e == Link(ts, i, j);
        EmbedsValue(ts[i].fields[j], ts[i].fields[j].valueType);
      }
    }
  }
}
