/** The pass that boxes optional struct fields until no generated type contains itself by value. */
module BreakCycles {
  import opened Wrappers
  import opened TypeGraph

  /** A struct field, rewritten in place by the pass. */
  class Field {
    const name: string
    const optional: bool
    var valueType: string
    var goType: string

    constructor (name: string, optional: bool, valueType: string, goType: string)
      ensures Value() == FieldVal(name, optional, valueType, goType)
    {
      this.name, this.optional, this.valueType, this.goType := name, optional, valueType, goType;
    }

    function Value(): FieldVal
      reads this
    {
      FieldVal(name, optional, valueType, goType)
    }
  }

  datatype Type = Type(name: string, kind: Kind, fields: seq<Field>)

  ghost function Objects(types: seq<Type>): set<Field> {
    set t, f | t in types && f in t.fields :: f
  }

  ghost function FieldValues(types: seq<Type>, fields: seq<Field>): (r: seq<FieldVal>)
    requires forall f :: f in fields ==> f in Objects(types)
    reads Objects(types)
    ensures |r| == |fields| && forall j :: 0 <= j < |fields| ==> r[j] == fields[j].Value()
  {
    seq(|fields|, j requires 0 <= j < |fields| && fields[j] in Objects(types) reads Objects(types) => fields[j].Value())
  }

  /** The types as a value. */
  ghost function Values(types: seq<Type>): (r: seq<TypeVal>)
    reads Objects(types)
    ensures |r| == |types|
    ensures forall i :: 0 <= i < |types| ==>
              r[i].name == types[i].name && r[i].kind == types[i].kind && |r[i].fields| == |types[i].fields|
    ensures forall i, j :: 0 <= i < |types| && 0 <= j < |types[i].fields| ==>
              r[i].fields[j] == types[i].fields[j].Value()
  {
    assert forall i, f :: 0 <= i < |types| && f in types[i].fields ==> types[i] in types && f in Objects(types);
    seq(|types|, i
      requires 0 <= i < |types| && (forall f :: f in types[i].fields ==> f in Objects(types))
      reads Objects(types) =>
      TypeVal(types[i].name, types[i].kind, FieldValues(types, types[i].fields)))
  }

  /** Every field object belongs to one place only. */
  ghost predicate Separate(types: seq<Type>) {
    forall i, j, k, l | 0 <= i < |types| && 0 <= j < |types[i].fields| && 0 <= k < |types|
      && 0 <= l < |types[k].fields| ::
      types[i].fields[j] == types[k].fields[l] ==> i == k && j == l
  }

  // ---------------------------------------------------------------- the graph as a table

  type Graph = map<string, seq<string>>

  ghost predicate Lists(graph: Graph, g: Links) {
    forall a, b :: (a in graph && b in graph[a]) <==> (a, b) in g
  }

  /** The declarations of the structs by name. */
  ghost predicate Names(structs: map<string, Type>, types: seq<Type>)
    reads Objects(types)
  {
    && structs.Keys == Structs(Values(types))
    && forall n :: n in structs ==> structs[n] in types && structs[n].name == n && structs[n].kind.StructKind?
  }

  method StructNames(types: seq<Type>) returns (structs: map<string, Type>)
    requires Registered(Values(types))
    ensures Names(structs, types)
  {
    structs := map[];
    ghost var ts := Values(types);
    for i := 0 to |types|
      invariant forall n :: n in structs <==> exists k :: 0 <= k < i && ts[k].kind.StructKind? && ts[k].name == n
      invariant forall n :: n in structs ==> structs[n] in types && structs[n].name == n && structs[n].kind.StructKind?
    {
      if types[i].kind.StructKind? {
        structs := structs[types[i].name := types[i]];
        assert ts[i].name == types[i].name;
      }
    }
  }

  method EdgeTable(types: seq<Type>, structs: map<string, Type>) returns (graph: Graph)
    requires Registered(Values(types)) && Names(structs, types)
    ensures Lists(graph, Edges(Values(types)))
  {
    hide Edges, Structs, Registered;
    ghost var ts, objects := Values(types), Objects(types);
    graph := map[];
    var left := structs.Keys;
    while left != {}
      invariant ts == Values(types) && Names(structs, types) && left <= structs.Keys
      invariant forall a :: a in graph ==> a in structs && a !in left
      invariant forall a, b :: a in structs && a !in left ==> ((a in graph && b in graph[a]) <==> (a, b) in Edges(ts))
    {
      var n :| n in left;
      var targets := Targets(structs[n], structs, ts, types);
      if targets != [] {
        graph := graph[n := targets];
      }
      assert objects == Objects(types);
      left := left - {n};
    }
    forall a, b ensures (a in graph && b in graph[a]) <==> (a, b) in Edges(ts) {
      if (a, b) in Edges(ts) { EdgeOwner(ts, a, b); }
    }
  }

  ghost predicate HeldBefore(fields: seq<FieldVal>, j: nat, b: string)
    requires j <= |fields|
  {
    exists k :: 0 <= k < j && fields[k].valueType == b
  }

  lemma {:induction false} HeldNext(fields: seq<FieldVal>, j: nat)
    requires j < |fields|
    ensures forall b :: HeldBefore(fields, j + 1, b) <==> HeldBefore(fields, j, b) || fields[j].valueType == b
  {
    var next := j + 1;
    forall b ensures HeldBefore(fields, next, b) <==> HeldBefore(fields, j, b) || fields[j].valueType == b {
    }
  }

  /** The struct names one declaration holds by value, in field order. */
  method Targets(typ: Type, structs: map<string, Type>, ghost ts: seq<TypeVal>, ghost types: seq<Type>)
    returns (targets: seq<string>)
    requires ts == Values(types) && Registered(ts) && Names(structs, types) && typ in types && typ.kind.StructKind?
    ensures forall b :: b in targets <==> (typ.name, b) in Edges(ts)
  {
    targets := [];
    ghost var i :| 0 <= i < |types| && types[i] == typ;
    for j := 0 to |typ.fields|
      invariant forall b :: b in targets <==> b in structs && HeldBefore(ts[i].fields, j, b)
    {
      HeldNext(ts[i].fields, j);
      assert ts[i].fields[j] == typ.fields[j].Value();
      if typ.fields[j].valueType in structs {
        targets := targets + [typ.fields[j].valueType];
      }
    }
    forall b ensures b in targets <==> (typ.name, b) in Edges(ts) {
      EdgesOf(ts, i, b);
    }
  }

  /** reaches, with the set of names it has seen: a search cut short at every seen name finds the target exactly when
      there is a path. */
  method Reaches(graph: Graph, from: string, want: string, ghost g: Links) returns (found: bool)
    requires Lists(graph, g)
    ensures found <==> Reach(g, from, want)
  {
    ghost var nodes := {from} + (set a, b | a in graph && b in graph[a] :: b);
    var seen;
    found, seen := Visit(graph, from, want, {}, g, nodes);
    if !found && Reach(g, from, want) {
      ReachStays(g, seen, from, want);
    }
  }

  method Visit(graph: Graph, name: string, want: string, seen: set<string>, ghost g: Links, ghost nodes: set<string>)
    returns (found: bool, seen': set<string>)
    requires Lists(graph, g)
    requires name in nodes && forall a, b :: (a, b) in g ==> b in nodes
    ensures found ==> Reach(g, name, want)
    ensures !found ==> seen <= seen' && name in seen' && (want in seen' ==> want in seen)
    ensures !found ==> forall x, y :: (x, y) in g && x in seen' && x !in seen ==> y in seen'
    decreases nodes - seen
  {
    if name == want {
      ReachSelf(g, name);
      return true, seen;
    }
    if name in seen {
      return false, seen;
    }
    seen' := seen + {name};
    var nexts := if name in graph then graph[name] else [];
    for i := 0 to |nexts|
      invariant seen + {name} <= seen' && (want in seen' ==> want in seen)
      invariant forall k :: 0 <= k < i ==> nexts[k] in seen'
      invariant forall x, y :: (x, y) in g && x in seen' && x !in seen && x != name ==> y in seen'
    {
      assert nexts[i] in graph[name];
      assert (name, nexts[i]) in g;
      var hit;
      hit, seen' := Visit(graph, nexts[i], want, seen', g, nodes);
      if hit {
        ReachEdge(g, name, nexts[i]);
        ReachTrans(g, name, nexts[i], want);
        return true, seen';
      }
    }
    return false, seen';
  }

  /** Finds an edge that closes a cycle, if there is one. */
  method FindCycle(graph: Graph, ghost g: Links) returns (err: Option<(string, string)>)
    requires Lists(graph, g)
    ensures err.None? <==> Acyclic(g)
    ensures err.Some? ==> err.value in g && Reach(g, err.value.1, err.value.0)
  {
    var left := graph.Keys;
    while left != {}
      invariant left <= graph.Keys
      invariant forall a, b :: (a, b) in g && a !in left ==> !Reach(g, b, a)
    {
      var owner :| owner in left;
      var targets := graph[owner];
      for i := 0 to |targets|
        invariant forall k :: 0 <= k < i ==> !Reach(g, targets[k], owner)
      {
        assert (owner, targets[i]) in g;
        var closes := Reaches(graph, targets[i], owner, g);
        if closes {
          return Some((owner, targets[i]));
        }
      }
      left := left - {owner};
    }
    return None;
  }

  /** No optional field before field j of type i is on a cycle. */
  ghost predicate NoneBefore(ts: seq<TypeVal>, i: int, j: int) {
    forall k, l :: (k < i || (k == i && l < j)) && OnCycle(ts, k, l) ==> !ts[k].fields[l].optional
  }

  /** The first optional field on a cycle, in the order of the types and of their fields. */
  ghost predicate First(ts: seq<TypeVal>, i: int, j: int) {
    OnCycle(ts, i, j) && ts[i].fields[j].optional && NoneBefore(ts, i, j)
  }

  lemma {:induction false} NextField(ts: seq<TypeVal>, i: int, j: int)
    requires NoneBefore(ts, i, j) && (OnCycle(ts, i, j) ==> !ts[i].fields[j].optional)
    ensures NoneBefore(ts, i, j + 1)
  {
    hide OnCycle;
  }

  lemma {:induction false} NextType(ts: seq<TypeVal>, i: int)
    requires 0 <= i < |ts| && NoneBefore(ts, i, |ts[i].fields|)
    ensures NoneBefore(ts, i + 1, 0)
  {
    forall k, l | (k < i + 1 || (k == i + 1 && l < 0)) && OnCycle(ts, k, l) ensures !ts[k].fields[l].optional { }
  }

  lemma {:induction false} AllOrNone(ts: seq<TypeVal>)
    ensures NoneBefore(ts, 0, 0) && (NoneBefore(ts, |ts|, 0) ==> Settled(ts))
  {
  }

  lemma {:induction false} CycleNeeds(ts: seq<TypeVal>, i: int, j: int, f: FieldVal)
    requires 0 <= i < |ts| && 0 <= j < |ts[i].fields| && ts[i].fields[j] == f
    requires Registered(ts)
    ensures f.valueType in Structs(ts) && Reach(Edges(ts), f.valueType, ts[i].name) <==> OnCycle(ts, i, j)
  {
    hide Registered, Edges, Reach, Structs;
    if f.valueType in Structs(ts) && Reach(Edges(ts), f.valueType, ts[i].name) { OwnerIsStruct(ts, i, j); }
  }

  /** Boxes the first optional field that is on a cycle, if there is one. */
  method BoxOne(types: seq<Type>, structs: map<string, Type>, graph: Graph) returns (changed: bool)
    requires Registered(Values(types)) && Separate(types) && Names(structs, types)
    requires Lists(graph, Edges(Values(types)))
    modifies Objects(types)
    ensures !changed ==> Values(types) == old(Values(types)) && Settled(Values(types))
    ensures changed ==> exists i, j :: First(old(Values(types)), i, j)
                                    && Values(types) == BoxAt(old(Values(types)), i, j)
  {
    hide Edges, Structs, Registered, Reach, Lists, BoxAt, OnCycle, NoneBefore, Settled;
    ghost var ts := Values(types);
    AllOrNone(ts);
    for i := 0 to |types|
      invariant Values(types) == ts && NoneBefore(ts, i, 0)
    {
      for j := 0 to |types[i].fields|
        invariant Values(types) == ts && NoneBefore(ts, i, j)
      {
        var field := types[i].fields[j];
        assert ts[i].fields[j] == field.Value();
        CycleNeeds(ts, i, j, ts[i].fields[j]);
        if !field.optional || field.valueType !in structs {
          NextField(ts, i, j);
          continue;
        }
        var reaches := Reaches(graph, field.valueType, types[i].name, Edges(ts));
        if !reaches {
          NextField(ts, i, j);
          continue;
        }
        InObjects(types, i, j);
        field.valueType := "*" + field.valueType;
        field.goType := "Optional[" + field.valueType + "]";
        BoxedValues(types, ts, i, j);
        return true;
      }
      NextType(ts, i);
    }
    return false;
  }

  lemma {:induction false} InObjects(types: seq<Type>, i: int, j: int)
    requires 0 <= i < |types| && 0 <= j < |types[i].fields|
    ensures types[i].fields[j] in Objects(types)
  {
    assert types[i] in types && types[i].fields[j] in types[i].fields;
  }

  lemma {:induction false} BoxedValues(types: seq<Type>, ts: seq<TypeVal>, i: int, j: int)
    requires |ts| == |types| && 0 <= i < |types| && 0 <= j < |types[i].fields|
    requires forall k :: 0 <= k < |types| ==>
               ts[k].name == types[k].name && ts[k].kind == types[k].kind && |ts[k].fields| == |types[k].fields|
    requires forall k, l | 0 <= k < |types| && 0 <= l < |types[k].fields| ::
               types[k].fields[l].Value() == if (k, l) == (i, j) then Box(ts[i].fields[j]) else ts[k].fields[l]
    ensures Values(types) == BoxAt(ts, i, j)
  {
    var now, next := Values(types), BoxAt(ts, i, j);
    forall k | 0 <= k < |types| ensures now[k] == next[k] {
      assert forall l :: 0 <= l < |types[k].fields| ==> now[k].fields[l] == types[k].fields[l].Value();
      assert now[k].fields == next[k].fields;
    }
  }

  lemma {:induction false} EmittedStaysAcyclic(was: seq<TypeVal>, now: seq<TypeVal>)
    requires Registered(was) && Evolved(was, now) && AllSpelled(was)
    ensures AllSpelled(now)
    ensures Identified(was) && Acyclic(Edges(now)) ==> Acyclic(EmittedEdges(now))
  {
    hide Registered, Evolved, Acyclic, Edges, EmittedEdges, AllSpelled;
    EvolvedSpelled(was, now);
    EvolvedEdges(was, now);
    if Identified(was) { EmittedIs(now); }
  }

  /** Boxes optional fields until the value graph has no cycle through one. Each round takes one optional value edge, so
      the rounds end; the pass fails exactly when the input has a cycle of required fields alone, and otherwise leaves
      an acyclic value graph; only fields that lay on a cycle of the input are boxed, and required fields never. */
  method BreakOptionalStructCycles(types: seq<Type>) returns (err: Option<(string, string)>)
    requires Registered(Values(types)) && Separate(types)
    modifies Objects(types)
    ensures Evolved(old(Values(types)), Values(types)) && Settled(Values(types))
    ensures err.None? <==> Acyclic(RequiredEdges(old(Values(types))))
    ensures err.None? ==> Acyclic(Edges(Values(types)))
    ensures AllSpelled(old(Values(types))) ==> AllSpelled(Values(types))
    ensures err.None? && AllSpelled(old(Values(types))) && Identified(old(Values(types))) ==>
              Acyclic(EmittedEdges(Values(types)))
    ensures err.Some? ==> var (owner, target) := err.value;
              (owner, target) in RequiredEdges(old(Values(types)))
                && Reach(RequiredEdges(old(Values(types))), target, owner)
  {
    hide Edges, RequiredEdges, Structs, Evolved, Registered, Settled, Acyclic, BoxAt, Open, Values, Reach, Lists;
    hide AllSpelled, Identified, EmittedEdges;
    ghost var was := Values(types);
    EvolvedSelf(was);
    var structs := StructNames(types);
    while true
      invariant Evolved(was, Values(types)) && Registered(Values(types)) && Names(structs, types)
      decreases Open(Values(types))
    {
      ghost var now := Values(types);
      EvolvedEdges(was, now);
      var graph := EdgeTable(types, structs);
      var changed := BoxOne(types, structs, graph);
      if !changed {
        graph := EdgeTable(types, structs);
        err := FindCycle(graph, Edges(now));
        SettledCycles(now);
        if AllSpelled(was) { EmittedStaysAcyclic(was, now); }
        return;
      }
      ghost var i, j :| First(now, i, j) && Values(types) == BoxAt(now, i, j);
      BoxEvolves(was, now, i, j);
      BoxCloses(now, i, j);
      EvolvedEdges(was, Values(types));
    }
  }
}
