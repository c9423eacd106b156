/** The emitter itself: validation that fills the seen and union sets, and emission that counts variables. */
module CloneEmitters {
  import opened CopyCompiler

  /** The variants of a union are declared structs. */
  ghost predicate VariantsDeclared(p: Package) {
    forall n, v :: IsUnion(p, n) && v in p.types[n].variants ==> IsStruct(p, v)
  }

  /** The unions named in a field type. */
  function Mentions(p: Package, t: GoType): set<string> {
    match t
    case Ident(name) => if !IsScalar(name) && name !in p.manual && IsUnion(p, name) then {name} else {}
    case Pointer(e) => Mentions(p, e)
    case Slice(e) => Mentions(p, e)
    case MapOf(e) => Mentions(p, e)
    case RawMessage => {}
    case Optional(e) => Mentions(p, e)
    case Unsupported => {}
  }

  /** The unions named in the fields of the structs among the names. */
  ghost function UnionsIn(p: Package, names: set<string>): set<string> {
    set n, i, u | n in names && IsStruct(p, n) && 0 <= i < |p.types[n].fields|
      && u in Mentions(p, p.types[n].fields[i]) :: u
  }

  ghost function MentionsUpTo(p: Package, fields: seq<GoType>, n: nat): set<string>
    requires n <= |fields|
  {
    set j, u | 0 <= j < n && u in Mentions(p, fields[j]) :: u
  }

  lemma {:induction false} UnionsInMore(p: Package, a: set<string>, b: set<string>)
    ensures UnionsIn(p, a + b) == UnionsIn(p, a) + UnionsIn(p, b)
  {
  }

  /** The Go name of a field. */
  function FieldName(p: Package, n: string, i: nat): string
    requires n in p.types && p.types[n].StructDecl?
  {
    if i < |p.types[n].names| then p.types[n].names[i] else ""
  }

  /** Every field has a type that can be copied, and none takes the name of the generated method. */
  ghost predicate FieldsAccepted(p: Package, n: string) {
    IsStruct(p, n) ==>
      forall i :: 0 <= i < |p.types[n].fields| ==> Accepts(p, p.types[n].fields[i]) && FieldName(p, n, i) != "Clone"
  }

  ghost predicate AllAccepted(p: Package, names: set<string>) {
    forall n :: n in names ==> FieldsAccepted(p, n)
  }

  /** The struct or union that a field type is built around. */
  function Names(p: Package, t: GoType): set<string> {
    var l := Leaf(t);
    if l.Ident? && !IsScalar(l.name) && l.name !in p.manual && l.name in p.types && !p.types[l.name].EnumDecl? then
      {l.name}
    else {}
  }

  /** What a declaration refers to is among the names. */
  ghost predicate RefersWithin(p: Package, n: string, names: set<string>) {
    && (IsStruct(p, n) ==> forall i :: 0 <= i < |p.types[n].fields| ==> Names(p, p.types[n].fields[i]) <= names)
    && (IsUnion(p, n) ==> p.types[n].variants <= names)
  }

  /** The names are followed: what their declarations refer to has been seen. */
  ghost predicate Followed(p: Package, names: set<string>, seen: set<string>) {
    forall n :: n in names ==> RefersWithin(p, n, seen)
  }

  lemma {:induction false} FollowedMore(p: Package, a: set<string>, b: set<string>, before: set<string>,
                                        seen: set<string>)
    requires Followed(p, a, before) && Followed(p, b, seen) && before <= seen
    ensures Followed(p, a + b, seen)
  {
    forall n | n in a ensures RefersWithin(p, n, seen) { assert RefersWithin(p, n, before); }
  }

  /** Some struct has a field that cannot be copied. */
  ghost predicate SomeRefused(p: Package) {
    exists n :: n in p.types && !FieldsAccepted(p, n)
  }

  lemma {:induction false} AllMore(p: Package, a: set<string>, b: set<string>)
    requires AllAccepted(p, a) && AllAccepted(p, b)
    ensures AllAccepted(p, a + b)
  {
  }

  lemma {:induction false} MentionsNext(p: Package, fields: seq<GoType>, i: nat)
    requires i < |fields|
    ensures MentionsUpTo(p, fields, i + 1) == MentionsUpTo(p, fields, i) + Mentions(p, fields[i])
  {
  }

  /** What visiting one declaration itself contributes. */
  lemma {:induction false} OwnUnions(p: Package, name: string)
    requires name in p.types
    ensures IsStruct(p, name) ==> UnionsIn(p, {name}) == MentionsUpTo(p, p.types[name].fields, |p.types[name].fields|)
    ensures !IsStruct(p, name) ==> UnionsIn(p, {name}) == {}
    ensures UnionsIn(p, {}) == {} && AllAccepted(p, {})
    ensures FieldsAccepted(p, name) ==> AllAccepted(p, {name})
    ensures IsStruct(p, name) ==> MentionsUpTo(p, p.types[name].fields, 0) == {}
  {
  }

  /** Visiting name is under way: of the names new since, all but name itself are done. */
  ghost predicate Progress(p: Package, was: set<string>, name: string, seen: set<string>, unions: set<string>,
                           direct: set<string>, now: set<string>) {
    && was + {name} <= seen <= p.types.Keys && name !in was
    && AllAccepted(p, seen - was - {name}) && Followed(p, seen - was - {name}, seen)
    && now == unions + direct + UnionsIn(p, seen - was - {name})
  }

  lemma {:induction false} ProgressStart(p: Package, was: set<string>, name: string, unions: set<string>)
    requires was <= p.types.Keys && name in p.types && name !in was
    ensures Progress(p, was, name, was + {name}, unions, {}, unions)
  {
    OwnUnions(p, name);
    assert was + {name} - was - {name} == {};
  }

  lemma {:induction false} ProgressFacts(p: Package, was: set<string>, name: string, seen: set<string>,
                                         unions: set<string>, direct: set<string>, now: set<string>)
    requires Progress(p, was, name, seen, unions, direct, now)
    ensures was + {name} <= seen <= p.types.Keys && p.types.Keys - seen < p.types.Keys - was
  {
    assert name in p.types.Keys - was && name !in p.types.Keys - seen;
  }

  lemma {:induction false} ProgressStep(p: Package, was: set<string>, name: string, before: set<string>,
                                        seen: set<string>, unions: set<string>, direct: set<string>, held: set<string>,
                                        more: set<string>, now: set<string>)
    requires Progress(p, was, name, before, unions, direct, held)
    requires before <= seen <= p.types.Keys && AllAccepted(p, seen - before) && Followed(p, seen - before, seen)
             && now == held + more + UnionsIn(p, seen - before)
    ensures Progress(p, was, name, seen, unions, direct + more, now)
  {
    hide UnionsIn, AllAccepted, Followed;
    var done := before - was - {name};
    UnionsInMore(p, done, seen - before);
    AllMore(p, done, seen - before);
    FollowedMore(p, done, seen - before, before, seen);
    assert done + (seen - before) == seen - was - {name};
  }

  lemma {:induction false} ProgressDone(p: Package, was: set<string>, name: string, seen: set<string>,
                                        unions: set<string>, direct: set<string>, now: set<string>)
    requires Progress(p, was, name, seen, unions, direct, now) && name in p.types
    requires FieldsAccepted(p, name) && RefersWithin(p, name, seen) && UnionsIn(p, {name}) == direct
    ensures was <= seen <= p.types.Keys && name in seen && Followed(p, seen - was, seen)
    ensures AllAccepted(p, seen - was) && now == unions + UnionsIn(p, seen - was)
  {
    hide UnionsIn, AllAccepted, RefersWithin;
    OwnUnions(p, name);
    assert seen - was == {name} + (seen - was - {name});
    UnionsInMore(p, {name}, seen - was - {name});
    AllMore(p, {name}, seen - was - {name});
  }

  lemma {:induction false} RefusedHere(p: Package, name: string, i: nat)
    requires IsStruct(p, name) && i < |p.types[name].fields|
    ensures (Accepts(p, p.types[name].fields[i]) && FieldName(p, name, i) != "Clone") || SomeRefused(p)
  {
    if !Accepts(p, p.types[name].fields[i]) || FieldName(p, name, i) == "Clone" { assert !FieldsAccepted(p, name); }
  }

  lemma {:induction false} VariantStruct(p: Package, name: string, v: string)
    requires VariantsDeclared(p) && IsUnion(p, name) && v in p.types[name].variants
    ensures IsStruct(p, v)
  {
  }

  /** The statements in order, then the rest. */
  function Then(code: seq<Stmt>, rest: Stmt): Stmt {
    if code == [] then rest else Seq(code[0], Then(code[1..], rest))
  }

  lemma {:induction false} ThenAppend(code: seq<Stmt>, s: Stmt, rest: Stmt)
    ensures Then(code + [s], rest) == Then(code, Seq(s, rest))
  {
    if code == [] {
      assert code + [s] == [s];
    } else {
      ThenAppend(code[1..], s, rest);
      assert (code + [s])[1..] == code[1..] + [s];
    }
  }

  class CloneEmitter {
    const p: Package
    var seen: set<string>
    var unions: set<string>
    var nextVar: nat

    constructor (p: Package)
      ensures this.p == p && seen == {} && unions == {} && nextVar == 0
    {
      this.p := p;
      seen, unions, nextVar := {}, {}, 0;
    }

    /** What validation adds to the sets when it succeeds. */
    twostate predicate Visited(direct: set<string>)
      reads this
    {
      && old(seen) <= seen <= p.types.Keys
      && AllAccepted(p, seen - old(seen)) && Followed(p, seen - old(seen), seen)
      && unions == old(unions) + direct + UnionsIn(p, seen - old(seen))
    }

    method Visit(name: string) returns (ok: bool)
      requires VariantsDeclared(p) && name in p.types && seen <= p.types.Keys
      modifies this`seen, this`unions
      ensures ok ==> Visited({}) && name in seen
      ensures !ok ==> SomeRefused(p)
      decreases p.types.Keys - seen, 0, Unsupported
    {
      hide UnionsIn, MentionsUpTo, AllAccepted, Mentions, Accepts, Progress, SomeRefused, Names;
      OwnUnions(p, name);
      if name in seen {
        assert seen - old(seen) == {};
        return true;
      }
      ghost var was, direct: set<string> := seen, {};
      seen := seen + {name};
      ok := true;
      ProgressStart(p, was, name, unions);
      match p.types[name] {
        case EnumDecl =>
        case UnionDecl(variants) =>
          var left := variants;
          while left != {}
            invariant left <= variants && Progress(p, was, name, seen, old(unions), direct, unions) && direct == {}
            invariant variants - left <= seen
          {
            var v :| v in left;
            left := left - {v};
            VariantStruct(p, name, v);
            ProgressFacts(p, was, name, seen, old(unions), direct, unions);
            ghost var before, held := seen, unions;
            var good := Visit(v);
            if !good { return false; }
            ProgressStep(p, was, name, before, seen, old(unions), direct, held, {}, unions);
            assert direct + {} == direct;
          }
        case StructDecl(fields, _) =>
          for i := 0 to |fields|
            invariant Progress(p, was, name, seen, old(unions), direct, unions)
            invariant forall j :: 0 <= j < i ==> Accepts(p, fields[j]) && FieldName(p, name, j) != "Clone"
            invariant direct == MentionsUpTo(p, fields, i)
            invariant forall j :: 0 <= j < i ==> Names(p, fields[j]) <= seen
          {
            if FieldName(p, name, i) == "Clone" {
              RefusedHere(p, name, i);
              return false;
            }
            ProgressFacts(p, was, name, seen, old(unions), direct, unions);
            ghost var before, held := seen, unions;
            var good := VisitExpr(fields[i]);
            if !good {
              RefusedHere(p, name, i);
              return false;
            }
            ProgressStep(p, was, name, before, seen, old(unions), direct, held, Mentions(p, fields[i]), unions);
            MentionsNext(p, fields, i);
            direct := direct + Mentions(p, fields[i]);
          }
      }
      ProgressDone(p, was, name, seen, old(unions), direct, unions);
    }

    method VisitExpr(t: GoType) returns (ok: bool)
      requires VariantsDeclared(p) && seen <= p.types.Keys
      modifies this`seen, this`unions
      ensures ok ==> Visited(Mentions(p, t)) && Accepts(p, t) && Names(p, t) <= seen
      ensures !ok ==> !Accepts(p, t) || SomeRefused(p)
      decreases p.types.Keys - seen, 1, t
    {
      ok := true;
      match t {
        case Ident(name) =>
          if IsScalar(name) || name in p.manual { return; }
          if name !in p.types { return false; }
          match p.types[name] {
            case EnumDecl =>
            case StructDecl(_, _) => ok := Visit(name);
            case UnionDecl(_) =>
              unions := unions + {name};
              ok := Visit(name);
          }
        case Pointer(e) => ok := VisitExpr(e);
        case Slice(e) => ok := VisitExpr(e);
        case MapOf(e) => ok := VisitExpr(e);
        case RawMessage =>
        case Optional(e) => ok := VisitExpr(e);
        case Unsupported => return false;
      }
    }

    /** Validation of a whole package: it succeeds exactly when every struct field can be copied and none is called
        Clone, and then the unions are exactly those that some field names. */
    method VisitAll(names: seq<string>) returns (ok: bool)
      requires VariantsDeclared(p) && seen == {} && unions == {} && forall n :: n in names <==> n in p.types
      modifies this`seen, this`unions
      ensures ok <==> forall n :: n in p.types ==> FieldsAccepted(p, n)
      ensures ok ==> unions == UnionsIn(p, p.types.Keys)
    {
      hide UnionsIn, FieldsAccepted;
      NothingSeen(p);
      for i := 0 to |names|
        invariant seen <= p.types.Keys && AllAccepted(p, seen) && unions == UnionsIn(p, seen)
        invariant forall j :: 0 <= j < i ==> p.types[names[j]].EnumDecl? || names[j] in seen
      {
        if !p.types[names[i]].EnumDecl? {
          ghost var before := seen;
          var good := Visit(names[i]);
          if !good { return false; }
          UnionsInMore(p, before, seen - before);
          AllMore(p, before, seen - before);
          assert before + (seen - before) == seen;
        }
      }
      ok := true;
      EnumsHaveNoFields(p, seen);
    }

    method Variable(prefix: string) returns (x: Name)
      modifies this`nextVar
      ensures nextVar == old(nextVar) + 1 && x == Tmp(prefix, nextVar)
    {
      nextVar := nextVar + 1;
      x := Tmp(prefix, nextVar);
    }

    /** Emission with the running counter gives what EmitAssign says. */
    method AssignCode(t: GoType, dst: Place, src: Place) returns (s: Stmt)
      modifies this`nextVar
      ensures (s, nextVar) == EmitAssign(p, t, dst, src, old(nextVar))
      decreases t
    {
      match t {
        case Ident(name) =>
          s := if IsUnion(p, name) then CallUnion(dst, src, name)
               else if name in p.manual || IsStruct(p, name) then CallClone(dst, src, name)
               else Assign(dst, src);
        case Pointer(e) =>
          var body := AssignCode(e, Deref(dst), Deref(src));
          s := IfNotNil(src, Seq(New(dst, e), body));
        case Slice(e) =>
          if !NeedsClone(p, e) {
            return IfNotNil(src, Seq(MakeSlice(dst, e, src), CopyElems(dst, src)));
          }
          var index := Variable("i");
          var body := AssignCode(e, At(dst, index), At(src, index));
          s := IfNotNil(src, Seq(MakeSlice(dst, e, src), RangeSlice(index, src, body)));
        case MapOf(e) =>
          var key := Variable("key");
          var value := Variable("value");
          if !NeedsClone(p, e) {
            return IfNotNil(src, Seq(MakeMap(dst, src), RangeMap(key, value, src, SetKey(dst, key, value))));
          }
          var cloned := Variable("cloned");
          var body := AssignCode(e, Var(cloned), Var(value));
          s := IfNotNil(src, Seq(MakeMap(dst, src),
            RangeMap(key, value, src, Seq(Declare(cloned, e), Seq(body, SetKey(dst, key, cloned))))));
        case RawMessage => s := IfNotNil(src, Seq(MakeSlice(dst, Ident("byte"), src), CopyElems(dst, src)));
        case Optional(e) =>
          var value := Variable("value");
          var ok := Variable("ok");
          var cloned := Variable("cloned");
          var body := AssignCode(e, Var(cloned), Var(value));
          s := IfGet(value, ok, src, Seq(Declare(cloned, e), Seq(body, SetSome(dst, cloned))));
        case Unsupported => s := Skip;
      }
    }

    /** The statements of one Clone method, in field order. */
    method MethodCode(name: string) returns (code: seq<Stmt>)
      requires IsStruct(p, name)
      modifies this`nextVar
      ensures Then(code, Skip) == EmitFields(p, p.types[name].fields, 0, 0)
    {
      hide EmitAssign, NeedsClone;
      nextVar := 0;
      code := [];
      var fields := p.types[name].fields;
      for i := 0 to |fields|
        invariant Then(code, EmitFields(p, fields, i, nextVar)) == EmitFields(p, fields, 0, 0)
      {
        if NeedsClone(p, fields[i]) {
          ghost var n := nextVar;
          var s := AssignCode(fields[i], Sel(Var(Out), i), Sel(Var(Receiver), i));
          assert EmitFields(p, fields, i, n) == Seq(s, EmitFields(p, fields, i + 1, nextVar));
          ThenAppend(code, s, EmitFields(p, fields, i + 1, nextVar));
          code := code + [s];
        }
      }
    }
  }

  lemma {:induction false} NothingSeen(p: Package)
    ensures UnionsIn(p, {}) == {} && AllAccepted(p, {})
  {
  }

  lemma {:induction false} MentionedBy(p: Package, names: set<string>, u: string) returns (n: string)
    requires u in UnionsIn(p, names)
    ensures n in names && IsStruct(p, n) && u in UnionsIn(p, {n})
  {
    var i;
    n, i :| n in names && IsStruct(p, n) && 0 <= i < |p.types[n].fields| && u in Mentions(p, p.types[n].fields[i]);
  }

  lemma {:induction false} EnumsHaveNoFields(p: Package, seen: set<string>)
    requires seen <= p.types.Keys && AllAccepted(p, seen)
             && forall n :: n in p.types ==> p.types[n].EnumDecl? || n in seen
    ensures forall n :: n in p.types ==> FieldsAccepted(p, n)
    ensures UnionsIn(p, seen) == UnionsIn(p, p.types.Keys)
  {
    forall n | n in p.types ensures FieldsAccepted(p, n) {
      if n !in seen { assert !IsStruct(p, n); }
    }
    forall u | u in UnionsIn(p, p.types.Keys) ensures u in UnionsIn(p, seen) {
      var n := MentionedBy(p, p.types.Keys, u);
      UnionsInMore(p, {n}, seen);
      assert {n} + seen == seen;
    }
  }

  // ---------------------------------------------------------------- every function that is called is emitted

  /** The union clone functions a statement calls. */
  function Calls(s: Stmt): set<string> {
    match s
    case Seq(a, b) => Calls(a) + Calls(b)
    case CallUnion(_, _, name) => {name}
    case IfNotNil(_, body) => Calls(body)
    case RangeSlice(_, _, body) => Calls(body)
    case RangeMap(_, _, _, body) => Calls(body)
    case IfGet(_, _, _, body) => Calls(body)
    case _ => {}
  }

  /** The statement is part of another. */
  predicate Within(part: Stmt, whole: Stmt) {
    || part == whole
    || (whole.Seq? && (Within(part, whole.first) || Within(part, whole.second)))
    || ((whole.IfNotNil? || whole.RangeSlice? || whole.RangeMap? || whole.IfGet?) && Within(part, whole.body))
  }

  /** Calls misses none and adds none. */
  lemma {:induction false} CallsAre(s: Stmt, name: string)
    ensures name in Calls(s) <==> exists dst, src :: Within(CallUnion(dst, src, name), s)
  {
    match s
    case CallUnion(dst, src, n) => assert Within(CallUnion(dst, src, n), s);
    case Seq(a, b) =>
      CallsAre(a, name);
      CallsAre(b, name);
    case IfNotNil(_, body) => CallsAre(body, name);
    case RangeSlice(_, _, body) => CallsAre(body, name);
    case RangeMap(_, _, _, body) => CallsAre(body, name);
    case IfGet(_, _, _, body) => CallsAre(body, name);
    case _ =>
  }

  lemma {:induction false} CallsAreMentioned(p: Package, t: GoType, dst: Place, src: Place, nv: nat)
    requires Valid(p)
    ensures Calls(EmitAssign(p, t, dst, src, nv).0) <= Mentions(p, t)
    decreases t
  {
    hide EmitAssign, Mentions, Calls, Valid, NeedsClone;
    match t
    case Pointer(e) =>
      CallsAreMentioned(p, e, Deref(dst), Deref(src), nv);
      PointerCalls(p, e, dst, src, nv);
    case Slice(e) =>
      CallsAreMentioned(p, e, At(dst, Tmp("i", nv + 1)), At(src, Tmp("i", nv + 1)), nv + 1);
      SliceCalls(p, e, dst, src, nv);
    case MapOf(e) =>
      CallsAreMentioned(p, e, Var(Tmp("cloned", nv + 3)), Var(Tmp("value", nv + 2)), nv + 3);
      MapCalls(p, e, dst, src, nv);
    case Optional(e) =>
      CallsAreMentioned(p, e, Var(Tmp("cloned", nv + 3)), Var(Tmp("value", nv + 1)), nv + 3);
      OptionalCalls(p, e, dst, src, nv);
    case _ => LeafCalls(p, t, dst, src, nv);
  }

  lemma {:induction false} LeafCalls(p: Package, t: GoType, dst: Place, src: Place, nv: nat)
    requires Valid(p) && (t.Ident? || t.RawMessage? || t.Unsupported?)
    ensures Calls(EmitAssign(p, t, dst, src, nv).0) <= Mentions(p, t)
  {
    if t.RawMessage? { CallsOfGuarded(src, MakeSlice(dst, Ident("byte"), src), CopyElems(dst, src)); }
  }

  lemma {:induction false} PointerCalls(p: Package, e: GoType, dst: Place, src: Place, nv: nat)
    requires Calls(EmitAssign(p, e, Deref(dst), Deref(src), nv).0) <= Mentions(p, e)
    ensures Calls(EmitAssign(p, Pointer(e), dst, src, nv).0) <= Mentions(p, Pointer(e))
  {
    CallsOfGuarded(src, New(dst, e), EmitAssign(p, e, Deref(dst), Deref(src), nv).0);
  }

  lemma {:induction false} SliceCalls(p: Package, e: GoType, dst: Place, src: Place, nv: nat)
    requires var index := Tmp("i", nv + 1);
             Calls(EmitAssign(p, e, At(dst, index), At(src, index), nv + 1).0) <= Mentions(p, e)
    ensures Calls(EmitAssign(p, Slice(e), dst, src, nv).0) <= Mentions(p, Slice(e))
  {
    var index := Tmp("i", nv + 1);
    var body := EmitAssign(p, e, At(dst, index), At(src, index), nv + 1).0;
    CallsOfGuarded(src, MakeSlice(dst, e, src), RangeSlice(index, src, body));
    CallsOfGuarded(src, MakeSlice(dst, e, src), CopyElems(dst, src));
  }

  lemma {:induction false} MapCalls(p: Package, e: GoType, dst: Place, src: Place, nv: nat)
    requires Calls(EmitAssign(p, e, Var(Tmp("cloned", nv + 3)), Var(Tmp("value", nv + 2)), nv + 3).0) <= Mentions(p, e)
    ensures Calls(EmitAssign(p, MapOf(e), dst, src, nv).0) <= Mentions(p, MapOf(e))
  {
    var key, value, cloned := Tmp("key", nv + 1), Tmp("value", nv + 2), Tmp("cloned", nv + 3);
    var body := EmitAssign(p, e, Var(cloned), Var(value), nv + 3).0;
    var whole := Seq(Declare(cloned, e), Seq(body, SetKey(dst, key, cloned)));
    CallsOfDeclared(cloned, e, body, SetKey(dst, key, cloned));
    CallsOfGuarded(src, MakeMap(dst, src), RangeMap(key, value, src, whole));
    CallsOfGuarded(src, MakeMap(dst, src), RangeMap(key, value, src, SetKey(dst, key, value)));
  }

  lemma {:induction false} OptionalCalls(p: Package, e: GoType, dst: Place, src: Place, nv: nat)
    requires Calls(EmitAssign(p, e, Var(Tmp("cloned", nv + 3)), Var(Tmp("value", nv + 1)), nv + 3).0) <= Mentions(p, e)
    ensures Calls(EmitAssign(p, Optional(e), dst, src, nv).0) <= Mentions(p, Optional(e))
  {
    var value, cloned := Tmp("value", nv + 1), Tmp("cloned", nv + 3);
    CallsOfDeclared(cloned, e, EmitAssign(p, e, Var(cloned), Var(value), nv + 3).0, SetSome(dst, cloned));
  }

  lemma {:induction false} CallsOfGuarded(src: Place, a: Stmt, b: Stmt)
    ensures Calls(IfNotNil(src, Seq(a, b))) == Calls(a) + Calls(b)
  {
    assert Calls(Seq(a, b)) == Calls(a) + Calls(b);
  }

  lemma {:induction false} CallsOfDeclared(x: Name, e: GoType, body: Stmt, last: Stmt)
    requires Calls(last) == {}
    ensures Calls(Seq(Declare(x, e), Seq(body, last))) == Calls(body)
  {
    assert Calls(Seq(body, last)) == Calls(body) + Calls(last);
    assert Calls(Declare(x, e)) == {};
  }

  /** Every union function called from a Clone method is one that validation recorded for emission. */
  lemma {:induction false} CallsAreEmitted(p: Package, name: string, i: nat, nv: nat)
    requires Valid(p) && IsStruct(p, name) && i <= |p.types[name].fields|
    ensures Calls(EmitFields(p, p.types[name].fields, i, nv)) <= UnionsIn(p, p.types.Keys)
    decreases |p.types[name].fields| - i
  {
    var fields := p.types[name].fields;
    if i < |fields| {
      if !NeedsClone(p, fields[i]) {
        CallsAreEmitted(p, name, i + 1, nv);
      } else {
        var dst, src := Sel(Var(Out), i), Sel(Var(Receiver), i);
        CallsAreMentioned(p, fields[i], dst, src, nv);
        CallsAreEmitted(p, name, i + 1, EmitAssign(p, fields[i], dst, src, nv).1);
        assert Mentions(p, fields[i]) <= UnionsIn(p, p.types.Keys);
      }
    }
  }
}
