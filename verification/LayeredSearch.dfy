/** Which results a dispatch can encode: a search of the call graph, layer by layer, up to the first that answers. */
module LayeredSearch {

  datatype Location = Location(file: string, line: nat)

  /** A function body, given by the response variants and the names called that were matched in it. */
  datatype Fn = Fn(name: string, at: Location, responses: seq<string>, calls: seq<string>)

  datatype Finding = Finding(variant: string, at: Location, through: string)

  type Index = map<string, seq<Fn>>

  const MAX_DEPTH: nat := 4

  /** The bodies known under a name, each carrying that name. */
  function Targets(index: Index, name: string): seq<Fn> {
    if name in index then Named(index[name], name) else []
  }

  function Named(fns: seq<Fn>, name: string): (r: seq<Fn>)
    ensures |r| == |fns| && forall k :: 0 <= k < |r| ==> r[k] == fns[k].(name := name)
  {
    if fns == [] then [] else [fns[0].(name := name)] + Named(fns[1..], name)
  }

  // ---------------------------------------------------------------- call-name distance

  /** A chain of at most d calls leads from the entry to the name. */
  ghost predicate ReachableIn(entry: Fn, index: Index, d: nat, name: string)
    decreases d
  {
    d > 0 && (name in entry.calls
              || exists b, k :: b in index && 0 <= k < |index[b]| && name in index[b][k].calls &&
                                ReachableIn(entry, index, d - 1, b))
  }

  /** f is a body at distance d: the entry itself, or one under a name whose shortest chain has d calls. */
  ghost predicate InLayer(entry: Fn, index: Index, d: nat, f: Fn) {
    if d == 0 then f == entry
    else
      && ReachableIn(entry, index, d, f.name) && !ReachableIn(entry, index, d - 1, f.name)
      && f in Targets(index, f.name)
  }

  ghost predicate Answers(entry: Fn, index: Index, d: nat) {
    exists f :: InLayer(entry, index, d, f) && f.responses != []
  }

  /** The nearest layer with a response, if it is near enough. */
  ghost predicate AnsweringLayer(entry: Fn, index: Index, d: nat) {
    d < MAX_DEPTH && Answers(entry, index, d) && forall e: nat :: e < d ==> !Answers(entry, index, e)
  }

  function Reported(f: Fn, variant: string, d: nat): Finding {
    Finding(variant, f.at, if d > 0 then f.name else "")
  }

  ghost predicate IsFinding(entry: Fn, index: Index, x: Finding) {
    exists d: nat, f, v :: AnsweringLayer(entry, index, d) && InLayer(entry, index, d, f) && v in f.responses
      && x == Reported(f, v, d)
  }

  lemma {:induction false} ReachableMore(entry: Fn, index: Index, d: nat, name: string)
    requires ReachableIn(entry, index, d, name)
    ensures ReachableIn(entry, index, d + 1, name)
    decreases d
  {
    if name !in entry.calls {
      var b, k :| b in index && 0 <= k < |index[b]| && name in index[b][k].calls && ReachableIn(entry, index, d - 1, b);
      ReachableMore(entry, index, d - 1, b);
    }
  }

  ghost predicate CalledFromLayer(entry: Fn, index: Index, d: nat, name: string) {
    exists f :: InLayer(entry, index, d, f) && name in f.calls
  }

  /** Expanding only the newest layer misses nothing, on cyclic graphs too. */
  lemma {:induction false} NextNames(entry: Fn, index: Index, d: nat, name: string)
    ensures ReachableIn(entry, index, d + 1, name) <==>
            ReachableIn(entry, index, d, name) || CalledFromLayer(entry, index, d, name)
  {
    if ReachableIn(entry, index, d, name) {
      ReachableMore(entry, index, d, name);
    }
    if CalledFromLayer(entry, index, d, name) {
      var f :| InLayer(entry, index, d, f) && name in f.calls;
      if d > 0 {
        var k :| 0 <= k < |Targets(index, f.name)| && Targets(index, f.name)[k] == f;
        assert name in index[f.name][k].calls;
      }
    }
    if ReachableIn(entry, index, d + 1, name) && !ReachableIn(entry, index, d, name) {
      if name in entry.calls {
        assert InLayer(entry, index, d, entry);
      } else {
        var b, k :| b in index && 0 <= k < |index[b]| && name in index[b][k].calls && ReachableIn(entry, index, d, b);
        var f := Targets(index, b)[k];
        assert f == index[b][k].(name := b);
        assert !ReachableIn(entry, index, d - 1, b);
        assert InLayer(entry, index, d, f);
      }
    }
  }

  /** Beyond an empty layer every layer is empty. */
  lemma {:induction false} EmptyForGood(entry: Fn, index: Index, d: nat, e: nat)
    requires d <= e && forall f :: !InLayer(entry, index, d, f)
    ensures forall f :: !InLayer(entry, index, e, f)
    decreases e - d
  {
    if d < e {
      var after := d + 1;
      forall f ensures !InLayer(entry, index, after, f) {
        NextNames(entry, index, d, f.name);
      }
      EmptyForGood(entry, index, d + 1, e);
    }
  }

  /** A dispatch answers exactly when some body at most three calls away does, and then with what the nearest such
      bodies encode; what lies further is not looked at. */
  lemma {:induction false} WithinThreeCalls(entry: Fn, index: Index)
    ensures (exists x :: IsFinding(entry, index, x)) <==>
            Answers(entry, index, 0) || Answers(entry, index, 1) || Answers(entry, index, 2) || Answers(entry, index, 3)
  {
    hide InLayer, Answers;
    if exists x :: IsFinding(entry, index, x) {
      var x :| IsFinding(entry, index, x);
      var d: nat :| AnsweringLayer(entry, index, d);
      assert d == 0 || d == 1 || d == 2 || d == 3;
    }
    if Answers(entry, index, 0) || Answers(entry, index, 1) || Answers(entry, index, 2) || Answers(entry, index, 3) {
      var d: nat := if Answers(entry, index, 0) then 0 else if Answers(entry, index, 1) then 1
                    else if Answers(entry, index, 2) then 2 else 3;
      assert AnsweringLayer(entry, index, d);
      SomeFinding(entry, index, d);
    }
  }

  lemma {:induction false} SomeFinding(entry: Fn, index: Index, d: nat)
    requires AnsweringLayer(entry, index, d)
    ensures exists x :: IsFinding(entry, index, x)
  {
    hide InLayer;
    var f :| InLayer(entry, index, d, f) && f.responses != [];
    var v := f.responses[0];
    assert v in f.responses;
    assert IsFinding(entry, index, Reported(f, v, d));
  }

  lemma {:induction false} ReachableWithin(entry: Fn, index: Index, d: nat, e: nat, name: string)
    requires ReachableIn(entry, index, d, name) && d <= e
    ensures ReachableIn(entry, index, e, name)
    decreases e - d
  {
    if d < e {
      ReachableMore(entry, index, d, name);
      ReachableWithin(entry, index, d + 1, e, name);
    }
  }

  /** What a finding says: a response of the dispatch point itself, through nothing, when that has any; otherwise one of
      a body at the place it names, through the function that body is known as, at most three calls away. */
  lemma {:induction false} FindingSays(entry: Fn, index: Index, x: Finding)
    requires IsFinding(entry, index, x)
    ensures entry.responses != [] ==> x.through == "" && x.at == entry.at && x.variant in entry.responses
    ensures entry.responses == [] ==>
              && ReachableIn(entry, index, 3, x.through)
              && exists f :: f in Targets(index, x.through) && f.at == x.at && x.variant in f.responses
  {
    hide ReachableIn, Targets;
    var d: nat, f, v :| AnsweringLayer(entry, index, d) && InLayer(entry, index, d, f) && v in f.responses
                        && x == Reported(f, v, d);
    assert InLayer(entry, index, 0, entry);
    assert entry.responses != [] <==> Answers(entry, index, 0);
    if d > 0 { ReachableWithin(entry, index, d, 3, f.name); }
  }

  // ---------------------------------------------------------------- the search

  /** The calls of one body: unvisited names are marked and their bodies join the next layer. */
  method FollowCalls(fn: Fn, visited: set<string>, index: Index) returns (marked: set<string>, next: seq<Fn>)
    ensures forall c :: c in marked <==> c in visited || c in fn.calls
    ensures forall g :: g in next <==> g.name in marked && g.name !in visited && g in Targets(index, g.name)
  {
    marked, next := visited, [];
    for i := 0 to |fn.calls|
      invariant forall c :: c in marked <==> c in visited || c in fn.calls[..i]
      invariant forall g :: g in next <==> g.name in marked && g.name !in visited && g in Targets(index, g.name)
    {
      var call := fn.calls[i];
      assert fn.calls[..i + 1] == fn.calls[..i] + [call];
      if call !in marked {
        marked := marked + {call};
        forall g ensures g in Targets(index, call) ==> g.name == call {
          if g in Targets(index, call) { TargetName(index, call, g); }
        }
        next := next + Targets(index, call);
      }
    }
    assert fn.calls[..|fn.calls|] == fn.calls;
  }

  lemma {:induction false} TargetName(index: Index, name: string, g: Fn)
    requires g in Targets(index, name)
    ensures g.name == name
  {
  }

  ghost predicate HitIn(frontier: seq<Fn>, n: nat, depth: nat, x: Finding)
    requires n <= |frontier|
  {
    exists j, v :: 0 <= j < n && v in frontier[j].responses && x == Reported(frontier[j], v, depth)
  }

  ghost predicate CalledIn(frontier: seq<Fn>, n: nat, c: string)
    requires n <= |frontier|
  {
    exists j :: 0 <= j < n && c in frontier[j].calls
  }

  /** One layer: the responses in it, and the layer after it. */
  method ScanLayer(frontier: seq<Fn>, depth: nat, visited: set<string>, index: Index)
    returns (hits: seq<Finding>, marked: set<string>, next: seq<Fn>)
    ensures forall x :: x in hits <==> HitIn(frontier, |frontier|, depth, x)
    ensures forall c :: c in marked <==> c in visited || CalledIn(frontier, |frontier|, c)
    ensures forall g :: g in next <==> g.name in marked && g.name !in visited && g in Targets(index, g.name)
  {
    hits, marked, next := [], visited, [];
    for i := 0 to |frontier|
      invariant forall x :: x in hits <==> HitIn(frontier, i, depth, x)
      invariant forall c :: c in marked <==> c in visited || CalledIn(frontier, i, c)
      invariant forall g :: g in next <==> g.name in marked && g.name !in visited && g in Targets(index, g.name)
    {
      var found := Responses(frontier[i], depth);
      hits := hits + found;
      var more;
      marked, more := FollowCalls(frontier[i], marked, index);
      next := next + more;
    }
  }

  method Responses(fn: Fn, depth: nat) returns (hits: seq<Finding>)
    ensures forall x :: x in hits <==> exists v :: v in fn.responses && x == Reported(fn, v, depth)
  {
    hits := [];
    for i := 0 to |fn.responses|
      invariant forall x :: x in hits <==> exists v :: v in fn.responses[..i] && x == Reported(fn, v, depth)
    {
      assert fn.responses[..i + 1] == fn.responses[..i] + [fn.responses[i]];
      hits := hits + [Reported(fn, fn.responses[i], depth)];
    }
    assert fn.responses[..|fn.responses|] == fn.responses;
  }

  /** The search has come to layer d: the frontier is that layer, and the visited names are those within d calls. */
  ghost predicate AtLayer(entry: Fn, index: Index, d: nat, frontier: seq<Fn>, visited: set<string>) {
    && (forall f :: f in frontier <==> InLayer(entry, index, d, f))
    && (forall c :: c in visited <==> ReachableIn(entry, index, d, c))
    && (forall e: nat :: e < d ==> !Answers(entry, index, e))
  }

  lemma {:induction false} NextLayer(entry: Fn, index: Index, d: nat, frontier: seq<Fn>, visited: set<string>,
                                     marked: set<string>, next: seq<Fn>)
    requires AtLayer(entry, index, d, frontier, visited) && !Answers(entry, index, d)
    requires forall c :: c in marked <==> c in visited || CalledIn(frontier, |frontier|, c)
    requires forall g :: g in next <==> g.name in marked && g.name !in visited && g in Targets(index, g.name)
    ensures AtLayer(entry, index, d + 1, next, marked)
  {
    hide Targets, ReachableIn, Answers;
    forall c ensures c in marked <==> ReachableIn(entry, index, d + 1, c) {
      NextNames(entry, index, d, c);
      if CalledIn(frontier, |frontier|, c) {
        var j :| 0 <= j < |frontier| && c in frontier[j].calls;
        assert frontier[j] in frontier;
      }
      if CalledFromLayer(entry, index, d, c) {
        var f :| InLayer(entry, index, d, f) && c in f.calls;
        assert f in frontier;
      }
    }
  }

  lemma {:induction false} LayerHits(entry: Fn, index: Index, d: nat, frontier: seq<Fn>, visited: set<string>,
                                     hits: seq<Finding>)
    requires AtLayer(entry, index, d, frontier, visited) && d < MAX_DEPTH
    requires forall x :: x in hits <==> HitIn(frontier, |frontier|, d, x)
    ensures hits == [] <==> !Answers(entry, index, d)
    ensures hits != [] ==> forall x :: x in hits <==> IsFinding(entry, index, x)
  {
    hide Targets, ReachableIn, InLayer;
    if hits != [] {
      assert hits[0] in hits;
      var j, v :| 0 <= j < |frontier| && v in frontier[j].responses && hits[0] == Reported(frontier[j], v, d);
      assert frontier[j] in frontier;
    }
    if Answers(entry, index, d) {
      var f :| InLayer(entry, index, d, f) && f.responses != [];
      assert f in frontier && f.responses[0] in f.responses;
      assert HitIn(frontier, |frontier|, d, Reported(f, f.responses[0], d));
      assert AnsweringLayer(entry, index, d);
      forall x ensures x in hits <==> IsFinding(entry, index, x) {
        OneLayer(entry, index, d, frontier, x);
      }
    }
  }

  lemma {:induction false} OneLayer(entry: Fn, index: Index, d: nat, frontier: seq<Fn>, x: Finding)
    requires AnsweringLayer(entry, index, d) && forall f :: f in frontier <==> InLayer(entry, index, d, f)
    ensures HitIn(frontier, |frontier|, d, x) <==> IsFinding(entry, index, x)
  {
    hide Targets, ReachableIn, InLayer, Answers;
    if HitIn(frontier, |frontier|, d, x) {
      var j, v :| 0 <= j < |frontier| && v in frontier[j].responses && x == Reported(frontier[j], v, d);
      assert frontier[j] in frontier;
    }
    if IsFinding(entry, index, x) {
      var e: nat, f, v :| AnsweringLayer(entry, index, e) && InLayer(entry, index, e, f) && v in f.responses
        && x == Reported(f, v, e);
      assert e == d;
      assert f in frontier;
    }
  }

  lemma {:induction false} NoFinding(entry: Fn, index: Index, d: nat, frontier: seq<Fn>, visited: set<string>,
                                     x: Finding)
    requires AtLayer(entry, index, d, frontier, visited) && (d >= MAX_DEPTH || frontier == [])
    ensures !IsFinding(entry, index, x)
  {
    hide Targets, ReachableIn, InLayer;
    if IsFinding(entry, index, x) {
      var e: nat :| AnsweringLayer(entry, index, e);
      if frontier == [] && d <= e {
        EmptyForGood(entry, index, d, e);
      }
    }
  }

  /** What one dispatch point can answer: the responses at the least distance below the limit at which there is any. */
  method SearchFrom(entry: Fn, index: Index) returns (hits: seq<Finding>)
    ensures forall x :: x in hits <==> IsFinding(entry, index, x)
  {
    hide InLayer, Answers, IsFinding, AtLayer, HitIn, CalledIn, Targets;
    var frontier, visited, depth: nat := [entry], {}, 0;
    FirstLayer(entry, index);
    while depth < MAX_DEPTH && |frontier| > 0
      invariant AtLayer(entry, index, depth, frontier, visited)
      decreases MAX_DEPTH - depth
    {
      var marked, next;
      hits, marked, next := ScanLayer(frontier, depth, visited, index);
      LayerHits(entry, index, depth, frontier, visited, hits);
      if |hits| > 0 { return; }
      NextLayer(entry, index, depth, frontier, visited, marked, next);
      frontier, visited, depth := next, marked, depth + 1;
    }
    forall x ensures !IsFinding(entry, index, x) {
      NoFinding(entry, index, depth, frontier, visited, x);
    }
    hits := [];
  }

  lemma {:induction false} FirstLayer(entry: Fn, index: Index)
    ensures AtLayer(entry, index, 0, [entry], {})
  {
  }

  datatype Scan = NoDispatch | NoResult | Findings(found: seq<Finding>)

  ghost predicate Same(x: Finding, y: Finding) { x.variant == y.variant && x.at == y.at }

  ghost predicate FoundAt(found: seq<Finding>, x: Finding) {
    exists y :: y in found && Same(x, y)
  }

  /** Exactly the findings of the dispatch points, each variant and place once. */
  ghost predicate Collected(points: seq<Fn>, n: nat, index: Index, found: seq<Finding>)
    requires n <= |points|
  {
    && (forall x :: x in found ==> exists i :: 0 <= i < n && IsFinding(points[i], index, x))
    && (forall x, i :: 0 <= i < n && IsFinding(points[i], index, x) ==> FoundAt(found, x))
    && Distinct(found)
  }

  ghost predicate SeenIs(seen: set<(string, Location)>, found: seq<Finding>) {
    forall v, a :: (v, a) in seen <==> exists y :: y in found && y.variant == v && y.at == a
  }

  ghost predicate Distinct(found: seq<Finding>) {
    forall i, j :: 0 <= i < j < |found| ==> !Same(found[i], found[j])
  }

  /** Adds one finding unless its variant and place are already there. */
  method Add(hit: Finding, found: seq<Finding>, seen: set<(string, Location)>)
    returns (all: seq<Finding>, marked: set<(string, Location)>)
    requires SeenIs(seen, found) && Distinct(found)
    ensures SeenIs(marked, all) && Distinct(all) && found <= all
    ensures FoundAt(all, hit) && forall x :: x in all ==> x in found || x == hit
  {
    if (hit.variant, hit.at) in seen {
      all, marked := found, seen;
    } else {
      forall y | y in found ensures !Same(y, hit) { }
      all, marked := found + [hit], seen + {(hit.variant, hit.at)};
      assert all[|found|] == hit;
      forall v, a ensures (v, a) in marked <==> exists y :: y in all && y.variant == v && y.at == a {
        if exists y :: y in found && y.variant == v && y.at == a {
          var y :| y in found && y.variant == v && y.at == a;
          assert y in all;
        }
      }
    }
  }

  method AddAll(hits: seq<Finding>, found: seq<Finding>, seen: set<(string, Location)>)
    returns (all: seq<Finding>, marked: set<(string, Location)>)
    requires SeenIs(seen, found) && Distinct(found)
    ensures SeenIs(marked, all) && Distinct(all) && found <= all
    ensures forall x :: x in hits ==> FoundAt(all, x)
    ensures forall x :: x in all ==> x in found || x in hits
  {
    hide SeenIs, Distinct, Same;
    all, marked := found, seen;
    for k := 0 to |hits|
      invariant SeenIs(marked, all) && Distinct(all) && found <= all
      invariant forall x :: x in hits[..k] ==> FoundAt(all, x)
      invariant forall x :: x in all ==> x in found || x in hits
    {
      ghost var was := all;
      all, marked := Add(hits[k], all, marked);
      forall x | x in hits[..k + 1] ensures FoundAt(all, x) {
        if x != hits[k] { FoundStays(was, all, x); }
      }
    }
    assert hits[..|hits|] == hits;
  }

  lemma {:induction false} FoundStays(found: seq<Finding>, all: seq<Finding>, x: Finding)
    requires FoundAt(found, x) && found <= all
    ensures FoundAt(all, x)
  {
    var y :| y in found && Same(x, y);
    assert y in all;
  }

  lemma {:induction false} CollectedNext(points: seq<Fn>, n: nat, index: Index, found: seq<Finding>, hits: seq<Finding>,
                                         all: seq<Finding>)
    requires n < |points| && Collected(points, n, index, found)
    requires forall x :: x in hits <==> IsFinding(points[n], index, x)
    requires Distinct(all) && found <= all && (forall x :: x in hits ==> FoundAt(all, x))
             && forall x :: x in all ==> x in found || x in hits
    ensures Collected(points, n + 1, index, all)
  {
    hide IsFinding, Same, FoundAt;
    forall x, i | 0 <= i < n + 1 && IsFinding(points[i], index, x) ensures FoundAt(all, x) {
      if i < n { FoundStays(found, all, x); }
    }
  }

  lemma {:induction false} NothingFound(points: seq<Fn>, index: Index, found: seq<Finding>)
    requires Collected(points, |points|, index, found)
    ensures found == [] <==> forall i, x :: 0 <= i < |points| ==> !IsFinding(points[i], index, x)
  {
    hide IsFinding;
    if found != [] {
      assert found[0] in found;
    } else {
      forall i, x | 0 <= i < |points| ensures !IsFinding(points[i], index, x) {
        assert !FoundAt(found, x);
      }
    }
  }

  // ---------------------------------------------------------------- the order of the report

  /** Strings compare character by character. */
  predicate Before(s: string, t: string) {
    if s == [] then t != []
    else if t == [] then false
    else if s[0] != t[0] then s[0] < t[0]
    else Before(s[1..], t[1..])
  }

  function Digits(n: nat): (r: string)
    ensures r != [] && forall i :: 0 <= i < |r| ==> r[i] != ':'
  {
    if n < 10 then ["0123456789"[n]] else Digits(n / 10) + ["0123456789"[n % 10]]
  }

  function Text(at: Location): string {
    at.file + ":" + Digits(at.line)
  }

  predicate Less(x: Finding, y: Finding) {
    if x.variant != y.variant then Before(x.variant, y.variant) else Before(Text(x.at), Text(y.at))
  }

  lemma {:induction false} BeforeTotal(s: string, t: string)
    ensures s == t || Before(s, t) || Before(t, s)
  {
    if s != [] && t != [] && s[0] == t[0] {
      BeforeTotal(s[1..], t[1..]);
      assert s == [s[0]] + s[1..] && t == [t[0]] + t[1..];
    }
  }

  lemma {:induction false} BeforeTrans(s: string, t: string, u: string)
    requires Before(s, t) && Before(t, u)
    ensures Before(s, u)
  {
    if s != [] && s[0] == t[0] == u[0] { BeforeTrans(s[1..], t[1..], u[1..]); }
  }

  lemma {:induction false} BeforeOnce(s: string)
    ensures !Before(s, s)
  {
    if s != [] { BeforeOnce(s[1..]); }
  }

  lemma {:induction false} OneDigit(n: nat)
    ensures |Digits(n)| == 1 <==> n < 10
  {
    if n >= 10 { assert |Digits(n / 10)| > 0; }
  }

  lemma {:induction false} DigitsTell(m: nat, n: nat)
    requires Digits(m) == Digits(n)
    ensures m == n
  {
    OneDigit(m);
    OneDigit(n);
    var d, e := Digits(m), Digits(n);
    if m < 10 {
      assert d[0] == e[0];
    } else {
      assert d[..|d| - 1] == Digits(m / 10) && e[..|e| - 1] == Digits(n / 10);
      DigitsTell(m / 10, n / 10);
      assert d[|d| - 1] == "0123456789"[m % 10] && e[|e| - 1] == "0123456789"[n % 10];
    }
  }

  /** The last colon of a place's text is the one after the file. */
  lemma {:induction false} LastColon(at: Location)
    ensures |Text(at)| == |at.file| + 1 + |Digits(at.line)| && Text(at)[|at.file|] == ':'
    ensures forall j :: |at.file| < j < |Text(at)| ==> Text(at)[j] != ':'
  {
  }

  /** A place is told by its text. */
  lemma {:induction false} TextTells(x: Location, y: Location)
    requires Text(x) == Text(y)
    ensures x == y
  {
    LastColon(x);
    LastColon(y);
    var s := Text(x);
    assert |x.file| == |y.file|;
    assert s[..|x.file|] == x.file && s[..|y.file|] == y.file;
    assert s[|x.file| + 1..] == Digits(x.line) && s[|y.file| + 1..] == Digits(y.line);
    DigitsTell(x.line, y.line);
  }

  lemma {:induction false} LessTotal(x: Finding, y: Finding)
    ensures Same(x, y) || Less(x, y) || Less(y, x)
  {
    hide Before, Text;
    BeforeTotal(x.variant, y.variant);
    BeforeTotal(Text(x.at), Text(y.at));
    if Text(x.at) == Text(y.at) { TextTells(x.at, y.at); }
  }

  lemma {:induction false} LessTrans(x: Finding, y: Finding, z: Finding)
    requires Less(x, y) && Less(y, z)
    ensures Less(x, z)
  {
    hide Before, Text;
    if x.variant == y.variant && y.variant == z.variant {
      BeforeTrans(Text(x.at), Text(y.at), Text(z.at));
    } else if x.variant != y.variant && y.variant != z.variant {
      BeforeTrans(x.variant, y.variant, z.variant);
      BeforeOnce(x.variant);
      if x.variant == z.variant { BeforeTrans(x.variant, y.variant, x.variant); }
    }
  }

  lemma {:induction false} LessOnce(x: Finding, y: Finding)
    requires Same(x, y)
    ensures !Less(x, y)
  {
    BeforeOnce(Text(x.at));
  }

  /** By variant, then by the text of the place, with no two alike. */
  ghost predicate Ascending(found: seq<Finding>) {
    forall i, j :: 0 <= i < j < |found| ==> Less(found[i], found[j])
  }

  /** Sorting, one finding after the other put where it belongs. */
  function Sorted(found: seq<Finding>): seq<Finding> {
    if found == [] then [] else Insert(Sorted(found[..|found| - 1]), found[|found| - 1])
  }

  function Insert(s: seq<Finding>, x: Finding): seq<Finding> {
    if s == [] then [x]
    else
      var last := s[|s| - 1];
      if Less(x, last) then Insert(s[..|s| - 1], x) + [last] else s + [x]
  }

  lemma {:induction false} InsertMembers(s: seq<Finding>, x: Finding)
    ensures forall y :: y in Insert(s, x) <==> y in s || y == x
  {
    hide Less;
    if s != [] {
      InsertMembers(s[..|s| - 1], x);
      assert s == s[..|s| - 1] + [s[|s| - 1]];
    }
  }

  lemma {:induction false} InsertAscends(s: seq<Finding>, x: Finding)
    requires Ascending(s) && forall y :: y in s ==> !Same(y, x)
    ensures Ascending(Insert(s, x))
  {
    hide Less, Same;
    if s != [] {
      var last, r := s[|s| - 1], s[..|s| - 1];
      LessTotal(x, last);
      if Less(x, last) {
        InsertAscends(r, x);
        InsertMembers(r, x);
        forall i | 0 <= i < |Insert(r, x)| ensures Less(Insert(r, x)[i], last) {
          assert Insert(r, x)[i] in Insert(r, x);
        }
      } else {
        assert Same(x, last) ==> Same(last, x) by { SameBack(x, last); }
        forall i | 0 <= i < |s| - 1 ensures Less(s[i], x) { LessTrans(s[i], last, x); }
      }
    }
  }

  lemma {:induction false} SameBack(x: Finding, y: Finding)
    ensures Same(x, y) <==> Same(y, x)
  {
  }

  /** Sorting keeps the findings and puts them in order. */
  lemma {:induction false} SortedIs(found: seq<Finding>)
    requires Distinct(found)
    ensures forall x :: x in Sorted(found) <==> x in found
    ensures Ascending(Sorted(found)) && Distinct(Sorted(found))
  {
    hide Same, Insert;
    if found != [] {
      var r, last := found[..|found| - 1], found[|found| - 1];
      SortedIs(r);
      assert found == r + [last];
      InsertMembers(Sorted(r), last);
      InsertAscends(Sorted(r), last);
    }
    AscendingDistinct(Sorted(found));
  }

  lemma {:induction false} AscendingDistinct(s: seq<Finding>)
    requires Ascending(s)
    ensures Distinct(s)
  {
    hide Less, Same;
    forall i, j | 0 <= i < j < |s| ensures !Same(s[i], s[j]) {
      if Same(s[i], s[j]) { LessOnce(s[i], s[j]); }
    }
  }

  ghost predicate FoundIn(f: seq<Finding>, g: seq<Finding>) {
    forall x :: x in f ==> FoundAt(g, x)
  }

  lemma {:induction false} LessSame(x: Finding, y: Finding, z: Finding)
    requires Same(x, y)
    ensures Less(x, z) <==> Less(y, z)
    ensures Less(z, x) <==> Less(z, y)
  {
  }

  lemma {:induction false} NoneBeyond(f: seq<Finding>, y: Finding)
    requires f != [] && Ascending(f) && FoundAt(f, y)
    ensures !Less(f[|f| - 1], y)
  {
    hide Less, Same;
    var x := f[|f| - 1];
    var z :| z in f && Same(y, z);
    LessSame(y, z, x);
    SameSelf(x);
    if Less(x, z) && z != x { LessTrans(x, z, x); }
  }

  lemma {:induction false} LastInOrder(f: seq<Finding>, g: seq<Finding>)
    requires f != [] && g != [] && Ascending(f) && Ascending(g) && FoundIn(f, g) && FoundIn(g, f)
    ensures Same(f[|f| - 1], g[|g| - 1])
  {
    hide Less, Same, Ascending, FoundAt;
    var x, y := f[|f| - 1], g[|g| - 1];
    NoneBeyond(f, y);
    NoneBeyond(g, x);
    LessTotal(x, y);
  }

  lemma {:induction false} SameSelf(x: Finding)
    ensures Same(x, x) && !Less(x, x)
  {
    LessOnce(x, x);
  }

  lemma {:induction false} PrefixFoundIn(f: seq<Finding>, g: seq<Finding>)
    requires f != [] && g != [] && Ascending(f) && FoundIn(f, g) && Same(f[|f| - 1], g[|g| - 1])
    ensures FoundIn(f[..|f| - 1], g[..|g| - 1])
  {
    hide Less, Same;
    var last, before, r := f[|f| - 1], f[..|f| - 1], g[..|g| - 1];
    forall x | x in before ensures FoundAt(r, x) {
      assert x in f && Less(x, last);
      var y :| y in g && Same(x, y);
      if y == g[|g| - 1] {
        SameVia(x, last, y);
        LessOnce(x, last);
      }
      assert y in r;
    }
  }

  lemma {:induction false} SameVia(x: Finding, y: Finding, z: Finding)
    requires Same(x, z) && Same(y, z)
    ensures Same(x, y)
  {
  }

  lemma {:induction false} SameReport(f: seq<Finding>, g: seq<Finding>)
    requires Ascending(f) && Ascending(g) && FoundIn(f, g) && FoundIn(g, f)
    ensures |f| == |g| && forall i :: 0 <= i < |f| ==> Same(f[i], g[i])
  {
    hide Less, Same, FoundIn;
    if g == [] {
      NothingIn(f, g);
    } else if f == [] {
      NothingIn(g, f);
    } else {
      LastInOrder(f, g);
      SameBack(f[|f| - 1], g[|g| - 1]);
      PrefixFoundIn(f, g);
      PrefixFoundIn(g, f);
      SameReport(f[..|f| - 1], g[..|g| - 1]);
    }
  }

  lemma {:induction false} NothingIn(f: seq<Finding>, g: seq<Finding>)
    requires FoundIn(f, g) && g == []
    ensures f == []
  {
    SomeOne(f);
  }

  lemma {:induction false} SomeOne(f: seq<Finding>)
    ensures f == [] || exists x :: x in f
  {
    if f != [] { assert f[0] in f; }
  }

  /** The report does not depend on the order in which the dispatch points are searched, nor on how often one is listed:
      the same variants at the same places, one by one. */
  lemma {:induction false} ReportIsCanonical(points: seq<Fn>, others: seq<Fn>, index: Index, f: seq<Finding>,
                                             g: seq<Finding>)
    requires forall p :: p in points <==> p in others
    requires Collected(points, |points|, index, f) && Ascending(f)
    requires Collected(others, |others|, index, g) && Ascending(g)
    ensures |f| == |g| && forall i :: 0 <= i < |f| ==> Same(f[i], g[i])
  {
    hide IsFinding, Same, FoundAt, Less;
    CollectedIn(points, others, index, f, g);
    CollectedIn(others, points, index, g, f);
    SameReport(f, g);
  }

  lemma {:induction false} CollectedIn(points: seq<Fn>, others: seq<Fn>, index: Index, f: seq<Finding>, g: seq<Finding>)
    requires forall p :: p in points ==> p in others
    requires Collected(points, |points|, index, f) && Collected(others, |others|, index, g)
    ensures FoundIn(f, g)
  {
    hide IsFinding, Same, FoundAt;
    forall x | x in f ensures FoundAt(g, x) {
      var i :| 0 <= i < |points| && IsFinding(points[i], index, x);
      assert points[i] in others;
      var j :| 0 <= j < |others| && others[j] == points[i];
    }
  }

  lemma {:induction false} CollectedSorted(points: seq<Fn>, index: Index, found: seq<Finding>, all: seq<Finding>)
    requires Collected(points, |points|, index, found) && Distinct(all) && forall x :: x in all <==> x in found
    ensures Collected(points, |points|, index, all)
  {
    hide IsFinding, Same;
    forall x, i | 0 <= i < |points| && IsFinding(points[i], index, x) ensures FoundAt(all, x) {
      assert FoundAt(found, x);
      var y :| y in found && Same(x, y);
      assert y in all;
    }
  }

  /** The results a method's dispatch can encode. */
  method ResultsFor(points: seq<Fn>, index: Index) returns (r: Scan)
    ensures r.NoDispatch? <==> points == []
    ensures r.NoResult? <==> points != [] && forall i, x :: 0 <= i < |points| ==> !IsFinding(points[i], index, x)
    ensures r.Findings? ==> Collected(points, |points|, index, r.found) && Ascending(r.found)
  {
    hide IsFinding, Same, Collected, SeenIs, Distinct, Sorted, Ascending;
    if |points| == 0 { return NoDispatch; }
    var found: seq<Finding>, seen: set<(string, Location)> := [], {};
    NoneYet(points, index);
    for i := 0 to |points|
      invariant Collected(points, i, index, found) && SeenIs(seen, found) && Distinct(found)
    {
      var hits := SearchFrom(points[i], index);
      ghost var was := found;
      found, seen := AddAll(hits, found, seen);
      CollectedNext(points, i, index, was, hits, found);
    }
    NothingFound(points, index, found);
    SortedIs(found);
    CollectedSorted(points, index, found, Sorted(found));
    r := if |found| == 0 then NoResult else Findings(Sorted(found));
  }

  lemma {:induction false} NoneYet(points: seq<Fn>, index: Index)
    ensures Collected(points, 0, index, []) && SeenIs({}, []) && Distinct([])
  {
  }
}
