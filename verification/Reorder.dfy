/** Where a tab.moved event puts the tabs it lists, and exactly when applying it twice changes nothing more. */
module Reorder {
  import opened Records
  import opened AssocList
  import M = Mirror

  /** The listed ids in order of first mention, without repetition. */
  function Firsts<T>(values: seq<T>, key: T -> string): seq<string> {
    if values == [] then []
    else
      var r := Firsts(values[..|values| - 1], key);
      var k := key(values[|values| - 1]);
      if k in r then r else r + [k]
  }

  /** The ids outside a set, in order. */
  function Minus(ids: seq<string>, drop: set<string>): seq<string> {
    if ids == [] then []
    else
      var r := Minus(ids[..|ids| - 1], drop);
      if ids[|ids| - 1] in drop then r else r + [ids[|ids| - 1]]
  }

  /** The listed ids that the list itself hands to another workspace. */
  ghost function Foreign(listed: seq<Tab>, workspace: string): set<string> {
    set k | k in Listed(listed, TabKey) && Listed(listed, TabKey)[k].workspace != workspace
  }

  /** The listed ids that end in the event's workspace, in order of first mention. */
  ghost function Own(listed: seq<Tab>, workspace: string): seq<string> {
    Minus(Firsts(listed, TabKey), Foreign(listed, workspace))
  }

  ghost predicate OneRun(ids: seq<string>, run: seq<string>) {
    exists i :: 0 <= i <= |ids| - |run| && RunAt(ids, i, run)
  }

  ghost predicate RunAt(ids: seq<string>, i: nat, run: seq<string>)
    requires i <= |ids| - |run|
  {
    ids[i..i + |run|] == run
  }

  // ---------------------------------------------------------------- lists of ids

  lemma {:induction false} FirstsAre<T>(values: seq<T>, key: T -> string)
    ensures forall k :: k in Firsts(values, key) <==> k in Listed(values, key)
    ensures forall i, j :: 0 <= i < j < |Firsts(values, key)| ==> Firsts(values, key)[i] != Firsts(values, key)[j]
  {
    if values != [] { FirstsAre(values[..|values| - 1], key); }
  }

  lemma {:induction false} MinusSame(ids: seq<string>, a: set<string>, b: set<string>)
    requires forall k :: k in ids ==> (k in a <==> k in b)
    ensures Minus(ids, a) == Minus(ids, b)
  {
    if ids != [] {
      assert ids[|ids| - 1] in ids;
      MinusSame(ids[..|ids| - 1], a, b);
    }
  }

  lemma {:induction false} MinusNothing(ids: seq<string>, drop: set<string>)
    requires forall k :: k in ids ==> k !in drop
    ensures Minus(ids, drop) == ids
  {
    if ids != [] {
      assert ids[|ids| - 1] in ids;
      MinusNothing(ids[..|ids| - 1], drop);
    }
  }

  lemma {:induction false} MinusMembers(ids: seq<string>, drop: set<string>)
    ensures forall k :: k in Minus(ids, drop) <==> k in ids && k !in drop
  {
    if ids != [] {
      MinusMembers(ids[..|ids| - 1], drop);
      assert ids == ids[..|ids| - 1] + [ids[|ids| - 1]];
    }
  }

  lemma {:induction false} MinusConcat(a: seq<string>, b: seq<string>, drop: set<string>)
    ensures Minus(a + b, drop) == Minus(a, drop) + Minus(b, drop)
  {
    if b == [] {
      assert a + b == a;
    } else {
      MinusConcat(a, b[..|b| - 1], drop);
      assert (a + b)[..|a + b| - 1] == a + b[..|b| - 1];
    }
  }

  /** Filtering entries filters their ids. */
  lemma {:induction false} RemovedIds<T>(s: seq<Entry<T>>, match': T -> bool)
    requires Distinct(s)
    ensures Ids(RemoveWhere(s, match')) == Minus(Ids(s), Gone(s, match'))
  {
    if s != [] {
      var rest := s[..|s| - 1];
      var k := s[|s| - 1].0;
      RemovedIds(rest, match');
      GoneIds(rest, match');
      NotBefore(s, |s| - 1);
      assert Ids(s)[..|s| - 1] == Ids(rest);
      forall q | q in Ids(rest) ensures q != k {
        var i :| 0 <= i < |rest| && Ids(rest)[i] == q;
        assert s[i].0 == q;
      }
      MinusSame(Ids(rest), Gone(s, match'), Gone(rest, match'));
    }
  }

  /** What an insertion adds is the listed ids that no held entry has, in order of first mention. */
  lemma {:induction false} AddedIds<T>(held: seq<Entry<T>>, values: seq<T>, key: T -> string)
    requires Distinct(held)
    ensures Ids(Merge(held, [], values, key).1) == Minus(Firsts(values, key), Lookup(held).Keys)
  {
    if values != [] {
      var rest := values[..|values| - 1];
      var v := values[|values| - 1];
      AddedIds(held, rest, key);
      MergeLookup(held, rest, key);
      var (h, f) := Merge(held, [], rest, key);
      HasLookup(h, key(v));
      HasLookup(f, key(v));
      PutIds(f, key(v), v);
      FirstsAre(rest, key);
      MinusMembers(Firsts(rest, key), Lookup(held).Keys);
      if key(v) in Lookup(f) {
        var i := LookupIndex(f, key(v));
        assert Ids(f)[i] == key(v);
      }
    }
  }

  // ---------------------------------------------------------------- placement

  /** Nothing before the first match is removed, so its index stays valid in what is left. */
  lemma {:induction false} PrefixStays<T>(s: seq<Entry<T>>, match': T -> bool)
    ensures var first := FirstWhere(s, match');
            var at := if first < 0 then |s| else first;
            && |RemoveWhere(s, match')| >= at && RemoveWhere(s, match')[..at] == s[..at]
            && RemoveWhere(s, match') == s[..at] + RemoveWhere(s[at..], match')
  {
    hide FirstWhere, Filter;
    var first := FirstWhere(s, match');
    var at := if first < 0 then |s| else first;
    FirstWhereIs(s, match');
    forall e | e in s[..at] ensures Unmatched(match')(e) {
      var i :| 0 <= i < at && s[i] == e;
    }
    FilterAll(s[..at], Unmatched(match'));
    FilterConcat(s[..at], s[at..], Unmatched(match'));
    assert s == s[..at] + s[at..];
  }

  /** The ids left after the first match. */
  lemma {:induction false} RemovedTail<T>(s: seq<Entry<T>>, match': T -> bool, at: nat)
    requires Distinct(s) && at <= |s|
    ensures Ids(RemoveWhere(s[at..], match')) == Minus(Ids(s)[at..], Gone(s, match'))
  {
    hide Filter, Gone, Minus;
    RemovedIds(s[at..], match');
    assert Ids(s[at..]) == Ids(s)[at..];
    GoneIds(s, match');
    GoneIds(s[at..], match');
    forall k | k in Ids(s)[at..] ensures k in Gone(s[at..], match') <==> k in Gone(s, match') {
      var a :| at <= a < |s| && Ids(s)[a] == k;
      LookupAt(s, a);
      LookupAt(s[at..], a - at);
    }
    MinusSame(Ids(s)[at..], Gone(s[at..], match'), Gone(s, match'));
  }

  /** The placement of tab.moved, for every mirror and every payload: the tabs of the other workspaces keep their
      order, and the listed ids that are new among them stand as one block, in order of first mention and without
      repetition, where the first tab of the workspace stood (at the end when it had none). */
  lemma {:induction false} Placement(tabs: seq<Entry<Tab>>, workspace: string, listed: seq<Tab>)
    requires Distinct(tabs)
    ensures var others := RemoveWhere(tabs, M.TabOf(workspace));
            var first := FirstWhere(tabs, M.TabOf(workspace));
            var at := if first < 0 then |tabs| else first;
            && at <= |others| && others[..at] == tabs[..at]
            && Ids(M.ReorderTabs(tabs, workspace, listed)) ==
               Ids(tabs)[..at] + Minus(Firsts(listed, TabKey), Lookup(others).Keys) + Ids(others)[at..]
  {
    hide Filter, FirstWhere, Lookup, Merge, Minus, Firsts, Gone;
    var others := RemoveWhere(tabs, M.TabOf(workspace));
    PrefixStays(tabs, M.TabOf(workspace));
    GoneLookup(tabs, M.TabOf(workspace));
    AddedIds(others, listed, TabKey);
    var first := FirstWhere(tabs, M.TabOf(workspace));
    InsertIds(others, first, listed, TabKey);
    var at := if first < 0 then |tabs| else first;
    if first < 0 { assert tabs[at..] == []; FilterAll(tabs[at..], Unmatched(M.TabOf(workspace))); }
    assert Ids(others)[..at] == Ids(others[..at]) == Ids(tabs[..at]) == Ids(tabs)[..at];
  }

  /** When no other workspace holds a listed id, the block is the whole deduplicated list. */
  lemma {:induction false} PlacementWithoutClash(tabs: seq<Entry<Tab>>, workspace: string, listed: seq<Tab>)
    requires Distinct(tabs)
    requires forall k :: k in Listed(listed, TabKey) && k in Lookup(tabs) ==> Lookup(tabs)[k].workspace == workspace
    ensures var others := RemoveWhere(tabs, M.TabOf(workspace));
            var first := FirstWhere(tabs, M.TabOf(workspace));
            var at := if first < 0 then |tabs| else first;
            at <= |others| && Ids(M.ReorderTabs(tabs, workspace, listed)) ==
            Ids(tabs)[..at] + Firsts(listed, TabKey) + Ids(others)[at..]
  {
    Placement(tabs, workspace, listed);
    GoneLookup(tabs, M.TabOf(workspace));
    GoneIds(tabs, M.TabOf(workspace));
    FirstsAre(listed, TabKey);
    MinusNothing(Firsts(listed, TabKey), Lookup(RemoveWhere(tabs, M.TabOf(workspace))).Keys);
  }

  /** Every record after a move is the listed one, or one of another workspace that was not listed. */
  lemma {:induction false} ReorderLookup(tabs: seq<Entry<Tab>>, workspace: string, listed: seq<Tab>)
    requires Distinct(tabs)
    ensures var r := M.ReorderTabs(tabs, workspace, listed);
            && Distinct(r)
            && Lookup(r) == (Lookup(tabs) - Gone(tabs, M.TabOf(workspace))) + Listed(listed, TabKey)
  {
    GoneLookup(tabs, M.TabOf(workspace));
    InsertLookup(RemoveWhere(tabs, M.TabOf(workspace)), FirstWhere(tabs, M.TabOf(workspace)), listed, TabKey);
  }

  // ---------------------------------------------------------------- applying it twice

  lemma {:induction false} MinusAll(ids: seq<string>, drop: set<string>)
    requires forall k :: k in ids ==> k in drop
    ensures Minus(ids, drop) == []
  {
    if ids != [] {
      assert ids[|ids| - 1] in ids;
      MinusAll(ids[..|ids| - 1], drop);
    }
  }

  /** Taking a run out and putting it back where its first id stood changes nothing. */
  lemma {:induction false} RunSettles(before: seq<string>, own: seq<string>, after: seq<string>, drop: set<string>)
    requires forall k :: k in own ==> k in drop
    requires forall k :: k in after ==> k !in drop
    ensures before + own + Minus(own + after, drop) == before + own + after
  {
    MinusConcat(own, after, drop);
    MinusAll(own, drop);
    MinusNothing(after, drop);
  }

  /** The place of a run of distinct ids is the place of the first id that belongs to it. */
  lemma {:induction false} RunStands(ids: seq<string>, own: seq<string>, drop: set<string>, at: nat, i: nat)
    requires forall a, b :: 0 <= a < b < |ids| ==> ids[a] != ids[b]
    requires forall k :: k in own <==> k in drop
    requires at <= |ids| && (forall a :: 0 <= a < at ==> ids[a] !in drop) && (at < |ids| ==> ids[at] in drop)
    requires i <= |ids| - |own| && RunAt(ids, i, own) && own != []
    ensures at == i && forall k :: k in ids[i + |own|..] ==> k !in drop
  {
    forall a | 0 <= a < |own| ensures ids[i + a] == own[a] && ids[i + a] in drop {
      assert ids[i..i + |own|][a] == own[a];
    }
    assert ids[i + 0] in drop;
  }

  /** The tabs of the workspace after one application are the listed ones that the list keeps there. */
  lemma {:induction false} OwnTabs(tabs: seq<Entry<Tab>>, workspace: string, listed: seq<Tab>)
    requires Distinct(tabs)
    ensures var r := M.ReorderTabs(tabs, workspace, listed);
            && Distinct(r)
            && (forall k :: k in Own(listed, workspace) <==> k in Gone(r, M.TabOf(workspace)))
            && Minus(Firsts(listed, TabKey), Lookup(RemoveWhere(r, M.TabOf(workspace))).Keys) == Own(listed, workspace)
            && Lookup(M.ReorderTabs(r, workspace, listed)) == Lookup(r)
  {
    hide M.ReorderTabs, Lookup, RemoveWhere, Listed, Gone, Firsts, Minus;
    var r := M.ReorderTabs(tabs, workspace, listed);
    var own := M.TabOf(workspace);
    ListedKeys(listed, TabKey);
    ReorderLookup(tabs, workspace, listed);
    ReorderLookup(r, workspace, listed);
    GoneIds(tabs, own);
    GoneIds(r, own);
    GoneLookup(r, own);
    FirstsAre(listed, TabKey);
    MinusMembers(Firsts(listed, TabKey), Foreign(listed, workspace));
    MinusSame(Firsts(listed, TabKey), Lookup(RemoveWhere(r, own)).Keys, Foreign(listed, workspace));
    assert (Lookup(r) - Gone(r, own)) + Listed(listed, TabKey) == Lookup(r);
  }

  /** The ids of a second application, in terms of the first. */
  lemma {:induction false} SecondIds(tabs: seq<Entry<Tab>>, workspace: string, listed: seq<Tab>) returns (at: nat)
    requires Distinct(tabs)
    ensures var r := M.ReorderTabs(tabs, workspace, listed);
            var drop := Gone(r, M.TabOf(workspace));
            && Distinct(r) && at <= |r|
            && (forall a :: 0 <= a < at ==> Ids(r)[a] !in drop) && (at < |r| ==> Ids(r)[at] in drop)
            && Ids(M.ReorderTabs(r, workspace, listed)) ==
               Ids(r)[..at] + Own(listed, workspace) + Minus(Ids(r)[at..], drop)
  {
    hide M.ReorderTabs, Lookup, Listed, Gone, Firsts, Minus, Filter, FirstWhere;
    var r := M.ReorderTabs(tabs, workspace, listed);
    var own := M.TabOf(workspace);
    OwnTabs(tabs, workspace, listed);
    Placement(r, workspace, listed);
    PrefixStays(r, own);
    GoneIds(r, own);
    FirstWhereIs(r, own);
    at := if FirstWhere(r, own) < 0 then |r| else FirstWhere(r, own);
    forall a | 0 <= a < |r| ensures Ids(r)[a] in Gone(r, own) <==> own(r[a].1) {
      LookupAt(r, a);
    }
    var others := RemoveWhere(r, own);
    assert others[at..] == RemoveWhere(r[at..], own);
    assert Ids(others)[at..] == Ids(others[at..]);
    RemovedTail(r, own, at);
  }

  lemma {:induction false} RunReturns(ids: seq<string>, own: seq<string>, drop: set<string>, at: nat, i: nat)
    requires forall a, b :: 0 <= a < b < |ids| ==> ids[a] != ids[b]
    requires forall k :: k in own <==> k in drop
    requires at <= |ids| && (forall a :: 0 <= a < at ==> ids[a] !in drop) && (at < |ids| ==> ids[at] in drop)
    requires i <= |ids| - |own| && RunAt(ids, i, own)
    ensures ids[..at] + own + Minus(ids[at..], drop) == ids
  {
    if own == [] {
      assert at == |ids|;
      MinusNothing(ids[at..], drop);
    } else {
      RunStands(ids, own, drop, at, i);
      assert ids[at..] == own + ids[i + |own|..];
      RunSettles(ids[..at], own, ids[i + |own|..], drop);
    }
  }

  lemma {:induction false} RunMeansSame(tabs: seq<Entry<Tab>>, workspace: string, listed: seq<Tab>, i: nat)
    requires Distinct(tabs)
    requires i <= |M.ReorderTabs(tabs, workspace, listed)| - |Own(listed, workspace)|
    requires RunAt(Ids(M.ReorderTabs(tabs, workspace, listed)), i, Own(listed, workspace))
    ensures var r := M.ReorderTabs(tabs, workspace, listed); Ids(M.ReorderTabs(r, workspace, listed)) == Ids(r)
  {
    hide M.ReorderTabs, Lookup, Gone, Minus, Own;
    var r := M.ReorderTabs(tabs, workspace, listed);
    OwnTabs(tabs, workspace, listed);
    var at := SecondIds(tabs, workspace, listed);
    RunReturns(Ids(r), Own(listed, workspace), Gone(r, M.TabOf(workspace)), at, i);
  }

  lemma {:induction false} SameMeansRun(tabs: seq<Entry<Tab>>, workspace: string, listed: seq<Tab>)
    requires Distinct(tabs)
    requires var r := M.ReorderTabs(tabs, workspace, listed); Ids(M.ReorderTabs(r, workspace, listed)) == Ids(r)
    ensures OneRun(Ids(M.ReorderTabs(tabs, workspace, listed)), Own(listed, workspace))
  {
    hide M.ReorderTabs, Lookup, Gone, Minus, Own;
    var at := SecondIds(tabs, workspace, listed);
    assert RunAt(Ids(M.ReorderTabs(tabs, workspace, listed)), at, Own(listed, workspace));
  }

  /** Exactly when a second application of tab.moved changes nothing, order included: when the ids that the list keeps
      in the workspace stand, after the first, as one run in the listed order. */
  lemma {:induction false} TwiceIffOneRun(tabs: seq<Entry<Tab>>, workspace: string, listed: seq<Tab>)
    requires Distinct(tabs)
    ensures var r := M.ReorderTabs(tabs, workspace, listed);
            M.ReorderTabs(r, workspace, listed) == r <==> OneRun(Ids(r), Own(listed, workspace))
  {
    hide M.ReorderTabs, Lookup, Gone, Minus, Own, RunAt, Distinct, Ids;
    var r := M.ReorderTabs(tabs, workspace, listed);
    OwnTabs(tabs, workspace, listed);
    ReorderLookup(r, workspace, listed);
    if M.ReorderTabs(r, workspace, listed) == r {
      SameMeansRun(tabs, workspace, listed);
    }
    if OneRun(Ids(r), Own(listed, workspace)) {
      var i :| 0 <= i <= |Ids(r)| - |Own(listed, workspace)| && RunAt(Ids(r), i, Own(listed, workspace));
      RunMeansSame(tabs, workspace, listed, i);
      Extensional(M.ReorderTabs(r, workspace, listed), r);
    }
  }

  /** Where the ids end up, from the held tabs and the payload alone. */
  ghost function Placed(tabs: seq<Entry<Tab>>, workspace: string, listed: seq<Tab>): seq<string> {
    var others := RemoveWhere(tabs, M.TabOf(workspace));
    var first := FirstWhere(tabs, M.TabOf(workspace));
    var at := if 0 <= first <= |others| then first else |others|;
    Ids(others)[..at] + Minus(Firsts(listed, TabKey), Lookup(others).Keys) + Ids(others)[at..]
  }

  lemma {:induction false} PlacedIs(tabs: seq<Entry<Tab>>, workspace: string, listed: seq<Tab>)
    requires Distinct(tabs)
    ensures Ids(M.ReorderTabs(tabs, workspace, listed)) == Placed(tabs, workspace, listed)
  {
    hide M.ReorderTabs, Lookup, Minus, Filter, FirstWhere, Firsts;
    Placement(tabs, workspace, listed);
    PrefixStays(tabs, M.TabOf(workspace));
    var others := RemoveWhere(tabs, M.TabOf(workspace));
    var first := FirstWhere(tabs, M.TabOf(workspace));
    var at := if first < 0 then |tabs| else first;
    if first < 0 {
      FirstWhereIs(tabs, M.TabOf(workspace));
      FilterAll(tabs, Unmatched(M.TabOf(workspace)));
    }
    assert Ids(others)[..at] == Ids(others[..at]) == Ids(tabs[..at]) == Ids(tabs)[..at];
  }

  /** Exactly when tab.moved settles at once, told before it is applied: when the tabs that the list keeps in the
      workspace, the first time each is mentioned, will stand as one run. */
  lemma {:induction false} TwiceIffPlacedInOneRun(tabs: seq<Entry<Tab>>, workspace: string, listed: seq<Tab>)
    requires Distinct(tabs)
    ensures var r := M.ReorderTabs(tabs, workspace, listed);
            M.ReorderTabs(r, workspace, listed) == r <==>
            OneRun(Placed(tabs, workspace, listed), Own(listed, workspace))
  {
    hide M.ReorderTabs, Placed, Own;
    PlacedIs(tabs, workspace, listed);
    TwiceIffOneRun(tabs, workspace, listed);
  }

  /** What a caller can check in the payload and the mirror beforehand: no listed id is held by another workspace.
      Then a second application changes nothing exactly when the payload alone lists its own tabs in one run. */
  lemma {:induction false} TwiceWithoutClash(tabs: seq<Entry<Tab>>, workspace: string, listed: seq<Tab>)
    requires Distinct(tabs)
    requires forall k :: k in Listed(listed, TabKey) && k in Lookup(tabs) ==> Lookup(tabs)[k].workspace == workspace
    ensures var r := M.ReorderTabs(tabs, workspace, listed);
            M.ReorderTabs(r, workspace, listed) == r <==> OneRun(Firsts(listed, TabKey), Own(listed, workspace))
  {
    hide M.ReorderTabs, Lookup, Gone, Minus, Firsts;
    var r := M.ReorderTabs(tabs, workspace, listed);
    TwiceIffOneRun(tabs, workspace, listed);
    PlacementWithoutClash(tabs, workspace, listed);
    var others := RemoveWhere(tabs, M.TabOf(workspace));
    var first := FirstWhere(tabs, M.TabOf(workspace));
    var at := if first < 0 then |tabs| else first;
    Placement(tabs, workspace, listed);
    GoneLookup(tabs, M.TabOf(workspace));
    GoneIds(tabs, M.TabOf(workspace));
    FirstsAre(listed, TabKey);
    MinusMembers(Firsts(listed, TabKey), Foreign(listed, workspace));
    forall k | k in Ids(others) ensures k !in Firsts(listed, TabKey) {
      var i :| 0 <= i < |others| && Ids(others)[i] == k;
      LookupAt(others, i);
    }
    assert Ids(tabs)[..at] == Ids(others)[..at];
    RunInside(Ids(tabs)[..at], Firsts(listed, TabKey), Ids(others)[at..], Own(listed, workspace));
  }

  lemma {:induction false} RunInside(before: seq<string>, block: seq<string>, after: seq<string>, run: seq<string>)
    requires forall k :: k in run ==> k in block
    requires forall k :: k in before || k in after ==> k !in block
    ensures OneRun(before + block + after, run) <==> OneRun(block, run)
  {
    var ids := before + block + after;
    if OneRun(block, run) {
      var i :| 0 <= i <= |block| - |run| && RunAt(block, i, run);
      assert ids[|before| + i..|before| + i + |run|] == block[i..i + |run|];
      assert RunAt(ids, |before| + i, run);
    }
    if OneRun(ids, run) {
      var i :| 0 <= i <= |ids| - |run| && RunAt(ids, i, run);
      if run == [] {
        assert RunAt(block, 0, run);
      } else {
        assert ids[i] == run[0] && ids[i + |run| - 1] == run[|run| - 1] by {
          assert ids[i..i + |run|][0] == ids[i] && ids[i..i + |run|][|run| - 1] == ids[i + |run| - 1];
        }
        InBlock(before, block, after, i);
        InBlock(before, block, after, i + |run| - 1);
        assert block[i - |before|..i - |before| + |run|] == ids[i..i + |run|];
        assert RunAt(block, i - |before|, run);
      }
    }
  }

  lemma {:induction false} InBlock(before: seq<string>, block: seq<string>, after: seq<string>, i: nat)
    requires i < |before + block + after| && (before + block + after)[i] in block
    requires forall k :: k in before || k in after ==> k !in block
    ensures |before| <= i < |before| + |block|
  {
  }

  /** The payload the server documents, every listed tab in the event's workspace: always settled at once. */
  lemma {:induction false} TwiceWithOwnTabs(tabs: seq<Entry<Tab>>, workspace: string, listed: seq<Tab>)
    requires Distinct(tabs)
    requires forall t :: t in listed ==> t.workspace == workspace
    requires forall k :: k in Listed(listed, TabKey) && k in Lookup(tabs) ==> Lookup(tabs)[k].workspace == workspace
    ensures var r := M.ReorderTabs(tabs, workspace, listed); M.ReorderTabs(r, workspace, listed) == r
  {
    hide M.ReorderTabs, Lookup, Minus;
    TwiceWithoutClash(tabs, workspace, listed);
    ListedKeys(listed, TabKey);
    MinusNothing(Firsts(listed, TabKey), Foreign(listed, workspace));
    assert RunAt(Firsts(listed, TabKey), 0, Own(listed, workspace));
  }

  lemma {:induction false} ThreeTabs(a: Tab, b: Tab, c: Tab)
    requires a.id != b.id && a.id != c.id && b.id != c.id
    ensures Firsts([a, b, c], TabKey) == [a.id, b.id, c.id]
    ensures Listed([a, b, c], TabKey) == map[a.id := a, b.id := b, c.id := c]
  {
    assert [a, b, c][..2] == [a, b] && [a, b][..1] == [a] && [a][..0] == [];
    assert Firsts([], TabKey) == [] && Firsts([a], TabKey) == [a.id] && Firsts([a, b], TabKey) == [a.id, b.id];
    assert Listed([], TabKey) == map[] && Listed([a], TabKey) == map[a.id := a];
    assert Listed([a, b], TabKey) == map[a.id := a, b.id := b];
  }

  lemma {:induction false} MiddleGone(a: string, b: string, c: string)
    requires a != b && a != c && b != c
    ensures Minus([a, b, c], {b}) == [a, c] && !OneRun([a, b, c], [a, c])
  {
    assert [a, b, c][..2] == [a, b] && [a, b][..1] == [a] && [a][..0] == [];
    assert Minus([], {b}) == [] && Minus([a], {b}) == [a] && Minus([a, b], {b}) == [a];
    forall i | 0 <= i <= 1 ensures !RunAt([a, b, c], i, [a, c]) {
      assert [a, b, c][i..i + 2][1 - i] == b;
    }
  }

  /** A payload that does not settle: the list mentions a tab of another workspace between two of its own. */
  lemma {:induction false} UnsettledPayload(a: Tab, b: Tab, c: Tab)
    requires a.id != b.id && a.id != c.id && b.id != c.id
    requires a.workspace == c.workspace && b.workspace != a.workspace
    ensures var r := M.ReorderTabs([], a.workspace, [a, b, c]); M.ReorderTabs(r, a.workspace, [a, b, c]) != r
  {
    hide M.ReorderTabs, Minus, Listed, Firsts, OneRun;
    ThreeTabs(a, b, c);
    assert Foreign([a, b, c], a.workspace) == {b.id};
    MiddleGone(a.id, b.id, c.id);
    TwiceWithoutClash([], a.workspace, [a, b, c]);
  }
}
