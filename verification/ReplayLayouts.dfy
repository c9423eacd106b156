/** When replaying a buffer restores the layouts. Only a focus event ties a layout to anything else: it names the pane
    in the layout of whichever tab the pane lies in at that moment. */
module ReplayLayouts {
  import opened Records
  import opened AssocList
  import opened Wrappers
  import opened Moves
  import opened Homes
  import opened Replay
  import M = Mirror

  ghost function LayoutAt(m: M.State, t: string): Option<Layout> {
    if t in Lookup(m.layouts) then Some(Lookup(m.layouts)[t]) else None
  }

  /** What events do to the layout of one tab: it may become a constant, or be dropped with its workspace; then a pane
      in the tab may take the focus. */
  datatype Mark = Mark(base: Option<Option<Layout>>, dropped: set<string>, focus: Option<string>)

  const NO_MARK := Mark(None, {}, None)

  function Dropped(l: Option<Layout>, workspaces: set<string>): Option<Layout> {
    if l.Some? && l.value.workspace in workspaces then None else l
  }

  function Refocused(l: Option<Layout>, focus: Option<string>): Option<Layout> {
    if l.Some? && focus.Some? then Some(l.value.(focusedPane := focus.value)) else l
  }

  function Marked(a: Mark, l: Option<Layout>): Option<Layout> {
    Refocused(if a.base.Some? then a.base.value else Dropped(l, a.dropped), a.focus)
  }

  function ThenMark(a: Mark, b: Mark): Mark {
    if b.base.Some? then b
    else Mark(if a.base.Some? then Some(Dropped(a.base.value, b.dropped)) else None, a.dropped + b.dropped,
              if b.focus.Some? then b.focus else a.focus)
  }

  lemma {:induction false} ThenMarks(a: Mark, b: Mark, l: Option<Layout>)
    ensures Marked(ThenMark(a, b), l) == Marked(b, Marked(a, l))
    ensures Marked(a, Marked(a, l)) == Marked(a, l)
  {
  }

  type Panes = string -> Option<Record>

  ghost function PanesOf(m: M.State): Panes { (k: string) => View(m, PaneAt(k)) }

  ghost function PanesAfter(panes: Panes, events: seq<Event>): Panes { (k: string) => PaneAfter(panes(k), events, k) }

  /** The pane lies in the tab. */
  predicate LiesIn(v: Option<Record>, t: string) { v.Some? && v.value.P? && v.value.pane.tab == t }

  ghost function MarkOf(panes: Panes, e: Event, t: string): Mark {
    match e
    case LayoutUpdated(l) => if l.tab == t then Mark(Some(Some(l)), {}, None) else NO_MARK
    case TabClosed(id) => if id == t then Mark(Some(None), {}, None) else NO_MARK
    case WorkspaceClosed(id) => Mark(None, {id}, None)
    case PaneMoved(_, _, _, _, closedTab, closedWorkspace) =>
      if Names(closedTab, t) then Mark(Some(None), {}, None)
      else if closedWorkspace.Present? then Mark(None, {closedWorkspace.value}, None) else NO_MARK
    case PaneFocused(id) => if LiesIn(panes(id), t) then Mark(None, {}, Some(id)) else NO_MARK
    case _ => NO_MARK
  }

  /** The mark of a list of events: it depends on the panes at the start and on the list, on no layout. */
  ghost function MarkOfAll(panes: Panes, events: seq<Event>, t: string): Mark {
    if events == [] then NO_MARK
    else
      var before := events[..|events| - 1];
      ThenMark(MarkOfAll(panes, before, t), MarkOf(PanesAfter(panes, before), events[|events| - 1], t))
  }

  // ---------------------------------------------------------------- one event

  lemma {:induction false} NoMarks(l: Option<Layout>)
    ensures Marked(NO_MARK, l) == l
  {
  }

  lemma {:induction false} WorkspaceGone(m: M.State, w: string, t: string)
    requires M.WellFormed(m)
    ensures LayoutAt(M.CloseWorkspace(m, w), t) == Marked(Mark(None, {w}, None), LayoutAt(m, t))
  {
    hide Lookup, RemoveWhere;
    Kept(m.layouts, M.LayoutOf(w));
  }

  lemma {:induction false} TabGone(m: M.State, id: string, t: string)
    requires M.WellFormed(m)
    ensures LayoutAt(M.CloseTab(m, id), t) == if id == t then None else LayoutAt(m, t)
  {
    hide Lookup, Remove, RemoveWhere;
    RemoveLookup(m.layouts, id);
  }

  lemma {:induction false} MoveMarks(m: M.State, e: Event, t: string)
    requires M.WellFormed(m) && e.PaneMoved?
    ensures LayoutAt(M.Apply(m, e), t) == Marked(MarkOf(PanesOf(m), e, t), LayoutAt(m, t))
  {
    hide Lookup, Filter, Put, Remove, M.Apply;
    MovePaneIs(m, e);
    assert Rekeyed(m, e).layouts == m.layouts;
    FilterLookup(m.layouts, KeepsLayout(e));
  }

  lemma {:induction false} FocusMarks(m: M.State, id: string, t: string)
    requires M.WellFormed(m)
    ensures LayoutAt(M.FocusPane(m, id), t) == Marked(MarkOf(PanesOf(m), PaneFocused(id), t), LayoutAt(m, t))
  {
    hide Lookup, Put, Update;
    UpdateLookup(m.panes, M.FocusedPane(id));
    if id in Lookup(m.panes) && Lookup(m.panes)[id].tab in Lookup(m.layouts) {
      var tab := Lookup(m.panes)[id].tab;
      PutLookup(m.layouts, tab, Lookup(m.layouts)[tab].(focusedPane := id));
    }
  }

  lemma {:induction false} UpdateMarks(m: M.State, l: Layout, t: string)
    requires M.WellFormed(m)
    ensures LayoutAt(m.(layouts := Put(m.layouts, l.tab, l)), t) == if t == l.tab then Some(l) else LayoutAt(m, t)
  {
    hide Lookup, Put;
    PutLookup(m.layouts, l.tab, l);
  }

  predicate Touches(e: Event) {
    e.LayoutUpdated? || e.TabClosed? || e.WorkspaceClosed? || e.PaneMoved? || e.PaneFocused?
  }

  lemma {:induction false} OthersKeep(m: M.State, e: Event)
    requires !Touches(e)
    ensures M.Apply(m, e).layouts == m.layouts
  {
    hide Put, Remove, Update, Lookup;
  }

  /** One event marks the layout of each tab. */
  lemma {:induction false} EventMarks(m: M.State, e: Event, t: string)
    requires M.WellFormed(m)
    ensures LayoutAt(M.Apply(m, e), t) == Marked(MarkOf(PanesOf(m), e, t), LayoutAt(m, t))
  {
    hide Lookup, Put, M.CloseTab, M.CloseWorkspace, M.MovePane, M.FocusPane, M.WellFormed;
    NoMarks(LayoutAt(m, t));
    if e.LayoutUpdated? {
      UpdateMarks(m, e.layout, t);
    } else if e.TabClosed? {
      TabGone(m, e.tabId, t);
    } else if e.WorkspaceClosed? {
      WorkspaceGone(m, e.workspaceId, t);
    } else if e.PaneMoved? {
      MoveMarks(m, e, t);
    } else if e.PaneFocused? {
      FocusMarks(m, e.paneId, t);
    } else {
      OthersKeep(m, e);
    }
  }

  // ---------------------------------------------------------------- lists of events

  lemma {:induction false} PanesFollow(m: M.State, events: seq<Event>)
    requires M.WellFormed(m)
    ensures forall k :: PanesOf(M.Fold(m, events))(k) == PanesAfter(PanesOf(m), events)(k)
  {
    hide M.WellFormed, View, Act, M.Fold;
    forall k ensures PanesOf(M.Fold(m, events))(k) == PanesAfter(PanesOf(m), events)(k) {
      FoldActs(m, events, PaneAt(k));
      assert PanesOf(m)(k) == View(m, PaneAt(k));
    }
  }

  lemma {:induction false} SameMark(v: Panes, w: Panes, e: Event, t: string)
    requires forall k :: v(k) == w(k)
    ensures MarkOf(v, e, t) == MarkOf(w, e, t)
  {
  }

  /** Marks look only at what the panes are. */
  lemma {:induction false} SameMarks(v: Panes, w: Panes, events: seq<Event>, t: string)
    requires forall k :: v(k) == w(k)
    ensures MarkOfAll(v, events, t) == MarkOfAll(w, events, t)
  {
    hide MarkOf, PaneAfter;
    if events != [] {
      var before := events[..|events| - 1];
      SameMarks(v, w, before, t);
      SameMark(PanesAfter(v, before), PanesAfter(w, before), events[|events| - 1], t);
    }
  }

  /** A list of events is one mark on the layout of each tab. */
  lemma {:induction false} FoldMarks(m: M.State, events: seq<Event>, t: string)
    requires M.WellFormed(m)
    ensures LayoutAt(M.Fold(m, events), t) == Marked(MarkOfAll(PanesOf(m), events, t), LayoutAt(m, t))
  {
    hide M.WellFormed, M.Apply, LayoutAt, PanesOf, PanesAfter, Marked, MarkOf, ThenMark;
    if events == [] {
      NoMarks(LayoutAt(m, t));
    } else {
      var before, last := events[..|events| - 1], events[|events| - 1];
      FoldMarks(m, before, t);
      M.FoldWellFormed(m, before);
      EventMarks(M.Fold(m, before), last, t);
      PanesFollow(m, before);
      SameMark(PanesOf(M.Fold(m, before)), PanesAfter(PanesOf(m), before), last, t);
      ThenMarks(MarkOfAll(PanesOf(m), before, t), MarkOf(PanesAfter(PanesOf(m), before), last, t), LayoutAt(m, t));
    }
  }

  /** Two marks of the same list, from different panes, differ in the focus alone. */
  lemma {:induction false} OnlyFocusDiffers(v: Panes, w: Panes, events: seq<Event>, t: string)
    ensures MarkOfAll(v, events, t).base == MarkOfAll(w, events, t).base
    ensures MarkOfAll(v, events, t).dropped == MarkOfAll(w, events, t).dropped
  {
    if events != [] {
      OnlyFocusDiffers(v, w, events[..|events| - 1], t);
    }
  }

  /** The pane that a mark leaves focused in a layout. */
  function FocusLeft(a: Mark, l: Layout): string {
    if a.focus.Some? then a.focus.value
    else if a.base.Some? && a.base.value.Some? then a.base.value.value.focusedPane
    else l.focusedPane
  }

  /** The replay shows the same pane focused in the layout of t as the first pass, or the rest of the list replaces or
      drops the layout or focuses a pane in it. All of it is computed from the buffer and the mirror before it. */
  ghost predicate FocusRestored(m: M.State, before: seq<Event>, after: seq<Event>, t: string) {
    var held := PanesAfter(PanesOf(m), before);
    var layout := Marked(MarkOfAll(PanesOf(m), before, t), LayoutAt(m, t));
    var rest := MarkOfAll(held, after, t);
    || layout.None? || Marked(rest, layout).None? || rest.base.Some? || rest.focus.Some?
    || FocusLeft(MarkOfAll(held, before, t), layout.value) == layout.value.focusedPane
  }

  lemma {:induction false} MarksAgree(a1: Mark, a2: Mark, a3: Mark, l: Option<Layout>)
    requires a1.base == a2.base && a1.dropped == a2.dropped
    ensures var r := Marked(a1, l);
            Marked(a3, Marked(a2, r)) == Marked(a3, r) <==>
              (r.None? || Marked(a3, r).None? || a3.base.Some? || a3.focus.Some?
               || FocusLeft(a2, r.value) == r.value.focusedPane)
  {
  }

  /** Exactly when a replay gives the layout of a tab back, for every mirror and every list. */
  lemma {:induction false} LayoutConvergesIff(m: M.State, before: seq<Event>, after: seq<Event>, t: string)
    requires M.WellFormed(m)
    ensures LayoutAt(M.Fold(M.Fold(m, before), before + after), t) == LayoutAt(M.Fold(m, before + after), t)
            <==> FocusRestored(m, before, after, t)
  {
    hide M.WellFormed, M.Apply, M.Fold, LayoutAt, PanesOf, PanesAfter, Marked, MarkOfAll, View;
    var once := M.Fold(m, before);
    var twice := M.Fold(once, before);
    var held := PanesAfter(PanesOf(m), before);
    M.FoldConcat(m, before, after);
    M.FoldConcat(once, before, after);
    M.FoldWellFormed(m, before);
    M.FoldWellFormed(once, before);
    FoldMarks(m, before, t);
    FoldMarks(once, before, t);
    FoldMarks(once, after, t);
    FoldMarks(twice, after, t);
    PanesFollow(m, before);
    SameMarks(PanesOf(once), held, before, t);
    SameMarks(PanesOf(once), held, after, t);
    PanesSettle(m, before);
    SameMarks(PanesOf(twice), PanesOf(once), after, t);
    OnlyFocusDiffers(PanesOf(m), held, before, t);
    MarksAgree(MarkOfAll(PanesOf(m), before, t), MarkOfAll(held, before, t), MarkOfAll(held, after, t), LayoutAt(m, t));
  }

  lemma {:induction false} PanesSettle(m: M.State, before: seq<Event>)
    requires M.WellFormed(m)
    ensures forall k :: PanesOf(M.Fold(M.Fold(m, before), before))(k) == PanesOf(M.Fold(m, before))(k)
  {
    hide M.WellFormed, View, M.Fold;
    ReplayConverges(m, before, []);
    assert before + [] == before;
    forall k ensures PanesOf(M.Fold(M.Fold(m, before), before))(k) == PanesOf(M.Fold(m, before))(k) {
      assert View(M.Fold(M.Fold(m, before), before), PaneAt(k)) == View(M.Fold(m, before), PaneAt(k));
    }
  }

  // ---------------------------------------------------------------- a condition on the buffer

  /** Every pane that takes the focus is held then and when the list ends. */
  ghost predicate FocusHeld(m: M.State, events: seq<Event>) {
    forall i :: 0 <= i < |events| && events[i].PaneFocused? ==> HeldBoth(m, events, i, events[i].paneId)
  }

  ghost predicate HeldBoth(m: M.State, events: seq<Event>, i: nat, k: string)
    requires i <= |events|
  {
    PanesAfter(PanesOf(m), events[..i])(k).Some? && PanesAfter(PanesOf(m), events)(k).Some?
  }

  /** A focus event finds its pane in the same tab in both passes. */
  lemma {:induction false} SameHit(m: M.State, before: seq<Event>, i: nat, t: string)
    requires OneHome(m, before) && FocusHeld(m, before) && i < |before|
    ensures MarkOf(PanesAfter(PanesOf(m), before[..i]), before[i], t) ==
            MarkOf(PanesAfter(PanesAfter(PanesOf(m), before), before[..i]), before[i], t)
  {
    hide PaneAfter, ViewAt, ReportsAt, View;
    if before[i].PaneFocused? {
      var k := before[i].paneId;
      var v := View(m, PaneAt(k));
      assert HeldBoth(m, before, i, k) && HasHome(m, before, k);
      var tab, workspace :| AtHome(m, before, k, tab, workspace);
      ReportsFewer(before, i, k, tab, workspace);
      StaysHome(v, before, k, tab, workspace);
      StaysHome(v, before[..i], k, tab, workspace);
      StaysHome(PaneAfter(v, before, k), before[..i], k, tab, workspace);
      HeldAlike(v, PaneAfter(v, before, k), before[..i], k, tab, workspace);
      SameTab(PaneAfter(v, before[..i], k), PaneAfter(PaneAfter(v, before, k), before[..i], k), t, tab, workspace);
    }
  }

  lemma {:induction false} ReportsFewer(events: seq<Event>, i: nat, k: string, tab: string, workspace: string)
    requires ReportsAt(events, k, tab, workspace) && i <= |events|
    ensures ReportsAt(events[..i], k, tab, workspace)
  {
  }

  lemma {:induction false} SameTab(v: Option<Record>, w: Option<Record>, t: string, tab: string, workspace: string)
    requires v.Some? && w.Some? && ViewAt(v, tab, workspace) && ViewAt(w, tab, workspace)
    ensures LiesIn(v, t) == LiesIn(w, t)
  {
  }

  lemma {:induction false} SameHits(m: M.State, before: seq<Event>, n: nat, t: string)
    requires OneHome(m, before) && FocusHeld(m, before) && n <= |before|
    ensures MarkOfAll(PanesOf(m), before[..n], t) == MarkOfAll(PanesAfter(PanesOf(m), before), before[..n], t)
  {
    hide MarkOf, PanesOf, PanesAfter, OneHome, FocusHeld;
    if n > 0 {
      SameHits(m, before, n - 1, t);
      SameHit(m, before, n - 1, t);
      assert before[..n][..n - 1] == before[..n - 1] && before[..n][n - 1] == before[n - 1];
    }
  }

  /** Layouts converge: when every pane id keeps its tab and workspace, and every pane that the prefix focuses is held
      then and at the end of it, replaying the buffer gives every layout as folding it once does. */
  lemma {:induction false} LayoutsConverge(m: M.State, before: seq<Event>, after: seq<Event>)
    requires M.WellFormed(m) && OneHome(m, before) && FocusHeld(m, before)
    ensures Lookup(M.Fold(M.Fold(m, before), before + after).layouts) == Lookup(M.Fold(m, before + after).layouts)
  {
    hide M.WellFormed, M.Fold, Lookup, OneHome, FocusHeld, PanesOf, PanesAfter, MarkOfAll;
    var once, twice := M.Fold(M.Fold(m, before), before + after), M.Fold(m, before + after);
    forall t ensures LayoutAt(once, t) == LayoutAt(twice, t) {
      SameHits(m, before, |before|, t);
      assert before[..|before|] == before;
      ThenMarks(MarkOfAll(PanesOf(m), before, t), NO_MARK, LayoutAt(m, t));
      SettledFocus(MarkOfAll(PanesOf(m), before, t), LayoutAt(m, t));
      LayoutConvergesIff(m, before, after, t);
    }
    SameLookup(once, twice);
  }

  /** The same mark again leaves the same pane focused. */
  lemma {:induction false} SettledFocus(a: Mark, l: Option<Layout>)
    ensures var r := Marked(a, l); r.Some? ==> FocusLeft(a, r.value) == r.value.focusedPane
  {
  }

  lemma {:induction false} SameLookup(m: M.State, n: M.State)
    requires forall t :: LayoutAt(m, t) == LayoutAt(n, t)
    ensures Lookup(m.layouts) == Lookup(n.layouts)
  {
    hide Lookup;
    forall t ensures t in Lookup(m.layouts) <==> t in Lookup(n.layouts) { assert LayoutAt(m, t) == LayoutAt(n, t); }
    forall t | t in Lookup(m.layouts) ensures Lookup(m.layouts)[t] == Lookup(n.layouts)[t] {
      assert LayoutAt(m, t) == LayoutAt(n, t);
    }
  }

  // ---------------------------------------------------------------- each condition is needed

  lemma {:induction false} PanesNext(v: Panes, events: seq<Event>, k: string)
    requires events != []
    ensures PanesAfter(v, events)(k)
            == Act(ActionOf(events[|events| - 1], PaneAt(k)), PanesAfter(v, events[..|events| - 1])(k))
  {
    hide Act, ActionOf, ActionOfAll;
    PaneAfterNext(v(k), events, k);
  }

  /** The whole list is the prefix. */
  lemma {:induction false} PrefixDiverges(m: M.State, before: seq<Event>, t: string)
    requires M.WellFormed(m) && MarkOfAll(PanesOf(m), before, t).base.None?
             && MarkOfAll(PanesOf(m), before, t).dropped == {}
    requires t in Lookup(m.layouts)
    requires var l := Refocused(LayoutAt(m, t), MarkOfAll(PanesOf(m), before, t).focus).value;
             FocusLeft(MarkOfAll(PanesAfter(PanesOf(m), before), before, t), l) != l.focusedPane
    ensures LayoutAt(M.Fold(M.Fold(m, before), before), t) != LayoutAt(M.Fold(m, before), t)
  {
    hide M.WellFormed, M.Fold, PanesOf, PanesAfter, Lookup;
    NoEventsLeft(PanesAfter(PanesOf(m), before), t);
    LayoutConvergesIff(m, before, [], t);
    assert before + [] == before;
  }

  lemma {:induction false} NoEventsLeft(v: Panes, t: string)
    ensures MarkOfAll(v, [], t) == NO_MARK
  {
  }

  lemma {:induction false} TwoMarks(v: Panes, e: Event, f: Event, t: string)
    ensures MarkOfAll(v, [e, f], t) == ThenMark(MarkOf(v, e, t), MarkOf(PanesAfter(v, [e]), f, t))
  {
    hide MarkOf, PaneAfter;
    assert [e, f][..1] == [e] && [e][..0] == [];
    forall k ensures PanesAfter(v, [])(k) == v(k) { NothingAfter(v(k), k); }
    SameMark(PanesAfter(v, []), v, e, t);
    assert MarkOfAll(v, [e], t) == ThenMark(NO_MARK, MarkOf(v, e, t));
  }

  lemma {:induction false} OneAfter(v: Panes, e: Event, k: string)
    ensures PanesAfter(v, [e])(k) == Act(ActionOf(e, PaneAt(k)), v(k))
  {
    hide Act, ActionOf, ActionOfAll;
    assert [e][..0] == [];
    NothingAfter(v(k), k);
    PanesNext(v, [e], k);
  }

  lemma {:induction false} TwoAfter(v: Panes, e: Event, f: Event, k: string)
    ensures PanesAfter(v, [e, f])(k) == Act(ActionOf(f, PaneAt(k)), Act(ActionOf(e, PaneAt(k)), v(k)))
  {
    hide Act, ActionOf, ActionOfAll;
    assert [e, f][..1] == [e];
    OneAfter(v, e, k);
    PanesNext(v, [e, f], k);
  }

  lemma {:induction false} FocusedStays(v: Option<Record>, p: Pane, report: Report)
    ensures Act(ActionOf(PaneReported(report, p), PaneAt(p.id)), v) == Some(P(p))
    ensures var r := Act(ActionOf(PaneFocused(p.id), PaneAt(p.id)), v);
            r.Some? == v.Some? && forall t :: LiesIn(r, t) == LiesIn(v, t)
  {
    if v.Some? { assert Containers(v.value) * {} == {}; }
  }

  lemma {:induction false} Single<T>(s: seq<Entry<T>>, k: string, x: T)
    requires s == [(k, x)]
    ensures Lookup(s) == map[k := x]
  {
    assert s[..|s| - 1] == [];
  }

  /** A pane takes the focus and is then reported in another tab: the second focus tells that tab's layout. */
  lemma {:induction false} LayoutsNeedOneHome(m: M.State, p: Pane, there: Layout)
    requires M.WellFormed(m) && m.panes == [(p.id, p)] && m.layouts == [(there.tab, there)]
    requires p.tab != there.tab && there.focusedPane != p.id
    ensures var events := [PaneFocused(p.id), PaneReported(Updated, p.(tab := there.tab))];
            && FocusHeld(m, events)
            && LayoutAt(M.Fold(M.Fold(m, events), events), there.tab) != LayoutAt(M.Fold(m, events), there.tab)
  {
    hide M.WellFormed, M.Fold, Lookup, Act, ActionOf, PaneAfter;
    var e, f := PaneFocused(p.id), PaneReported(Updated, p.(tab := there.tab));
    var v, t := PanesOf(m), there.tab;
    Single(m.panes, p.id, p);
    Single(m.layouts, t, there);
    FocusedStays(v(p.id), p.(tab := there.tab), Updated);
    FocusedStays(Act(ActionOf(e, PaneAt(p.id)), v(p.id)), p.(tab := there.tab), Updated);
    TwoAfter(v, e, f, p.id);
    assert [e, f][..0] == [];
    NothingAfter(v(p.id), p.id);
    TwoMarks(v, e, f, t);
    TwoMarks(PanesAfter(v, [e, f]), e, f, t);
    PrefixDiverges(m, [e, f], t);
  }

  /** A pane takes the focus before it is reported: the first pass does not find it. */
  lemma {:induction false} LayoutsNeedHeldFocus(m: M.State, p: Pane, here: Layout)
    requires M.WellFormed(m) && m.panes == [] && m.layouts == [(here.tab, here)]
    requires p.tab == here.tab && here.focusedPane != p.id
    ensures var events := [PaneFocused(p.id), PaneReported(Created, p)];
            && OneHome(m, events)
            && LayoutAt(M.Fold(M.Fold(m, events), events), here.tab) != LayoutAt(M.Fold(m, events), here.tab)
  {
    hide M.WellFormed, M.Fold, Lookup, Act, ActionOf, PaneAfter, OneHome;
    var e, f := PaneFocused(p.id), PaneReported(Created, p);
    var v, t := PanesOf(m), here.tab;
    OneRecordEach(m, [e, f], p, p);
    Single(m.layouts, t, here);
    assert v(p.id).None? by { NoPanes(m, p.id); }
    FocusedStays(v(p.id), p, Created);
    FocusedStays(Act(ActionOf(e, PaneAt(p.id)), v(p.id)), p, Created);
    TwoAfter(v, e, f, p.id);
    TwoMarks(v, e, f, t);
    TwoMarks(PanesAfter(v, [e, f]), e, f, t);
    PrefixDiverges(m, [e, f], t);
  }

  lemma {:induction false} NoPanes(m: M.State, k: string)
    requires m.panes == []
    ensures View(m, PaneAt(k)).None?
  {
  }

  lemma {:induction false} ThreeMarks(v: Panes, e: Event, f: Event, g: Event, t: string)
    ensures MarkOfAll(v, [e, f, g], t) == ThenMark(MarkOfAll(v, [e, f], t), MarkOf(PanesAfter(v, [e, f]), g, t))
  {
    hide MarkOf, PaneAfter;
    assert [e, f, g][..2] == [e, f];
  }

  lemma {:induction false} ThreeAfter(v: Panes, e: Event, f: Event, g: Event, k: string)
    ensures PanesAfter(v, [e, f, g])(k) == Act(ActionOf(g, PaneAt(k)), PanesAfter(v, [e, f])(k))
  {
    hide Act, ActionOf, ActionOfAll;
    assert [e, f, g][..2] == [e, f];
    PanesNext(v, [e, f, g], k);
  }

  /** Focusing and closing leave another pane where it is. */
  lemma {:induction false} OtherPane(v: Option<Record>, k: string, id: string)
    ensures Act(ActionOf(PaneClosed(id), PaneAt(k)), v) == if k == id then None else v
    ensures var r := Act(ActionOf(PaneFocused(id), PaneAt(k)), v);
            r.Some? == v.Some? && forall t :: LiesIn(r, t) == LiesIn(v, t)
  {
    KeepActs(v);
    if v.Some? { assert Containers(v.value) * {} == {}; }
  }

  /** Two panes take the focus in turn and the second is closed. */
  lemma {:induction false} TurnsMark(v: Panes, p: string, q: string, t: string)
    requires p != q
    ensures MarkOfAll(v, [PaneFocused(p), PaneFocused(q), PaneClosed(q)], t) ==
            Mark(None, {}, if LiesIn(v(q), t) then Some(q) else if LiesIn(v(p), t) then Some(p) else None)
    ensures LiesIn(PanesAfter(v, [PaneFocused(p), PaneFocused(q), PaneClosed(q)])(p), t) == LiesIn(v(p), t)
    ensures PanesAfter(v, [PaneFocused(p), PaneFocused(q), PaneClosed(q)])(q).None?
    ensures PanesAfter(v, [PaneFocused(p)])(q).Some? == v(q).Some?
  {
    hide Act, ActionOf, PaneAfter, LiesIn;
    var e, f, g := PaneFocused(p), PaneFocused(q), PaneClosed(q);
    OneAfter(v, e, q);
    OtherPane(v(q), q, p);
    OtherPane(v(p), p, p);
    TwoAfter(v, e, f, p);
    ThreeAfter(v, e, f, g, p);
    OtherPane(Act(ActionOf(e, PaneAt(p)), v(p)), p, q);
    OtherPane(PanesAfter(v, [e, f])(p), p, q);
    ThreeAfter(v, e, f, g, q);
    OtherPane(PanesAfter(v, [e, f])(q), q, q);
    TwoMarks(v, e, f, t);
    ThreeMarks(v, e, f, g, t);
  }

  /** Two panes of a tab take the focus in turn and the second is closed: the replay finds only the first. */
  lemma {:induction false} LayoutsNeedFocusToStay(m: M.State, p: Pane, q: Pane, here: Layout)
    requires M.WellFormed(m) && m.panes == [(p.id, p), (q.id, q)] && m.layouts == [(here.tab, here)]
    requires p.id != q.id && p.tab == here.tab && q.tab == here.tab
    ensures var events := [PaneFocused(p.id), PaneFocused(q.id), PaneClosed(q.id)];
            && OneHome(m, events) && PanesAfter(PanesOf(m), [])(p.id).Some?
               && PanesAfter(PanesOf(m), events[..1])(q.id).Some?
            && LayoutAt(M.Fold(M.Fold(m, events), events), here.tab) != LayoutAt(M.Fold(m, events), here.tab)
  {
    hide M.WellFormed, M.Fold, Act, ActionOf, PaneAfter, OneHome, Lookup, MarkOfAll, PanesAfter;
    var events := [PaneFocused(p.id), PaneFocused(q.id), PaneClosed(q.id)];
    assert events[..1] == [PaneFocused(p.id)];
    TwoHomes(m, events, p, q);
    Single(m.layouts, here.tab, here);
    TurnsMark(PanesOf(m), p.id, q.id, here.tab);
    TurnsMark(PanesAfter(PanesOf(m), events), p.id, q.id, here.tab);
    NothingYet(PanesOf(m), p.id);
    PrefixDiverges(m, events, here.tab);
  }

  lemma {:induction false} NothingYet(v: Panes, k: string)
    ensures PanesAfter(v, [])(k) == v(k)
  {
    NothingAfter(v(k), k);
  }

  lemma {:induction false} TwoHomes(m: M.State, events: seq<Event>, p: Pane, q: Pane)
    requires m.panes == [(p.id, p), (q.id, q)] && p.id != q.id
    requires forall i :: 0 <= i < |events| ==> !events[i].PaneReported? && !events[i].PaneMoved?
    ensures OneHome(m, events) && View(m, PaneAt(p.id)) == Some(P(p)) && View(m, PaneAt(q.id)) == Some(P(q))
  {
    LookupAt(m.panes, 0);
    LookupAt(m.panes, 1);
    forall k ensures HasHome(m, events, k) {
      if k in Lookup(m.panes) {
        var i := LookupIndex(m.panes, k);
        assert AtHome(m, events, k, m.panes[i].1.tab, m.panes[i].1.workspace);
      } else {
        assert AtHome(m, events, k, "", "");
      }
    }
  }
}
