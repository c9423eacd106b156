/** Pane ids that keep one home: one tab and one workspace, wherever the mirror or an event mentions them. */
module Homes {
  import opened Records
  import opened AssocList
  import opened Wrappers
  import opened Replay
  import M = Mirror

  /** What the buffer makes of the pane under one id, given what it was. */
  ghost function PaneAfter(pane: Option<Record>, events: seq<Event>, k: string): Option<Record> {
    Act(ActionOfAll(events, PaneAt(k)), pane)
  }

  predicate SameHome(p: Pane, q: Pane) { p.tab == q.tab && p.workspace == q.workspace }

  predicate LivesIn(p: Pane, tab: string, workspace: string) { p.tab == tab && p.workspace == workspace }

  /** The event brings a record of the pane along. */
  predicate Carries(e: Event, k: string) { (e.PaneReported? || e.PaneMoved?) && e.pane.id == k }

  predicate ViewAt(v: Option<Record>, tab: string, workspace: string) {
    v.Some? ==> v.value.P? && LivesIn(v.value.pane, tab, workspace)
  }

  predicate ReportsAt(events: seq<Event>, k: string, tab: string, workspace: string) {
    forall i :: 0 <= i < |events| && Carries(events[i], k) ==> LivesIn(events[i].pane, tab, workspace)
  }

  ghost predicate AtHome(m: M.State, events: seq<Event>, k: string, tab: string, workspace: string) {
    ViewAt(View(m, PaneAt(k)), tab, workspace) && ReportsAt(events, k, tab, workspace)
  }

  ghost predicate HasHome(m: M.State, events: seq<Event>, k: string) {
    exists tab, workspace :: AtHome(m, events, k, tab, workspace)
  }

  /** Every pane id keeps one tab and one workspace, in the mirror and in every event that brings its record. */
  ghost predicate OneHome(m: M.State, events: seq<Event>) {
    forall k :: HasHome(m, events, k)
  }

  /** An action that can leave a pane only at its home. */
  predicate HomeAction(a: Action, tab: string, workspace: string) {
    a.Always? ==> ViewAt(a.record, tab, workspace)
  }

  lemma {:induction false} ActsAtHome(a: Action, v: Option<Record>, tab: string, workspace: string)
    requires HomeAction(a, tab, workspace) && ViewAt(v, tab, workspace)
    ensures ViewAt(Act(a, v), tab, workspace)
  {
    if a.Adjust? && v.Some? { PatchedAtHome(a.patch, v.value.pane); }
  }

  lemma {:induction false} PatchedAtHome(p: Patch, q: Pane)
    ensures var r := Patched(p, P(q)); r.P? && SameHome(r.pane, q)
  {
  }

  lemma {:induction false} ThenAtHome(a: Action, b: Action, tab: string, workspace: string)
    requires HomeAction(a, tab, workspace) && HomeAction(b, tab, workspace)
    ensures HomeAction(Then(a, b), tab, workspace)
  {
    hide Act;
    if a.Always? { ActsAtHome(b, a.record, tab, workspace); }
  }

  lemma {:induction false} MovesAtHome(e: Event, k: string, tab: string, workspace: string)
    requires e.PaneMoved? && (Carries(e, k) ==> LivesIn(e.pane, tab, workspace))
    ensures HomeAction(Moves(e, PaneAt(k)), tab, workspace)
  {
    hide Then, HomeAction;
    var key := PaneAt(k);
    var a := if e.createdWorkspace.Present?
             then Stores(WorkspaceAt(e.createdWorkspace.value.id), W(e.createdWorkspace.value), key) else KEEP;
    var b := if e.createdTab.Present? then Stores(TabAt(e.createdTab.value.id), T(e.createdTab.value), key) else KEEP;
    var from, to := Deletes(PaneAt(e.previousPane), key), Stores(PaneAt(e.pane.id), P(e.pane), key);
    var c := if e.closedTab.Present? then ClosesTab(e.closedTab.value, key) else KEEP;
    var d := if e.closedWorkspace.Present? then ClosesWorkspace(e.closedWorkspace.value, key) else KEEP;
    Adjusts(a, tab, workspace);
    Adjusts(b, tab, workspace);
    Adjusts(c, tab, workspace);
    Adjusts(d, tab, workspace);
    Removes(from, tab, workspace);
    assert HomeAction(to, tab, workspace) by { Stored(to, tab, workspace); }
    ThenAtHome(a, b, tab, workspace);
    ThenAtHome(from, to, tab, workspace);
    ThenAtHome(Then(a, b), Then(from, to), tab, workspace);
    ThenAtHome(c, d, tab, workspace);
    ThenAtHome(Then(Then(a, b), Then(from, to)), Then(c, d), tab, workspace);
  }

  lemma {:induction false} Adjusts(a: Action, tab: string, workspace: string)
    requires a.Adjust?
    ensures HomeAction(a, tab, workspace)
  {
  }

  lemma {:induction false} Removes(a: Action, tab: string, workspace: string)
    requires a == Always(None) || a.Adjust?
    ensures HomeAction(a, tab, workspace)
  {
  }

  lemma {:induction false} Stored(a: Action, tab: string, workspace: string)
    requires a.Always? ==> a.record.Some? && a.record.value.P? && LivesIn(a.record.value.pane, tab, workspace)
    ensures HomeAction(a, tab, workspace)
  {
  }

  lemma {:induction false} EventAtHome(e: Event, k: string, tab: string, workspace: string)
    requires Carries(e, k) ==> LivesIn(e.pane, tab, workspace)
    ensures HomeAction(ActionOf(e, PaneAt(k)), tab, workspace)
  {
    hide Moves;
    if e.PaneMoved? { MovesAtHome(e, k, tab, workspace); }
  }

  lemma {:induction false} PaneAfterNext(v: Option<Record>, events: seq<Event>, k: string)
    requires events != []
    ensures PaneAfter(v, events, k) ==
            Act(ActionOf(events[|events| - 1], PaneAt(k)), PaneAfter(v, events[..|events| - 1], k))
  {
    hide Act, Then, ActionOf;
    ThenActs(ActionOfAll(events[..|events| - 1], PaneAt(k)), ActionOf(events[|events| - 1], PaneAt(k)), v);
  }

  lemma {:induction false} NothingAfter(v: Option<Record>, k: string)
    ensures PaneAfter(v, [], k) == v
  {
    KeepActs(v);
  }

  /** What a buffer does to one pane id leaves it at its home. */
  lemma {:induction false} AllAtHome(events: seq<Event>, k: string, tab: string, workspace: string)
    requires ReportsAt(events, k, tab, workspace)
    ensures HomeAction(ActionOfAll(events, PaneAt(k)), tab, workspace)
  {
    hide ActionOf, Then, HomeAction;
    if events == [] {
      Adjusts(KEEP, tab, workspace);
    } else {
      var before, last := events[..|events| - 1], events[|events| - 1];
      AllAtHome(before, k, tab, workspace);
      EventAtHome(last, k, tab, workspace);
      ThenAtHome(ActionOfAll(before, PaneAt(k)), ActionOf(last, PaneAt(k)), tab, workspace);
    }
  }

  lemma {:induction false} StaysHome(v: Option<Record>, events: seq<Event>, k: string, tab: string, workspace: string)
    requires ViewAt(v, tab, workspace) && ReportsAt(events, k, tab, workspace)
    ensures ViewAt(PaneAfter(v, events, k), tab, workspace)
  {
    hide ActionOfAll, HomeAction, Act;
    AllAtHome(events, k, tab, workspace);
    ActsAtHome(ActionOfAll(events, PaneAt(k)), v, tab, workspace);
  }

  /** At one home, a buffer that leaves a pane held leaves any pane of that home held, in the same containers. */
  lemma {:induction false} HeldAlike(v: Option<Record>, w: Option<Record>, events: seq<Event>, k: string, tab: string,
                                     workspace: string)
    requires ViewAt(v, tab, workspace) && ViewAt(w, tab, workspace) && ReportsAt(events, k, tab, workspace) && w.Some?
    requires PaneAfter(v, events, k).Some?
    ensures PaneAfter(w, events, k).Some?
  {
    hide ActionOfAll;
    var a := ActionOfAll(events, PaneAt(k));
    if a.Adjust? { assert Containers(v.value) == Containers(w.value); }
  }

  /** A mirror and a buffer that mention each of two panes with one record. */
  lemma {:induction false} OneRecordEach(m: M.State, events: seq<Event>, p: Pane, q: Pane)
    requires p == q || p.id != q.id
    requires m.panes == [] || m.panes == [(p.id, p)]
    requires forall i :: 0 <= i < |events| && (events[i].PaneReported? || events[i].PaneMoved?) ==>
               events[i].pane in {p, q}
    ensures OneHome(m, events)
  {
    if m.panes != [] {
      assert m.panes[..|m.panes| - 1] == [];
      assert Lookup(m.panes) == map[p.id := p];
    }
    forall k ensures HasHome(m, events, k) {
      var home := if k == p.id then p else q;
      assert AtHome(m, events, k, home.tab, home.workspace);
    }
  }
}
