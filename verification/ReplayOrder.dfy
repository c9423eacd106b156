/** When replaying a buffer restores the order of the indexes, and with it the whole mirror: when nothing that is held
    at the end of the prefix is taken out and put back on the way. */
module ReplayOrder {
  import opened Records
  import opened AssocList
  import opened Wrappers
  import opened Agreement
  import opened Homes
  import opened Moves
  import opened Replay
  import Agents = ReplayAgents
  import Layouts = ReplayLayouts
  import M = Mirror

  // ---------------------------------------------------------------- the order of some ids in a longer list

  /** The ids that belong to a set, in order. */
  function Among(ids: seq<string>, some: set<string>): seq<string> {
    if ids == [] then []
    else
      var rest := Among(ids[..|ids| - 1], some);
      if ids[|ids| - 1] in some then rest + [ids[|ids| - 1]] else rest
  }

  lemma {:induction false} AmongAll(ids: seq<string>, some: set<string>)
    requires forall k :: k in ids ==> k in some
    ensures Among(ids, some) == ids
  {
    if ids != [] {
      assert ids[|ids| - 1] in ids;
      AmongAll(ids[..|ids| - 1], some);
    }
  }

  /** Filtering entries whose ids stay does not reorder those ids. */
  lemma {:induction false} FilterInOrder<T>(s: seq<Entry<T>>, keep: Entry<T> -> bool, some: set<string>)
    requires forall i :: 0 <= i < |s| && s[i].0 in some ==> keep(s[i])
    ensures Among(Ids(Filter(s, keep)), some) == Among(Ids(s), some)
  {
    if s != [] {
      var rest, last := s[..|s| - 1], s[|s| - 1];
      FilterInOrder(rest, keep, some);
      assert Ids(s)[..|s| - 1] == Ids(rest);
      var r := Filter(rest, keep);
      if keep(last) { assert Ids(r + [last])[..|r|] == Ids(r); }
    }
  }

  /** What is left out by a filter is not among the ids that stay. */
  lemma {:induction false} StayersKept<T>(s: seq<Entry<T>>, keep: Entry<T> -> bool, some: set<string>)
    requires Distinct(s) && some <= Lookup(Filter(s, keep)).Keys
    ensures Among(Ids(Filter(s, keep)), some) == Among(Ids(s), some) && some <= Lookup(s).Keys
  {
    FilterLookup(s, keep);
    forall i | 0 <= i < |s| && s[i].0 in some ensures keep(s[i]) {
      LookupAt(s, i);
    }
    FilterInOrder(s, keep, some);
  }

  lemma {:induction false} PutInOrder<T>(s: seq<Entry<T>>, k: string, v: T, some: set<string>)
    requires Distinct(s) && some <= Lookup(s).Keys
    ensures Among(Ids(Put(s, k, v)), some) == Among(Ids(s), some) && some <= Lookup(Put(s, k, v)).Keys
  {
    PutIds(s, k, v);
    PutLookup(s, k, v);
    if k !in Lookup(s) {
      assert (Ids(s) + [k])[..|s|] == Ids(s);
    }
  }

  lemma {:induction false} SameSet<T>(s: seq<Entry<T>>, t: seq<Entry<T>>)
    requires Distinct(s) && Distinct(t) && Lookup(s) == Lookup(t) && Among(Ids(t), Lookup(s).Keys) == Ids(s)
    ensures s == t
  {
    forall k | k in Ids(t) ensures k in Lookup(s) {
      var i :| 0 <= i < |t| && Ids(t)[i] == k;
      LookupAt(t, i);
    }
    AmongAll(Ids(t), Lookup(s).Keys);
    Extensional(s, t);
  }

  lemma {:induction false} OwnOrder<T>(s: seq<Entry<T>>)
    requires Distinct(s)
    ensures Among(Ids(s), Lookup(s).Keys) == Ids(s)
  {
    forall k | k in Ids(s) ensures k in Lookup(s) {
      var i :| 0 <= i < |s| && Ids(s)[i] == k;
      LookupAt(s, i);
    }
    AmongAll(Ids(s), Lookup(s).Keys);
  }

  // ---------------------------------------------------------------- one event

  /** The ids of the five indexes. */
  datatype Held = Held(workspaces: set<string>, tabs: set<string>, panes: set<string>, agents: set<string>,
                       layouts: set<string>)

  ghost function HeldIn(m: M.State): Held {
    Held(Lookup(m.workspaces).Keys, Lookup(m.tabs).Keys, Lookup(m.panes).Keys, Lookup(m.agents).Keys,
         Lookup(m.layouts).Keys)
  }

  ghost predicate Holds(m: M.State, h: Held) {
    && h.workspaces <= Lookup(m.workspaces).Keys && h.tabs <= Lookup(m.tabs).Keys && h.panes <= Lookup(m.panes).Keys
    && h.agents <= Lookup(m.agents).Keys && h.layouts <= Lookup(m.layouts).Keys
  }

  ghost predicate SameOrder(m: M.State, n: M.State, h: Held) {
    && Among(Ids(m.workspaces), h.workspaces) == Among(Ids(n.workspaces), h.workspaces)
    && Among(Ids(m.tabs), h.tabs) == Among(Ids(n.tabs), h.tabs)
    && Among(Ids(m.panes), h.panes) == Among(Ids(n.panes), h.panes)
    && Among(Ids(m.agents), h.agents) == Among(Ids(n.agents), h.agents)
    && Among(Ids(m.layouts), h.layouts) == Among(Ids(n.layouts), h.layouts)
  }

  /** The event neither takes the tabs of a workspace out to list them anew nor does so with a pane. */
  predicate Plain(e: Event) {
    !e.TabMoved? && !(e.PaneMoved? && e.previousPane == e.pane.id)
  }

  predicate Lists(events: seq<Event>) {
    exists i :: 0 <= i < |events| && events[i].WorkspacesListed?
  }

  /** The ids whose order the list could disturb: one that lists the workspaces sets their order itself. */
  ghost function AtStake(m: M.State, events: seq<Event>): Held {
    HeldIn(m).(workspaces := if Lists(events) then {} else Lookup(m.workspaces).Keys)
  }

  lemma {:induction false} AmongNone(ids: seq<string>)
    ensures Among(ids, {}) == []
  {
    if ids != [] { AmongNone(ids[..|ids| - 1]); }
  }

  lemma {:induction false} SetPaneInOrder(m: M.State, p: Pane, h: Held)
    requires M.WellFormed(m) && Holds(m, h)
    ensures SameOrder(m, M.SetPane(m, p), h)
  {
    hide Among, Ids, Put, Lookup;
    PutInOrder(m.panes, p.id, p, h.panes);
    if p.id in Lookup(m.agents) { PutInOrder(m.agents, p.id, MergeAgent(Lookup(m.agents)[p.id], p), h.agents); }
  }

  lemma {:induction false} ClosePaneInOrder(m: M.State, id: string, h: Held)
    requires M.WellFormed(m) && Holds(M.ClosePane(m, id), h)
    ensures SameOrder(m, M.ClosePane(m, id), h) && Holds(m, h)
  {
    hide Among, Ids, Filter, Lookup;
    StayersKept(m.panes, NotAt(id), h.panes);
    StayersKept(m.agents, NotAt(id), h.agents);
  }

  lemma {:induction false} CloseTabInOrder(m: M.State, id: string, h: Held)
    requires M.WellFormed(m) && Holds(M.CloseTab(m, id), h)
    ensures SameOrder(m, M.CloseTab(m, id), h) && Holds(m, h)
  {
    hide Among, Ids, Filter, Lookup;
    StayersKept(m.tabs, NotAt(id), h.tabs);
    StayersKept(m.layouts, NotAt(id), h.layouts);
    StayersKept(m.panes, Unmatched(M.InTab(id)), h.panes);
    StayersKept(m.agents, Unmatched(M.AgentInTab(id)), h.agents);
  }

  lemma {:induction false} CloseWorkspaceInOrder(m: M.State, id: string, h: Held)
    requires M.WellFormed(m) && Holds(M.CloseWorkspace(m, id), h)
    ensures SameOrder(m, M.CloseWorkspace(m, id), h) && Holds(m, h)
  {
    hide Among, Ids, Filter, Lookup;
    StayersKept(m.workspaces, NotAt(id), h.workspaces);
    StayersKept(m.tabs, Unmatched(M.TabOf(id)), h.tabs);
    StayersKept(m.panes, Unmatched(M.PaneOf(id)), h.panes);
    StayersKept(m.agents, Unmatched(M.AgentOf(id)), h.agents);
    StayersKept(m.layouts, Unmatched(M.LayoutOf(id)), h.layouts);
  }

  lemma {:induction false} ContainersInOrder(m: M.State, w: Optional<Workspace>, t: Optional<Tab>, h: Held)
    requires M.WellFormed(m) && Holds(m, h)
    ensures SameOrder(m, M.Containers(m, w, t), h) && Holds(M.Containers(m, w, t), h)
  {
    hide Among, Ids, Put, Lookup;
    if w.Present? { PutInOrder(m.workspaces, w.value.id, w.value, h.workspaces); }
    if t.Present? { PutInOrder(m.tabs, t.value.id, t.value, h.tabs); }
  }

  lemma {:induction false} RekeyInOrder(m: M.State, previous: string, pane: Pane, h: Held)
    requires M.WellFormed(m) && Holds(m, h) && previous != pane.id && Holds(M.Rekey(m, previous, pane), h)
    ensures SameOrder(m, M.Rekey(m, previous, pane), h)
  {
    hide Among, Ids, Put, Filter, Lookup;
    var closed := M.ClosePane(m, previous);
    RemoveLookup(m.panes, previous);
    RemoveLookup(m.agents, previous);
    PutLookup(closed.panes, pane.id, pane);
    if previous in Lookup(m.agents) {
      PutLookup(closed.agents, pane.id, MergeAgent(Lookup(m.agents)[previous], pane));
    }
    assert Holds(closed, h);
    ClosePaneInOrder(m, previous, h);
    PutInOrder(closed.panes, pane.id, pane, h.panes);
    if previous in Lookup(m.agents) {
      PutInOrder(closed.agents, pane.id, MergeAgent(Lookup(m.agents)[previous], pane), h.agents);
    }
  }

  lemma {:induction false} OrderTrans(a: M.State, b: M.State, c: M.State, h: Held)
    requires SameOrder(a, b, h) && SameOrder(b, c, h)
    ensures SameOrder(a, c, h)
  {
  }

  lemma {:induction false} MoveInOrder(m: M.State, e: Event, h: Held)
    requires M.WellFormed(m) && Holds(m, h) && e.PaneMoved? && e.previousPane != e.pane.id && Holds(M.Apply(m, e), h)
    ensures SameOrder(m, M.Apply(m, e), h)
  {
    hide Among, Ids, M.WellFormed, Holds, SameOrder, M.Rekey, M.CloseTab, M.CloseWorkspace, M.Containers;
    var m0 := M.Containers(m, e.createdWorkspace, e.createdTab);
    var m1 := M.Rekey(m0, e.previousPane, e.pane);
    var m2 := if e.closedTab.Present? then M.CloseTab(m1, e.closedTab.value) else m1;
    M.ContainersWellFormed(m, e.createdWorkspace, e.createdTab);
    M.RekeyWellFormed(m0, e.previousPane, e.pane);
    if e.closedTab.Present? { M.CloseTabWellFormed(m1, e.closedTab.value); }
    OrderSelf(m2, h);
    if e.closedWorkspace.Present? { CloseWorkspaceInOrder(m2, e.closedWorkspace.value, h); }
    OrderSelf(m1, h);
    if e.closedTab.Present? { CloseTabInOrder(m1, e.closedTab.value, h); }
    ContainersInOrder(m, e.createdWorkspace, e.createdTab, h);
    RekeyInOrder(m0, e.previousPane, e.pane, h);
    OrderTrans(m, m0, m1, h);
    OrderTrans(m, m1, m2, h);
    OrderTrans(m, m2, M.Apply(m, e), h);
  }

  lemma {:induction false} OrderSelf(m: M.State, h: Held)
    ensures SameOrder(m, m, h)
  {
  }

  lemma {:induction false} DetectedInOrder(m: M.State, e: Event, h: Held)
    requires M.WellFormed(m) && Holds(m, h) && e.PaneAgentDetected? && Holds(M.ApplyToPane(m, e), h)
    ensures SameOrder(m, M.ApplyToPane(m, e), h)
  {
    hide Among, Ids, Put, Filter, Lookup, MergeAgent, M.DetectedPane;
    var id := e.paneId;
    if M.Released(e.released) { StayersKept(m.agents, NotAt(id), h.agents); }
    if id in Lookup(m.panes) {
      var pane := M.DetectedPane(Lookup(m.panes)[id], e.agent, e.finalStatus, e.released);
      PutInOrder(m.panes, id, pane, h.panes);
      PutInOrder(m.agents, id, MergeAgent(if id in Lookup(m.agents) then Lookup(m.agents)[id] else ZERO_AGENT, pane),
                 h.agents);
    }
  }

  lemma {:induction false} StatusInOrder(m: M.State, e: Event, h: Held)
    requires M.WellFormed(m) && Holds(m, h) && e.PaneAgentStatusChanged?
    ensures SameOrder(m, M.ApplyToPane(m, e), h)
  {
    hide Among, Ids, Put, Lookup, MergeAgent, M.StatusPane;
    var id := e.paneId;
    if id in Lookup(m.panes) {
      var pane := M.StatusPane(Lookup(m.panes)[id], e.agentStatus, e.agent, e.displayAgent, e.title, e.stateLabels);
      PutInOrder(m.panes, id, pane, h.panes);
      if id in Lookup(m.agents) { PutInOrder(m.agents, id, MergeAgent(Lookup(m.agents)[id], pane), h.agents); }
    } else if id in Lookup(m.agents) {
      PutInOrder(m.agents, id, Lookup(m.agents)[id].(agentStatus := e.agentStatus), h.agents);
    }
  }

  lemma {:induction false} FocusInOrder(m: M.State, id: string, h: Held)
    requires M.WellFormed(m) && Holds(m, h)
    ensures SameOrder(m, M.FocusPane(m, id), h)
  {
    hide Among, Put, Lookup, Update;
    var panes := Update(m.panes, M.FocusedPane(id));
    if id in Lookup(panes) && Lookup(panes)[id].tab in Lookup(m.layouts) {
      var tab := Lookup(panes)[id].tab;
      PutInOrder(m.layouts, tab, Lookup(m.layouts)[tab].(focusedPane := id), h.layouts);
    }
  }

  lemma {:induction false} EventInOrder(m: M.State, e: Event, h: Held)
    requires M.WellFormed(m) && Plain(e) && Holds(m, h) && Holds(M.Apply(m, e), h)
    requires e.WorkspacesListed? ==> h.workspaces == {}
    ensures SameOrder(m, M.Apply(m, e), h)
  {
    hide Among, Ids, Put, Update, Lookup, Holds, M.WellFormed, M.CloseTab, M.CloseWorkspace, M.ApplyToPane;
    if e.WorkspaceClosed? {
      CloseWorkspaceInOrder(m, e.workspaceId, h);
    } else if e.TabClosed? {
      CloseTabInOrder(m, e.tabId, h);
    } else if AboutPanes(e) {
      PaneEventInOrder(m, e, h);
    } else {
      PutsInOrder(m, e, h);
    }
  }

  predicate AboutPanes(e: Event) {
    || e.PaneReported? || e.PaneMoved? || e.PaneFocused? || e.PaneClosed? || e.PaneOutputChanged?
       || e.PaneScrollChanged?
    || e.PaneAgentDetected? || e.PaneAgentStatusChanged?
  }

  /** The events that set or rewrite entries of one index. */
  lemma {:induction false} PutsInOrder(m: M.State, e: Event, h: Held)
    requires M.WellFormed(m) && Plain(e) && Holds(m, h) && !AboutPanes(e) && !e.WorkspaceClosed? && !e.TabClosed?
    requires e.WorkspacesListed? ==> h.workspaces == {}
    ensures SameOrder(m, M.Apply(m, e), h)
  {
    hide Among, Put, Update, Lookup, Reset;
    AmongNone(Ids(m.workspaces));
    AmongNone(Ids(M.Apply(m, e).workspaces));
    if e.WorkspaceReported? { PutInOrder(m.workspaces, e.workspace.id, e.workspace, h.workspaces); }
    if e.WorktreeRemoved? && e.remaining.Present? {
      PutInOrder(m.workspaces, e.remaining.value.id, e.remaining.value, h.workspaces);
    }
    if e.WorkspaceRenamed? && e.workspaceId in Lookup(m.workspaces) {
      PutInOrder(m.workspaces, e.workspaceId, Lookup(m.workspaces)[e.workspaceId].(name := e.name), h.workspaces);
    }
    if e.TabCreated? { PutInOrder(m.tabs, e.tab.id, e.tab, h.tabs); }
    if e.TabRenamed? && e.tabId in Lookup(m.tabs) {
      PutInOrder(m.tabs, e.tabId, Lookup(m.tabs)[e.tabId].(name := e.name), h.tabs);
    }
    if e.LayoutUpdated? { PutInOrder(m.layouts, e.layout.tab, e.layout, h.layouts); }
  }

  lemma {:induction false} PaneEventInOrder(m: M.State, e: Event, h: Held)
    requires M.WellFormed(m) && Plain(e) && AboutPanes(e) && Holds(m, h) && Holds(M.Apply(m, e), h)
    ensures SameOrder(m, M.Apply(m, e), h)
  {
    hide Among, Ids, Put, Update, Lookup, Holds, SameOrder, M.WellFormed, M.SetPane, M.ClosePane, M.MovePane,
         M.FocusPane;
    hide M.AgentDetected, M.AgentStatus;
    OrderSelf(m, h);
    match e
    case PaneReported(_, p) => SetPaneInOrder(m, p, h);
    case PaneMoved(_, _, _, _, _, _) => MoveInOrder(m, e, h);
    case PaneFocused(id) => FocusInOrder(m, id, h);
    case PaneClosed(id) => ClosePaneInOrder(m, id, h);
    case PaneOutputChanged(id, revision) =>
      if id in Lookup(m.panes) { SetPaneInOrder(m, Lookup(m.panes)[id].(revision := revision), h); }
    case PaneScrollChanged(id, scroll) =>
      if id in Lookup(m.panes) { SetPaneInOrder(m, Lookup(m.panes)[id].(scroll := Present(scroll)), h); }
    case PaneAgentDetected(_, _, _, _) => DetectedInOrder(m, e, h);
    case PaneAgentStatusChanged(_, _, _, _, _, _) => StatusInOrder(m, e, h);
  }

  // ---------------------------------------------------------------- whole prefixes

  ghost predicate AllPlain(events: seq<Event>) {
    forall i :: 0 <= i < |events| ==> Plain(events[i])
  }

  /** On the way through the list, nothing at stake is missing between two events. */
  ghost predicate KeepsHeld(m: M.State, events: seq<Event>) {
    forall i :: 0 <= i <= |events| ==> Holds(M.Fold(m, events[..i]), AtStake(m, events))
  }

  lemma {:induction false} PrefixInOrder(m: M.State, events: seq<Event>, n: nat)
    requires M.WellFormed(m) && AllPlain(events) && KeepsHeld(m, events) && n <= |events|
    ensures SameOrder(m, M.Fold(m, events[..n]), AtStake(m, events))
  {
    hide M.WellFormed, Plain, M.Apply, HeldIn, Holds, SameOrder;
    if n == 0 {
      assert events[..0] == [] && M.Fold(m, []) == m;
      OrderSelf(m, AtStake(m, events));
    } else {
      PrefixInOrder(m, events, n - 1);
      M.FoldWellFormed(m, events[..n - 1]);
      assert events[..n][..n - 1] == events[..n - 1] && events[..n][n - 1] == events[n - 1];
      EventInOrder(M.Fold(m, events[..n - 1]), events[n - 1], AtStake(m, events));
      OrderTrans(m, M.Fold(m, events[..n - 1]), M.Fold(m, events[..n]), AtStake(m, events));
    }
  }

  /** Workspaces follow from workspaces alone. */
  lemma {:induction false} WorkspacesAlone(m: M.State, n: M.State, e: Event)
    requires e.WorkspacesListed? || m.workspaces == n.workspaces
    ensures M.Apply(m, e).workspaces == M.Apply(n, e).workspaces
  {
    hide Put, Remove, RemoveWhere, Update, Lookup, Reset;
  }

  /** A list that lists the workspaces leaves them as it says, wherever it started. */
  lemma {:induction false} ListingDecides(m: M.State, n: M.State, events: seq<Event>)
    requires Lists(events) || m.workspaces == n.workspaces
    ensures M.Fold(m, events).workspaces == M.Fold(n, events).workspaces
  {
    hide M.Apply;
    if events != [] {
      var before, last := events[..|events| - 1], events[|events| - 1];
      if !last.WorkspacesListed? {
        if Lists(events) {
          var i :| 0 <= i < |events| && events[i].WorkspacesListed?;
          assert before[i].WorkspacesListed?;
        }
        ListingDecides(m, n, before);
      }
      WorkspacesAlone(M.Fold(m, before), M.Fold(n, before), last);
    }
  }

  ghost predicate SameLookups(m: M.State, n: M.State) {
    && Lookup(m.workspaces) == Lookup(n.workspaces) && Lookup(m.tabs) == Lookup(n.tabs)
       && Lookup(m.panes) == Lookup(n.panes)
    && Lookup(m.agents) == Lookup(n.agents) && Lookup(m.layouts) == Lookup(n.layouts)
  }

  lemma {:induction false} SameMirror(m: M.State, n: M.State)
    requires M.WellFormed(m) && M.WellFormed(n) && SameLookups(m, n)
    requires SameOrder(m, n, HeldIn(m))
             || (m.workspaces == n.workspaces && SameOrder(m, n, HeldIn(m).(workspaces := {})))
    requires m.version == n.version && m.protocol == n.protocol
    ensures m == n
  {
    hide Among, Lookup, Ids;
    OwnOrder(m.workspaces);
    OwnOrder(m.tabs);
    OwnOrder(m.panes);
    OwnOrder(m.agents);
    OwnOrder(m.layouts);
    if m.workspaces != n.workspaces { SameSet(m.workspaces, n.workspaces); }
    SameSet(m.tabs, n.tabs);
    SameSet(m.panes, n.panes);
    SameSet(m.agents, n.agents);
    SameSet(m.layouts, n.layouts);
  }

  lemma {:induction false} SameVersion(m: M.State, events: seq<Event>)
    ensures M.Fold(m, events).version == m.version && M.Fold(m, events).protocol == m.protocol
  {
    hide M.Apply;
    if events != [] {
      SameVersion(m, events[..|events| - 1]);
      VersionKept(M.Fold(m, events[..|events| - 1]), events[|events| - 1]);
    }
  }

  lemma {:induction false} VersionKept(m: M.State, e: Event)
    ensures M.Apply(m, e).version == m.version && M.Apply(m, e).protocol == m.protocol
  {
    hide Put, Remove, RemoveWhere, Update, Lookup, Reset;
  }

  lemma {:induction false} ViewsAreLookups(m: M.State, n: M.State)
    requires forall k :: View(m, k) == View(n, k)
    ensures Lookup(m.workspaces) == Lookup(n.workspaces) && Lookup(m.tabs) == Lookup(n.tabs)
            && Lookup(m.panes) == Lookup(n.panes)
  {
    hide Lookup;
    forall id ensures id in Lookup(m.workspaces) <==> id in Lookup(n.workspaces)
      ensures id in Lookup(m.workspaces) ==> Lookup(m.workspaces)[id] == Lookup(n.workspaces)[id]
    {
      assert View(m, WorkspaceAt(id)) == View(n, WorkspaceAt(id));
    }
    forall id ensures id in Lookup(m.tabs) <==> id in Lookup(n.tabs)
      ensures id in Lookup(m.tabs) ==> Lookup(m.tabs)[id] == Lookup(n.tabs)[id]
    {
      assert View(m, TabAt(id)) == View(n, TabAt(id));
    }
    forall id ensures id in Lookup(m.panes) <==> id in Lookup(n.panes)
      ensures id in Lookup(m.panes) ==> Lookup(m.panes)[id] == Lookup(n.panes)[id]
    {
      assert View(m, PaneAt(id)) == View(n, PaneAt(id));
    }
  }

  /** What a prefix must be like for a replay to change nothing at all. */
  ghost predicate Settled(m: M.State, before: seq<Event>) {
    && Agents.NoMoves(before) && OneHome(m, before)
    && Agents.DetectionsHeld(m, before) && Layouts.FocusHeld(m, before)
    && AllPlain(before) && KeepsHeld(M.Fold(m, before), before)
  }

  /** Replaying such a prefix leaves the whole mirror as it is, all five indexes in order, so that the whole buffer ends
      where folding it once ends, whatever comes after the prefix. */
  lemma {:induction false} WholeMirrorConverges(m: M.State, before: seq<Event>, after: seq<Event>)
    requires M.WellFormed(m) && Agreed(m) && Settled(m, before)
    ensures M.Fold(M.Fold(m, before), before) == M.Fold(m, before)
    ensures M.Fold(M.Fold(m, before), before + after) == M.Fold(m, before + after)
  {
    hide M.WellFormed, Agreed, M.Apply, M.Fold, Lookup, View, OneHome, AllPlain, KeepsHeld, SameOrder;
    hide Agents.NoMoves, Agents.DetectionsHeld, Layouts.FocusHeld;
    var once := M.Fold(m, before);
    M.FoldWellFormed(m, before);
    M.FoldWellFormed(once, before);
    assert before + [] == before && before[..|before|] == before;
    ReplayConverges(m, before, []);
    ViewsAreLookups(M.Fold(once, before), once);
    assert Agents.NoMoves([]) by { NoEvents(); }
    Agents.AgentsConverge(m, before, []);
    Layouts.LayoutsConverge(m, before, []);
    PrefixInOrder(once, before, |before|);
    if Lists(before) { ListingDecides(m, once, before); }
    SameVersion(once, before);
    SameMirror(once, M.Fold(once, before));
    M.FoldConcat(m, before, after);
    M.FoldConcat(once, before, after);
  }

  lemma {:induction false} NoEvents()
    ensures Agents.NoMoves([])
  {
  }

  /** The bootstrap, in full: a snapshot taken after such a prefix, and the whole buffer replayed onto it, give the very
      mirror that following the server would have given. */
  lemma {:induction false} BootstrapIsExact(server: M.State, before: seq<Event>, after: seq<Event>)
    requires M.WellFormed(server) && Agreed(server) && Settled(server, before)
    ensures M.Fold(M.FromSnapshot(M.ToSnapshot(M.Fold(server, before))), before + after)
            == M.Fold(server, before + after)
  {
    hide M.WellFormed, Agreed, M.Apply, M.Fold, Settled;
    M.FoldWellFormed(server, before);
    M.SnapshotRoundTrip(M.Fold(server, before));
    WholeMirrorConverges(server, before, after);
  }

  // ---------------------------------------------------------------- the order needs its conditions

  lemma {:induction false} Appended(m: M.State, x: Pane)
    requires M.WellFormed(m)
    ensures Ids(M.Apply(m, PaneReported(Created, x)).panes) == if x.id in Lookup(m.panes) then Ids(m.panes)
            else Ids(m.panes) + [x.id]
  {
    hide Put, Lookup;
    PutIds(m.panes, x.id, x);
  }

  lemma {:induction false} IdsHeld(m: M.State, k: string)
    requires M.WellFormed(m)
    ensures k in Lookup(m.panes) <==> k in Ids(m.panes)
  {
    if k in Lookup(m.panes) {
      var i := LookupIndex(m.panes, k);
      assert Ids(m.panes)[i] == k;
    }
    if k in Ids(m.panes) {
      var i :| 0 <= i < |m.panes| && Ids(m.panes)[i] == k;
      LookupAt(m.panes, i);
    }
  }

  lemma {:induction false} RemovedHead<T>(s: seq<Entry<T>>, p: string, rest: seq<string>)
    requires Ids(s) == [p] + rest && p !in rest
    ensures Ids(Remove(s, p)) == rest
  {
    hide Filter;
    var head, tail := s[..1], s[1..];
    assert s == head + tail && |s| == 1 + |rest| && s[0].0 == Ids(s)[0] == p;
    forall e | e in tail ensures NotAt(p)(e) {
      var i :| 0 <= i < |tail| && tail[i] == e;
      assert Ids(s)[i + 1] == rest[i];
    }
    FilterConcat(head, tail, NotAt(p));
    FilterAll(tail, NotAt(p));
    DroppedOne(head, p);
    assert Ids(tail) == rest;
  }

  lemma {:induction false} DroppedOne<T>(s: seq<Entry<T>>, p: string)
    requires |s| == 1 && s[0].0 == p
    ensures Filter(s, NotAt(p)) == []
  {
    assert s[..0] == [];
  }

  lemma {:induction false} ClosedIds(m: M.State, p: string, rest: seq<string>)
    requires Ids(m.panes) == [p] + rest && p !in rest
    ensures Ids(M.Apply(m, PaneClosed(p)).panes) == rest
  {
    hide Ids, Remove, Put, Update;
    RemovedHead(m.panes, p, rest);
  }

  /** A pane is closed and reported again before another is reported: replayed, it comes after the other. */
  lemma {:induction false} OrderNeedsHeld(m: M.State, p: Pane, x: Pane)
    requires M.WellFormed(m) && m.panes == [(p.id, p)] && p.id != x.id
    ensures var events := [PaneClosed(p.id), PaneReported(Created, p), PaneReported(Created, x)];
            && AllPlain(events) && Ids(M.Fold(m, events).panes) == [p.id, x.id]
            && Ids(M.Fold(M.Fold(m, events), events).panes) == [x.id, p.id]
  {
    hide M.WellFormed, M.Apply, Ids, Lookup, M.Fold;
    var c, r, y := PaneClosed(p.id), PaneReported(Created, p), PaneReported(Created, x);
    assert Ids(m.panes) == [p.id] by { OneId(m.panes, p.id, p); }
    ReplacedIds(m, p, x, []);
    var once := M.Fold(m, [c, r, y]);
    M.FoldWellFormed(m, [c, r, y]);
    ReplacedIds(once, p, x, [x.id]);
  }

  lemma {:induction false} OneId<T>(s: seq<Entry<T>>, k: string, v: T)
    requires s == [(k, v)]
    ensures Ids(s) == [k]
  {
  }

  /** Close, report again, report the other. */
  lemma {:induction false} ReplacedIds(m: M.State, p: Pane, x: Pane, rest: seq<string>)
    requires M.WellFormed(m) && Ids(m.panes) == [p.id] + rest && (rest == [] || rest == [x.id]) && p.id != x.id
    ensures Ids(M.Fold(m, [PaneClosed(p.id), PaneReported(Created, p), PaneReported(Created, x)]).panes) ==
            if rest == [] then [p.id, x.id] else [x.id, p.id]
  {
    hide M.WellFormed, M.Apply, Ids, Lookup, M.Fold;
    var c, r, y := PaneClosed(p.id), PaneReported(Created, p), PaneReported(Created, x);
    Agents.FoldThree(m, c, r, y);
    ClosedIds(m, p.id, rest);
    var m1 := M.Apply(m, c);
    M.ApplyWellFormed(m, c);
    IdsHeld(m1, p.id);
    Appended(m1, p);
    var m2 := M.Apply(m1, r);
    M.ApplyWellFormed(m1, r);
    IdsHeld(m2, x.id);
    Appended(m2, x);
  }

  /** A pane moves onto its own id: replayed, it comes after a pane reported later. */
  lemma {:induction false} OrderNeedsPlain(m: M.State, p: Pane, x: Pane)
    requires M.WellFormed(m) && m.panes == [(p.id, p)] && p.id != x.id
    ensures var events := [PaneMoved(p.id, p, Absent, Absent, Absent, Absent), PaneReported(Created, x)];
            && Ids(M.Fold(m, events).panes) == [p.id, x.id]
            && Ids(M.Fold(M.Fold(m, events), events).panes) == [x.id, p.id]
  {
    hide M.WellFormed, M.Apply, Ids, Lookup, M.Fold;
    var e, y := PaneMoved(p.id, p, Absent, Absent, Absent, Absent), PaneReported(Created, x);
    OneId(m.panes, p.id, p);
    MovedIds(m, p, x, []);
    M.FoldWellFormed(m, [e, y]);
    MovedIds(M.Fold(m, [e, y]), p, x, [x.id]);
  }

  lemma {:induction false} MovedIds(m: M.State, p: Pane, x: Pane, rest: seq<string>)
    requires M.WellFormed(m) && Ids(m.panes) == [p.id] + rest && (rest == [] || rest == [x.id]) && p.id != x.id
    ensures Ids(M.Fold(m, [PaneMoved(p.id, p, Absent, Absent, Absent, Absent), PaneReported(Created, x)]).panes) ==
            if rest == [] then [p.id, x.id] else [x.id, p.id]
  {
    hide M.WellFormed, M.Apply, Ids, Lookup, M.Fold;
    var e, y := PaneMoved(p.id, p, Absent, Absent, Absent, Absent), PaneReported(Created, x);
    FoldTwo(m, e, y);
    OntoItself(m, e, rest);
    M.ApplyWellFormed(m, e);
    IdsHeld(M.Apply(m, e), x.id);
    Appended(M.Apply(m, e), x);
  }

  lemma {:induction false} OntoItself(m: M.State, e: Event, rest: seq<string>)
    requires M.WellFormed(m) && e.PaneMoved? && Ids(m.panes) == [e.pane.id] + rest && e.pane.id !in rest
    requires e == PaneMoved(e.pane.id, e.pane, Absent, Absent, Absent, Absent)
    ensures Ids(M.Apply(m, e).panes) == rest + [e.pane.id]
  {
    hide Ids, Remove, Put, Lookup;
    var p := e.pane.id;
    RemovedHead(m.panes, p, rest);
    RemoveLookup(m.panes, p);
    PutIds(Remove(m.panes, p), p, e.pane);
  }
}
