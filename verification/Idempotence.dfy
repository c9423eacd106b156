/** Applying the same event twice leaves the same mirror, all five indexes and their order included. */
module Idempotence {
  import opened Records
  import opened AssocList
  import opened Moves
  import Reorder
  import M = Mirror

  lemma {:induction false} PutSame<T>(s: seq<Entry<T>>, k: string, v: T)
    requires Distinct(s) && k in Lookup(s) && Lookup(s)[k] == v
    ensures Put(s, k, v) == s
  {
    PutLookup(s, k, v);
    PutIds(s, k, v);
    assert Lookup(s)[k := v] == Lookup(s);
    Extensional(Put(s, k, v), s);
  }

  lemma {:induction false} PutTwice<T>(s: seq<Entry<T>>, k: string, v: T)
    requires Distinct(s)
    ensures Distinct(Put(s, k, v)) && Lookup(Put(s, k, v)) == Lookup(s)[k := v]
    ensures Put(Put(s, k, v), k, v) == Put(s, k, v)
  {
    PutLookup(s, k, v);
    PutSame(Put(s, k, v), k, v);
  }

  lemma {:induction false} RemoveTwice<T>(s: seq<Entry<T>>, k: string)
    requires Distinct(s)
    ensures Remove(Remove(s, k), k) == Remove(s, k)
  {
    RemoveLookup(s, k);
    RemoveLookup(Remove(s, k), k);
  }

  lemma {:induction false} FilterTwice<T>(s: seq<Entry<T>>, keep: Entry<T> -> bool)
    ensures Filter(Filter(s, keep), keep) == Filter(s, keep)
  {
    FilterFilter(s, keep, keep);
    FilterSame(s, keep, (e: Entry<T>) => keep(e) && keep(e));
  }

  lemma {:induction false} UpdateTwice<T>(s: seq<Entry<T>>, rewrite: (string, T) -> T)
    requires forall i :: 0 <= i < |s| ==>
               rewrite(s[i].0, rewrite(s[i].0, s[i].1)) == rewrite(s[i].0, s[i].1)
    ensures Update(Update(s, rewrite), rewrite) == Update(s, rewrite)
  {
  }

  /** A record stored and then filtered is, the second time, either still there or dropped again. */
  lemma {:induction false} StoreAndFilterTwice<T>(s: seq<Entry<T>>, k: string, v: T, keep: Entry<T> -> bool)
    requires Distinct(s)
    ensures var r := Filter(Put(s, k, v), keep); Distinct(r) && Filter(Put(r, k, v), keep) == r
  {
    hide Filter, Put;
    var p := Put(s, k, v);
    var r := Filter(p, keep);
    PutLookup(s, k, v);
    FilterLookup(p, keep);
    FilterTwice(p, keep);
    if keep((k, v)) {
      PutSame(r, k, v);
    } else {
      PutAbsent(r, k, v);
      FilterAppend(r, (k, v), keep);
    }
  }

  lemma {:induction false} PutAbsent<T>(s: seq<Entry<T>>, k: string, v: T)
    requires k !in Lookup(s)
    ensures Put(s, k, v) == s + [(k, v)]
  {
    HasLookup(s, k);
  }

  lemma {:induction false} FilterAppend<T>(s: seq<Entry<T>>, e: Entry<T>, keep: Entry<T> -> bool)
    ensures Filter(s + [e], keep) == if keep(e) then Filter(s, keep) + [e] else Filter(s, keep)
  {
    assert (s + [e])[..|s|] == s;
  }

  lemma {:induction false} CloseTabTwice(m: M.State, id: string)
    requires M.WellFormed(m)
    ensures M.CloseTab(M.CloseTab(m, id), id) == M.CloseTab(m, id)
  {
    RemoveTwice(m.tabs, id);
    RemoveTwice(m.layouts, id);
    FilterTwice(m.panes, Unmatched(M.InTab(id)));
    FilterTwice(m.agents, Unmatched(M.AgentInTab(id)));
  }

  lemma {:induction false} CloseWorkspaceTwice(m: M.State, id: string)
    requires M.WellFormed(m)
    ensures M.CloseWorkspace(M.CloseWorkspace(m, id), id) == M.CloseWorkspace(m, id)
  {
    RemoveTwice(m.workspaces, id);
    FilterTwice(m.tabs, Unmatched(M.TabOf(id)));
    FilterTwice(m.panes, Unmatched(M.PaneOf(id)));
    FilterTwice(m.agents, Unmatched(M.AgentOf(id)));
    FilterTwice(m.layouts, Unmatched(M.LayoutOf(id)));
  }

  lemma {:induction false} SetPaneTwice(m: M.State, pane: Pane)
    requires M.WellFormed(m)
    ensures M.SetPane(M.SetPane(m, pane), pane) == M.SetPane(m, pane)
  {
    PutTwice(m.panes, pane.id, pane);
    if pane.id in Lookup(m.agents) {
      PutTwice(m.agents, pane.id, MergeAgent(Lookup(m.agents)[pane.id], pane));
    }
  }

  /** The panes of a move: the source goes, the destination is stored, closed containers drop theirs. */
  lemma {:induction false} MoveTwice<T>(s: seq<Entry<T>>, previous: string, k: string, v: T, keep: Entry<T> -> bool)
    requires Distinct(s)
    ensures var r := Filter(Put(Remove(s, previous), k, v), keep);
            Distinct(r) && Filter(Put(Remove(r, previous), k, v), keep) == r
  {
    hide Filter, Put;
    var s1 := Remove(s, previous);
    var r := Filter(Put(s1, k, v), keep);
    RemoveLookup(s, previous);
    StoreAndFilterTwice(s1, k, v, keep);
    PutLookup(s1, k, v);
    FilterLookup(Put(s1, k, v), keep);
    if previous != k {
      RemoveLookup(r, previous);
    } else {
      // the destination is the source: it was taken out first and so stands last
      PutAbsent(s1, k, v);
      FilterAppend(s1, (k, v), keep);
      var f := Filter(s1, keep);
      FilterLookup(s1, keep);
      RemoveLookup(f, k);
      assert Remove(r, k) == f by {
        if keep((k, v)) { FilterAppend(f, (k, v), NotAt(k)); }
      }
      PutAbsent(f, k, v);
      FilterAppend(f, (k, v), keep);
      FilterTwice(s1, keep);
    }
  }

  lemma {:induction false} MoveAgentsTwice(m: M.State, e: Event)
    requires M.WellFormed(m) && e.PaneMoved?
    ensures var r := Filter(Rekeyed(m, e).agents, KeepsAgent(e));
            Filter(M.Rekey(m.(agents := r), e.previousPane, e.pane).agents, KeepsAgent(e)) == r
  {
    hide Filter, Put, KeepsAgent;
    var s1 := Remove(m.agents, e.previousPane);
    var keep := KeepsAgent(e);
    RemoveLookup(m.agents, e.previousPane);
    FilterTwice(Rekeyed(m, e).agents, keep);
    if e.previousPane !in Lookup(m.agents) {
      FilterLookup(s1, keep);
      RemoveLookup(Filter(s1, keep), e.previousPane);
    } else {
      var v := MergeAgent(Lookup(m.agents)[e.previousPane], e.pane);
      MoveTwice(m.agents, e.previousPane, e.pane.id, v, keep);
      PutLookup(s1, e.pane.id, v);
      var r := Filter(Put(s1, e.pane.id, v), keep);
      FilterLookup(Put(s1, e.pane.id, v), keep);
      RemoveLookup(r, e.previousPane);
    }
  }

  lemma {:induction false} MovePaneTwice(m: M.State, e: Event)
    requires M.WellFormed(m) && e.PaneMoved?
    ensures M.Apply(M.Apply(m, e), e) == M.Apply(m, e)
  {
    hide Filter, Put, Remove, M.Apply, KeepsWorkspace, KeepsTab, KeepsPane, KeepsAgent, KeepsLayout;
    var m1 := M.Apply(m, e);
    MovePaneIs(m, e);
    MovePaneIs(m1, e);
    FilterTwice(Rekeyed(m, e).workspaces, KeepsWorkspace(e));
    if e.createdWorkspace.Present? {
      StoreAndFilterTwice(m.workspaces, e.createdWorkspace.value.id, e.createdWorkspace.value, KeepsWorkspace(e));
    }
    FilterTwice(Rekeyed(m, e).tabs, KeepsTab(e));
    if e.createdTab.Present? {
      StoreAndFilterTwice(m.tabs, e.createdTab.value.id, e.createdTab.value, KeepsTab(e));
    }
    MoveTwice(m.panes, e.previousPane, e.pane.id, e.pane, KeepsPane(e));
    MoveAgentsTwice(m, e);
    FilterTwice(m.layouts, KeepsLayout(e));
  }

  lemma {:induction false} FocusPaneTwice(m: M.State, id: string)
    requires M.WellFormed(m)
    ensures M.FocusPane(M.FocusPane(m, id), id) == M.FocusPane(m, id)
  {
    hide Put, Update, Lookup;
    var panes := Update(m.panes, M.FocusedPane(id));
    FocusTwice(m, id);
    if id in Lookup(panes) && Lookup(panes)[id].tab in Lookup(m.layouts) {
      var tab := Lookup(panes)[id].tab;
      PutTwice(m.layouts, tab, Lookup(m.layouts)[tab].(focusedPane := id));
    }
  }

  lemma {:induction false} FocusTwice(m: M.State, id: string)
    ensures Update(Update(m.panes, M.FocusedPane(id)), M.FocusedPane(id)) == Update(m.panes, M.FocusedPane(id))
    ensures Update(Update(m.agents, M.FocusedAgent(id)), M.FocusedAgent(id)) == Update(m.agents, M.FocusedAgent(id))
    ensures Update(Update(m.tabs, M.FocusedTab(id)), M.FocusedTab(id)) == Update(m.tabs, M.FocusedTab(id))
    ensures Update(Update(m.workspaces, M.FocusedWorkspace(id)), M.FocusedWorkspace(id)) ==
            Update(m.workspaces, M.FocusedWorkspace(id))
  {
    UpdateTwice(m.panes, M.FocusedPane(id));
    UpdateTwice(m.agents, M.FocusedAgent(id));
    UpdateTwice(m.tabs, M.FocusedTab(id));
    UpdateTwice(m.workspaces, M.FocusedWorkspace(id));
  }

  lemma {:induction false} AgentDetectedTwice(m: M.State, e: Event)
    requires M.WellFormed(m) && e.PaneAgentDetected?
    ensures M.ApplyToPane(M.ApplyToPane(m, e), e) == M.ApplyToPane(m, e)
  {
    hide Put, Remove, Lookup;
    RemoveTwice(m.agents, e.paneId);
    if e.paneId in Lookup(m.panes) {
      var pane := M.DetectedPane(Lookup(m.panes)[e.paneId], e.agent, e.finalStatus, e.released);
      PutTwice(m.panes, e.paneId, pane);
      PutTwice(m.agents, e.paneId,
        MergeAgent(if e.paneId in Lookup(m.agents) then Lookup(m.agents)[e.paneId] else ZERO_AGENT, pane));
    }
  }

  lemma {:induction false} AgentStatusTwice(m: M.State, e: Event)
    requires M.WellFormed(m) && e.PaneAgentStatusChanged?
    ensures M.ApplyToPane(M.ApplyToPane(m, e), e) == M.ApplyToPane(m, e)
  {
    hide Put, Lookup;
    var id := e.paneId;
    if id in Lookup(m.panes) {
      var pane := M.StatusPane(Lookup(m.panes)[id], e.agentStatus, e.agent, e.displayAgent, e.title, e.stateLabels);
      PutTwice(m.panes, id, pane);
      if id in Lookup(m.agents) { PutTwice(m.agents, id, MergeAgent(Lookup(m.agents)[id], pane)); }
    } else if id in Lookup(m.agents) {
      PutTwice(m.agents, id, Lookup(m.agents)[id].(agentStatus := e.agentStatus));
    }
  }

  lemma {:induction false} RevisionTwice(m: M.State, e: Event)
    requires M.WellFormed(m) && (e.PaneOutputChanged? || e.PaneScrollChanged?)
    ensures M.ApplyToPane(M.ApplyToPane(m, e), e) == M.ApplyToPane(m, e)
  {
    hide Put, Lookup;
    if e.paneId in Lookup(m.panes) {
      var pane := Lookup(m.panes)[e.paneId];
      M.KeyedAt(m.panes, e.paneId, PaneKey);
      var revised := if e.PaneOutputChanged? then pane.(revision := e.revision) else pane.(scroll := Present(e.scroll));
      SetPaneTwice(m, revised);
      PutTwice(m.panes, e.paneId, revised);
    }
  }

  lemma {:induction false} RenameTwice(m: M.State, e: Event)
    requires M.WellFormed(m) && (e.WorkspaceRenamed? || e.TabRenamed?)
    ensures M.Apply(M.Apply(m, e), e) == M.Apply(m, e)
  {
    hide Put, Lookup;
    if e.WorkspaceRenamed? && e.workspaceId in Lookup(m.workspaces) {
      PutTwice(m.workspaces, e.workspaceId, Lookup(m.workspaces)[e.workspaceId].(name := e.name));
    }
    if e.TabRenamed? && e.tabId in Lookup(m.tabs) {
      PutTwice(m.tabs, e.tabId, Lookup(m.tabs)[e.tabId].(name := e.name));
    }
  }

  /** Every event but tab.moved: the second application changes nothing in any index, order included. */
  lemma {:induction false} ApplyTwice(m: M.State, e: Event)
    requires M.WellFormed(m) && !e.TabMoved?
    ensures M.Apply(M.Apply(m, e), e) == M.Apply(m, e)
  {
    hide Put, Update, Reset, Lookup, M.CloseTab, M.CloseWorkspace, M.ApplyToPane, M.WellFormed;
    assert Distinct(m.workspaces) && Distinct(m.tabs) && Distinct(m.layouts) by { WellFormedDistinct(m); }
    match e
    case WorkspaceReported(_, w) => PutTwice(m.workspaces, w.id, w);
    case WorkspaceRenamed(_, _) => RenameTwice(m, e);
    case WorkspacesListed(_, _) =>
    case WorkspaceFocused(id) => FocusTwice(m, id);
    case WorkspaceClosed(id) => CloseWorkspaceTwice(m, id);
    case WorktreeRemoved(w) => if w.Present? { PutTwice(m.workspaces, w.value.id, w.value); }
    case TabCreated(t) => PutTwice(m.tabs, t.id, t);
    case TabRenamed(_, _) => RenameTwice(m, e);
    case TabFocused(id) => FocusTwice(m, id);
    case TabClosed(id) => CloseTabTwice(m, id);
    case LayoutUpdated(l) => PutTwice(m.layouts, l.tab, l);
    case Unmirrored(_) =>
    case _ => ApplyToPaneTwice(m, e);
  }

  lemma {:induction false} WellFormedDistinct(m: M.State)
    requires M.WellFormed(m)
    ensures Distinct(m.workspaces) && Distinct(m.tabs) && Distinct(m.layouts)
  {
  }

  lemma {:induction false} ApplyToPaneTwice(m: M.State, e: Event)
    requires M.WellFormed(m)
    ensures M.ApplyToPane(M.ApplyToPane(m, e), e) == M.ApplyToPane(m, e)
  {
    hide Put, Update, Lookup, M.SetPane, M.MovePane, M.FocusPane, M.AgentDetected, M.AgentStatus, M.WellFormed;
    match e
    case PaneReported(_, p) => SetPaneTwice(m, p);
    case PaneMoved(_, _, _, _, _, _) => MovePaneTwice(m, e);
    case PaneFocused(id) => FocusPaneTwice(m, id);
    case PaneClosed(id) => ClosePaneTwice(m, id);
    case PaneOutputChanged(_, _) => RevisionTwice(m, e);
    case PaneScrollChanged(_, _) => RevisionTwice(m, e);
    case PaneAgentDetected(_, _, _, _) => AgentDetectedTwice(m, e);
    case PaneAgentStatusChanged(_, _, _, _, _, _) => AgentStatusTwice(m, e);
    case _ =>
  }

  lemma {:induction false} ClosePaneTwice(m: M.State, id: string)
    requires M.WellFormed(m)
    ensures M.ClosePane(M.ClosePane(m, id), id) == M.ClosePane(m, id)
  {
    RemoveTwice(m.panes, id);
    RemoveTwice(m.agents, id);
  }

  /** tab.moved: exactly when the ids that the payload keeps in the workspace will stand as one run in listed order,
      which the held tabs and the payload tell beforehand. */
  lemma {:induction false} TabMovedTwice(m: M.State, workspace: string, listed: seq<Tab>)
    requires M.WellFormed(m)
    ensures var e := TabMoved(workspace, listed);
            M.Apply(M.Apply(m, e), e) == M.Apply(m, e) <==>
            Reorder.OneRun(Reorder.Placed(m.tabs, workspace, listed), Reorder.Own(listed, workspace))
  {
    hide Reorder.OneRun, Reorder.Own, Reorder.Placed, M.ReorderTabs;
    Reorder.TwiceIffPlacedInOneRun(m.tabs, workspace, listed);
  }
}
