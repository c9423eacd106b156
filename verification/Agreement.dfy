/** Agents agree with their panes: exactly which events keep that, and every run of events that do. */
module Agreement {
  import opened Records
  import opened AssocList
  import opened Moves
  import M = Mirror

  ghost predicate Agrees(agents: map<string, Agent>, panes: map<string, Pane>) {
    forall k :: k in agents ==> k in panes && Repeats(agents[k], panes[k])
  }

  /** Every agent has a pane and repeats it in the fields the two share. */
  ghost predicate Agreed(m: M.State) {
    Agrees(Lookup(m.agents), Lookup(m.panes))
  }

  /** What a move must find for agreement to survive it. The move reads no agent at the destination, so one that is
      already there is refreshed only when an agent comes along, and otherwise has to agree with the carried pane
      or lie in a container the move closes. */
  ghost predicate MoveAgrees(m: M.State, e: Event)
    requires e.PaneMoved?
  {
    var agents := Lookup(m.agents);
    || e.previousPane in agents
    || e.pane.id !in agents
    || Repeats(agents[e.pane.id], e.pane)
    || Names(e.closedTab, agents[e.pane.id].tab)
    || Names(e.closedWorkspace, agents[e.pane.id].workspace)
  }

  lemma {:induction false} SetPaneAgreed(m: M.State, pane: Pane)
    requires M.WellFormed(m) && Agreed(m)
    ensures Agreed(M.SetPane(m, pane))
  {
    hide Lookup, Put;
    PutLookup(m.panes, pane.id, pane);
    if pane.id in Lookup(m.agents) {
      PutLookup(m.agents, pane.id, MergeAgent(Lookup(m.agents)[pane.id], pane));
    }
  }

  lemma {:induction false} ClosePaneAgreed(m: M.State, id: string)
    requires M.WellFormed(m) && Agreed(m)
    ensures Agreed(M.ClosePane(m, id))
  {
    RemoveLookup(m.panes, id);
    RemoveLookup(m.agents, id);
  }

  /** A container drops a pane and its agent together, because agreement puts both in it. */
  lemma {:induction false} DropAgreed(m: M.State, ofPane: Pane -> bool, ofAgent: Agent -> bool)
    requires M.WellFormed(m) && Agreed(m)
    requires forall k :: k in Lookup(m.agents) && k in Lookup(m.panes) ==>
               (ofPane(Lookup(m.panes)[k]) <==> ofAgent(Lookup(m.agents)[k]))
    ensures Agrees(Lookup(RemoveWhere(m.agents, ofAgent)), Lookup(RemoveWhere(m.panes, ofPane)))
  {
    hide Lookup, Filter;
    GoneLookup(m.panes, ofPane);
    GoneIds(m.panes, ofPane);
    GoneLookup(m.agents, ofAgent);
    GoneIds(m.agents, ofAgent);
  }

  lemma {:induction false} CloseTabAgreed(m: M.State, id: string)
    requires M.WellFormed(m) && Agreed(m)
    ensures Agreed(M.CloseTab(m, id))
  {
    DropAgreed(m, M.InTab(id), M.AgentInTab(id));
  }

  lemma {:induction false} CloseWorkspaceAgreed(m: M.State, id: string)
    requires M.WellFormed(m) && Agreed(m)
    ensures Agreed(M.CloseWorkspace(m, id))
  {
    DropAgreed(m, M.PaneOf(id), M.AgentOf(id));
  }

  lemma {:induction false} FocusPaneAgreed(m: M.State, id: string)
    requires M.WellFormed(m) && Agreed(m)
    ensures Agreed(M.FocusPane(m, id))
  {
    UpdateLookup(m.panes, M.FocusedPane(id));
    UpdateLookup(m.agents, M.FocusedAgent(id));
  }

  lemma {:induction false} AgentDetectedAgreed(m: M.State, e: Event)
    requires M.WellFormed(m) && Agreed(m) && e.PaneAgentDetected?
    ensures Agreed(M.ApplyToPane(m, e))
  {
    hide Lookup, Put, Remove;
    RemoveLookup(m.agents, e.paneId);
    if e.paneId in Lookup(m.panes) {
      var pane := M.DetectedPane(Lookup(m.panes)[e.paneId], e.agent, e.finalStatus, e.released);
      PutLookup(m.panes, e.paneId, pane);
      PutLookup(m.agents, e.paneId,
        MergeAgent(if e.paneId in Lookup(m.agents) then Lookup(m.agents)[e.paneId] else ZERO_AGENT, pane));
    }
  }

  lemma {:induction false} AgentStatusAgreed(m: M.State, e: Event)
    requires M.WellFormed(m) && Agreed(m) && e.PaneAgentStatusChanged?
    ensures Agreed(M.ApplyToPane(m, e))
  {
    hide Lookup, Put;
    var id := e.paneId;
    if id in Lookup(m.panes) {
      var pane := M.StatusPane(Lookup(m.panes)[id], e.agentStatus, e.agent, e.displayAgent, e.title, e.stateLabels);
      PutLookup(m.panes, id, pane);
      if id in Lookup(m.agents) { PutLookup(m.agents, id, MergeAgent(Lookup(m.agents)[id], pane)); }
    }
  }

  /** A move keeps agreement exactly when it meets its condition. */
  lemma {:induction false} MoveAgreed(m: M.State, e: Event)
    requires M.WellFormed(m) && Agreed(m) && e.PaneMoved?
    ensures Agreed(M.Apply(m, e)) <==> MoveAgrees(m, e)
  {
    hide Lookup, Put, Remove, Filter, M.Apply;
    MovePaneIs(m, e);
    var panes, agents := Lookup(m.panes), Lookup(m.agents);
    var r := Rekeyed(m, e);
    RemoveLookup(m.panes, e.previousPane);
    RemoveLookup(m.agents, e.previousPane);
    PutLookup(Remove(m.panes, e.previousPane), e.pane.id, e.pane);
    if e.previousPane in agents {
      PutLookup(Remove(m.agents, e.previousPane), e.pane.id, MergeAgent(agents[e.previousPane], e.pane));
    }
    FilterLookup(r.panes, KeepsPane(e));
    FilterLookup(r.agents, KeepsAgent(e));
    var after := M.Apply(m, e);
    assert Lookup(r.panes) == (panes - {e.previousPane})[e.pane.id := e.pane];
    if MoveAgrees(m, e) {
      forall k | k in Lookup(after.agents)
        ensures k in Lookup(after.panes) && Repeats(Lookup(after.agents)[k], Lookup(after.panes)[k])
      {
        assert k in Lookup(r.agents) && KeepsAgent(e)((k, Lookup(r.agents)[k]));
        assert k in Lookup(r.panes) && Repeats(Lookup(r.agents)[k], Lookup(r.panes)[k]);
        assert KeepsPane(e)((k, Lookup(r.panes)[k]));
      }
    } else {
      var k := e.pane.id;
      assert k in Lookup(r.agents) && Lookup(r.agents)[k] == agents[k] by {
        if k == e.previousPane { assert false; }
      }
      assert KeepsAgent(e)((k, Lookup(r.agents)[k]));
      assert k in Lookup(after.agents);
    }
  }

  lemma {:induction false} RevisionAgreed(m: M.State, e: Event)
    requires M.WellFormed(m) && Agreed(m) && (e.PaneOutputChanged? || e.PaneScrollChanged?)
    ensures Agreed(M.ApplyToPane(m, e))
  {
    hide Lookup, Put;
    if e.paneId in Lookup(m.panes) {
      var pane := Lookup(m.panes)[e.paneId];
      SetPaneAgreed(m, if e.PaneOutputChanged? then pane.(revision := e.revision)
                    else pane.(scroll := Present(e.scroll)));
    }
  }

  /** Exactly which events keep agreement: all but the moves that leave a stale agent at the destination. */
  lemma {:induction false} ApplyAgreed(m: M.State, e: Event)
    requires M.WellFormed(m) && Agreed(m)
    ensures Agreed(M.Apply(m, e)) <==> (e.PaneMoved? ==> MoveAgrees(m, e))
  {
    hide Put, Update, Reset, Lookup, MoveAgrees, Agrees;
    hide M.CloseTab, M.CloseWorkspace, M.SetPane, M.ClosePane, M.MovePane, M.FocusPane, M.AgentDetected, M.AgentStatus;
    hide M.ReorderTabs, M.WellFormed;
    match e
    case WorkspaceClosed(id) => CloseWorkspaceAgreed(m, id);
    case TabClosed(id) => CloseTabAgreed(m, id);
    case PaneReported(_, p) => SetPaneAgreed(m, p);
    case PaneMoved(_, _, _, _, _, _) => MoveAgreed(m, e);
    case PaneFocused(id) => FocusPaneAgreed(m, id);
    case PaneClosed(id) => ClosePaneAgreed(m, id);
    case PaneOutputChanged(_, _) => RevisionAgreed(m, e);
    case PaneScrollChanged(_, _) => RevisionAgreed(m, e);
    case PaneAgentDetected(_, _, _, _) => AgentDetectedAgreed(m, e);
    case PaneAgentStatusChanged(_, _, _, _, _, _) => AgentStatusAgreed(m, e);
    case _ => UntouchedAgreed(m, e);
  }

  predicate LeavesPanes(e: Event) {
    || e.WorkspaceReported? || e.WorkspaceRenamed? || e.WorkspacesListed? || e.WorkspaceFocused? || e.WorktreeRemoved?
    || e.TabCreated? || e.TabRenamed? || e.TabMoved? || e.TabFocused? || e.LayoutUpdated? || e.Unmirrored?
  }

  lemma {:induction false} UntouchedAgreed(m: M.State, e: Event)
    requires LeavesPanes(e)
    ensures M.Apply(m, e).panes == m.panes && M.Apply(m, e).agents == m.agents
  {
  }

  /** Every move of a run meets its condition where it happens. */
  ghost predicate MovesAgree(m: M.State, events: seq<Event>) {
    events == [] ||
    var before := events[..|events| - 1];
    var last := events[|events| - 1];
    MovesAgree(m, before) && (last.PaneMoved? ==> MoveAgrees(M.Fold(m, before), last))
  }

  /** Agreement over whole runs. */
  lemma {:induction false} FoldAgreed(m: M.State, events: seq<Event>)
    requires M.WellFormed(m) && Agreed(m) && MovesAgree(m, events)
    ensures Agreed(M.Fold(m, events))
  {
    hide M.WellFormed, Agreed, MoveAgrees, M.Apply;
    if events != [] {
      var before := events[..|events| - 1];
      FoldAgreed(m, before);
      M.FoldWellFormed(m, before);
      ApplyAgreed(M.Fold(m, before), events[|events| - 1]);
    }
  }
}
