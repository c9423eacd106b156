/** What each event leaves of the agent under one pane id, field by field, told from the panes and agents before it. */
module AgentActions {
  import opened Records
  import opened AssocList
  import opened Wrappers
  import opened Moves
  import M = Mirror

  type Panes = map<string, Pane>
  type Agents = map<string, Agent>

  ghost function At<T>(entries: map<string, T>, k: string): Option<T> {
    if k in entries then Some(entries[k]) else None
  }

  /** The agent repeats the pane and keeps these fields of its own. */
  predicate Is(after: Option<Agent>, pane: Pane, own: AgentOwn) {
    after.Some? && Repeats(after.value, pane) && after.value.own == own
  }

  /** The own fields of an agent detected for the first time: only a snapshot reports any. */
  const NOTHING_REPORTED := AgentOwn(Absent, Absent, Absent, Absent, Absent, Absent)

  /** The pane as the mirror has it after a report about its agent. */
  function Renamed(pane: Pane, agent: Optional<string>, finalStatus: Optional<string>): Pane {
    pane.(agent := agent, agentStatus := if finalStatus.Present? then finalStatus.value else pane.agentStatus)
  }

  predicate Relabelled(was: Pane, now: Pane, e: Event)
    requires e.PaneAgentStatusChanged?
  {
    && now.agentStatus == e.agentStatus
    && now.agent == (if e.agent.Present? then e.agent else was.agent)
    && now.displayAgent == (if e.displayAgent.Present? then e.displayAgent else was.displayAgent)
    && now.title == (if e.title.Present? then e.title else was.title)
    && now.stateLabels == (if e.stateLabels.Present? then e.stateLabels else was.stateLabels)
    && was == now.(agentStatus := was.agentStatus, agent := was.agent, displayAgent := was.displayAgent,
                   title := was.title, stateLabels := was.stateLabels)
  }

  predicate Closes(e: Event, tab: string, workspace: string)
    requires e.PaneMoved?
  {
    e.closedTab == Present(tab) || e.closedWorkspace == Present(workspace)
  }

  /** A moved pane takes its agent along to the new id, out of the containers that close. */
  ghost predicate Moved(agents: Agents, e: Event, k: string, after: Option<Agent>)
    requires e.PaneMoved?
  {
    if k == e.pane.id && e.previousPane in agents then
      if Closes(e, e.pane.tab, e.pane.workspace) then after.None? else Is(after, e.pane, agents[e.previousPane].own)
    else if k == e.previousPane || k !in agents then after.None?
    else if Closes(e, agents[k].tab, agents[k].workspace) then after.None?
    else after == Some(agents[k])
  }

  /** The event leaves this of the agent under k. */
  ghost predicate Leaves(panes: Panes, agents: Agents, e: Event, k: string, after: Option<Agent>) {
    match e
    case WorkspaceClosed(id) =>
      if k in agents && agents[k].workspace == id then after.None? else after == At(agents, k)
    case TabClosed(id) => if k in agents && agents[k].tab == id then after.None? else after == At(agents, k)
    case PaneReported(_, pane) =>
      if k == pane.id && k in agents then Is(after, pane, agents[k].own) else after == At(agents, k)
    case PaneMoved(_, _, _, _, _, _) => Moved(agents, e, k, after)
    case PaneFocused(id) =>
      if k in agents then after == Some(agents[k].(focused := k == id)) else after.None?
    case PaneClosed(id) => if k == id then after.None? else after == At(agents, k)
    case PaneOutputChanged(id, revision) =>
      if k == id && k in panes && k in agents then Is(after, panes[k].(revision := revision), agents[k].own)
      else after == At(agents, k)
    case PaneScrollChanged(id, _) =>
      if k == id && k in panes && k in agents then Is(after, panes[k], agents[k].own) else after == At(agents, k)
    case PaneAgentDetected(id, agent, finalStatus, released) =>
      if k != id then after == At(agents, k)
      else if released == Present(true) then after.None?
      else if k !in panes then after == At(agents, k)
      else Is(after, Renamed(panes[k], agent, finalStatus), if k in agents then agents[k].own else NOTHING_REPORTED)
    case PaneAgentStatusChanged(id, status, _, _, _, _) =>
      if k != id || k !in agents then after == At(agents, k)
      else if k !in panes then after == Some(agents[k].(agentStatus := status))
      else exists pane :: Relabelled(panes[k], pane, e) && Is(after, pane, agents[k].own)
    case _ => after == At(agents, k)
  }

  lemma {:induction false} MergeIs(agent: Agent, pane: Pane)
    ensures Is(Some(MergeAgent(agent, pane)), pane, agent.own)
    ensures Repeats(agent, pane) ==> MergeAgent(agent, pane) == agent
  {
  }

  lemma {:induction false} SetPaneLeaves(m: M.State, pane: Pane, k: string)
    requires M.WellFormed(m)
    ensures var after := At(Lookup(M.SetPane(m, pane).agents), k);
            if k == pane.id && k in Lookup(m.agents) then Is(after, pane, Lookup(m.agents)[k].own)
            else after == At(Lookup(m.agents), k)
  {
    hide Put, Lookup, MergeAgent;
    if pane.id in Lookup(m.agents) {
      var agent := Lookup(m.agents)[pane.id];
      PutLookup(m.agents, pane.id, MergeAgent(agent, pane));
      MergeIs(agent, pane);
    }
  }

  /** The agent under k once the pane is rekeyed, before anything closes. */
  ghost predicate Rekeys(agents: Agents, e: Event, k: string, after: Option<Agent>)
    requires e.PaneMoved?
  {
    if k == e.pane.id && e.previousPane in agents then Is(after, e.pane, agents[e.previousPane].own)
    else if k == e.previousPane then after.None?
    else after == At(agents, k)
  }

  lemma {:induction false} RekeyLeaves(m: M.State, e: Event, k: string)
    requires M.WellFormed(m) && e.PaneMoved?
    ensures Distinct(Rekeyed(m, e).agents) && Rekeys(Lookup(m.agents), e, k, At(Lookup(Rekeyed(m, e).agents), k))
  {
    hide Lookup, Put, Remove, MergeAgent;
    RemoveLookup(m.agents, e.previousPane);
    if e.previousPane in Lookup(m.agents) {
      var agent := Lookup(m.agents)[e.previousPane];
      PutLookup(Remove(m.agents, e.previousPane), e.pane.id, MergeAgent(agent, e.pane));
      MergeIs(agent, e.pane);
    }
  }

  lemma {:induction false} MoveLeaves(m: M.State, e: Event, k: string)
    requires M.WellFormed(m) && e.PaneMoved?
    ensures Moved(Lookup(m.agents), e, k, At(Lookup(M.Apply(m, e).agents), k))
  {
    hide Filter, Lookup, M.Apply, M.WellFormed, Rekeyed;
    MovePaneIs(m, e);
    RekeyLeaves(m, e, k);
    FilterLookup(Rekeyed(m, e).agents, KeepsAgent(e));
  }

  lemma {:induction false} DetectedLeaves(m: M.State, e: Event, k: string)
    requires M.WellFormed(m) && e.PaneAgentDetected?
    ensures Leaves(Lookup(m.panes), Lookup(m.agents), e, k, At(Lookup(M.Apply(m, e).agents), k))
  {
    hide Filter, Lookup, Put, Remove, MergeAgent;
    RemoveLookup(m.agents, e.paneId);
    if e.paneId in Lookup(m.panes) {
      var pane := M.DetectedPane(Lookup(m.panes)[e.paneId], e.agent, e.finalStatus, e.released);
      var was := if e.paneId in Lookup(m.agents) then Lookup(m.agents)[e.paneId] else ZERO_AGENT;
      PutLookup(m.agents, e.paneId, MergeAgent(was, pane));
      MergeIs(was, pane);
    }
  }

  lemma {:induction false} StatusLeaves(m: M.State, e: Event, k: string)
    requires M.WellFormed(m) && e.PaneAgentStatusChanged?
    ensures Leaves(Lookup(m.panes), Lookup(m.agents), e, k, At(Lookup(M.Apply(m, e).agents), k))
  {
    hide Lookup, Put, MergeAgent;
    var id := e.paneId;
    if id in Lookup(m.agents) {
      var was := Lookup(m.agents)[id];
      if id in Lookup(m.panes) {
        var held := Lookup(m.panes)[id];
        var pane := M.StatusPane(held, e.agentStatus, e.agent, e.displayAgent, e.title, e.stateLabels);
        assert Relabelled(held, pane, e);
        PutLookup(m.agents, id, MergeAgent(was, pane));
        MergeIs(was, pane);
      } else {
        PutLookup(m.agents, id, was.(agentStatus := e.agentStatus));
      }
    }
  }

  lemma {:induction false} HeldUnderId(m: M.State, k: string)
    requires M.WellFormed(m) && k in Lookup(m.panes)
    ensures Lookup(m.panes)[k].id == k
  {
  }

  lemma {:induction false} RestLeaves(m: M.State, e: Event, k: string)
    requires M.WellFormed(m) && !e.PaneMoved? && !e.PaneAgentDetected? && !e.PaneAgentStatusChanged?
    ensures Leaves(Lookup(m.panes), Lookup(m.agents), e, k, At(Lookup(M.Apply(m, e).agents), k))
  {
    hide Filter, Lookup, Put, Remove, RemoveWhere, Update, Reset, M.SetPane, M.ReorderTabs, M.WellFormed;
    AgentsDistinct(m);
    match e
    case WorkspaceClosed(id) => Kept(m.agents, M.AgentOf(id));
    case TabClosed(id) => Kept(m.agents, M.AgentInTab(id));
    case PaneReported(_, pane) => SetPaneLeaves(m, pane, k);
    case PaneFocused(id) => UpdateLookup(m.agents, M.FocusedAgent(id));
    case PaneClosed(id) => RemoveLookup(m.agents, id);
    case PaneOutputChanged(id, revision) =>
      if id in Lookup(m.panes) {
        HeldUnderId(m, id);
        SetPaneLeaves(m, Lookup(m.panes)[id].(revision := revision), k);
      }
    case PaneScrollChanged(id, scroll) =>
      if id in Lookup(m.panes) {
        HeldUnderId(m, id);
        SetPaneLeaves(m, Lookup(m.panes)[id].(scroll := Present(scroll)), k);
      }
    case _ =>
  }

  lemma {:induction false} AgentsDistinct(m: M.State)
    requires M.WellFormed(m)
    ensures Distinct(m.agents)
  {
  }

  /** Every event, on every pane id: a reported, moved, changed or detected pane gives its agent each shared field under
      its own name and leaves the agent its own fields, empty for an agent seen for the first time; a status reaches an
      agent without a pane by itself; and an event about other panes changes nothing. */
  lemma {:induction false} EventLeaves(m: M.State, e: Event, k: string)
    requires M.WellFormed(m)
    ensures Leaves(Lookup(m.panes), Lookup(m.agents), e, k, At(Lookup(M.Apply(m, e).agents), k))
  {
    hide Leaves, M.Apply, M.WellFormed, Lookup;
    if e.PaneMoved? {
      MovedLeaves(m, e, k);
    } else if e.PaneAgentDetected? {
      DetectedLeaves(m, e, k);
    } else if e.PaneAgentStatusChanged? {
      StatusLeaves(m, e, k);
    } else {
      RestLeaves(m, e, k);
    }
  }

  lemma {:induction false} MovedLeaves(m: M.State, e: Event, k: string)
    requires M.WellFormed(m) && e.PaneMoved?
    ensures Leaves(Lookup(m.panes), Lookup(m.agents), e, k, At(Lookup(M.Apply(m, e).agents), k))
  {
    hide M.Apply, M.WellFormed, Lookup, Moved;
    MoveLeaves(m, e, k);
  }

  lemma {:induction false} RelabelledOne(was: Pane, now: Pane, other: Pane, e: Event)
    requires e.PaneAgentStatusChanged? && Relabelled(was, now, e) && Relabelled(was, other, e)
    ensures now == other
  {
  }

  /** That says all: it leaves room for one agent only. */
  lemma {:induction false} LeavesOne(panes: Panes, agents: Agents, e: Event, k: string, a: Option<Agent>,
                                     b: Option<Agent>)
    requires Leaves(panes, agents, e, k, a) && Leaves(panes, agents, e, k, b)
    ensures a == b
  {
    if e.PaneAgentStatusChanged? && k == e.paneId && k in agents && k in panes {
      var x :| Relabelled(panes[k], x, e) && Is(a, x, agents[k].own);
      var y :| Relabelled(panes[k], y, e) && Is(b, y, agents[k].own);
      RelabelledOne(panes[k], x, y, e);
    }
  }
}
