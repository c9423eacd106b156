/** The mirrored state updated in place: five ordered collections that one event at a time changes.
    Each method is proved to do what the reducer of Mirror does to the value the collections stand for. */
module SessionCaches {
  import opened Records
  import opened Wrappers
  import opened OrderedIndex
  import M = Mirror
  import A = AssocList

  class SessionCache {
    const workspaces: OrderedCollection<Workspace>
    const tabs: OrderedCollection<Tab>
    const panes: OrderedCollection<Pane>
    const agents: OrderedCollection<Agent>
    const layouts: OrderedCollection<Layout>
    const version: string
    const protocol: nat

    /** The five collections are five objects. */
    ghost predicate Separate() {
      var w: object, t: object, p: object, a: object, l: object := workspaces, tabs, panes, agents, layouts;
      w != t && w != p && w != a && w != l && t != p && t != a && t != l && p != a && p != l && a != l
    }

    ghost predicate Valid()
      reads workspaces, tabs, panes, agents, layouts
    {
      && Separate()
      && workspaces.Valid() && tabs.Valid() && panes.Valid() && agents.Valid() && layouts.Valid()
      && M.WellFormed(State())
    }

    ghost function State(): M.State
      requires workspaces.Valid() && tabs.Valid() && panes.Valid() && agents.Valid() && layouts.Valid()
      reads workspaces, tabs, panes, agents, layouts
    {
      M.State(workspaces.Contents(), tabs.Contents(), panes.Contents(), agents.Contents(), layouts.Contents(),
              version, protocol)
    }

    constructor (snapshot: Snapshot)
      ensures Valid() && State() == M.FromSnapshot(snapshot)
      ensures fresh(workspaces) && fresh(tabs) && fresh(panes) && fresh(agents) && fresh(layouts)
    {
      hide A.Reset, M.Keyed, OrderedCollection.Contents, OrderedCollection.Valid;
      workspaces := new OrderedCollection();
      tabs := new OrderedCollection();
      panes := new OrderedCollection();
      agents := new OrderedCollection();
      layouts := new OrderedCollection();
      version, protocol := snapshot.version, snapshot.protocol;
      new;
      assert Separate();
      workspaces.Reset(snapshot.workspaces, WorkspaceKey);
      tabs.Reset(snapshot.tabs, TabKey);
      panes.Reset(snapshot.panes, PaneKey);
      agents.Reset(snapshot.agents, AgentKey);
      layouts.Reset(snapshot.layouts, LayoutKey);
      assert State() == M.FromSnapshot(snapshot);
      M.FromSnapshotWellFormed(snapshot);
    }

    /** Folds one event into the mirror. */
    method Apply(e: Event)
      requires Valid()
      modifies workspaces, tabs, panes, agents, layouts
      ensures Valid() && State() == M.Apply(old(State()), e)
    {
      hide SessionCache.State, SessionCache.Valid;
      hide A.Put, A.Update, A.Reset, A.Lookup;
      hide M.SetWorkspace, M.CloseTab, M.CloseWorkspace, M.ReorderTabs, M.ApplyToPane;
      match e {
        case WorkspaceReported(_, w) => SetWorkspace(w);
        case WorkspaceRenamed(id, name) => RenameWorkspace(id, name);
        case WorkspacesListed(_, ws) => ResetWorkspaces(ws);
        case WorkspaceFocused(id) => FocusWorkspace(id);
        case WorkspaceClosed(id) => CloseWorkspace(id);
        case WorktreeRemoved(w) => if w.Present? { SetWorkspace(w.value); }
        case TabCreated(t) => SetTab(t);
        case TabRenamed(id, name) => RenameTab(id, name);
        case TabMoved(w, ts) => ReorderTabs(w, ts);
        case TabFocused(id) => FocusTab(id);
        case TabClosed(id) => CloseTab(id);
        case LayoutUpdated(l) => SetLayout(l);
        case Unmirrored(_) =>
        case _ => ApplyToPane(e);
      }
    }

    /** The cases of the switch whose subject is a pane. */
    predicate AboutPane(e: Event) {
      || e.PaneReported? || e.PaneMoved? || e.PaneFocused? || e.PaneClosed?
      || e.PaneOutputChanged? || e.PaneScrollChanged? || e.PaneAgentDetected? || e.PaneAgentStatusChanged?
    }

    method ApplyToPane(e: Event)
      requires Valid() && AboutPane(e)
      modifies workspaces, tabs, panes, agents, layouts
      ensures Valid() && State() == M.ApplyToPane(old(State()), e)
    {
      hide SessionCache.State, SessionCache.Valid;
      hide A.Put, A.Lookup, M.SetPane, M.ClosePane, M.MovePane, M.FocusPane, M.AgentDetected, M.AgentStatus;
      match e {
        case PaneReported(_, p) => SetPane(p);
        case PaneMoved(previous, pane, createdWorkspace, createdTab, closedTab, closedWorkspace) =>
          MovePane(previous, pane, createdWorkspace, createdTab, closedTab, closedWorkspace);
        case PaneFocused(id) => FocusPane(id);
        case PaneClosed(id) => ClosePane(id);
        case PaneOutputChanged(id, revision) => ReviseOutput(id, revision);
        case PaneScrollChanged(id, scroll) => ReviseScroll(id, scroll);
        case PaneAgentDetected(id, agent, finalStatus, released) => AgentDetected(id, agent, finalStatus, released);
        case PaneAgentStatusChanged(id, agentStatus, agent, displayAgent, title, stateLabels) =>
          AgentStatus(id, agentStatus, agent, displayAgent, title, stateLabels);
      }
    }

    method SetWorkspace(w: Workspace)
      requires Valid()
      modifies workspaces
      ensures Valid() && State() == M.Apply(old(State()), WorkspaceReported(Created, w))
    {
      hide A.Put, A.Remove, A.RemoveWhere, A.Update, A.Reset, A.Lookup, A.InsertAt, A.FirstWhere, M.Keyed;
      hide OrderedCollection.Contents, OrderedCollection.Valid;
      M.ApplyWellFormed(State(), WorkspaceReported(Created, w));
      workspaces.Set(w.id, w);
    }

    method RenameWorkspace(id: string, name: string)
      requires Valid()
      modifies workspaces
      ensures Valid() && State() == M.Apply(old(State()), WorkspaceRenamed(id, name))
    {
      hide A.Put, A.Remove, A.RemoveWhere, A.Update, A.Reset, A.Lookup, A.InsertAt, A.FirstWhere, M.Keyed;
      hide OrderedCollection.Contents, OrderedCollection.Valid;
      M.ApplyWellFormed(State(), WorkspaceRenamed(id, name));
      var workspace := workspaces.Get(id);
      if workspace.Some? {
        workspaces.Set(id, workspace.value.(name := name));
      }
    }

    method ResetWorkspaces(ws: seq<Workspace>)
      requires Valid()
      modifies workspaces
      ensures Valid() && State() == M.Apply(old(State()), WorkspacesListed(Moved, ws))
    {
      hide A.Put, A.Remove, A.RemoveWhere, A.Update, A.Reset, A.Lookup, A.InsertAt, A.FirstWhere, M.Keyed;
      hide OrderedCollection.Contents, OrderedCollection.Valid;
      M.ApplyWellFormed(State(), WorkspacesListed(Moved, ws));
      workspaces.Reset(ws, WorkspaceKey);
    }

    method FocusWorkspace(id: string)
      requires Valid()
      modifies workspaces
      ensures Valid() && State() == M.Apply(old(State()), WorkspaceFocused(id))
    {
      hide A.Put, A.Remove, A.RemoveWhere, A.Update, A.Reset, A.Lookup, A.InsertAt, A.FirstWhere, M.Keyed;
      hide OrderedCollection.Contents, OrderedCollection.Valid;
      M.ApplyWellFormed(State(), WorkspaceFocused(id));
      workspaces.Update(M.FocusedWorkspace(id));
    }

    method SetTab(t: Tab)
      requires Valid()
      modifies tabs
      ensures Valid() && State() == M.Apply(old(State()), TabCreated(t))
    {
      hide A.Put, A.Remove, A.RemoveWhere, A.Update, A.Reset, A.Lookup, A.InsertAt, A.FirstWhere, M.Keyed;
      hide OrderedCollection.Contents, OrderedCollection.Valid;
      M.ApplyWellFormed(State(), TabCreated(t));
      tabs.Set(t.id, t);
    }

    method RenameTab(id: string, name: string)
      requires Valid()
      modifies tabs
      ensures Valid() && State() == M.Apply(old(State()), TabRenamed(id, name))
    {
      hide A.Put, A.Remove, A.RemoveWhere, A.Update, A.Reset, A.Lookup, A.InsertAt, A.FirstWhere, M.Keyed;
      hide OrderedCollection.Contents, OrderedCollection.Valid;
      M.ApplyWellFormed(State(), TabRenamed(id, name));
      var tab := tabs.Get(id);
      if tab.Some? {
        tabs.Set(id, tab.value.(name := name));
      }
    }

    method FocusTab(id: string)
      requires Valid()
      modifies tabs
      ensures Valid() && State() == M.Apply(old(State()), TabFocused(id))
    {
      hide A.Put, A.Remove, A.RemoveWhere, A.Update, A.Reset, A.Lookup, A.InsertAt, A.FirstWhere, M.Keyed;
      hide OrderedCollection.Contents, OrderedCollection.Valid;
      M.ApplyWellFormed(State(), TabFocused(id));
      tabs.Update(M.FocusedTab(id));
    }

    method SetLayout(l: Layout)
      requires Valid()
      modifies layouts
      ensures Valid() && State() == M.Apply(old(State()), LayoutUpdated(l))
    {
      hide A.Put, A.Remove, A.RemoveWhere, A.Update, A.Reset, A.Lookup, A.InsertAt, A.FirstWhere, M.Keyed;
      hide OrderedCollection.Contents, OrderedCollection.Valid;
      M.ApplyWellFormed(State(), LayoutUpdated(l));
      layouts.Set(l.tab, l);
    }

    method ReviseOutput(id: string, revision: nat)
      requires Valid()
      modifies panes, agents
      ensures Valid() && State() == M.ApplyToPane(old(State()), PaneOutputChanged(id, revision))
    {
      hide A.Put, A.Remove, A.RemoveWhere, A.Update, A.Reset, A.Lookup, A.InsertAt, A.FirstWhere, M.Keyed;
      hide OrderedCollection.Contents, OrderedCollection.Valid;
      M.ApplyToPaneWellFormed(State(), PaneOutputChanged(id, revision));
      var pane := panes.Get(id);
      if pane.Some? {
        SetPane(pane.value.(revision := revision));
      }
    }

    method ReviseScroll(id: string, scroll: string)
      requires Valid()
      modifies panes, agents
      ensures Valid() && State() == M.ApplyToPane(old(State()), PaneScrollChanged(id, scroll))
    {
      hide A.Put, A.Remove, A.RemoveWhere, A.Update, A.Reset, A.Lookup, A.InsertAt, A.FirstWhere, M.Keyed;
      hide OrderedCollection.Contents, OrderedCollection.Valid;
      M.ApplyToPaneWellFormed(State(), PaneScrollChanged(id, scroll));
      var pane := panes.Get(id);
      if pane.Some? {
        SetPane(pane.value.(scroll := Present(scroll)));
      }
    }

    method SetPane(pane: Pane)
      requires Valid()
      modifies panes, agents
      ensures Valid() && State() == M.SetPane(old(State()), pane)
    {
      hide A.Put, A.Remove, A.RemoveWhere, A.Update, A.Reset, A.Lookup, A.InsertAt, A.FirstWhere, M.Keyed;
      hide OrderedCollection.Contents, OrderedCollection.Valid;
      ghost var was := State();
      panes.Set(pane.id, pane);
      var agent := agents.Get(pane.id);
      if agent.Some? {
        agents.Set(pane.id, MergeAgent(agent.value, pane));
      }
      M.SetPaneWellFormed(was, pane);
    }

    method ClosePane(id: string)
      requires Valid()
      modifies panes, agents
      ensures Valid() && State() == M.ClosePane(old(State()), id)
    {
      hide A.Put, A.Remove, A.RemoveWhere, A.Update, A.Reset, A.Lookup, A.InsertAt, A.FirstWhere, M.Keyed;
      hide OrderedCollection.Contents, OrderedCollection.Valid;
      ghost var was := State();
      panes.Delete(id);
      agents.Delete(id);
      M.ClosePaneWellFormed(was, id);
    }

    method CloseTab(id: string)
      requires Valid()
      modifies tabs, panes, agents, layouts
      ensures Valid() && State() == M.CloseTab(old(State()), id)
    {
      hide A.Put, A.Remove, A.RemoveWhere, A.Update, A.Reset, A.Lookup, A.InsertAt, A.FirstWhere, M.Keyed;
      hide OrderedCollection.Contents, OrderedCollection.Valid;
      ghost var was := State();
      tabs.Delete(id);
      layouts.Delete(id);
      var _ := panes.DeleteWhere(M.InTab(id));
      var _ := agents.DeleteWhere(M.AgentInTab(id));
      M.CloseTabWellFormed(was, id);
    }

    method CloseWorkspace(id: string)
      requires Valid()
      modifies workspaces, tabs, panes, agents, layouts
      ensures Valid() && State() == M.CloseWorkspace(old(State()), id)
    {
      hide A.Put, A.Remove, A.RemoveWhere, A.Update, A.Reset, A.Lookup, A.InsertAt, A.FirstWhere, M.Keyed;
      hide OrderedCollection.Contents, OrderedCollection.Valid;
      ghost var was := State();
      workspaces.Delete(id);
      var _ := tabs.DeleteWhere(M.TabOf(id));
      var _ := panes.DeleteWhere(M.PaneOf(id));
      var _ := agents.DeleteWhere(M.AgentOf(id));
      var _ := layouts.DeleteWhere(M.LayoutOf(id));
      M.CloseWorkspaceWellFormed(was, id);
    }

    method ReorderTabs(workspace: string, listed: seq<Tab>)
      requires Valid()
      modifies tabs
      ensures Valid() && State() == old(State()).(tabs := M.ReorderTabs(old(State()).tabs, workspace, listed))
    {
      hide A.Put, A.Remove, A.RemoveWhere, A.Update, A.Reset, A.Lookup, A.InsertAt, A.FirstWhere, M.Keyed;
      hide OrderedCollection.Contents, OrderedCollection.Valid;
      ghost var was := State();
      var at := tabs.DeleteWhere(M.TabOf(workspace));
      tabs.InsertAt(at, listed, TabKey);
      M.ReorderKeyed(was.tabs, workspace, listed);
    }

    method MovePane(previous: string, pane: Pane, createdWorkspace: Optional<Workspace>, createdTab: Optional<Tab>,
                    closedTab: Optional<string>, closedWorkspace: Optional<string>)
      requires Valid()
      modifies workspaces, tabs, panes, agents, layouts
      ensures Valid()
      ensures State() == M.MovePane(old(State()), previous, pane, createdWorkspace, createdTab, closedTab,
                                    closedWorkspace)
    {
      hide A.Put, A.Remove, A.RemoveWhere, A.Update, A.Reset, A.Lookup, A.InsertAt, A.FirstWhere, M.Keyed;
      hide OrderedCollection.Contents, OrderedCollection.Valid;
      ghost var was := State();
      if createdWorkspace.Present? {
        workspaces.Set(createdWorkspace.value.id, createdWorkspace.value);
      }
      if createdTab.Present? {
        tabs.Set(createdTab.value.id, createdTab.value);
      }
      M.ContainersWellFormed(was, createdWorkspace, createdTab);
      Rekey(previous, pane);
      if closedTab.Present? {
        CloseTab(closedTab.value);
      }
      if closedWorkspace.Present? {
        CloseWorkspace(closedWorkspace.value);
      }
    }

    method Rekey(previous: string, pane: Pane)
      requires Valid()
      modifies panes, agents
      ensures Valid() && State() == M.Rekey(old(State()), previous, pane)
    {
      hide A.Put, A.Remove, A.RemoveWhere, A.Update, A.Reset, A.Lookup, A.InsertAt, A.FirstWhere, M.Keyed;
      hide OrderedCollection.Contents, OrderedCollection.Valid;
      ghost var was := State();
      var agent := agents.Get(previous);
      ClosePane(previous);
      panes.Set(pane.id, pane);
      if agent.Some? {
        agents.Set(pane.id, MergeAgent(agent.value, pane));
      }
      M.RekeyWellFormed(was, previous, pane);
    }

    method AgentDetected(id: string, agent: Optional<string>, finalStatus: Optional<string>, released: Optional<bool>)
      requires Valid()
      modifies panes, agents
      ensures Valid() && State() == M.AgentDetected(old(State()), id, agent, finalStatus, released)
    {
      hide A.Put, A.Remove, A.RemoveWhere, A.Update, A.Reset, A.Lookup, A.InsertAt, A.FirstWhere, M.Keyed;
      hide OrderedCollection.Contents, OrderedCollection.Valid;
      ghost var was := State();
      M.AgentDetectedWellFormed(was, id, agent, finalStatus, released);
      var found := panes.Get(id);
      var pane := found;
      if found.Some? {
        pane := Some(M.DetectedPane(found.value, agent, finalStatus, released));
        panes.Set(id, pane.value);
      }
      if M.Released(released) {
        agents.Delete(id);
        return;
      }
      if found.None? {
        return;
      }
      var held := agents.Get(id);
      agents.Set(id, MergeAgent(if held.Some? then held.value else ZERO_AGENT, pane.value));
    }

    method AgentStatus(id: string, agentStatus: string, agent: Optional<string>, displayAgent: Optional<string>,
                       title: Optional<string>, stateLabels: Optional<Labels>)
      requires Valid()
      modifies panes, agents
      ensures Valid()
      ensures State() == M.AgentStatus(old(State()), id, agentStatus, agent, displayAgent, title, stateLabels)
    {
      hide A.Put, A.Remove, A.RemoveWhere, A.Update, A.Reset, A.Lookup, A.InsertAt, A.FirstWhere, M.Keyed;
      hide OrderedCollection.Contents, OrderedCollection.Valid;
      ghost var was := State();
      M.AgentStatusWellFormed(was, id, agentStatus, agent, displayAgent, title, stateLabels);
      var found := panes.Get(id);
      var pane := found;
      if found.Some? {
        pane := Some(M.StatusPane(found.value, agentStatus, agent, displayAgent, title, stateLabels));
        panes.Set(id, pane.value);
      }
      var held := agents.Get(id);
      if held.None? {
        return;
      }
      if found.Some? {
        agents.Set(id, MergeAgent(held.value, pane.value));
        return;
      }
      agents.Set(id, held.value.(agentStatus := agentStatus));
    }

    method FocusPane(id: string)
      requires Valid()
      modifies panes, agents, layouts
      ensures Valid() && State() == M.FocusPane(old(State()), id)
    {
      hide A.Put, A.Remove, A.RemoveWhere, A.Update, A.Reset, A.Lookup, A.InsertAt, A.FirstWhere, M.Keyed;
      hide OrderedCollection.Contents, OrderedCollection.Valid;
      ghost var was := State();
      M.FocusPaneWellFormed(was, id);
      panes.Update(M.FocusedPane(id));
      agents.Update(M.FocusedAgent(id));
      var pane := panes.Get(id);
      if pane.None? {
        return;
      }
      var layout := layouts.Get(pane.value.tab);
      if layout.None? {
        return;
      }
      layouts.Set(pane.value.tab, layout.value.(focusedPane := id));
    }

    /** The whole mirror as one snapshot, with the focused ids read back from the flags. */
    method Snapshot() returns (s: Records.Snapshot)
      requires Valid()
      ensures s == M.ToSnapshot(State())
    {
      hide A.Lookup, A.FirstWhere, OrderedCollection.Contents, OrderedCollection.Valid;
      var ws := workspaces.Values();
      var ts := tabs.Values();
      var ps := panes.Values();
      var ags := agents.Values();
      var ls := layouts.Values();
      var w := FocusedId(ws, M.WorkspaceFocus, WorkspaceKey, workspaces.Contents());
      var t := FocusedId(ts, M.TabFocus, TabKey, tabs.Contents());
      var p := FocusedId(ps, M.PaneFocus, PaneKey, panes.Contents());
      s := Records.Snapshot(ws, ts, ps, ags, ls, w, t, p, version, protocol);
    }

    static method FocusedId<T>(values: seq<T>, focused: T -> bool, key: T -> string, ghost s: seq<A.Entry<T>>)
      returns (id: Optional<string>)
      requires M.Keyed(s, key) && values == A.Values(s)
      ensures id == M.FocusedId(s, focused)
    {
      A.FirstWhereIs(s, focused);
      for i := 0 to |values|
        invariant forall j :: 0 <= j < i ==> !focused(s[j].1)
      {
        if focused(values[i]) {
          A.LookupAt(s, i);
          return Present(key(values[i]));
        }
      }
      return Absent;
    }
  }
}
