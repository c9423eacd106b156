/** The mirrored state as a value, and the reducer that folds events into it. */
module Mirror {
  import opened Records
  import opened AssocList

  datatype State = State(
    workspaces: seq<Entry<Workspace>>,
    tabs: seq<Entry<Tab>>,
    panes: seq<Entry<Pane>>,
    agents: seq<Entry<Agent>>,
    layouts: seq<Entry<Layout>>,
    version: string,
    protocol: nat)

  /** Ids are distinct and every record sits under the id it carries. */
  ghost predicate Keyed<T>(s: seq<Entry<T>>, key: T -> string) {
    Distinct(s) && forall k :: k in Lookup(s) ==> key(Lookup(s)[k]) == k
  }

  ghost predicate WellFormed(m: State) {
    && Keyed(m.workspaces, WorkspaceKey) && Keyed(m.tabs, TabKey) && Keyed(m.panes, PaneKey)
    && Keyed(m.agents, AgentKey) && Keyed(m.layouts, LayoutKey)
  }

  // ---------------------------------------------------------------- the reducer

  ghost function Apply(m: State, e: Event): State {
    match e
    case WorkspaceReported(_, w) => SetWorkspace(m, w)
    case WorkspaceRenamed(id, name) =>
      if id in Lookup(m.workspaces) then
        m.(workspaces := Put(m.workspaces, id, Lookup(m.workspaces)[id].(name := name)))
      else m
    case WorkspacesListed(_, ws) => m.(workspaces := Reset(ws, WorkspaceKey))
    case WorkspaceFocused(id) => m.(workspaces := Update(m.workspaces, FocusedWorkspace(id)))
    case WorkspaceClosed(id) => CloseWorkspace(m, id)
    case WorktreeRemoved(w) => if w.Present? then SetWorkspace(m, w.value) else m
    case TabCreated(t) => m.(tabs := Put(m.tabs, t.id, t))
    case TabRenamed(id, name) =>
      if id in Lookup(m.tabs) then m.(tabs := Put(m.tabs, id, Lookup(m.tabs)[id].(name := name))) else m
    case TabMoved(w, ts) => m.(tabs := ReorderTabs(m.tabs, w, ts))
    case TabFocused(id) => m.(tabs := Update(m.tabs, FocusedTab(id)))
    case TabClosed(id) => CloseTab(m, id)
    case LayoutUpdated(l) => m.(layouts := Put(m.layouts, l.tab, l))
    case Unmirrored(_) => m
    case _ => ApplyToPane(m, e)
  }

  /** The cases of the reducer whose subject is a pane. */
  ghost function ApplyToPane(m: State, e: Event): State {
    match e
    case PaneReported(_, p) => SetPane(m, p)
    case PaneMoved(previous, pane, createdWorkspace, createdTab, closedTab, closedWorkspace) =>
      MovePane(m, previous, pane, createdWorkspace, createdTab, closedTab, closedWorkspace)
    case PaneFocused(id) => FocusPane(m, id)
    case PaneClosed(id) => ClosePane(m, id)
    case PaneOutputChanged(id, revision) =>
      if id in Lookup(m.panes) then SetPane(m, Lookup(m.panes)[id].(revision := revision)) else m
    case PaneScrollChanged(id, scroll) =>
      if id in Lookup(m.panes) then SetPane(m, Lookup(m.panes)[id].(scroll := Present(scroll))) else m
    case PaneAgentDetected(id, agent, finalStatus, released) => AgentDetected(m, id, agent, finalStatus, released)
    case PaneAgentStatusChanged(id, agentStatus, agent, displayAgent, title, stateLabels) =>
      AgentStatus(m, id, agentStatus, agent, displayAgent, title, stateLabels)
    case _ => m
  }

  ghost function SetWorkspace(m: State, w: Workspace): State {
    m.(workspaces := Put(m.workspaces, w.id, w))
  }

  ghost function SetPane(m: State, pane: Pane): State {
    m.(panes := Put(m.panes, pane.id, pane),
       agents := if pane.id in Lookup(m.agents)
                 then Put(m.agents, pane.id, MergeAgent(Lookup(m.agents)[pane.id], pane))
                 else m.agents)
  }

  function ClosePane(m: State, id: string): State {
    m.(panes := Remove(m.panes, id), agents := Remove(m.agents, id))
  }

  function InTab(id: string): Pane -> bool { (p: Pane) => p.tab == id }
  function AgentInTab(id: string): Agent -> bool { (a: Agent) => a.tab == id }
  function TabOf(id: string): Tab -> bool { (t: Tab) => t.workspace == id }
  function PaneOf(id: string): Pane -> bool { (p: Pane) => p.workspace == id }
  function AgentOf(id: string): Agent -> bool { (a: Agent) => a.workspace == id }
  function LayoutOf(id: string): Layout -> bool { (l: Layout) => l.workspace == id }

  function CloseTab(m: State, id: string): State {
    m.(tabs := Remove(m.tabs, id), layouts := Remove(m.layouts, id),
       panes := RemoveWhere(m.panes, InTab(id)), agents := RemoveWhere(m.agents, AgentInTab(id)))
  }

  function CloseWorkspace(m: State, id: string): State {
    m.(workspaces := Remove(m.workspaces, id), tabs := RemoveWhere(m.tabs, TabOf(id)),
       panes := RemoveWhere(m.panes, PaneOf(id)), agents := RemoveWhere(m.agents, AgentOf(id)),
       layouts := RemoveWhere(m.layouts, LayoutOf(id)))
  }

  /** Follows a pane to its destination; its id changes with the move. */
  ghost function MovePane(m: State, previous: string, pane: Pane, createdWorkspace: Optional<Workspace>,
                          createdTab: Optional<Tab>, closedTab: Optional<string>,
                          closedWorkspace: Optional<string>): State
  {
    var m1 := Rekey(Containers(m, createdWorkspace, createdTab), previous, pane);
    var m2 := if closedTab.Present? then CloseTab(m1, closedTab.value) else m1;
    if closedWorkspace.Present? then CloseWorkspace(m2, closedWorkspace.value) else m2
  }

  ghost function Containers(m: State, createdWorkspace: Optional<Workspace>, createdTab: Optional<Tab>): State {
    var m1 := if createdWorkspace.Present? then SetWorkspace(m, createdWorkspace.value) else m;
    if createdTab.Present? then m1.(tabs := Put(m1.tabs, createdTab.value.id, createdTab.value)) else m1
  }

  ghost function Rekey(m: State, previous: string, pane: Pane): State {
    var closed := ClosePane(m, previous);
    closed.(panes := Put(closed.panes, pane.id, pane),
            agents := if previous in Lookup(m.agents)
                      then Put(closed.agents, pane.id, MergeAgent(Lookup(m.agents)[previous], pane))
                      else closed.agents)
  }

  /** Replaces the tabs of one workspace with an ordered list. */
  function ReorderTabs(tabs: seq<Entry<Tab>>, workspace: string, listed: seq<Tab>): seq<Entry<Tab>> {
    InsertAt(RemoveWhere(tabs, TabOf(workspace)), FirstWhere(tabs, TabOf(workspace)), listed, TabKey)
  }

  predicate Released(released: Optional<bool>) {
    released.Present? && released.value
  }

  function DetectedPane(pane: Pane, agent: Optional<string>, finalStatus: Optional<string>,
                        released: Optional<bool>): Pane {
    var named := if Released(released) then pane.(agent := Absent, displayAgent := Absent) else pane.(agent := agent);
    if finalStatus.Present? then named.(agentStatus := finalStatus.value) else named
  }

  ghost function AgentDetected(m: State, id: string, agent: Optional<string>, finalStatus: Optional<string>,
                               released: Optional<bool>): State
  {
    var m1 := if id in Lookup(m.panes)
              then m.(panes := Put(m.panes, id, DetectedPane(Lookup(m.panes)[id], agent, finalStatus, released)))
              else m;
    if Released(released) then m1.(agents := Remove(m.agents, id))
    else if id !in Lookup(m.panes) then m1
    else
      var was := if id in Lookup(m.agents) then Lookup(m.agents)[id] else ZERO_AGENT;
      m1.(agents := Put(m.agents, id,
            MergeAgent(was, DetectedPane(Lookup(m.panes)[id], agent, finalStatus, released))))
  }

  function StatusPane(pane: Pane, agentStatus: string, agent: Optional<string>, displayAgent: Optional<string>,
                      title: Optional<string>, stateLabels: Optional<Labels>): Pane
  {
    pane.(agentStatus := agentStatus,
          agent := if agent.Present? then agent else pane.agent,
          displayAgent := if displayAgent.Present? then displayAgent else pane.displayAgent,
          title := if title.Present? then title else pane.title,
          stateLabels := if stateLabels.Present? then stateLabels else pane.stateLabels)
  }

  ghost function AgentStatus(m: State, id: string, agentStatus: string, agent: Optional<string>,
                             displayAgent: Optional<string>, title: Optional<string>,
                             stateLabels: Optional<Labels>): State
  {
    if id in Lookup(m.panes) then
      var pane := StatusPane(Lookup(m.panes)[id], agentStatus, agent, displayAgent, title, stateLabels);
      m.(panes := Put(m.panes, id, pane),
         agents := if id in Lookup(m.agents) then Put(m.agents, id, MergeAgent(Lookup(m.agents)[id], pane))
           else m.agents)
    else if id in Lookup(m.agents) then
      m.(agents := Put(m.agents, id, Lookup(m.agents)[id].(agentStatus := agentStatus)))
    else m
  }

  function FocusedWorkspace(id: string): (string, Workspace) -> Workspace {
    (k: string, w: Workspace) => w.(focused := k == id)
  }

  function FocusedTab(id: string): (string, Tab) -> Tab {
    (k: string, t: Tab) => t.(focused := k == id)
  }

  function FocusedPane(id: string): (string, Pane) -> Pane {
    (k: string, p: Pane) => p.(focused := k == id)
  }

  function FocusedAgent(id: string): (string, Agent) -> Agent {
    (k: string, a: Agent) => a.(focused := k == id)
  }

  /** Moves the focus and tells the layout of the pane's tab, which no event repeats. */
  ghost function FocusPane(m: State, id: string): State {
    var panes := Update(m.panes, FocusedPane(id));
    var tab := if id in Lookup(panes) then Lookup(panes)[id].tab else "";
    m.(panes := panes, agents := Update(m.agents, FocusedAgent(id)),
       layouts := if id in Lookup(panes) && tab in Lookup(m.layouts)
                  then Put(m.layouts, tab, Lookup(m.layouts)[tab].(focusedPane := id))
                  else m.layouts)
  }

  ghost function Fold(m: State, events: seq<Event>): State {
    if events == [] then m else Apply(Fold(m, events[..|events| - 1]), events[|events| - 1])
  }

  // ---------------------------------------------------------------- snapshots

  function FromSnapshot(s: Snapshot): State {
    State(Reset(s.workspaces, WorkspaceKey), Reset(s.tabs, TabKey), Reset(s.panes, PaneKey),
          Reset(s.agents, AgentKey), Reset(s.layouts, LayoutKey), s.version, s.protocol)
  }

  /** The id of the first focused entry. */
  function FocusedId<T>(s: seq<Entry<T>>, focused: T -> bool): Optional<string> {
    var i := FirstWhere(s, focused);
    if i < 0 then Absent else Present(s[i].0)
  }

  function WorkspaceFocus(w: Workspace): bool { w.focused }
  function TabFocus(t: Tab): bool { t.focused }
  function PaneFocus(p: Pane): bool { p.focused }

  function ToSnapshot(m: State): Snapshot {
    Snapshot(Values(m.workspaces), Values(m.tabs), Values(m.panes), Values(m.agents), Values(m.layouts),
             FocusedId(m.workspaces, WorkspaceFocus), FocusedId(m.tabs, TabFocus), FocusedId(m.panes, PaneFocus),
             m.version, m.protocol)
  }

  /** Every cache a snapshot builds is well formed, whatever the snapshot repeats. */
  lemma {:induction false} FromSnapshotWellFormed(s: Snapshot)
    ensures WellFormed(FromSnapshot(s))
  {
    ResetKeyed(s.workspaces, WorkspaceKey);
    ResetKeyed(s.tabs, TabKey);
    ResetKeyed(s.panes, PaneKey);
    ResetKeyed(s.agents, AgentKey);
    ResetKeyed(s.layouts, LayoutKey);
  }

  lemma {:induction false} ResetKeyed<T>(values: seq<T>, key: T -> string)
    ensures Keyed(Reset(values, key), key)
  {
    ResetLookup(values, key);
    ListedKeys(values, key);
  }

  /** A snapshot of the mirror rebuilds the very same mirror, order included. */
  lemma {:induction false} SnapshotRoundTrip(m: State)
    requires WellFormed(m)
    ensures FromSnapshot(ToSnapshot(m)) == m
  {
    KeyedValues(m.workspaces, WorkspaceKey);
    KeyedValues(m.tabs, TabKey);
    KeyedValues(m.panes, PaneKey);
    KeyedValues(m.agents, AgentKey);
    KeyedValues(m.layouts, LayoutKey);
  }

  lemma {:induction false} KeyedValues<T>(s: seq<Entry<T>>, key: T -> string)
    requires Keyed(s, key)
    ensures Reset(Values(s), key) == s
  {
    forall i | 0 <= i < |s| ensures key(s[i].1) == s[i].0 {
      LookupAt(s, i);
    }
    ResetValues(s, key);
  }

  // ---------------------------------------------------------------- the representation invariant

  lemma {:induction false} KeyedAt<T>(s: seq<Entry<T>>, k: string, key: T -> string)
    requires Keyed(s, key) && k in Lookup(s)
    ensures key(Lookup(s)[k]) == k
  {
  }

  lemma {:induction false} PutKeyed<T>(s: seq<Entry<T>>, v: T, key: T -> string)
    requires Keyed(s, key)
    ensures Keyed(Put(s, key(v), v), key)
  {
    PutLookup(s, key(v), v);
  }

  lemma {:induction false} RemoveKeyed<T>(s: seq<Entry<T>>, k: string, key: T -> string)
    requires Keyed(s, key)
    ensures Keyed(Remove(s, k), key)
  {
    RemoveLookup(s, k);
  }

  lemma {:induction false} RemoveWhereKeyed<T>(s: seq<Entry<T>>, match': T -> bool, key: T -> string)
    requires Keyed(s, key)
    ensures Keyed(RemoveWhere(s, match'), key)
  {
    GoneLookup(s, match');
  }

  lemma {:induction false} UpdateKeyed<T(!new)>(s: seq<Entry<T>>, rewrite: (string, T) -> T, key: T -> string)
    requires Keyed(s, key) && forall k, v :: key(rewrite(k, v)) == key(v)
    ensures Keyed(Update(s, rewrite), key)
  {
    UpdateLookup(s, rewrite);
  }

  lemma {:induction false} ReorderKeyed(tabs: seq<Entry<Tab>>, workspace: string, listed: seq<Tab>)
    requires Keyed(tabs, TabKey)
    ensures Keyed(ReorderTabs(tabs, workspace, listed), TabKey)
  {
    RemoveWhereKeyed(tabs, TabOf(workspace), TabKey);
    InsertLookup(RemoveWhere(tabs, TabOf(workspace)), FirstWhere(tabs, TabOf(workspace)), listed, TabKey);
    ListedKeys(listed, TabKey);
  }

  lemma {:induction false} SetPaneWellFormed(m: State, pane: Pane)
    requires WellFormed(m)
    ensures WellFormed(SetPane(m, pane))
  {
    PutKeyed(m.panes, pane, PaneKey);
    if pane.id in Lookup(m.agents) {
      PutKeyed(m.agents, MergeAgent(Lookup(m.agents)[pane.id], pane), AgentKey);
    }
  }

  lemma {:induction false} ClosePaneWellFormed(m: State, id: string)
    requires WellFormed(m)
    ensures WellFormed(ClosePane(m, id))
  {
    RemoveKeyed(m.panes, id, PaneKey);
    RemoveKeyed(m.agents, id, AgentKey);
  }

  lemma {:induction false} CloseTabWellFormed(m: State, id: string)
    requires WellFormed(m)
    ensures WellFormed(CloseTab(m, id))
  {
    RemoveKeyed(m.tabs, id, TabKey);
    RemoveKeyed(m.layouts, id, LayoutKey);
    RemoveWhereKeyed(m.panes, InTab(id), PaneKey);
    RemoveWhereKeyed(m.agents, AgentInTab(id), AgentKey);
  }

  lemma {:induction false} CloseWorkspaceWellFormed(m: State, id: string)
    requires WellFormed(m)
    ensures WellFormed(CloseWorkspace(m, id))
  {
    RemoveKeyed(m.workspaces, id, WorkspaceKey);
    RemoveWhereKeyed(m.tabs, TabOf(id), TabKey);
    RemoveWhereKeyed(m.panes, PaneOf(id), PaneKey);
    RemoveWhereKeyed(m.agents, AgentOf(id), AgentKey);
    RemoveWhereKeyed(m.layouts, LayoutOf(id), LayoutKey);
  }

  lemma {:induction false} ContainersWellFormed(m: State, createdWorkspace: Optional<Workspace>,
                                                createdTab: Optional<Tab>)
    requires WellFormed(m)
    ensures WellFormed(Containers(m, createdWorkspace, createdTab))
  {
    if createdWorkspace.Present? { PutKeyed(m.workspaces, createdWorkspace.value, WorkspaceKey); }
    if createdTab.Present? { PutKeyed(m.tabs, createdTab.value, TabKey); }
  }

  lemma {:induction false} RekeyWellFormed(m: State, previous: string, pane: Pane)
    requires WellFormed(m)
    ensures WellFormed(Rekey(m, previous, pane))
  {
    ClosePaneWellFormed(m, previous);
    var closed := ClosePane(m, previous);
    PutKeyed(closed.panes, pane, PaneKey);
    if previous in Lookup(m.agents) {
      PutKeyed(closed.agents, MergeAgent(Lookup(m.agents)[previous], pane), AgentKey);
    }
  }

  lemma {:induction false} MovePaneWellFormed(
    m: State, previous: string, pane: Pane, createdWorkspace: Optional<Workspace>,
    createdTab: Optional<Tab>, closedTab: Optional<string>, closedWorkspace: Optional<string>)
    requires WellFormed(m)
    ensures WellFormed(MovePane(m, previous, pane, createdWorkspace, createdTab, closedTab, closedWorkspace))
  {
    ContainersWellFormed(m, createdWorkspace, createdTab);
    RekeyWellFormed(Containers(m, createdWorkspace, createdTab), previous, pane);
    var m1 := Rekey(Containers(m, createdWorkspace, createdTab), previous, pane);
    if closedTab.Present? { CloseTabWellFormed(m1, closedTab.value); }
    var m2 := if closedTab.Present? then CloseTab(m1, closedTab.value) else m1;
    if closedWorkspace.Present? { CloseWorkspaceWellFormed(m2, closedWorkspace.value); }
  }

  /** Every reachable cache is well formed: each event keeps it. */
  lemma {:induction false} ApplyWellFormed(m: State, e: Event)
    requires WellFormed(m)
    ensures WellFormed(Apply(m, e))
  {
    hide Keyed, Put, Update, Reset, Lookup, ReorderTabs, CloseTab, CloseWorkspace, ApplyToPane;
    match e
    case WorkspaceReported(_, w) => PutKeyed(m.workspaces, w, WorkspaceKey);
    case WorkspaceRenamed(id, name) =>
      if id in Lookup(m.workspaces) {
        KeyedAt(m.workspaces, id, WorkspaceKey);
        PutKeyed(m.workspaces, Lookup(m.workspaces)[id].(name := name), WorkspaceKey);
      }
    case WorkspacesListed(_, ws) => ResetKeyed(ws, WorkspaceKey);
    case WorkspaceFocused(id) => UpdateKeyed(m.workspaces, FocusedWorkspace(id), WorkspaceKey);
    case WorkspaceClosed(id) => CloseWorkspaceWellFormed(m, id);
    case WorktreeRemoved(w) => if w.Present? { PutKeyed(m.workspaces, w.value, WorkspaceKey); }
    case TabCreated(t) => PutKeyed(m.tabs, t, TabKey);
    case TabRenamed(id, name) =>
      if id in Lookup(m.tabs) {
        KeyedAt(m.tabs, id, TabKey);
        PutKeyed(m.tabs, Lookup(m.tabs)[id].(name := name), TabKey);
      }
    case TabMoved(w, ts) => ReorderKeyed(m.tabs, w, ts);
    case TabFocused(id) => UpdateKeyed(m.tabs, FocusedTab(id), TabKey);
    case TabClosed(id) => CloseTabWellFormed(m, id);
    case LayoutUpdated(l) => PutKeyed(m.layouts, l, LayoutKey);
    case Unmirrored(_) =>
    case _ => ApplyToPaneWellFormed(m, e);
  }

  lemma {:induction false} ApplyToPaneWellFormed(m: State, e: Event)
    requires WellFormed(m)
    ensures WellFormed(ApplyToPane(m, e))
  {
    hide Keyed, Put, Update, Lookup, ClosePane;
    hide SetPane, MovePane, FocusPane, AgentDetected, AgentStatus;
    match e
    case PaneReported(_, p) => SetPaneWellFormed(m, p);
    case PaneMoved(previous, pane, createdWorkspace, createdTab, closedTab, closedWorkspace) =>
      MovePaneWellFormed(m, previous, pane, createdWorkspace, createdTab, closedTab, closedWorkspace);
    case PaneFocused(id) => FocusPaneWellFormed(m, id);
    case PaneClosed(id) => ClosePaneWellFormed(m, id);
    case PaneOutputChanged(id, revision) =>
      if id in Lookup(m.panes) { SetPaneWellFormed(m, Lookup(m.panes)[id].(revision := revision)); }
    case PaneScrollChanged(id, scroll) =>
      if id in Lookup(m.panes) { SetPaneWellFormed(m, Lookup(m.panes)[id].(scroll := Present(scroll))); }
    case PaneAgentDetected(id, agent, finalStatus, released) =>
      AgentDetectedWellFormed(m, id, agent, finalStatus, released);
    case PaneAgentStatusChanged(id, agentStatus, agent, displayAgent, title, stateLabels) =>
      AgentStatusWellFormed(m, id, agentStatus, agent, displayAgent, title, stateLabels);
    case _ =>
  }

  lemma {:induction false} FocusPaneWellFormed(m: State, id: string)
    requires WellFormed(m)
    ensures WellFormed(FocusPane(m, id))
  {
    UpdateKeyed(m.panes, FocusedPane(id), PaneKey);
    UpdateKeyed(m.agents, FocusedAgent(id), AgentKey);
    var panes := Update(m.panes, FocusedPane(id));
    if id in Lookup(panes) && Lookup(panes)[id].tab in Lookup(m.layouts) {
      PutKeyed(m.layouts, Lookup(m.layouts)[Lookup(panes)[id].tab].(focusedPane := id), LayoutKey);
    }
  }

  lemma {:induction false} AgentDetectedWellFormed(m: State, id: string, agent: Optional<string>,
                                                   finalStatus: Optional<string>, released: Optional<bool>)
    requires WellFormed(m)
    ensures WellFormed(AgentDetected(m, id, agent, finalStatus, released))
  {
    RemoveKeyed(m.agents, id, AgentKey);
    if id in Lookup(m.panes) {
      var pane := DetectedPane(Lookup(m.panes)[id], agent, finalStatus, released);
      PutKeyed(m.panes, pane, PaneKey);
      PutKeyed(m.agents, MergeAgent(if id in Lookup(m.agents) then Lookup(m.agents)[id] else ZERO_AGENT, pane),
               AgentKey);
    }
  }

  lemma {:induction false} AgentStatusWellFormed(m: State, id: string, agentStatus: string, agent: Optional<string>,
                              displayAgent: Optional<string>, title: Optional<string>, stateLabels: Optional<Labels>)
    requires WellFormed(m)
    ensures WellFormed(AgentStatus(m, id, agentStatus, agent, displayAgent, title, stateLabels))
  {
    if id in Lookup(m.panes) {
      var pane := StatusPane(Lookup(m.panes)[id], agentStatus, agent, displayAgent, title, stateLabels);
      PutKeyed(m.panes, pane, PaneKey);
      if id in Lookup(m.agents) { PutKeyed(m.agents, MergeAgent(Lookup(m.agents)[id], pane), AgentKey); }
    } else if id in Lookup(m.agents) {
      PutKeyed(m.agents, Lookup(m.agents)[id].(agentStatus := agentStatus), AgentKey);
    }
  }

  lemma {:induction false} FoldWellFormed(m: State, events: seq<Event>)
    requires WellFormed(m)
    ensures WellFormed(Fold(m, events))
  {
    if events != [] {
      FoldWellFormed(m, events[..|events| - 1]);
      ApplyWellFormed(Fold(m, events[..|events| - 1]), events[|events| - 1]);
    }
  }

  lemma {:induction false} FoldConcat(m: State, before: seq<Event>, after: seq<Event>)
    ensures Fold(m, before + after) == Fold(Fold(m, before), after)
  {
    if after == [] {
      assert before + after == before;
    } else {
      FoldConcat(m, before, after[..|after| - 1]);
      assert (before + after)[..|before + after| - 1] == before + after[..|after| - 1];
    }
  }
}
