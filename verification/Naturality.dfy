/** The reducer moves label maps and layouts around without looking into them: renaming them before an event or after it
    gives the same mirror. */
module Naturality {
  import opened Records
  import opened AssocList
  import M = Mirror

  /** A replacement of every label map and every layout geometry. */
  datatype Renaming = Renaming(labels: Labels -> Labels, geometry: Geometry -> Geometry)

  function MapLabels(r: Renaming, l: Optional<Labels>): Optional<Labels> {
    if l.Present? then Present(r.labels(l.value)) else l
  }

  function MapTerminal(r: Renaming, t: Terminal): Terminal { t.(tokens := MapLabels(r, t.tokens)) }
  function MapWorkspace(r: Renaming, w: Workspace): Workspace { w.(tokens := MapLabels(r, w.tokens)) }

  function MapPane(r: Renaming, p: Pane): Pane {
    p.(stateLabels := MapLabels(r, p.stateLabels), terminal := MapTerminal(r, p.terminal))
  }

  function MapAgent(r: Renaming, a: Agent): Agent {
    a.(stateLabels := MapLabels(r, a.stateLabels), terminal := MapTerminal(r, a.terminal))
  }

  function MapLayout(r: Renaming, l: Layout): Layout { l.(geometry := r.geometry(l.geometry)) }

  function WorkspaceMap(r: Renaming): Workspace -> Workspace { (w: Workspace) => MapWorkspace(r, w) }
  function PaneMap(r: Renaming): Pane -> Pane { (p: Pane) => MapPane(r, p) }
  function AgentMap(r: Renaming): Agent -> Agent { (a: Agent) => MapAgent(r, a) }
  function LayoutMap(r: Renaming): Layout -> Layout { (l: Layout) => MapLayout(r, l) }

  /** Every value of an index replaced, ids and order kept. */
  function Each<T>(s: seq<Entry<T>>, f: T -> T): (r: seq<Entry<T>>)
    ensures |r| == |s| && forall i :: 0 <= i < |s| ==> r[i] == (s[i].0, f(s[i].1))
  {
    seq(|s|, i requires 0 <= i < |s| => (s[i].0, f(s[i].1)))
  }

  function All<T>(s: seq<T>, f: T -> T): (r: seq<T>)
    ensures |r| == |s| && forall i :: 0 <= i < |s| ==> r[i] == f(s[i])
  {
    seq(|s|, i requires 0 <= i < |s| => f(s[i]))
  }

  /** Tabs hold no label map. */
  function MapState(r: Renaming, m: M.State): M.State {
    m.(workspaces := Each(m.workspaces, WorkspaceMap(r)), panes := Each(m.panes, PaneMap(r)),
       agents := Each(m.agents, AgentMap(r)), layouts := Each(m.layouts, LayoutMap(r)))
  }

  function MapOptional(r: Renaming, w: Optional<Workspace>): Optional<Workspace> {
    if w.Present? then Present(MapWorkspace(r, w.value)) else w
  }

  function MapEvent(r: Renaming, e: Event): Event {
    match e
    case WorkspaceReported(report, w) => WorkspaceReported(report, MapWorkspace(r, w))
    case WorkspacesListed(listing, ws) => WorkspacesListed(listing, All(ws, WorkspaceMap(r)))
    case WorktreeRemoved(w) => WorktreeRemoved(MapOptional(r, w))
    case PaneReported(report, p) => PaneReported(report, MapPane(r, p))
    case PaneMoved(previous, p, w, t, closedTab, closedWorkspace) =>
      PaneMoved(previous, MapPane(r, p), MapOptional(r, w), t, closedTab, closedWorkspace)
    case PaneAgentStatusChanged(id, status, agent, display, title, labels) =>
      PaneAgentStatusChanged(id, status, agent, display, title, MapLabels(r, labels))
    case LayoutUpdated(l) => LayoutUpdated(MapLayout(r, l))
    case _ => e
  }

  function MapSnapshot(r: Renaming, s: Snapshot): Snapshot {
    s.(workspaces := All(s.workspaces, WorkspaceMap(r)), panes := All(s.panes, PaneMap(r)),
       agents := All(s.agents, AgentMap(r)), layouts := All(s.layouts, LayoutMap(r)))
  }

  // ---------------------------------------------------------------- index operations

  lemma {:induction false} EachLookup<T>(s: seq<Entry<T>>, f: T -> T)
    ensures Lookup(Each(s, f)).Keys == Lookup(s).Keys
    ensures forall k :: k in Lookup(s) ==> Lookup(Each(s, f))[k] == f(Lookup(s)[k])
  {
    if s != [] {
      EachLookup(s[..|s| - 1], f);
      assert Each(s, f)[..|s| - 1] == Each(s[..|s| - 1], f);
    }
  }

  lemma {:induction false} EachPut<T>(s: seq<Entry<T>>, k: string, v: T, f: T -> T)
    ensures Each(Put(s, k, v), f) == Put(Each(s, f), k, f(v))
  {
    assert Has(Each(s, f), k) <==> Has(s, k) by {
      if Has(s, k) { var i :| 0 <= i < |s| && s[i].0 == k; assert Each(s, f)[i].0 == k; }
      if Has(Each(s, f), k) { var i :| 0 <= i < |s| && Each(s, f)[i].0 == k; assert s[i].0 == k; }
    }
  }

  lemma {:induction false} EachFilter<T>(s: seq<Entry<T>>, keep: Entry<T> -> bool, f: T -> T)
    requires forall i :: 0 <= i < |s| ==> keep((s[i].0, f(s[i].1))) == keep(s[i])
    ensures Each(Filter(s, keep), f) == Filter(Each(s, f), keep)
  {
    if s != [] {
      EachFilter(s[..|s| - 1], keep, f);
      assert Each(s, f)[..|s| - 1] == Each(s[..|s| - 1], f);
    }
  }

  lemma {:induction false} EachReset<T>(values: seq<T>, key: T -> string, f: T -> T)
    requires forall i :: 0 <= i < |values| ==> key(f(values[i])) == key(values[i])
    ensures Each(Reset(values, key), f) == Reset(All(values, f), key)
  {
    if values != [] {
      var v := values[|values| - 1];
      EachReset(values[..|values| - 1], key, f);
      EachPut(Reset(values[..|values| - 1], key), key(v), v, f);
      assert All(values, f)[..|values| - 1] == All(values[..|values| - 1], f);
    }
  }

  lemma {:induction false} EachUpdate<T>(s: seq<Entry<T>>, rewrite: (string, T) -> T, f: T -> T)
    requires forall i :: 0 <= i < |s| ==> f(rewrite(s[i].0, s[i].1)) == rewrite(s[i].0, f(s[i].1))
    ensures Each(Update(s, rewrite), f) == Update(Each(s, f), rewrite)
  {
  }

  // ---------------------------------------------------------------- the reducer

  lemma {:induction false} SetPaneNatural(r: Renaming, m: M.State, p: Pane)
    ensures MapState(r, M.SetPane(m, p)) == M.SetPane(MapState(r, m), MapPane(r, p))
  {
    EachPut(m.panes, p.id, p, PaneMap(r));
    EachLookup(m.agents, AgentMap(r));
    if p.id in Lookup(m.agents) { EachPut(m.agents, p.id, MergeAgent(Lookup(m.agents)[p.id], p), AgentMap(r)); }
  }

  lemma {:induction false} ClosePaneNatural(r: Renaming, m: M.State, id: string)
    ensures MapState(r, M.ClosePane(m, id)) == M.ClosePane(MapState(r, m), id)
  {
    EachFilter(m.panes, NotAt(id), PaneMap(r));
    EachFilter(m.agents, NotAt(id), AgentMap(r));
  }

  lemma {:induction false} CloseTabNatural(r: Renaming, m: M.State, id: string)
    ensures MapState(r, M.CloseTab(m, id)) == M.CloseTab(MapState(r, m), id)
  {
    EachFilter(m.layouts, NotAt(id), LayoutMap(r));
    EachFilter(m.panes, Unmatched(M.InTab(id)), PaneMap(r));
    EachFilter(m.agents, Unmatched(M.AgentInTab(id)), AgentMap(r));
  }

  lemma {:induction false} CloseWorkspaceNatural(r: Renaming, m: M.State, id: string)
    ensures MapState(r, M.CloseWorkspace(m, id)) == M.CloseWorkspace(MapState(r, m), id)
  {
    EachFilter(m.workspaces, NotAt(id), WorkspaceMap(r));
    EachFilter(m.panes, Unmatched(M.PaneOf(id)), PaneMap(r));
    EachFilter(m.agents, Unmatched(M.AgentOf(id)), AgentMap(r));
    EachFilter(m.layouts, Unmatched(M.LayoutOf(id)), LayoutMap(r));
  }

  lemma {:induction false} RekeyNatural(r: Renaming, m: M.State, previous: string, pane: Pane)
    ensures MapState(r, M.Rekey(m, previous, pane)) == M.Rekey(MapState(r, m), previous, MapPane(r, pane))
  {
    hide M.ClosePane, Put;
    var closed := M.ClosePane(m, previous);
    ClosePaneNatural(r, m, previous);
    EachPut(closed.panes, pane.id, pane, PaneMap(r));
    EachLookup(m.agents, AgentMap(r));
    if previous in Lookup(m.agents) {
      EachPut(closed.agents, pane.id, MergeAgent(Lookup(m.agents)[previous], pane), AgentMap(r));
    }
  }

  lemma {:induction false} ContainersNatural(r: Renaming, m: M.State, w: Optional<Workspace>, t: Optional<Tab>)
    ensures MapState(r, M.Containers(m, w, t)) == M.Containers(MapState(r, m), MapOptional(r, w), t)
  {
    hide Put;
    if w.Present? { EachPut(m.workspaces, w.value.id, w.value, WorkspaceMap(r)); }
  }

  lemma {:induction false} MovePaneNatural(r: Renaming, m: M.State, previous: string, pane: Pane,
                                           w: Optional<Workspace>, t: Optional<Tab>, closedTab: Optional<string>,
                                           closedWorkspace: Optional<string>)
    ensures MapState(r, M.MovePane(m, previous, pane, w, t, closedTab, closedWorkspace)) ==
            M.MovePane(MapState(r, m), previous, MapPane(r, pane), MapOptional(r, w), t, closedTab, closedWorkspace)
  {
    hide M.Rekey, M.Containers, M.CloseTab, M.CloseWorkspace, MapState, MapPane, MapOptional;
    ContainersNatural(r, m, w, t);
    var m0 := M.Containers(m, w, t);
    RekeyNatural(r, m0, previous, pane);
    var m1 := M.Rekey(m0, previous, pane);
    if closedTab.Present? { CloseTabNatural(r, m1, closedTab.value); }
    var m2 := if closedTab.Present? then M.CloseTab(m1, closedTab.value) else m1;
    if closedWorkspace.Present? { CloseWorkspaceNatural(r, m2, closedWorkspace.value); }
  }

  lemma {:induction false} DetectedNatural(r: Renaming, m: M.State, id: string, agent: Optional<string>,
                                           finalStatus: Optional<string>, released: Optional<bool>)
    ensures MapState(r, M.AgentDetected(m, id, agent, finalStatus, released)) ==
            M.AgentDetected(MapState(r, m), id, agent, finalStatus, released)
  {
    hide Put, Filter, Lookup, Each, MapPane, MapAgent, MergeAgent, M.DetectedPane;
    EachLookup(m.panes, PaneMap(r));
    EachLookup(m.agents, AgentMap(r));
    EachFilter(m.agents, NotAt(id), AgentMap(r));
    if id in Lookup(m.panes) {
      var held := Lookup(m.panes)[id];
      var pane := M.DetectedPane(held, agent, finalStatus, released);
      var was := if id in Lookup(m.agents) then Lookup(m.agents)[id] else ZERO_AGENT;
      DetectedPaneNatural(r, held, agent, finalStatus, released);
      MergeNatural(r, was, pane);
      ZeroNatural(r);
      EachPut(m.panes, id, pane, PaneMap(r));
      EachPut(m.agents, id, MergeAgent(was, pane), AgentMap(r));
    }
  }

  lemma {:induction false} DetectedPaneNatural(r: Renaming, pane: Pane, agent: Optional<string>,
                                               finalStatus: Optional<string>, released: Optional<bool>)
    ensures MapPane(r, M.DetectedPane(pane, agent, finalStatus, released))
            == M.DetectedPane(MapPane(r, pane), agent, finalStatus, released)
  {
  }

  lemma {:induction false} StatusPaneNatural(r: Renaming, pane: Pane, status: string, agent: Optional<string>,
                                             display: Optional<string>, title: Optional<string>,
                                             labels: Optional<Labels>)
    ensures MapPane(r, M.StatusPane(pane, status, agent, display, title, labels)) ==
            M.StatusPane(MapPane(r, pane), status, agent, display, title, MapLabels(r, labels))
  {
  }

  lemma {:induction false} MergeNatural(r: Renaming, agent: Agent, pane: Pane)
    ensures MapAgent(r, MergeAgent(agent, pane)) == MergeAgent(MapAgent(r, agent), MapPane(r, pane))
  {
  }

  lemma {:induction false} ZeroNatural(r: Renaming)
    ensures MapAgent(r, ZERO_AGENT) == ZERO_AGENT
  {
  }

  lemma {:induction false} StatusNatural(r: Renaming, m: M.State, id: string, status: string, agent: Optional<string>,
                                         display: Optional<string>, title: Optional<string>, labels: Optional<Labels>)
    ensures MapState(r, M.AgentStatus(m, id, status, agent, display, title, labels)) ==
            M.AgentStatus(MapState(r, m), id, status, agent, display, title, MapLabels(r, labels))
  {
    hide Put, Lookup, Each, MapPane, MapAgent, MergeAgent, M.StatusPane, MapLabels;
    EachLookup(m.panes, PaneMap(r));
    EachLookup(m.agents, AgentMap(r));
    if id in Lookup(m.panes) {
      var held := Lookup(m.panes)[id];
      var pane := M.StatusPane(held, status, agent, display, title, labels);
      StatusPaneNatural(r, held, status, agent, display, title, labels);
      EachPut(m.panes, id, pane, PaneMap(r));
      if id in Lookup(m.agents) {
        MergeNatural(r, Lookup(m.agents)[id], pane);
        EachPut(m.agents, id, MergeAgent(Lookup(m.agents)[id], pane), AgentMap(r));
      }
    } else if id in Lookup(m.agents) {
      RestatedNatural(r, Lookup(m.agents)[id], status);
      EachPut(m.agents, id, Lookup(m.agents)[id].(agentStatus := status), AgentMap(r));
    }
  }

  lemma {:induction false} RestatedNatural(r: Renaming, agent: Agent, status: string)
    ensures MapAgent(r, agent.(agentStatus := status)) == MapAgent(r, agent).(agentStatus := status)
  {
  }

  lemma {:induction false} FocusNatural(r: Renaming, m: M.State, id: string)
    ensures MapState(r, M.FocusPane(m, id)) == M.FocusPane(MapState(r, m), id)
  {
    hide Put, Update, Lookup;
    var panes := Update(m.panes, M.FocusedPane(id));
    EachUpdate(m.panes, M.FocusedPane(id), PaneMap(r));
    EachUpdate(m.agents, M.FocusedAgent(id), AgentMap(r));
    EachLookup(panes, PaneMap(r));
    EachLookup(m.layouts, LayoutMap(r));
    if id in Lookup(panes) && Lookup(panes)[id].tab in Lookup(m.layouts) {
      var tab := Lookup(panes)[id].tab;
      EachPut(m.layouts, tab, Lookup(m.layouts)[tab].(focusedPane := id), LayoutMap(r));
    }
  }

  lemma {:induction false} SetWorkspaceNatural(r: Renaming, m: M.State, w: Workspace)
    ensures MapState(r, M.SetWorkspace(m, w)) == M.SetWorkspace(MapState(r, m), MapWorkspace(r, w))
  {
    EachPut(m.workspaces, w.id, w, WorkspaceMap(r));
  }

  lemma {:induction false} RenamedNatural(r: Renaming, m: M.State, id: string, name: string)
    ensures MapState(r, M.Apply(m, WorkspaceRenamed(id, name))) == M.Apply(MapState(r, m), WorkspaceRenamed(id, name))
  {
    EachLookup(m.workspaces, WorkspaceMap(r));
    if id in Lookup(m.workspaces) {
      EachPut(m.workspaces, id, Lookup(m.workspaces)[id].(name := name), WorkspaceMap(r));
    }
  }

  /** The events that replace, reorder or refocus one whole index. */
  lemma {:induction false} ListNatural(r: Renaming, m: M.State, e: Event)
    requires e.WorkspacesListed? || e.WorkspaceFocused? || e.LayoutUpdated?
    ensures MapState(r, M.Apply(m, e)) == M.Apply(MapState(r, m), MapEvent(r, e))
  {
    match e
    case WorkspacesListed(_, ws) => EachReset(ws, WorkspaceKey, WorkspaceMap(r));
    case WorkspaceFocused(id) => EachUpdate(m.workspaces, M.FocusedWorkspace(id), WorkspaceMap(r));
    case LayoutUpdated(l) => EachPut(m.layouts, l.tab, l, LayoutMap(r));
  }

  lemma {:induction false} TabsNatural(r: Renaming, m: M.State, tabs: seq<Entry<Tab>>)
    ensures MapState(r, m.(tabs := tabs)) == MapState(r, m).(tabs := tabs) && MapState(r, m).tabs == m.tabs
  {
  }

  /** Renaming commutes with every event. */
  lemma {:induction false} ApplyNatural(r: Renaming, m: M.State, e: Event)
    ensures MapState(r, M.Apply(m, e)) == M.Apply(MapState(r, m), MapEvent(r, e))
  {
    hide M.ApplyToPane, M.CloseTab, M.CloseWorkspace, M.SetWorkspace, MapState, MapWorkspace, Lookup;
    TabsNatural(r, m, M.Apply(m, e).tabs);
    match e
    case WorkspaceReported(_, w) => SetWorkspaceNatural(r, m, w);
    case WorkspaceRenamed(id, name) => RenamedNatural(r, m, id, name);
    case WorkspacesListed(_, _) => ListNatural(r, m, e);
    case WorkspaceFocused(_) => ListNatural(r, m, e);
    case WorkspaceClosed(id) => CloseWorkspaceNatural(r, m, id);
    case WorktreeRemoved(w) => if w.Present? { SetWorkspaceNatural(r, m, w.value); }
    case TabCreated(_) =>
    case TabRenamed(_, _) =>
    case TabMoved(_, _) =>
    case TabFocused(_) =>
    case TabClosed(id) => CloseTabNatural(r, m, id);
    case LayoutUpdated(_) => ListNatural(r, m, e);
    case Unmirrored(_) =>
    case _ => ApplyToPaneNatural(r, m, e);
  }

  lemma {:induction false} ApplyToPaneNatural(r: Renaming, m: M.State, e: Event)
    ensures MapState(r, M.ApplyToPane(m, e)) == M.ApplyToPane(MapState(r, m), MapEvent(r, e))
  {
    hide MapState, M.SetPane, M.MovePane, M.FocusPane, M.AgentDetected, M.AgentStatus, M.ClosePane;
    match e
    case PaneReported(_, p) => SetPaneNatural(r, m, p);
    case PaneMoved(previous, p, w, t, closedTab, closedWorkspace) =>
      MovePaneNatural(r, m, previous, p, w, t, closedTab, closedWorkspace);
    case PaneFocused(id) => FocusNatural(r, m, id);
    case PaneClosed(id) => ClosePaneNatural(r, m, id);
    case PaneOutputChanged(id, revision) =>
      HeldPane(r, m, id);
      if id in Lookup(m.panes) { SetPaneNatural(r, m, Lookup(m.panes)[id].(revision := revision)); }
    case PaneScrollChanged(id, scroll) =>
      HeldPane(r, m, id);
      if id in Lookup(m.panes) { SetPaneNatural(r, m, Lookup(m.panes)[id].(scroll := Present(scroll))); }
    case PaneAgentDetected(id, agent, finalStatus, released) => DetectedNatural(r, m, id, agent, finalStatus, released);
    case PaneAgentStatusChanged(id, status, agent, display, title, labels) =>
      StatusNatural(r, m, id, status, agent, display, title, labels);
    case _ =>
  }

  lemma {:induction false} HeldPane(r: Renaming, m: M.State, id: string)
    ensures id in Lookup(m.panes) <==> id in Lookup(MapState(r, m).panes)
    ensures id in Lookup(m.panes) ==> Lookup(MapState(r, m).panes)[id] == MapPane(r, Lookup(m.panes)[id])
  {
    EachLookup(m.panes, PaneMap(r));
  }

  /** Renaming commutes with building a mirror from a snapshot. */
  lemma {:induction false} FromSnapshotNatural(r: Renaming, s: Snapshot)
    ensures MapState(r, M.FromSnapshot(s)) == M.FromSnapshot(MapSnapshot(r, s))
  {
    EachReset(s.workspaces, WorkspaceKey, WorkspaceMap(r));
    EachReset(s.panes, PaneKey, PaneMap(r));
    EachReset(s.agents, AgentKey, AgentMap(r));
    EachReset(s.layouts, LayoutKey, LayoutMap(r));
  }
}
