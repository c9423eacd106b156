/** Why a bootstrap may replay events its snapshot already reflects: on what lookups of workspaces,
    tabs and panes see, a whole list of events acts key by key, and each such action settles at once. */
module Replay {
  import opened Records
  import opened AssocList
  import opened Wrappers
  import M = Mirror

  datatype Key = WorkspaceAt(id: string) | TabAt(id: string) | PaneAt(id: string)

  datatype Record = W(workspace: Workspace) | T(tab: Tab) | P(pane: Pane)

  /** What a lookup sees under a key. */
  ghost function View(m: M.State, k: Key): Option<Record> {
    match k
    case WorkspaceAt(id) => if id in Lookup(m.workspaces) then Some(W(Lookup(m.workspaces)[id])) else None
    case TabAt(id) => if id in Lookup(m.tabs) then Some(T(Lookup(m.tabs)[id])) else None
    case PaneAt(id) => if id in Lookup(m.panes) then Some(P(Lookup(m.panes)[id])) else None
  }

  // ---------------------------------------------------------------- actions on one key

  datatype Container = TabNamed(id: string) | WorkspaceNamed(id: string)

  /** The containers a record lies in; no partial overwrite changes them. */
  function Containers(r: Record): set<Container> {
    match r
    case W(_) => {}
    case T(t) => {WorkspaceNamed(t.workspace)}
    case P(p) => {TabNamed(p.tab), WorkspaceNamed(p.workspace)}
  }

  /** The fields an event may overwrite without knowing the rest of the record. */
  datatype Patch = Patch(
    focused: Option<bool>, name: Option<string>, agent: Option<Optional<string>>,
    displayAgent: Option<Optional<string>>,
    agentStatus: Option<string>, title: Option<Optional<string>>, stateLabels: Option<Optional<Labels>>,
    revision: Option<nat>, scroll: Option<Optional<string>>)

  const NOTHING := Patch(None, None, None, None, None, None, None, None, None)

  function Or<X>(a: Option<X>, x: X): X { if a.Some? then a.value else x }

  function Patched(p: Patch, r: Record): Record {
    match r
    case W(w) => W(w.(focused := Or(p.focused, w.focused), name := Or(p.name, w.name)))
    case T(t) => T(t.(focused := Or(p.focused, t.focused), name := Or(p.name, t.name)))
    case P(q) => P(q.(focused := Or(p.focused, q.focused), agent := Or(p.agent, q.agent),
                      displayAgent := Or(p.displayAgent, q.displayAgent), agentStatus := Or(p.agentStatus,
                          q.agentStatus),
                      title := Or(p.title, q.title), stateLabels := Or(p.stateLabels, q.stateLabels),
                      revision := Or(p.revision, q.revision), scroll := Or(p.scroll, q.scroll)))
  }

  function Later<X>(a: Option<X>, b: Option<X>): Option<X> { if b.Some? then b else a }

  function Compose(a: Patch, b: Patch): Patch {
    Patch(Later(a.focused, b.focused), Later(a.name, b.name), Later(a.agent, b.agent),
          Later(a.displayAgent, b.displayAgent), Later(a.agentStatus, b.agentStatus), Later(a.title, b.title),
          Later(a.stateLabels, b.stateLabels), Later(a.revision, b.revision), Later(a.scroll, b.scroll))
  }

  /** Either the record under a key becomes a constant, whatever it was, or a record that is held
      and in no dropped container has some fields overwritten. */
  datatype Action = Always(record: Option<Record>) | Adjust(dropped: set<Container>, patch: Patch)

  const KEEP := Adjust({}, NOTHING)

  function Act(a: Action, r: Option<Record>): Option<Record> {
    match a
    case Always(c) => c
    case Adjust(dropped, patch) =>
      if r.None? || Containers(r.value) * dropped != {} then None else Some(Patched(patch, r.value))
  }

  function Then(a: Action, b: Action): Action {
    match (a, b)
    case (_, Always(_)) => b
    case (Always(c), Adjust(_, _)) => Always(Act(b, c))
    case (Adjust(d, p), Adjust(e, q)) => Adjust(d + e, Compose(p, q))
  }

  lemma {:induction false} ComposePatches(p: Patch, q: Patch, r: Record)
    ensures Patched(Compose(p, q), r) == Patched(q, Patched(p, r))
  {
    match r
    case W(_) =>
    case T(_) =>
    case P(_) =>
  }

  lemma {:induction false} PatchStays(p: Patch, r: Record)
    ensures Containers(Patched(p, r)) == Containers(r)
    ensures Patched(p, Patched(p, r)) == Patched(p, r)
  {
  }

  /** Actions compose within the normal form. */
  lemma {:induction false} ThenActs(a: Action, b: Action, r: Option<Record>)
    ensures Act(Then(a, b), r) == Act(b, Act(a, r))
  {
    hide Patched, Compose, Containers;
    if a.Adjust? && b.Adjust? && r.Some? {
      ComposePatches(a.patch, b.patch, r.value);
      PatchStays(a.patch, r.value);
      var c := Containers(r.value);
      assert c * (a.dropped + b.dropped) == c * a.dropped + c * b.dropped;
    }
  }

  /** Every action in normal form settles: acting twice is acting once. */
  lemma {:induction false} Settles(a: Action, r: Option<Record>)
    ensures Act(a, Act(a, r)) == Act(a, r)
  {
    hide Patched, Containers;
    if a.Adjust? && r.Some? { PatchStays(a.patch, r.value); }
  }

  // ---------------------------------------------------------------- the action of an event

  function Stores(at: Key, r: Record, k: Key): Action {
    if k == at then Always(Some(r)) else KEEP
  }

  function Deletes(at: Key, k: Key): Action {
    if k == at then Always(None) else KEEP
  }

  function Patches(at: Key, p: Patch, k: Key): Action {
    if k == at then Adjust({}, p) else KEEP
  }

  function Focuses(focused: bool): Action {
    Adjust({}, NOTHING.(focused := Some(focused)))
  }

  ghost function Lists(ws: seq<Workspace>, k: Key): Action {
    if !k.WorkspaceAt? then KEEP
    else if k.id in Listed(ws, WorkspaceKey) then Always(Some(W(Listed(ws, WorkspaceKey)[k.id])))
    else Always(None)
  }

  ghost function Reorders(workspace: string, ts: seq<Tab>, k: Key): Action {
    if !k.TabAt? then KEEP
    else if k.id in Listed(ts, TabKey) then Always(Some(T(Listed(ts, TabKey)[k.id])))
    else Adjust({WorkspaceNamed(workspace)}, NOTHING)
  }

  function ClosesTab(tab: string, k: Key): Action {
    match k
    case WorkspaceAt(_) => KEEP
    case TabAt(id) => if id == tab then Always(None) else KEEP
    case PaneAt(_) => Adjust({TabNamed(tab)}, NOTHING)
  }

  function ClosesWorkspace(workspace: string, k: Key): Action {
    match k
    case WorkspaceAt(id) => if id == workspace then Always(None) else KEEP
    case TabAt(_) => Adjust({WorkspaceNamed(workspace)}, NOTHING)
    case PaneAt(_) => Adjust({WorkspaceNamed(workspace)}, NOTHING)
  }

  function Moves(e: Event, k: Key): Action
    requires e.PaneMoved?
  {
    var a := if e.createdWorkspace.Present?
             then Stores(WorkspaceAt(e.createdWorkspace.value.id), W(e.createdWorkspace.value), k) else KEEP;
    var b := if e.createdTab.Present? then Stores(TabAt(e.createdTab.value.id), T(e.createdTab.value), k) else KEEP;
    var c := if e.closedTab.Present? then ClosesTab(e.closedTab.value, k) else KEEP;
    var d := if e.closedWorkspace.Present? then ClosesWorkspace(e.closedWorkspace.value, k) else KEEP;
    Then(Then(Then(a, b), Then(Deletes(PaneAt(e.previousPane), k), Stores(PaneAt(e.pane.id), P(e.pane), k))),
         Then(c, d))
  }

  function DetectionPatch(agent: Optional<string>, finalStatus: Optional<string>, released: Optional<bool>): Patch {
    NOTHING.(agent := Some(if M.Released(released) then Absent else agent),
             displayAgent := if M.Released(released) then Some(Absent) else None,
             agentStatus := if finalStatus.Present? then Some(finalStatus.value) else None)
  }

  function Given<X>(o: Optional<X>): Option<Optional<X>> { if o.Present? then Some(o) else None }

  function StatusPatch(agentStatus: string, agent: Optional<string>, displayAgent: Optional<string>,
                       title: Optional<string>, stateLabels: Optional<Labels>): Patch
  {
    NOTHING.(agentStatus := Some(agentStatus), agent := Given(agent), displayAgent := Given(displayAgent),
             title := Given(title), stateLabels := Given(stateLabels))
  }

  ghost function ActionOf(e: Event, k: Key): Action {
    match e
    case WorkspaceReported(_, w) => Stores(WorkspaceAt(w.id), W(w), k)
    case WorkspaceRenamed(id, name) => Patches(WorkspaceAt(id), NOTHING.(name := Some(name)), k)
    case WorkspacesListed(_, ws) => Lists(ws, k)
    case WorkspaceFocused(id) => if k.WorkspaceAt? then Focuses(k.id == id) else KEEP
    case WorkspaceClosed(id) => ClosesWorkspace(id, k)
    case WorktreeRemoved(w) => if w.Present? then Stores(WorkspaceAt(w.value.id), W(w.value), k) else KEEP
    case TabCreated(t) => Stores(TabAt(t.id), T(t), k)
    case TabRenamed(id, name) => Patches(TabAt(id), NOTHING.(name := Some(name)), k)
    case TabMoved(w, ts) => Reorders(w, ts, k)
    case TabFocused(id) => if k.TabAt? then Focuses(k.id == id) else KEEP
    case TabClosed(id) => ClosesTab(id, k)
    case LayoutUpdated(_) => KEEP
    case Unmirrored(_) => KEEP
    case _ => ActionOfPane(e, k)
  }

  function ActionOfPane(e: Event, k: Key): Action {
    match e
    case PaneReported(_, p) => Stores(PaneAt(p.id), P(p), k)
    case PaneMoved(_, _, _, _, _, _) => Moves(e, k)
    case PaneFocused(id) => if k.PaneAt? then Focuses(k.id == id) else KEEP
    case PaneClosed(id) => Deletes(PaneAt(id), k)
    case PaneOutputChanged(id, revision) => Patches(PaneAt(id), NOTHING.(revision := Some(revision)), k)
    case PaneScrollChanged(id, scroll) => Patches(PaneAt(id), NOTHING.(scroll := Some(Present(scroll))), k)
    case PaneAgentDetected(id, agent, finalStatus, released) =>
      Patches(PaneAt(id), DetectionPatch(agent, finalStatus, released), k)
    case PaneAgentStatusChanged(id, agentStatus, agent, displayAgent, title, stateLabels) =>
      Patches(PaneAt(id), StatusPatch(agentStatus, agent, displayAgent, title, stateLabels), k)
    case _ => KEEP
  }

  lemma {:induction false} KeepActs(r: Option<Record>)
    ensures Act(KEEP, r) == r
  {
  }

  lemma {:induction false} DropActs(c: Container, r: Option<Record>)
    ensures Act(Adjust({c}, NOTHING), r) == if r.Some? && c in Containers(r.value) then None else r
  {
    if r.Some? {
      assert Containers(r.value) * {c} == if c in Containers(r.value) then {c} else {};
    }
  }

  lemma {:induction false} CloseTabActs(m: M.State, tab: string, k: Key)
    requires M.WellFormed(m)
    ensures View(M.CloseTab(m, tab), k) == Act(ClosesTab(tab, k), View(m, k))
  {
    hide Lookup, Put, Filter;
    RemoveLookup(m.tabs, tab);
    GoneLookup(m.panes, M.InTab(tab));
    GoneIds(m.panes, M.InTab(tab));
    KeepActs(View(m, k));
    DropActs(TabNamed(tab), View(m, k));
  }

  lemma {:induction false} CloseWorkspaceActs(m: M.State, workspace: string, k: Key)
    requires M.WellFormed(m)
    ensures View(M.CloseWorkspace(m, workspace), k) == Act(ClosesWorkspace(workspace, k), View(m, k))
  {
    hide Lookup, Put, Filter;
    RemoveLookup(m.workspaces, workspace);
    GoneLookup(m.tabs, M.TabOf(workspace));
    GoneIds(m.tabs, M.TabOf(workspace));
    GoneLookup(m.panes, M.PaneOf(workspace));
    GoneIds(m.panes, M.PaneOf(workspace));
    KeepActs(View(m, k));
    DropActs(WorkspaceNamed(workspace), View(m, k));
  }

  lemma {:induction false} ReorderActs(m: M.State, workspace: string, ts: seq<Tab>, k: Key)
    requires M.WellFormed(m)
    ensures View(m.(tabs := M.ReorderTabs(m.tabs, workspace, ts)), k) == Act(Reorders(workspace, ts, k), View(m, k))
  {
    hide Lookup, Put, Filter;
    var match' := M.TabOf(workspace);
    GoneLookup(m.tabs, match');
    GoneIds(m.tabs, match');
    InsertLookup(RemoveWhere(m.tabs, match'), FirstWhere(m.tabs, match'), ts, TabKey);
    KeepActs(View(m, k));
    DropActs(WorkspaceNamed(workspace), View(m, k));
  }

  lemma {:induction false} SetWorkspaceActs(m: M.State, w: Workspace, k: Key)
    requires M.WellFormed(m)
    ensures View(M.SetWorkspace(m, w), k) == Act(Stores(WorkspaceAt(w.id), W(w), k), View(m, k))
  {
    hide Lookup, Put, Filter;
    PutLookup(m.workspaces, w.id, w);
    KeepActs(View(m, k));
  }

  lemma {:induction false} SetTabActs(m: M.State, t: Tab, k: Key)
    requires M.WellFormed(m)
    ensures View(m.(tabs := Put(m.tabs, t.id, t)), k) == Act(Stores(TabAt(t.id), T(t), k), View(m, k))
  {
    hide Lookup, Put, Filter;
    PutLookup(m.tabs, t.id, t);
    KeepActs(View(m, k));
  }

  lemma {:induction false} SetPaneActs(m: M.State, pane: Pane, k: Key)
    requires M.WellFormed(m)
    ensures View(M.SetPane(m, pane), k) == Act(Stores(PaneAt(pane.id), P(pane), k), View(m, k))
  {
    hide Lookup, Put, Filter;
    PutLookup(m.panes, pane.id, pane);
    KeepActs(View(m, k));
  }

  lemma {:induction false} RekeyActs(m: M.State, previous: string, pane: Pane, k: Key)
    requires M.WellFormed(m)
    ensures View(M.Rekey(m, previous, pane), k) ==
            Act(Then(Deletes(PaneAt(previous), k), Stores(PaneAt(pane.id), P(pane), k)), View(m, k))
  {
    hide Lookup, Put, Filter;
    RemoveLookup(m.panes, previous);
    PutLookup(Remove(m.panes, previous), pane.id, pane);
    KeepActs(View(m, k));
    ThenActs(Deletes(PaneAt(previous), k), Stores(PaneAt(pane.id), P(pane), k), View(m, k));
  }

  lemma {:induction false} MoveActs(m: M.State, e: Event, k: Key)
    requires M.WellFormed(m) && e.PaneMoved?
    ensures View(M.ApplyToPane(m, e), k) == Act(Moves(e, k), View(m, k))
  {
    hide M.CloseTab, M.CloseWorkspace, M.Rekey, M.SetWorkspace, View, Act, Then, Stores, Deletes, ClosesTab,
         ClosesWorkspace;
    var r := View(m, k);
    var a := if e.createdWorkspace.Present?
             then Stores(WorkspaceAt(e.createdWorkspace.value.id), W(e.createdWorkspace.value), k) else KEEP;
    var b := if e.createdTab.Present? then Stores(TabAt(e.createdTab.value.id), T(e.createdTab.value), k) else KEEP;
    var rekey := Then(Deletes(PaneAt(e.previousPane), k), Stores(PaneAt(e.pane.id), P(e.pane), k));
    var c := if e.closedTab.Present? then ClosesTab(e.closedTab.value, k) else KEEP;
    var d := if e.closedWorkspace.Present? then ClosesWorkspace(e.closedWorkspace.value, k) else KEEP;
    ThenActs(Then(Then(a, b), rekey), Then(c, d), r);
    ThenActs(Then(a, b), rekey, r);
    ThenActs(a, b, r);
    ThenActs(c, d, Act(Then(Then(a, b), rekey), r));

    var m0 := if e.createdWorkspace.Present? then M.SetWorkspace(m, e.createdWorkspace.value) else m;
    assert M.WellFormed(m0) && View(m0, k) == Act(a, r) by {
      M.ContainersWellFormed(m, e.createdWorkspace, Absent);
      KeepActs(r);
      if e.createdWorkspace.Present? { SetWorkspaceActs(m, e.createdWorkspace.value, k); }
    }
    var m1 := M.Containers(m, e.createdWorkspace, e.createdTab);
    assert M.WellFormed(m1) && View(m1, k) == Act(b, Act(a, r)) by {
      M.ContainersWellFormed(m, e.createdWorkspace, e.createdTab);
      KeepActs(Act(a, r));
      if e.createdTab.Present? { SetTabActs(m0, e.createdTab.value, k); }
    }
    var m2 := M.Rekey(m1, e.previousPane, e.pane);
    M.RekeyWellFormed(m1, e.previousPane, e.pane);
    RekeyActs(m1, e.previousPane, e.pane, k);
    var m3 := if e.closedTab.Present? then M.CloseTab(m2, e.closedTab.value) else m2;
    KeepActs(View(m2, k));
    KeepActs(View(m3, k));
    if e.closedTab.Present? {
      M.CloseTabWellFormed(m2, e.closedTab.value);
      CloseTabActs(m2, e.closedTab.value, k);
    }
    if e.closedWorkspace.Present? { CloseWorkspaceActs(m3, e.closedWorkspace.value, k); }
  }

  lemma {:induction false} PatchWorkspaceActs(m: M.State, id: string, p: Patch, k: Key)
    requires M.WellFormed(m) && id in Lookup(m.workspaces)
    ensures var w := Patched(p, W(Lookup(m.workspaces)[id])).workspace;
            View(m.(workspaces := Put(m.workspaces, id, w)), k) == Act(Patches(WorkspaceAt(id), p, k), View(m, k))
  {
    hide Lookup, Put, Filter;
    PutLookup(m.workspaces, id, Patched(p, W(Lookup(m.workspaces)[id])).workspace);
    KeepActs(View(m, k));
  }

  lemma {:induction false} PatchTabActs(m: M.State, id: string, p: Patch, k: Key)
    requires M.WellFormed(m) && id in Lookup(m.tabs)
    ensures var t := Patched(p, T(Lookup(m.tabs)[id])).tab;
            View(m.(tabs := Put(m.tabs, id, t)), k) == Act(Patches(TabAt(id), p, k), View(m, k))
  {
    hide Lookup, Put, Filter;
    PutLookup(m.tabs, id, Patched(p, T(Lookup(m.tabs)[id])).tab);
    KeepActs(View(m, k));
  }

  /** Only the panes of the new state matter to the view; agents and layouts are free. */
  lemma {:induction false} PatchPaneActs(m: M.State, m': M.State, id: string, p: Patch, k: Key)
    requires M.WellFormed(m) && m'.workspaces == m.workspaces && m'.tabs == m.tabs
    requires m'.panes == if id in Lookup(m.panes)
                         then Put(m.panes, id, Patched(p, P(Lookup(m.panes)[id])).pane) else m.panes
    ensures View(m', k) == Act(Patches(PaneAt(id), p, k), View(m, k))
  {
    hide Lookup, Put, Filter;
    if id in Lookup(m.panes) {
      PutLookup(m.panes, id, Patched(p, P(Lookup(m.panes)[id])).pane);
    }
    KeepActs(View(m, k));
  }

  lemma {:induction false} FocusWorkspaceActs(m: M.State, m': M.State, id: string, k: Key)
    requires M.WellFormed(m) && m'.tabs == m.tabs && m'.panes == m.panes
    requires m'.workspaces == Update(m.workspaces, M.FocusedWorkspace(id))
    ensures View(m', k) == if k.WorkspaceAt? then Act(Focuses(k.id == id), View(m, k)) else View(m, k)
  {
    hide Lookup, Put, Filter;
    UpdateLookup(m.workspaces, M.FocusedWorkspace(id));
  }

  lemma {:induction false} FocusTabActs(m: M.State, m': M.State, id: string, k: Key)
    requires M.WellFormed(m) && m'.workspaces == m.workspaces && m'.panes == m.panes
    requires m'.tabs == Update(m.tabs, M.FocusedTab(id))
    ensures View(m', k) == if k.TabAt? then Act(Focuses(k.id == id), View(m, k)) else View(m, k)
  {
    hide Lookup, Put, Filter;
    UpdateLookup(m.tabs, M.FocusedTab(id));
  }

  lemma {:induction false} FocusPaneActs(m: M.State, m': M.State, id: string, k: Key)
    requires M.WellFormed(m) && m'.workspaces == m.workspaces && m'.tabs == m.tabs
    requires m'.panes == Update(m.panes, M.FocusedPane(id))
    ensures View(m', k) == if k.PaneAt? then Act(Focuses(k.id == id), View(m, k)) else View(m, k)
  {
    hide Lookup, Put, Filter;
    UpdateLookup(m.panes, M.FocusedPane(id));
  }

  lemma {:induction false} ListActs(m: M.State, ws: seq<Workspace>, k: Key)
    ensures View(m.(workspaces := Reset(ws, WorkspaceKey)), k) == Act(Lists(ws, k), View(m, k))
  {
    ResetLookup(ws, WorkspaceKey);
    KeepActs(View(m, k));
  }

  lemma {:induction false} ClosePaneActs(m: M.State, id: string, k: Key)
    requires M.WellFormed(m)
    ensures View(M.ClosePane(m, id), k) == Act(Deletes(PaneAt(id), k), View(m, k))
  {
    hide Lookup, Put, Filter;
    RemoveLookup(m.panes, id);
    KeepActs(View(m, k));
  }

  lemma {:induction false} RevisedPane(m: M.State, id: string, p: Patch)
    requires M.WellFormed(m) && id in Lookup(m.panes)
    ensures var pane := Patched(p, P(Lookup(m.panes)[id])).pane;
            M.SetPane(m, pane).panes == Put(m.panes, id, pane)
  {
    M.KeyedAt(m.panes, id, PaneKey);
  }

  /** Each event acts on each key alone, by its action. */
  lemma {:induction false} EventActs(m: M.State, e: Event, k: Key)
    requires M.WellFormed(m)
    ensures View(M.Apply(m, e), k) == Act(ActionOf(e, k), View(m, k))
  {
    hide Act, Stores, Patches, Lists, Reorders, ClosesTab, ClosesWorkspace, ActionOfPane, M.WellFormed, View, Lookup,
         Put;
    hide M.SetWorkspace, M.CloseTab, M.CloseWorkspace, M.ReorderTabs, M.ApplyToPane;
    KeepActs(View(m, k));
    match e
    case WorkspaceReported(_, w) => SetWorkspaceActs(m, w, k);
    case WorkspaceRenamed(id, name) => RenameWorkspaceActs(m, id, name, k);
    case WorkspacesListed(_, ws) => ListActs(m, ws, k);
    case WorkspaceFocused(id) => FocusWorkspaceActs(m, M.Apply(m, e), id, k);
    case WorkspaceClosed(id) => CloseWorkspaceActs(m, id, k);
    case WorktreeRemoved(w) => if w.Present? { SetWorkspaceActs(m, w.value, k); }
    case TabCreated(t) => SetTabActs(m, t, k);
    case TabRenamed(id, name) => RenameTabActs(m, id, name, k);
    case TabMoved(w, ts) => ReorderActs(m, w, ts, k);
    case TabFocused(id) => FocusTabActs(m, M.Apply(m, e), id, k);
    case TabClosed(id) => CloseTabActs(m, id, k);
    case LayoutUpdated(l) => LayoutActs(m, l, k);
    case Unmirrored(_) =>
    case _ => PaneEventActs(m, e, k);
  }

  lemma {:induction false} RenameWorkspaceActs(m: M.State, id: string, name: string, k: Key)
    requires M.WellFormed(m)
    ensures View(M.Apply(m, WorkspaceRenamed(id, name)), k) ==
            Act(Patches(WorkspaceAt(id), NOTHING.(name := Some(name)), k), View(m, k))
  {
    if id in Lookup(m.workspaces) { PatchWorkspaceActs(m, id, NOTHING.(name := Some(name)), k); }
    KeepActs(View(m, k));
  }

  lemma {:induction false} RenameTabActs(m: M.State, id: string, name: string, k: Key)
    requires M.WellFormed(m)
    ensures View(M.Apply(m, TabRenamed(id, name)), k) ==
            Act(Patches(TabAt(id), NOTHING.(name := Some(name)), k), View(m, k))
  {
    if id in Lookup(m.tabs) { PatchTabActs(m, id, NOTHING.(name := Some(name)), k); }
    KeepActs(View(m, k));
  }

  lemma {:induction false} LayoutActs(m: M.State, l: Layout, k: Key)
    ensures View(m.(layouts := Put(m.layouts, l.tab, l)), k) == View(m, k)
  {
  }

  lemma {:induction false} PaneEventActs(m: M.State, e: Event, k: Key)
    requires M.WellFormed(m)
    ensures View(M.ApplyToPane(m, e), k) == Act(ActionOfPane(e, k), View(m, k))
  {
    hide Act, Stores, Deletes, Patches, Moves, M.WellFormed, View, Lookup, Put, Patched;
    hide M.SetPane, M.ClosePane, M.MovePane, M.AgentDetected, M.AgentStatus;
    KeepActs(View(m, k));
    match e
    case PaneReported(_, p) => SetPaneActs(m, p, k);
    case PaneMoved(_, _, _, _, _, _) => MoveActs(m, e, k);
    case PaneFocused(id) => FocusPaneActs(m, M.ApplyToPane(m, e), id, k);
    case PaneClosed(id) => ClosePaneActs(m, id, k);
    case PaneOutputChanged(id, revision) => RevisionActs(m, e, NOTHING.(revision := Some(revision)), k);
    case PaneScrollChanged(id, scroll) => RevisionActs(m, e, NOTHING.(scroll := Some(Present(scroll))), k);
    case PaneAgentDetected(id, agent, finalStatus, released) => DetectionActs(m, e, k);
    case PaneAgentStatusChanged(id, agentStatus, agent, displayAgent, title, stateLabels) => StatusActs(m, e, k);
    case _ =>
  }

  lemma {:induction false} RevisionActs(m: M.State, e: Event, p: Patch, k: Key)
    requires M.WellFormed(m)
    requires || (e.PaneOutputChanged? && p == NOTHING.(revision := Some(e.revision)))
             || (e.PaneScrollChanged? && p == NOTHING.(scroll := Some(Present(e.scroll))))
    ensures View(M.ApplyToPane(m, e), k) == Act(Patches(PaneAt(e.paneId), p, k), View(m, k))
  {
    hide M.WellFormed, View, Act, Patches;
    if e.paneId in Lookup(m.panes) { RevisedPane(m, e.paneId, p); }
    PatchPaneActs(m, M.ApplyToPane(m, e), e.paneId, p, k);
  }

  lemma {:induction false} DetectionActs(m: M.State, e: Event, k: Key)
    requires M.WellFormed(m) && e.PaneAgentDetected?
    ensures View(M.ApplyToPane(m, e), k) ==
            Act(Patches(PaneAt(e.paneId), DetectionPatch(e.agent, e.finalStatus, e.released), k), View(m, k))
  {
    hide M.WellFormed, View, Act, Patches;
    PatchPaneActs(m, M.AgentDetected(m, e.paneId, e.agent, e.finalStatus, e.released), e.paneId,
                  DetectionPatch(e.agent, e.finalStatus, e.released), k);
  }

  lemma {:induction false} StatusActs(m: M.State, e: Event, k: Key)
    requires M.WellFormed(m) && e.PaneAgentStatusChanged?
    ensures View(M.ApplyToPane(m, e), k) ==
            Act(Patches(PaneAt(e.paneId),
                        StatusPatch(e.agentStatus, e.agent, e.displayAgent, e.title, e.stateLabels), k), View(m, k))
  {
    hide M.WellFormed, View, Act, Patches;
    PatchPaneActs(m, M.AgentStatus(m, e.paneId, e.agentStatus, e.agent, e.displayAgent, e.title, e.stateLabels),
                  e.paneId, StatusPatch(e.agentStatus, e.agent, e.displayAgent, e.title, e.stateLabels), k);
  }

  // ---------------------------------------------------------------- whole lists of events

  ghost function ActionOfAll(events: seq<Event>, k: Key): Action {
    if events == [] then KEEP else Then(ActionOfAll(events[..|events| - 1], k), ActionOf(events[|events| - 1], k))
  }

  /** A whole list of events is one action in normal form on every key. */
  lemma {:induction false} FoldActs(m: M.State, events: seq<Event>, k: Key)
    requires M.WellFormed(m)
    ensures View(M.Fold(m, events), k) == Act(ActionOfAll(events, k), View(m, k))
  {
    hide View, Act, M.Apply, M.WellFormed;
    if events == [] {
      KeepActs(View(m, k));
    } else {
      var before := events[..|events| - 1];
      FoldActs(m, before, k);
      M.FoldWellFormed(m, before);
      EventActs(M.Fold(m, before), events[|events| - 1], k);
      ThenActs(ActionOfAll(before, k), ActionOf(events[|events| - 1], k), View(m, k));
    }
  }

  /** A mirror that already reflects the first events of a list ends, after the whole list is applied to it,
      where applying the list once would have ended: every workspace, tab and pane lookup agrees. */
  lemma {:induction false} ReplayConverges(m: M.State, before: seq<Event>, after: seq<Event>)
    requires M.WellFormed(m)
    ensures forall k :: View(M.Fold(M.Fold(m, before), before + after), k) == View(M.Fold(m, before + after), k)
  {
    hide View, Act, M.Apply, M.WellFormed, ActionOfAll;
    var once := M.Fold(m, before);
    M.FoldWellFormed(m, before);
    M.FoldWellFormed(once, before);
    M.FoldConcat(m, before, after);
    M.FoldConcat(once, before, after);
    forall k ensures View(M.Fold(once, before + after), k) == View(M.Fold(m, before + after), k) {
      FoldActs(m, before, k);
      FoldActs(once, before, k);
      Settles(ActionOfAll(before, k), View(m, k));
      FoldActs(once, after, k);
      FoldActs(M.Fold(once, before), after, k);
    }
  }

  /** The bootstrap: the server had applied a prefix of the buffered events when it answered with the snapshot.
      Replaying the whole buffer onto the cache built from that snapshot reaches the server's own state. */
  lemma {:induction false} BootstrapConverges(server: M.State, before: seq<Event>, after: seq<Event>)
    requires M.WellFormed(server)
    ensures forall k :: View(M.Fold(M.FromSnapshot(M.ToSnapshot(M.Fold(server, before))), before + after), k)
                     == View(M.Fold(server, before + after), k)
  {
    M.FoldWellFormed(server, before);
    M.SnapshotRoundTrip(M.Fold(server, before));
    ReplayConverges(server, before, after);
  }

  lemma {:induction false} FoldTwo(m: M.State, a: Event, b: Event)
    ensures M.Fold(m, [a, b]) == M.Apply(M.Apply(m, a), b)
  {
    hide M.Apply;
    assert [a, b][..1] == [a] && [a][..0] == [];
    assert M.Fold(m, [a]) == M.Apply(M.Fold(m, []), a);
  }
}
