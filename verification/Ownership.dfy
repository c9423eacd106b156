/** Who can reach what: the mirror clones records on the way in and on the way out, so that nothing a caller does to an
    event, a snapshot or a returned record changes what the mirror reports. */
module Ownership {
  import opened Records
  import opened AssocList
  import opened Naturality
  import M = Mirror

  datatype Cell = LabelCell(labels: map<string, string>) | GeometryCell(geometry: string)

  datatype Memory = Memory(cells: map<nat, Cell>, next: nat)

  ghost predicate Sound(mem: Memory) {
    forall a :: a in mem.cells ==> a < mem.next
  }

  function ReadLabels(cells: map<nat, Cell>, l: Labels): Labels {
    match l
    case Labels(_) => l
    case LabelsAt(a) => if a in cells && cells[a].LabelCell? then Labels(cells[a].labels) else Labels(map[])
  }

  function ReadGeometry(cells: map<nat, Cell>, g: Geometry): Geometry {
    match g
    case Geometry(_) => g
    case GeometryAt(a) => if a in cells && cells[a].GeometryCell? then Geometry(cells[a].geometry) else Geometry("")
  }

  /** What a record means: every address replaced by what it holds. */
  function Reader(cells: map<nat, Cell>): Renaming {
    Renaming((l: Labels) => ReadLabels(cells, l), (g: Geometry) => ReadGeometry(cells, g))
  }

  // ---------------------------------------------------------------- addresses of records

  predicate LabelsIn(l: Optional<Labels>, s: set<nat>) { l.Present? && l.value.LabelsAt? ==> l.value.address in s }
  predicate WorkspaceIn(w: Workspace, s: set<nat>) { LabelsIn(w.tokens, s) }
  predicate PaneIn(p: Pane, s: set<nat>) { LabelsIn(p.stateLabels, s) && LabelsIn(p.terminal.tokens, s) }
  predicate AgentIn(a: Agent, s: set<nat>) { LabelsIn(a.stateLabels, s) && LabelsIn(a.terminal.tokens, s) }
  predicate LayoutIn(l: Layout, s: set<nat>) { l.geometry.GeometryAt? ==> l.geometry.address in s }

  /** Every address in the mirror lies in s. */
  ghost predicate StateIn(m: M.State, s: set<nat>) {
    && (forall i :: 0 <= i < |m.workspaces| ==> WorkspaceIn(m.workspaces[i].1, s))
    && (forall i :: 0 <= i < |m.panes| ==> PaneIn(m.panes[i].1, s))
    && (forall i :: 0 <= i < |m.agents| ==> AgentIn(m.agents[i].1, s))
    && (forall i :: 0 <= i < |m.layouts| ==> LayoutIn(m.layouts[i].1, s))
  }

  ghost predicate SnapshotIn(x: Snapshot, s: set<nat>) {
    && (forall i :: 0 <= i < |x.workspaces| ==> WorkspaceIn(x.workspaces[i], s))
    && (forall i :: 0 <= i < |x.panes| ==> PaneIn(x.panes[i], s))
    && (forall i :: 0 <= i < |x.agents| ==> AgentIn(x.agents[i], s))
    && (forall i :: 0 <= i < |x.layouts| ==> LayoutIn(x.layouts[i], s))
  }

  ghost predicate EventIn(e: Event, s: set<nat>) {
    match e
    case WorkspaceReported(_, w) => WorkspaceIn(w, s)
    case WorkspacesListed(_, ws) => forall i :: 0 <= i < |ws| ==> WorkspaceIn(ws[i], s)
    case WorktreeRemoved(w) => w.Present? ==> WorkspaceIn(w.value, s)
    case PaneReported(_, p) => PaneIn(p, s)
    case PaneMoved(_, p, w, _, _, _) => PaneIn(p, s) && (w.Present? ==> WorkspaceIn(w.value, s))
    case PaneAgentStatusChanged(_, _, _, _, _, labels) => LabelsIn(labels, s)
    case LayoutUpdated(l) => LayoutIn(l, s)
    case _ => true
  }

  /** Forgets every address outside s. */
  function Keep(s: set<nat>): Renaming {
    Renaming((l: Labels) => if l.LabelsAt? && l.address !in s then Labels(map[]) else l,
             (g: Geometry) => if g.GeometryAt? && g.address !in s then Geometry("") else g)
  }

  lemma {:induction false} StateInIff(m: M.State, s: set<nat>)
    ensures StateIn(m, s) <==> MapState(Keep(s), m) == m
  {
    var k := MapState(Keep(s), m);
    assert forall i :: 0 <= i < |m.workspaces| ==>
             (k.workspaces[i] == m.workspaces[i] <==> WorkspaceIn(m.workspaces[i].1, s));
    assert forall i :: 0 <= i < |m.panes| ==> (k.panes[i] == m.panes[i] <==> PaneIn(m.panes[i].1, s));
    assert forall i :: 0 <= i < |m.agents| ==> (k.agents[i] == m.agents[i] <==> AgentIn(m.agents[i].1, s));
    assert forall i :: 0 <= i < |m.layouts| ==> (k.layouts[i] == m.layouts[i] <==> LayoutIn(m.layouts[i].1, s));
  }

  lemma {:induction false} EventKept(e: Event, s: set<nat>)
    requires EventIn(e, s)
    ensures MapEvent(Keep(s), e) == e
  {
    if e.WorkspacesListed? {
      assert All(e.workspaces, WorkspaceMap(Keep(s))) == e.workspaces;
    }
  }

  lemma {:induction false} SnapshotKept(x: Snapshot, s: set<nat>)
    requires SnapshotIn(x, s)
    ensures MapSnapshot(Keep(s), x) == x
  {
    assert All(x.workspaces, WorkspaceMap(Keep(s))) == x.workspaces;
    assert All(x.panes, PaneMap(Keep(s))) == x.panes;
    assert All(x.agents, AgentMap(Keep(s))) == x.agents;
    assert All(x.layouts, LayoutMap(Keep(s))) == x.layouts;
  }

  /** An event leaves in the mirror only addresses that were there or came with it. */
  lemma {:induction false} ApplyIn(m: M.State, e: Event, s: set<nat>)
    requires StateIn(m, s) && EventIn(e, s)
    ensures StateIn(M.Apply(m, e), s)
  {
    hide StateIn, EventIn, MapState, MapEvent, M.Apply, Keep;
    StateInIff(m, s);
    EventKept(e, s);
    ApplyNatural(Keep(s), m, e);
    StateInIff(M.Apply(m, e), s);
  }

  lemma {:induction false} FromSnapshotIn(x: Snapshot, s: set<nat>)
    requires SnapshotIn(x, s)
    ensures StateIn(M.FromSnapshot(x), s)
  {
    hide StateIn, SnapshotIn, MapState, MapSnapshot, M.FromSnapshot, Keep;
    SnapshotKept(x, s);
    FromSnapshotNatural(Keep(s), x);
    StateInIff(M.FromSnapshot(x), s);
  }

  lemma {:induction false} StateInMore(m: M.State, s: set<nat>, t: set<nat>)
    requires StateIn(m, s) && s <= t
    ensures StateIn(m, t)
  {
  }

  lemma {:induction false} EventInMore(e: Event, s: set<nat>, t: set<nat>)
    requires EventIn(e, s) && s <= t
    ensures EventIn(e, t)
  {
  }

  /** A mirror means the same in two memories that agree on its addresses. */
  lemma {:induction false} ValueAgrees(m: M.State, s: set<nat>, h: map<nat, Cell>, k: map<nat, Cell>)
    requires StateIn(m, s) && forall a :: a in s ==> a in h && a in k && h[a] == k[a]
    ensures MapState(Reader(h), m) == MapState(Reader(k), m)
  {
    var x, y := MapState(Reader(h), m), MapState(Reader(k), m);
    assert x.workspaces == y.workspaces;
    assert x.panes == y.panes;
    assert x.agents == y.agents;
    assert x.layouts == y.layouts;
  }

  // ---------------------------------------------------------------- cloning

  /** A clone has every address moved past those in use. */
  function Shift(n: nat): Renaming {
    Renaming((l: Labels) => if l.LabelsAt? then LabelsAt(l.address + n) else l,
             (g: Geometry) => if g.GeometryAt? then GeometryAt(g.address + n) else g)
  }

  function CloneWorkspace(n: nat, w: Workspace): Workspace { MapWorkspace(Shift(n), w) }
  function ClonePane(n: nat, p: Pane): Pane { MapPane(Shift(n), p) }
  function CloneAgent(n: nat, a: Agent): Agent { MapAgent(Shift(n), a) }
  function CloneLayout(n: nat, l: Layout): Layout { MapLayout(Shift(n), l) }

  /** The memory in which every cell has been copied past those in use. */
  function Doubled(mem: Memory): Memory {
    Memory(mem.cells + (map a | a in Moved(mem) :: mem.cells[a - mem.next]), mem.next + mem.next)
  }

  predicate IsMoved(mem: Memory, a: nat) {
    a >= mem.next && a - mem.next in mem.cells
  }

  /** The addresses of the copies. */
  function Moved(mem: Memory): (r: set<nat>)
    ensures forall a :: a in r ==> IsMoved(mem, a)
  {
    set a: nat | 0 <= a < mem.next + mem.next && IsMoved(mem, a)
  }

  /** What the branch taken for an event stores: the records it reports cloned, a held pane whose revision or scroll
      changes cloned again, and the labels of a status only when the pane is held, as they are not read otherwise. */
  ghost function Received(n: nat, m: M.State, e: Event): Event {
    match e
    case PaneOutputChanged(id, revision) =>
      if id in Lookup(m.panes) then PaneReported(Updated, ClonePane(n, Lookup(m.panes)[id].(revision := revision)))
      else e
    case PaneScrollChanged(id, scroll) =>
      if id in Lookup(m.panes) then PaneReported(Updated, ClonePane(n, Lookup(m.panes)[id].(scroll := Present(scroll))))
      else e
    case PaneAgentStatusChanged(id, _, _, _, _, labels) =>
      e.(stateLabels := if id in Lookup(m.panes) then MapLabels(Shift(n), labels) else Absent)
    case _ => MapEvent(Shift(n), e)
  }

  lemma {:induction false} MovedAll(mem: Memory, a: nat)
    requires Sound(mem) && a in mem.cells
    ensures a + mem.next in Moved(mem) && a !in Moved(mem)
    ensures a + mem.next in Doubled(mem).cells && Doubled(mem).cells[a + mem.next] == mem.cells[a]
  {
    var b := a + mem.next;
    assert b - mem.next == a;
    assert IsMoved(mem, b);
  }

  lemma {:induction false} DoubledFacts(mem: Memory)
    requires Sound(mem)
    ensures Sound(Doubled(mem)) && mem.cells.Keys !! Moved(mem)
    ensures Doubled(mem).cells.Keys == mem.cells.Keys + Moved(mem)
    ensures forall a :: a in mem.cells ==> Doubled(mem).cells[a] == mem.cells[a]
    ensures Copies(mem.cells, Doubled(mem).cells, mem.next, Moved(mem))
  {
    hide Copies;
    forall a | a in mem.cells ensures a !in Moved(mem) { MovedAll(mem, a); }
    DoubledCopies(mem);
  }

  lemma {:induction false} DoubledCopies(mem: Memory)
    requires Sound(mem)
    ensures Copies(mem.cells, Doubled(mem).cells, mem.next, Moved(mem))
  {
    hide Moved, Doubled, CopyAt;
    forall a | a in mem.cells ensures CopyAt(mem.cells, Doubled(mem).cells, mem.next, Moved(mem), a) {
      DoubledCopy(mem, a);
    }
  }

  lemma {:induction false} DoubledCopy(mem: Memory, a: nat)
    requires Sound(mem) && a in mem.cells
    ensures CopyAt(mem.cells, Doubled(mem).cells, mem.next, Moved(mem), a)
  {
    hide Moved, Doubled;
    MovedAll(mem, a);
  }

  ghost predicate CopyAt(h: map<nat, Cell>, k: map<nat, Cell>, n: nat, s: set<nat>, a: nat)
    requires a in h
  {
    a + n in s && a + n in k && k[a + n] == h[a]
  }

  /** k holds at n further on what h holds, in s. */
  ghost predicate Copies(h: map<nat, Cell>, k: map<nat, Cell>, n: nat, s: set<nat>) {
    forall a :: a in h ==> CopyAt(h, k, n, s, a)
  }

  lemma {:induction false} LabelsFresh(h: map<nat, Cell>, k: map<nat, Cell>, n: nat, s: set<nat>, l: Optional<Labels>)
    requires Copies(h, k, n, s) && LabelsIn(l, h.Keys)
    ensures LabelsIn(MapLabels(Shift(n), l), s)
            && MapLabels(Reader(k), MapLabels(Shift(n), l)) == MapLabels(Reader(h), l)
  {
    if l.Present? && l.value.LabelsAt? { assert l.value.address in h; }
  }

  lemma {:induction false} WorkspaceFresh(h: map<nat, Cell>, k: map<nat, Cell>, n: nat, s: set<nat>, w: Workspace)
    requires Copies(h, k, n, s) && WorkspaceIn(w, h.Keys)
    ensures WorkspaceIn(CloneWorkspace(n, w), s)
            && MapWorkspace(Reader(k), CloneWorkspace(n, w)) == MapWorkspace(Reader(h), w)
  {
    LabelsFresh(h, k, n, s, w.tokens);
  }

  lemma {:induction false} PaneFresh(h: map<nat, Cell>, k: map<nat, Cell>, n: nat, s: set<nat>, p: Pane)
    requires Copies(h, k, n, s) && PaneIn(p, h.Keys)
    ensures PaneIn(ClonePane(n, p), s) && MapPane(Reader(k), ClonePane(n, p)) == MapPane(Reader(h), p)
  {
    LabelsFresh(h, k, n, s, p.stateLabels);
    LabelsFresh(h, k, n, s, p.terminal.tokens);
  }

  lemma {:induction false} AgentFresh(h: map<nat, Cell>, k: map<nat, Cell>, n: nat, s: set<nat>, a: Agent)
    requires Copies(h, k, n, s) && AgentIn(a, h.Keys)
    ensures AgentIn(CloneAgent(n, a), s) && MapAgent(Reader(k), CloneAgent(n, a)) == MapAgent(Reader(h), a)
  {
    LabelsFresh(h, k, n, s, a.stateLabels);
    LabelsFresh(h, k, n, s, a.terminal.tokens);
  }

  lemma {:induction false} LayoutFresh(h: map<nat, Cell>, k: map<nat, Cell>, n: nat, s: set<nat>, l: Layout)
    requires Copies(h, k, n, s) && LayoutIn(l, h.Keys)
    ensures LayoutIn(CloneLayout(n, l), s) && MapLayout(Reader(k), CloneLayout(n, l)) == MapLayout(Reader(h), l)
  {
    if l.geometry.GeometryAt? { assert l.geometry.address in h; }
  }

  lemma {:induction false} WorkspacesFresh(h: map<nat, Cell>, k: map<nat, Cell>, n: nat, s: set<nat>,
                                           ws: seq<Workspace>)
    requires Copies(h, k, n, s) && forall i :: 0 <= i < |ws| ==> WorkspaceIn(ws[i], h.Keys)
    ensures var c := All(ws, WorkspaceMap(Shift(n)));
            (forall i :: 0 <= i < |c| ==> WorkspaceIn(c[i], s))
              && All(c, WorkspaceMap(Reader(k))) == All(ws, WorkspaceMap(Reader(h)))
  {
    hide Copies, WorkspaceIn, MapWorkspace;
    forall i | 0 <= i < |ws|
      ensures WorkspaceIn(CloneWorkspace(n, ws[i]), s)
              && MapWorkspace(Reader(k), CloneWorkspace(n, ws[i])) == MapWorkspace(Reader(h), ws[i])
    {
      WorkspaceFresh(h, k, n, s, ws[i]);
    }
  }

  lemma {:induction false} PanesFresh(h: map<nat, Cell>, k: map<nat, Cell>, n: nat, s: set<nat>, ps: seq<Pane>)
    requires Copies(h, k, n, s) && forall i :: 0 <= i < |ps| ==> PaneIn(ps[i], h.Keys)
    ensures var c := All(ps, PaneMap(Shift(n)));
            (forall i :: 0 <= i < |c| ==> PaneIn(c[i], s)) && All(c, PaneMap(Reader(k))) == All(ps, PaneMap(Reader(h)))
  {
    hide Copies, PaneIn, MapPane;
    forall i | 0 <= i < |ps|
      ensures PaneIn(ClonePane(n, ps[i]), s) && MapPane(Reader(k), ClonePane(n, ps[i])) == MapPane(Reader(h), ps[i])
    {
      PaneFresh(h, k, n, s, ps[i]);
    }
  }

  lemma {:induction false} AgentsFresh(h: map<nat, Cell>, k: map<nat, Cell>, n: nat, s: set<nat>, xs: seq<Agent>)
    requires Copies(h, k, n, s) && forall i :: 0 <= i < |xs| ==> AgentIn(xs[i], h.Keys)
    ensures var c := All(xs, AgentMap(Shift(n)));
            (forall i :: 0 <= i < |c| ==> AgentIn(c[i], s))
              && All(c, AgentMap(Reader(k))) == All(xs, AgentMap(Reader(h)))
  {
    hide Copies, AgentIn, MapAgent;
    forall i | 0 <= i < |xs|
      ensures AgentIn(CloneAgent(n, xs[i]), s)
              && MapAgent(Reader(k), CloneAgent(n, xs[i])) == MapAgent(Reader(h), xs[i])
    {
      AgentFresh(h, k, n, s, xs[i]);
    }
  }

  lemma {:induction false} LayoutsFresh(h: map<nat, Cell>, k: map<nat, Cell>, n: nat, s: set<nat>, ls: seq<Layout>)
    requires Copies(h, k, n, s) && forall i :: 0 <= i < |ls| ==> LayoutIn(ls[i], h.Keys)
    ensures var c := All(ls, LayoutMap(Shift(n)));
            (forall i :: 0 <= i < |c| ==> LayoutIn(c[i], s))
              && All(c, LayoutMap(Reader(k))) == All(ls, LayoutMap(Reader(h)))
  {
    hide Copies, LayoutIn, MapLayout;
    forall i | 0 <= i < |ls|
      ensures LayoutIn(CloneLayout(n, ls[i]), s)
              && MapLayout(Reader(k), CloneLayout(n, ls[i])) == MapLayout(Reader(h), ls[i])
    {
      LayoutFresh(h, k, n, s, ls[i]);
    }
  }

  predicate Reports(e: Event) {
    || e.WorkspaceReported? || e.WorkspacesListed? || e.WorktreeRemoved? || e.PaneReported? || e.PaneMoved?
    || e.PaneAgentStatusChanged? || e.LayoutUpdated?
  }

  /** The records that an event reports and a branch clones. */
  lemma {:induction false} CloneFresh(mem: Memory, e: Event)
    requires Sound(mem) && EventIn(e, mem.cells.Keys)
    ensures EventIn(MapEvent(Shift(mem.next), e), Moved(mem))
    ensures MapEvent(Reader(Doubled(mem).cells), MapEvent(Shift(mem.next), e)) == MapEvent(Reader(mem.cells), e)
  {
    hide Doubled, Moved, EventIn, MapEvent, Reader, Shift;
    if Reports(e) {
      ReportFresh(mem, e);
    } else {
      NothingReported(e, Shift(mem.next), Moved(mem));
      NothingReported(e, Reader(Doubled(mem).cells), Moved(mem));
      NothingReported(e, Reader(mem.cells), Moved(mem));
    }
  }

  lemma {:induction false} NothingReported(e: Event, r: Renaming, s: set<nat>)
    requires !Reports(e)
    ensures MapEvent(r, e) == e && EventIn(e, s)
  {
  }

  lemma {:induction false} ReportFresh(mem: Memory, e: Event)
    requires Sound(mem) && EventIn(e, mem.cells.Keys) && Reports(e)
    ensures EventIn(MapEvent(Shift(mem.next), e), Moved(mem))
    ensures MapEvent(Reader(Doubled(mem).cells), MapEvent(Shift(mem.next), e)) == MapEvent(Reader(mem.cells), e)
  {
    hide Doubled, Moved, Copies, WorkspaceIn, PaneIn, LayoutIn, LabelsIn, MapWorkspace, MapPane, MapLayout, MapLabels,
         Reader, Shift;
    DoubledFacts(mem);
    var h, k, n, s := mem.cells, Doubled(mem).cells, mem.next, Moved(mem);
    match e
    case WorkspaceReported(_, w) => WorkspaceFresh(h, k, n, s, w);
    case WorkspacesListed(_, ws) => WorkspacesFresh(h, k, n, s, ws);
    case WorktreeRemoved(w) => if w.Present? { WorkspaceFresh(h, k, n, s, w.value); }
    case PaneReported(_, p) => PaneFresh(h, k, n, s, p);
    case PaneMoved(_, p, w, _, _, _) =>
      PaneFresh(h, k, n, s, p);
      if w.Present? { WorkspaceFresh(h, k, n, s, w.value); }
    case PaneAgentStatusChanged(_, _, _, _, _, labels) => LabelsFresh(h, k, n, s, labels);
    case LayoutUpdated(l) => LayoutFresh(h, k, n, s, l);
  }

  /** A held pane that a branch changes and clones again. */
  lemma {:induction false} RecloneFresh(mem: Memory, m: M.State, id: string, p: Pane)
    requires Sound(mem) && StateIn(m, mem.cells.Keys) && id in Lookup(m.panes)
    requires p == Lookup(m.panes)[id].(revision := p.revision, scroll := p.scroll)
    ensures PaneIn(ClonePane(mem.next, p), Moved(mem))
    ensures var stored := MapPane(Reader(Doubled(mem).cells), ClonePane(mem.next, p));
            var held, was := Lookup(m.panes)[id], MapPane(Reader(mem.cells), Lookup(m.panes)[id]);
            && (p.scroll == held.scroll ==> stored == was.(revision := p.revision))
            && (p.revision == held.revision ==> stored == was.(scroll := p.scroll))
  {
    hide Doubled, Moved, Copies, Reader, ClonePane;
    DoubledFacts(mem);
    var i := LookupIndex(m.panes, id);
    PaneFresh(mem.cells, Doubled(mem).cells, mem.next, Moved(mem), p);
  }

  /** The addresses in what a branch stores are new, and the mirror takes it for what the event meant. */
  lemma {:induction false} ReceivedFresh(mem: Memory, m: M.State, e: Event)
    requires Sound(mem) && StateIn(m, mem.cells.Keys) && EventIn(e, mem.cells.Keys)
    ensures EventIn(Received(mem.next, m, e), Moved(mem))
    ensures var v := MapState(Reader(mem.cells), m);
            M.Apply(v, MapEvent(Reader(Doubled(mem).cells), Received(mem.next, m, e))) ==
            M.Apply(v, MapEvent(Reader(mem.cells), e))
  {
    hide Doubled, Moved, StateIn, MapState, Reader, Shift, Lookup;
    if e.PaneOutputChanged? || e.PaneScrollChanged? {
      RecloneReceived(mem, m, e);
    } else {
      CloneReceived(mem, m, e);
    }
  }

  lemma {:induction false} RecloneReceived(mem: Memory, m: M.State, e: Event)
    requires Sound(mem) && StateIn(m, mem.cells.Keys) && (e.PaneOutputChanged? || e.PaneScrollChanged?)
    ensures EventIn(Received(mem.next, m, e), Moved(mem))
    ensures var v := MapState(Reader(mem.cells), m);
            M.Apply(v, MapEvent(Reader(Doubled(mem).cells), Received(mem.next, m, e))) ==
            M.Apply(v, MapEvent(Reader(mem.cells), e))
  {
    hide Doubled, Moved, StateIn, PaneIn, MapState, MapPane, ClonePane, Reader, Shift, Lookup, M.SetPane;
    HeldPane(Reader(mem.cells), m, e.paneId);
    if e.paneId in Lookup(m.panes) {
      var held := Lookup(m.panes)[e.paneId];
      if e.PaneOutputChanged? {
        RecloneFresh(mem, m, e.paneId, held.(revision := e.revision));
      } else {
        RecloneFresh(mem, m, e.paneId, held.(scroll := Present(e.scroll)));
      }
    }
  }

  lemma {:induction false} CloneReceived(mem: Memory, m: M.State, e: Event)
    requires Sound(mem) && EventIn(e, mem.cells.Keys) && !e.PaneOutputChanged? && !e.PaneScrollChanged?
    ensures EventIn(Received(mem.next, m, e), Moved(mem))
    ensures var v := MapState(Reader(mem.cells), m);
            M.Apply(v, MapEvent(Reader(Doubled(mem).cells), Received(mem.next, m, e))) ==
            M.Apply(v, MapEvent(Reader(mem.cells), e))
  {
    hide Doubled, Moved, MapState, Reader, Shift, Lookup;
    CloneFresh(mem, e);
    if e.PaneAgentStatusChanged? {
      HeldPane(Reader(mem.cells), m, e.paneId);
    } else {
      hide EventIn, MapEvent, M.Apply;
    }
  }

  lemma {:induction false} SnapshotFresh(mem: Memory, x: Snapshot)
    requires Sound(mem) && SnapshotIn(x, mem.cells.Keys)
    ensures SnapshotIn(MapSnapshot(Shift(mem.next), x), Moved(mem))
    ensures MapSnapshot(Reader(Doubled(mem).cells), MapSnapshot(Shift(mem.next), x))
            == MapSnapshot(Reader(mem.cells), x)
  {
    hide Doubled, Moved, Copies, WorkspaceIn, PaneIn, AgentIn, LayoutIn, Reader, Shift;
    DoubledFacts(mem);
    var h, k, n, s := mem.cells, Doubled(mem).cells, mem.next, Moved(mem);
    WorkspacesFresh(h, k, n, s, x.workspaces);
    PanesFresh(h, k, n, s, x.panes);
    AgentsFresh(h, k, n, s, x.agents);
    LayoutsFresh(h, k, n, s, x.layouts);
  }

  // ---------------------------------------------------------------- callers and the mirror

  /** The accessors of a session. */
  datatype Query = AskSnapshot | AskWorkspaces | AskTabs | AskPane(id: string) | AskAgents | AskLayout(tab: string)

  datatype Reply =
    | Whole(snapshot: Snapshot)
    | Workspaces(workspaces: seq<Workspace>)
    | Tabs(tabs: seq<Tab>)
    | OnePane(pane: Optional<Pane>)
    | Agents(agents: seq<Agent>)
    | OneLayout(layout: Optional<Layout>)

  /** What an accessor finds in the mirror. */
  ghost function Select(m: M.State, q: Query): Reply {
    match q
    case AskSnapshot => Whole(M.ToSnapshot(m))
    case AskWorkspaces => Workspaces(Values(m.workspaces))
    case AskTabs => Tabs(Values(m.tabs))
    case AskPane(id) => OnePane(if id in Lookup(m.panes) then Present(Lookup(m.panes)[id]) else Absent)
    case AskAgents => Agents(Values(m.agents))
    case AskLayout(tab) => OneLayout(if tab in Lookup(m.layouts) then Present(Lookup(m.layouts)[tab]) else Absent)
  }

  function MapReply(r: Renaming, x: Reply): Reply {
    match x
    case Whole(s) => Whole(MapSnapshot(r, s))
    case Workspaces(ws) => Workspaces(All(ws, WorkspaceMap(r)))
    case Tabs(_) => x
    case OnePane(p) => OnePane(if p.Present? then Present(MapPane(r, p.value)) else p)
    case Agents(xs) => Agents(All(xs, AgentMap(r)))
    case OneLayout(l) => OneLayout(if l.Present? then Present(MapLayout(r, l.value)) else l)
  }

  ghost predicate ReplyIn(x: Reply, s: set<nat>) {
    match x
    case Whole(snapshot) => SnapshotIn(snapshot, s)
    case Workspaces(ws) => forall i :: 0 <= i < |ws| ==> WorkspaceIn(ws[i], s)
    case Tabs(_) => true
    case OnePane(p) => p.Present? ==> PaneIn(p.value, s)
    case Agents(xs) => forall i :: 0 <= i < |xs| ==> AgentIn(xs[i], s)
    case OneLayout(l) => l.Present? ==> LayoutIn(l.value, s)
  }

  /** The memory, the mirror, and the addresses that callers may have got hold of. */
  datatype System = System(mem: Memory, mirror: M.State, held: set<nat>)

  datatype Action =
    | Deliver(e: Event)
    | Bootstrap(snapshot: Snapshot)
    | Ask(q: Query)
    | CallerWrites(a: nat, c: Cell)
    | CallerAllocates(c: Cell)

  /** What a caller passes in, or writes to, it can reach. */
  ghost predicate Allowed(x: System, act: Action) {
    match act
    case Deliver(e) => EventIn(e, x.held)
    case Bootstrap(s) => SnapshotIn(s, x.held)
    case Ask(_) => true
    case CallerWrites(a, _) => a in x.held
    case CallerAllocates(_) => true
  }

  ghost function Step(x: System, act: Action): System {
    match act
    case Deliver(e) => x.(mem := Doubled(x.mem), mirror := M.Apply(x.mirror, Received(x.mem.next, x.mirror, e)))
    case Bootstrap(s) => x.(mem := Doubled(x.mem), mirror := M.FromSnapshot(MapSnapshot(Shift(x.mem.next), s)))
    case Ask(_) => x.(mem := Doubled(x.mem), held := x.held + Moved(x.mem))
    case CallerWrites(a, c) => x.(mem := x.mem.(cells := x.mem.cells[a := c]))
    case CallerAllocates(c) => System(Memory(x.mem.cells[x.mem.next := c], x.mem.next + 1), x.mirror,
                                      x.held + {x.mem.next})
  }

  /** What the accessor returns: every record it finds, cloned. */
  ghost function Answer(x: System, q: Query): Reply {
    MapReply(Shift(x.mem.next), Select(x.mirror, q))
  }

  /** Callers and the mirror reach no common address. */
  ghost predicate Isolated(x: System) {
    Sound(x.mem) && x.held <= x.mem.cells.Keys && StateIn(x.mirror, x.mem.cells.Keys - x.held)
  }

  /** What the mirror means. */
  ghost function Value(x: System): M.State {
    MapState(Reader(x.mem.cells), x.mirror)
  }

  /** What a step does to the meaning of the mirror: caller writes and reads do nothing. */
  ghost function Effect(x: System, v: M.State, act: Action): M.State {
    match act
    case Deliver(e) => M.Apply(v, MapEvent(Reader(x.mem.cells), e))
    case Bootstrap(s) => M.FromSnapshot(MapSnapshot(Reader(x.mem.cells), s))
    case _ => v
  }

  lemma {:induction false} DeliverOk(x: System, e: Event)
    requires Isolated(x) && EventIn(e, x.held)
    ensures Isolated(Step(x, Deliver(e))) && Value(Step(x, Deliver(e))) == Effect(x, Value(x), Deliver(e))
  {
    hide Doubled, Moved, Copies, Received, MapState, MapEvent, StateIn, EventIn, Reader, M.Apply;
    var y, stored := Step(x, Deliver(e)), Received(x.mem.next, x.mirror, e);
    var owned, all := x.mem.cells.Keys - x.held, y.mem.cells.Keys - y.held;
    DoubledFacts(x.mem);
    EventInMore(e, x.held, x.mem.cells.Keys);
    StateInMore(x.mirror, owned, x.mem.cells.Keys);
    ReceivedFresh(x.mem, x.mirror, e);
    StateInMore(x.mirror, owned, all);
    EventInMore(stored, Moved(x.mem), all);
    ApplyIn(x.mirror, stored, all);
    ApplyNatural(Reader(y.mem.cells), x.mirror, stored);
    ValueAgrees(x.mirror, owned, x.mem.cells, y.mem.cells);
  }

  lemma {:induction false} BootstrapOk(x: System, s: Snapshot)
    requires Isolated(x) && SnapshotIn(s, x.held)
    ensures Isolated(Step(x, Bootstrap(s))) && Value(Step(x, Bootstrap(s))) == Effect(x, Value(x), Bootstrap(s))
  {
    hide Doubled, Moved, Copies, MapState, MapSnapshot, StateIn, SnapshotIn, Reader, M.FromSnapshot, Shift;
    var y := Step(x, Bootstrap(s));
    var all := y.mem.cells.Keys - y.held;
    var c := MapSnapshot(Shift(x.mem.next), s);
    DoubledFacts(x.mem);
    SnapshotInMore(s, x.held, x.mem.cells.Keys);
    SnapshotFresh(x.mem, s);
    SnapshotInMore(c, Moved(x.mem), all);
    FromSnapshotIn(c, all);
    FromSnapshotNatural(Reader(y.mem.cells), c);
  }

  lemma {:induction false} SnapshotInMore(x: Snapshot, s: set<nat>, t: set<nat>)
    requires SnapshotIn(x, s) && s <= t
    ensures SnapshotIn(x, t)
  {
  }

  lemma {:induction false} StillOwned(keys: set<nat>, more: set<nat>, held: set<nat>)
    requires keys !! more
    ensures (keys + more) - (held + more) == keys - held
  {
  }

  lemma {:induction false} AskOk(x: System, q: Query)
    requires Isolated(x)
    ensures Isolated(Step(x, Ask(q))) && Value(Step(x, Ask(q))) == Value(x)
  {
    hide Doubled, Moved, Copies, MapState, StateIn, Reader;
    DoubledFacts(x.mem);
    StillOwned(x.mem.cells.Keys, Moved(x.mem), x.held);
    ValueAgrees(x.mirror, x.mem.cells.Keys - x.held, x.mem.cells, Doubled(x.mem).cells);
  }

  lemma {:induction false} WriteOk(x: System, a: nat, c: Cell)
    requires Isolated(x) && a in x.held
    ensures Isolated(Step(x, CallerWrites(a, c))) && Value(Step(x, CallerWrites(a, c))) == Value(x)
  {
    hide Doubled, Moved, MapState, StateIn, Reader;
    var y, owned := Step(x, CallerWrites(a, c)), x.mem.cells.Keys - x.held;
    assert y.mem.cells.Keys == x.mem.cells.Keys;
    ValueAgrees(x.mirror, owned, x.mem.cells, y.mem.cells);
  }

  lemma {:induction false} AllocateOk(x: System, c: Cell)
    requires Isolated(x)
    ensures Isolated(Step(x, CallerAllocates(c))) && Value(Step(x, CallerAllocates(c))) == Value(x)
  {
    hide Doubled, Moved, MapState, StateIn, Reader;
    var y, owned := Step(x, CallerAllocates(c)), x.mem.cells.Keys - x.held;
    assert y.mem.cells.Keys - y.held == owned;
    ValueAgrees(x.mirror, owned, x.mem.cells, y.mem.cells);
  }

  // ---------------------------------------------------------------- whole runs

  ghost function Run(x: System, acts: seq<Action>): System {
    if acts == [] then x else Step(Run(x, acts[..|acts| - 1]), acts[|acts| - 1])
  }

  ghost predicate AllowedRun(x: System, acts: seq<Action>) {
    acts == [] || (AllowedRun(x, acts[..|acts| - 1]) && Allowed(Run(x, acts[..|acts| - 1]), acts[|acts| - 1]))
  }

  /** The pure reducer over what events and snapshots meant when they came in. */
  ghost function Expected(x: System, acts: seq<Action>): M.State {
    if acts == [] then Value(x)
    else
      var before := acts[..|acts| - 1];
      Effect(Run(x, before), Expected(x, before), acts[|acts| - 1])
  }

  /** Over every run, whatever callers write: callers and the mirror stay apart, and the mirror means what the reducer
      gives. */
  lemma {:induction false} RunIsolated(x: System, acts: seq<Action>)
    requires Isolated(x) && AllowedRun(x, acts)
    ensures Isolated(Run(x, acts)) && Value(Run(x, acts)) == Expected(x, acts)
    decreases |acts|
  {
    hide Isolated, Value, Step, Effect, Allowed;
    if acts != [] {
      var before := acts[..|acts| - 1];
      RunIsolated(x, before);
      StepOk(Run(x, before), acts[|acts| - 1]);
    }
  }

  lemma {:induction false} StepOk(x: System, act: Action)
    requires Isolated(x) && Allowed(x, act)
    ensures Isolated(Step(x, act)) && Value(Step(x, act)) == Effect(x, Value(x), act)
  {
    hide Isolated, Value, Step;
    match act
    case Deliver(e) => DeliverOk(x, e);
    case Bootstrap(s) => BootstrapOk(x, s);
    case Ask(q) => AskOk(x, q);
    case CallerWrites(a, c) => WriteOk(x, a, c);
    case CallerAllocates(c) => AllocateOk(x, c);
  }

  // ---------------------------------------------------------------- reads

  lemma {:induction false} EachValues<T>(s: seq<Entry<T>>, f: T -> T)
    ensures Values(Each(s, f)) == All(Values(s), f)
  {
  }

  lemma {:induction false} EachFocused<T>(s: seq<Entry<T>>, focused: T -> bool, f: T -> T)
    requires forall i :: 0 <= i < |s| ==> focused(f(s[i].1)) == focused(s[i].1)
    ensures M.FocusedId(Each(s, f), focused) == M.FocusedId(s, focused)
  {
    EachFirst(s, focused, f);
  }

  lemma {:induction false} EachFirst<T>(s: seq<Entry<T>>, match': T -> bool, f: T -> T)
    requires forall i :: 0 <= i < |s| ==> match'(f(s[i].1)) == match'(s[i].1)
    ensures FirstWhere(Each(s, f), match') == FirstWhere(s, match')
  {
    if s != [] {
      EachFirst(s[..|s| - 1], match', f);
      assert Each(s, f)[..|s| - 1] == Each(s[..|s| - 1], f);
    }
  }

  lemma {:induction false} SelectNatural(r: Renaming, m: M.State, q: Query)
    ensures Select(MapState(r, m), q) == MapReply(r, Select(m, q))
  {
    hide Lookup, Values, Each, All, M.FocusedId, MapPane, MapLayout, MapWorkspace, MapAgent;
    match q
    case AskSnapshot =>
      EachValues(m.workspaces, WorkspaceMap(r));
      EachValues(m.panes, PaneMap(r));
      EachValues(m.agents, AgentMap(r));
      EachValues(m.layouts, LayoutMap(r));
      FocusedIdsNatural(r, m);
    case AskWorkspaces => EachValues(m.workspaces, WorkspaceMap(r));
    case AskTabs =>
    case AskPane(_) => EachLookup(m.panes, PaneMap(r));
    case AskAgents => EachValues(m.agents, AgentMap(r));
    case AskLayout(_) => EachLookup(m.layouts, LayoutMap(r));
  }

  lemma {:induction false} FocusedIdsNatural(r: Renaming, m: M.State)
    ensures M.FocusedId(MapState(r, m).workspaces, M.WorkspaceFocus) == M.FocusedId(m.workspaces, M.WorkspaceFocus)
    ensures M.FocusedId(MapState(r, m).panes, M.PaneFocus) == M.FocusedId(m.panes, M.PaneFocus)
  {
    EachFocused(m.workspaces, M.WorkspaceFocus, WorkspaceMap(r));
    EachFocused(m.panes, M.PaneFocus, PaneMap(r));
  }

  lemma {:induction false} SelectIn(m: M.State, s: set<nat>, q: Query)
    requires StateIn(m, s)
    ensures ReplyIn(Select(m, q), s)
  {
    if q.AskPane? && q.id in Lookup(m.panes) { var i := LookupIndex(m.panes, q.id); }
    if q.AskLayout? && q.tab in Lookup(m.layouts) { var i := LookupIndex(m.layouts, q.tab); }
  }

  lemma {:induction false} ReplyFresh(mem: Memory, x: Reply)
    requires Sound(mem) && ReplyIn(x, mem.cells.Keys)
    ensures ReplyIn(MapReply(Shift(mem.next), x), Moved(mem))
    ensures MapReply(Reader(Doubled(mem).cells), MapReply(Shift(mem.next), x)) == MapReply(Reader(mem.cells), x)
  {
    hide Doubled, Moved, Copies, WorkspaceIn, PaneIn, AgentIn, LayoutIn, Reader, Shift, MapPane, MapLayout;
    DoubledFacts(mem);
    var h, k, n, s := mem.cells, Doubled(mem).cells, mem.next, Moved(mem);
    match x
    case Whole(snapshot) => SnapshotFresh(mem, snapshot);
    case Workspaces(ws) => WorkspacesFresh(h, k, n, s, ws);
    case Tabs(_) =>
    case OnePane(p) => if p.Present? { PaneFresh(h, k, n, s, p.value); }
    case Agents(xs) => AgentsFresh(h, k, n, s, xs);
    case OneLayout(l) => if l.Present? { LayoutFresh(h, k, n, s, l.value); }
  }

  /** A read returns what the mirror means, in addresses that neither the mirror nor any earlier caller has. */
  lemma {:induction false} ReadsAreCurrent(x: System, q: Query)
    requires Isolated(x)
    ensures ReplyIn(Answer(x, q), Moved(x.mem)) && Moved(x.mem) !! x.mem.cells.Keys
    ensures MapReply(Reader(Step(x, Ask(q)).mem.cells), Answer(x, q)) == Select(Value(x), q)
  {
    hide Doubled, Moved, MapState, MapReply, StateIn, ReplyIn, Reader, Select, Shift;
    DoubledFacts(x.mem);
    StateInMore(x.mirror, x.mem.cells.Keys - x.held, x.mem.cells.Keys);
    SelectIn(x.mirror, x.mem.cells.Keys, q);
    ReplyFresh(x.mem, Select(x.mirror, q));
    SelectNatural(Reader(x.mem.cells), x.mirror, q);
  }

  /** The records in the order of the index, each the one held under its id. */
  ghost predicate Lists<T>(values: seq<T>, s: seq<Entry<T>>) {
    |values| == |s| && forall i :: 0 <= i < |s| ==> s[i].0 in Lookup(s) && values[i] == Lookup(s)[s[i].0]
  }

  ghost predicate Finds<T>(found: Optional<T>, s: seq<Entry<T>>, id: string) {
    if id in Lookup(s) then found == Present(Lookup(s)[id]) else found == Absent
  }

  lemma {:induction false} ListsValues<T>(s: seq<Entry<T>>)
    requires Distinct(s)
    ensures Lists(Values(s), s)
  {
    hide Lookup;
    forall i | 0 <= i < |s| ensures s[i].0 in Lookup(s) && Values(s)[i] == Lookup(s)[s[i].0] { LookupAt(s, i); }
  }

  /** What each accessor finds: the records of its own index in order, or the one under the id asked for. */
  lemma {:induction false} AccessorFinds(m: M.State, q: Query)
    requires M.WellFormed(m)
    ensures var x := Select(m, q);
            match q
            case AskSnapshot =>
              && x.Whole? && Lists(x.snapshot.workspaces, m.workspaces) && Lists(x.snapshot.tabs, m.tabs)
              && Lists(x.snapshot.panes, m.panes) && Lists(x.snapshot.agents, m.agents)
              && Lists(x.snapshot.layouts, m.layouts)
              && x.snapshot.version == m.version && x.snapshot.protocol == m.protocol
            case AskWorkspaces => x.Workspaces? && Lists(x.workspaces, m.workspaces)
            case AskTabs => x.Tabs? && Lists(x.tabs, m.tabs)
            case AskPane(id) => x.OnePane? && Finds(x.pane, m.panes, id)
            case AskAgents => x.Agents? && Lists(x.agents, m.agents)
            case AskLayout(tab) => x.OneLayout? && Finds(x.layout, m.layouts, tab)
  {
    hide Lookup, Lists, Values, M.FocusedId;
    ListsValues(m.workspaces);
    ListsValues(m.tabs);
    ListsValues(m.panes);
    ListsValues(m.agents);
    ListsValues(m.layouts);
  }

  /** The other direction of isolation: a caller's write is seen in what callers hold and nowhere else, and nothing that
      the mirror does, events and reads included, changes what callers hold. */
  lemma {:induction false} CallersKeepTheirs(x: System, act: Action, a: nat)
    requires Isolated(x) && Allowed(x, act) && a in x.held
    ensures a in Step(x, act).held && a in Step(x, act).mem.cells
    ensures Step(x, act).mem.cells[a] ==
            if act.CallerWrites? && act.a == a then act.c else x.mem.cells[a]
  {
    hide StateIn, Copies, MapEvent, M.Apply, M.FromSnapshot;
    DoubledFacts(x.mem);
  }
}
