/** Closing a container takes exactly what lies under it and leaves a hierarchy behind. */
module Cascade {
  import opened Records
  import opened AssocList
  import opened Moves
  import M = Mirror

  ghost predicate TabIn(m: M.State, tab: string, workspace: string) {
    tab in Lookup(m.tabs) && Lookup(m.tabs)[tab].workspace == workspace
  }

  /** Each pane, agent and layout lies in a held tab of its workspace, and each tab in a held workspace. */
  ghost predicate Hierarchy(m: M.State) {
    && (forall k :: k in Lookup(m.tabs) ==> Lookup(m.tabs)[k].workspace in Lookup(m.workspaces))
    && (forall k :: k in Lookup(m.panes) ==> TabIn(m, Lookup(m.panes)[k].tab, Lookup(m.panes)[k].workspace))
    && (forall k :: k in Lookup(m.agents) ==> TabIn(m, Lookup(m.agents)[k].tab, Lookup(m.agents)[k].workspace))
    && (forall k :: k in Lookup(m.layouts) ==> TabIn(m, k, Lookup(m.layouts)[k].workspace))
  }

  lemma {:induction false} EntriesHeld<T>(s: seq<Entry<T>>)
    requires Distinct(s)
    ensures forall e :: e in s ==> e.0 in Lookup(s) && Lookup(s)[e.0] == e.1
  {
    forall e | e in s ensures e.0 in Lookup(s) && Lookup(s)[e.0] == e.1 {
      var i :| 0 <= i < |s| && s[i] == e;
      LookupAt(s, i);
    }
  }

  ghost function OtherWorkspace(id: string): Entry<Workspace> -> bool {
    (e: Entry<Workspace>) => e.0 != id
  }

  ghost function TabOutside(m: M.State, id: string): Entry<Tab> -> bool {
    (e: Entry<Tab>) => !TabIn(m, e.0, id)
  }

  ghost function PaneOutside(m: M.State, id: string): Entry<Pane> -> bool {
    (e: Entry<Pane>) => !TabIn(m, e.1.tab, id)
  }

  ghost function AgentOutside(m: M.State, id: string): Entry<Agent> -> bool {
    (e: Entry<Agent>) => !TabIn(m, e.1.tab, id)
  }

  ghost function LayoutOutside(m: M.State, id: string): Entry<Layout> -> bool {
    (e: Entry<Layout>) => !TabIn(m, e.0, id)
  }

  /** Closing a workspace removes exactly what its tabs hold and keeps everything else in order: one pass over each
      index's own workspace field computes the transitive closure. */
  lemma {:induction false} CloseWorkspaceIsTransitive(m: M.State, id: string)
    requires M.WellFormed(m) && Hierarchy(m)
    ensures M.CloseWorkspace(m, id) ==
            m.(workspaces := Filter(m.workspaces, OtherWorkspace(id)), tabs := Filter(m.tabs, TabOutside(m, id)),
               panes := Filter(m.panes, PaneOutside(m, id)), agents := Filter(m.agents, AgentOutside(m, id)),
               layouts := Filter(m.layouts, LayoutOutside(m, id)))
  {
    hide Filter, Lookup;
    EntriesHeld(m.tabs);
    EntriesHeld(m.panes);
    EntriesHeld(m.agents);
    EntriesHeld(m.layouts);
    FilterSame(m.workspaces, NotAt(id), OtherWorkspace(id));
    FilterSame(m.tabs, Unmatched(M.TabOf(id)), TabOutside(m, id));
    FilterSame(m.panes, Unmatched(M.PaneOf(id)), PaneOutside(m, id));
    FilterSame(m.agents, Unmatched(M.AgentOf(id)), AgentOutside(m, id));
    FilterSame(m.layouts, Unmatched(M.LayoutOf(id)), LayoutOutside(m, id));
  }

  lemma {:induction false} TabsOfOthersStay(m: M.State, id: string)
    requires Distinct(m.tabs)
    ensures forall t, w :: TabIn(m, t, w) && w != id ==> TabIn(M.CloseWorkspace(m, id), t, w)
  {
    hide Lookup, Remove, RemoveWhere;
    Kept(m.tabs, M.TabOf(id));
  }

  lemma {:induction false} OtherTabsStay(m: M.State, id: string)
    requires Distinct(m.tabs)
    ensures forall t, w :: TabIn(m, t, w) && t != id ==> TabIn(M.CloseTab(m, id), t, w)
  {
    hide Lookup, Remove, RemoveWhere;
    RemoveLookup(m.tabs, id);
  }

  /** Closing a workspace keeps the hierarchy. */
  lemma {:induction false} CloseWorkspaceHierarchy(m: M.State, id: string)
    requires M.WellFormed(m) && Hierarchy(m)
    ensures Hierarchy(M.CloseWorkspace(m, id))
  {
    hide Lookup, Remove, RemoveWhere, TabIn;
    TabsOfOthersStay(m, id);
    RemoveLookup(m.workspaces, id);
    Kept(m.tabs, M.TabOf(id));
    Kept(m.panes, M.PaneOf(id));
    Kept(m.agents, M.AgentOf(id));
    Kept(m.layouts, M.LayoutOf(id));
  }

  ghost function IdOutside<T(!new)>(ids: set<string>): Entry<T> -> bool {
    (e: Entry<T>) => e.0 !in ids
  }

  ghost function PaneInNone(ids: set<string>): Entry<Pane> -> bool {
    (e: Entry<Pane>) => e.1.tab !in ids
  }

  ghost function AgentInNone(ids: set<string>): Entry<Agent> -> bool {
    (e: Entry<Agent>) => e.1.tab !in ids
  }

  /** A mirror without some tabs and what they hold; the rest unchanged and in order. */
  ghost function WithoutTabs(m: M.State, ids: set<string>): M.State {
    m.(tabs := Filter(m.tabs, IdOutside(ids)), layouts := Filter(m.layouts, IdOutside(ids)),
       panes := Filter(m.panes, PaneInNone(ids)), agents := Filter(m.agents, AgentInNone(ids)))
  }

  lemma {:induction false} CloseTabFilters(m: M.State, id: string)
    ensures M.CloseTab(m, id) == WithoutTabs(m, {id})
  {
    hide Filter;
    FilterSame(m.tabs, NotAt(id), IdOutside({id}));
    FilterSame(m.layouts, NotAt(id), IdOutside({id}));
    FilterSame(m.panes, Unmatched(M.InTab(id)), PaneInNone({id}));
    FilterSame(m.agents, Unmatched(M.AgentInTab(id)), AgentInNone({id}));
  }

  /** Closing a tab removes exactly the tab and what it holds, keeps everything else as it was and in order, and keeps
      the hierarchy. */
  lemma {:induction false} CloseTabExact(m: M.State, id: string)
    requires M.WellFormed(m) && Hierarchy(m)
    ensures M.CloseTab(m, id) == WithoutTabs(m, {id}) && Hierarchy(M.CloseTab(m, id))
  {
    hide Lookup, Remove, RemoveWhere, WithoutTabs, TabIn;
    CloseTabFilters(m, id);
    OtherTabsStay(m, id);
    RemoveLookup(m.tabs, id);
    RemoveLookup(m.layouts, id);
    Kept(m.panes, M.InTab(id));
    Kept(m.agents, M.AgentInTab(id));
  }

  /** Tabs closed one after another. */
  ghost function CloseTabs(m: M.State, ids: seq<string>): M.State {
    if ids == [] then m else M.CloseTab(CloseTabs(m, ids[..|ids| - 1]), ids[|ids| - 1])
  }

  lemma {:induction false} OneFewer<T>(s: seq<Entry<T>>, p: Entry<T> -> bool, q: Entry<T> -> bool,
                                       both: Entry<T> -> bool)
    requires forall e :: e in s ==> (both(e) <==> p(e) && q(e))
    ensures Filter(s, both) == Filter(Filter(s, p), q)
  {
    hide Filter;
    FilterFilter(s, p, q);
    FilterSame(s, both, (e: Entry<T>) => p(e) && q(e));
  }

  lemma {:induction false} CloseTabsFilter(m: M.State, ids: seq<string>)
    ensures CloseTabs(m, ids) == WithoutTabs(m, set t | t in ids)
    decreases |ids|
  {
    hide Filter;
    if ids == [] {
      var none: set<string> := set t | t in ids;
      FilterAll(m.tabs, IdOutside(none));
      FilterAll(m.layouts, IdOutside(none));
      FilterAll(m.panes, PaneInNone(none));
      FilterAll(m.agents, AgentInNone(none));
    } else {
      var before, last := ids[..|ids| - 1], ids[|ids| - 1];
      var all, some := set t | t in ids, set t | t in before;
      CloseTabsFilter(m, before);
      CloseTabFilters(CloseTabs(m, before), last);
      assert all == some + {last} by { assert ids == before + [last]; }
      OneFewer(m.tabs, IdOutside(some), IdOutside({last}), IdOutside(all));
      OneFewer(m.layouts, IdOutside(some), IdOutside({last}), IdOutside(all));
      OneFewer(m.panes, PaneInNone(some), PaneInNone({last}), PaneInNone(all));
      OneFewer(m.agents, AgentInNone(some), AgentInNone({last}), AgentInNone(all));
    }
  }

  /** Closing a workspace is closing its tabs, in any order and with any repetition, and dropping the workspace. */
  lemma {:induction false} CloseWorkspaceTabByTab(m: M.State, id: string, ids: seq<string>)
    requires M.WellFormed(m) && Hierarchy(m)
    requires forall t :: t in ids <==> TabIn(m, t, id)
    ensures var r := CloseTabs(m, ids);
            M.CloseWorkspace(m, id) == r.(workspaces := Remove(r.workspaces, id))
  {
    hide Filter, Lookup, TabIn, Hierarchy, M.WellFormed, M.CloseWorkspace;
    var all := set t | t in ids;
    CloseTabsFilter(m, ids);
    CloseWorkspaceIsTransitive(m, id);
    FilterSame(m.workspaces, NotAt(id), OtherWorkspace(id));
    FilterSame(m.tabs, TabOutside(m, id), IdOutside(all));
    FilterSame(m.layouts, LayoutOutside(m, id), IdOutside(all));
    FilterSame(m.panes, PaneOutside(m, id), PaneInNone(all));
    FilterSame(m.agents, AgentOutside(m, id), AgentInNone(all));
  }

  /** A moved pane survives the close of the containers it left exactly when it does not land in one of them. */
  lemma {:induction false} MovedPaneSurvives(m: M.State, e: Event)
    requires M.WellFormed(m) && e.PaneMoved?
    ensures var panes := Lookup(M.Apply(m, e).panes);
            && (e.pane.id in panes <==>
                !Names(e.closedTab, e.pane.tab) && !Names(e.closedWorkspace, e.pane.workspace))
            && (e.pane.id in panes ==> panes[e.pane.id] == e.pane)
            && (e.previousPane != e.pane.id ==> e.previousPane !in panes)
  {
    hide Filter, Lookup, Put, Remove, M.Apply;
    MovePaneIs(m, e);
    RemoveLookup(m.panes, e.previousPane);
    PutLookup(Remove(m.panes, e.previousPane), e.pane.id, e.pane);
    FilterLookup(Rekeyed(m, e).panes, KeepsPane(e));
  }
}
