/** pane.moved in one step: the whole cascade is one filter per index, after the pane is rekeyed. */
module Moves {
  import opened Records
  import opened AssocList
  import M = Mirror

  function Names(closed: Optional<string>, id: string): bool {
    closed.Present? && closed.value == id
  }

  function KeepsWorkspace(e: Event): Entry<Workspace> -> bool
    requires e.PaneMoved?
  {
    (x: Entry<Workspace>) => !Names(e.closedWorkspace, x.0)
  }

  function KeepsTab(e: Event): Entry<Tab> -> bool
    requires e.PaneMoved?
  {
    (x: Entry<Tab>) => !Names(e.closedTab, x.0) && !Names(e.closedWorkspace, x.1.workspace)
  }

  function KeepsPane(e: Event): Entry<Pane> -> bool
    requires e.PaneMoved?
  {
    (x: Entry<Pane>) => !Names(e.closedTab, x.1.tab) && !Names(e.closedWorkspace, x.1.workspace)
  }

  function KeepsAgent(e: Event): Entry<Agent> -> bool
    requires e.PaneMoved?
  {
    (x: Entry<Agent>) => !Names(e.closedTab, x.1.tab) && !Names(e.closedWorkspace, x.1.workspace)
  }

  function KeepsLayout(e: Event): Entry<Layout> -> bool
    requires e.PaneMoved?
  {
    (x: Entry<Layout>) => !Names(e.closedTab, x.0) && !Names(e.closedWorkspace, x.1.workspace)
  }

  /** The indexes once containers are created and the pane is rekeyed, before anything closes. */
  ghost function Rekeyed(m: M.State, e: Event): M.State
    requires e.PaneMoved?
  {
    M.Rekey(M.Containers(m, e.createdWorkspace, e.createdTab), e.previousPane, e.pane)
  }

  /** Two filters in a row, either of which may be absent, are one. */
  lemma {:induction false} Filters<T>(s: seq<Entry<T>>, p: Entry<T> -> bool, q: Entry<T> -> bool,
                                      both: Entry<T> -> bool, hasP: bool, hasQ: bool)
    requires forall e :: e in s ==> (both(e) <==> (hasP ==> p(e)) && (hasQ ==> q(e)))
    ensures Filter(s, both) ==
            var r := if hasP then Filter(s, p) else s;
            if hasQ then Filter(r, q) else r
  {
    hide Filter;
    if hasP && hasQ {
      FilterFilter(s, p, q);
      FilterSame(s, both, (e: Entry<T>) => p(e) && q(e));
    } else if hasP {
      FilterSame(s, both, p);
    } else if hasQ {
      FilterSame(s, both, q);
    } else {
      FilterAll(s, both);
    }
  }

  lemma {:induction false} MovePaneIs(m: M.State, e: Event)
    requires e.PaneMoved?
    ensures var r := Rekeyed(m, e);
            M.Apply(m, e) == r.(workspaces := Filter(r.workspaces, KeepsWorkspace(e)),
                                tabs := Filter(r.tabs, KeepsTab(e)), panes := Filter(r.panes, KeepsPane(e)),
                                agents := Filter(r.agents, KeepsAgent(e)), layouts := Filter(r.layouts, KeepsLayout(e)))
  {
    hide Filter, M.Rekey, M.Containers;
    var r := Rekeyed(m, e);
    var t := if e.closedTab.Present? then e.closedTab.value else "";
    var w := if e.closedWorkspace.Present? then e.closedWorkspace.value else "";
    var hasT, hasW := e.closedTab.Present?, e.closedWorkspace.Present?;
    Filters(r.workspaces, NotAt(w), NotAt(w), KeepsWorkspace(e), hasW, false);
    Filters(r.tabs, NotAt(t), Unmatched(M.TabOf(w)), KeepsTab(e), hasT, hasW);
    Filters(r.panes, Unmatched(M.InTab(t)), Unmatched(M.PaneOf(w)), KeepsPane(e), hasT, hasW);
    Filters(r.agents, Unmatched(M.AgentInTab(t)), Unmatched(M.AgentOf(w)), KeepsAgent(e), hasT, hasW);
    Filters(r.layouts, NotAt(t), Unmatched(M.LayoutOf(w)), KeepsLayout(e), hasT, hasW);
  }
}
