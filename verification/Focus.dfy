/** Where a snapshot of the mirror says the focus is, and how focus events move it. */
module Focus {
  import opened Records
  import opened AssocList
  import M = Mirror

  /** An id and whether it has the focus. */
  type Flag = (string, bool)

  function WorkspaceFlags(ws: seq<Workspace>): seq<Flag> {
    seq(|ws|, i requires 0 <= i < |ws| => (ws[i].id, ws[i].focused))
  }

  function TabFlags(ts: seq<Tab>): seq<Flag> {
    seq(|ts|, i requires 0 <= i < |ts| => (ts[i].id, ts[i].focused))
  }

  function PaneFlags(ps: seq<Pane>): seq<Flag> {
    seq(|ps|, i requires 0 <= i < |ps| => (ps[i].id, ps[i].focused))
  }

  /** The id of the first that has the focus; absent when none has. */
  ghost predicate Tells(focus: Optional<string>, flags: seq<Flag>) {
    || (focus == Absent && forall i :: 0 <= i < |flags| ==> !flags[i].1)
    || (exists i :: 0 <= i < |flags| && flags[i].1 && focus == Present(flags[i].0)
                    && forall j :: 0 <= j < i ==> !flags[j].1)
  }

  lemma {:induction false} FocusedIdTells<T>(s: seq<Entry<T>>, key: T -> string, focus: T -> bool, flags: seq<Flag>)
    requires M.Keyed(s, key) && |flags| == |s|
    requires forall i :: 0 <= i < |s| ==> flags[i] == (key(s[i].1), focus(s[i].1))
    ensures Tells(M.FocusedId(s, focus), flags)
  {
    hide Lookup;
    FirstWhereIs(s, focus);
    forall i: nat | i < |s| ensures key(s[i].1) == s[i].0 { LookupAt(s, i); }
  }

  /** A snapshot names the first workspace, tab and pane with the focus among those it lists. */
  lemma {:induction false} SnapshotTellsFocus(m: M.State)
    requires M.WellFormed(m)
    ensures var s := M.ToSnapshot(m);
            && Tells(s.focusedWorkspace, WorkspaceFlags(s.workspaces)) && Tells(s.focusedTab, TabFlags(s.tabs))
            && Tells(s.focusedPane, PaneFlags(s.panes))
  {
    hide Tells, M.FocusedId, M.Keyed;
    var s := M.ToSnapshot(m);
    FocusedIdTells(m.workspaces, WorkspaceKey, M.WorkspaceFocus, WorkspaceFlags(s.workspaces));
    FocusedIdTells(m.tabs, TabKey, M.TabFocus, TabFlags(s.tabs));
    FocusedIdTells(m.panes, PaneKey, M.PaneFocus, PaneFlags(s.panes));
  }

  lemma {:induction false} OnlyFocused<T>(s: seq<Entry<T>>, rewrite: (string, T) -> T, focus: T -> bool, id: string)
    requires Distinct(s) && forall i :: 0 <= i < |s| ==> focus(rewrite(s[i].0, s[i].1)) == (s[i].0 == id)
    ensures M.FocusedId(Update(s, rewrite), focus) == if id in Lookup(s) then Present(id) else Absent
  {
    var r := Update(s, rewrite);
    FirstWhereIs(r, focus);
    var first := FirstWhere(r, focus);
    if id in Lookup(s) {
      var i := LookupIndex(s, id);
      assert focus(r[i].1);
    } else if first >= 0 {
      LookupAt(s, first);
    }
  }

  /** A focus event leaves the focus, among all of its kind, at its own id when that is held and nowhere otherwise. */
  lemma {:induction false} FocusMoves(m: M.State, e: Event)
    requires M.WellFormed(m)
    ensures var s := M.ToSnapshot(M.Apply(m, e));
            && (e.WorkspaceFocused? ==>
                  s.focusedWorkspace == if e.workspaceId in Lookup(m.workspaces) then Present(e.workspaceId)
                    else Absent)
            && (e.TabFocused? ==> s.focusedTab == if e.tabId in Lookup(m.tabs) then Present(e.tabId) else Absent)
            && (e.PaneFocused? ==> s.focusedPane == if e.paneId in Lookup(m.panes) then Present(e.paneId) else Absent)
  {
    hide M.FocusedId, Lookup, Update, Put, Values;
    if e.WorkspaceFocused? {
      OnlyFocused(m.workspaces, M.FocusedWorkspace(e.workspaceId), M.WorkspaceFocus, e.workspaceId);
    } else if e.TabFocused? {
      OnlyFocused(m.tabs, M.FocusedTab(e.tabId), M.TabFocus, e.tabId);
    } else if e.PaneFocused? {
      OnlyFocused(m.panes, M.FocusedPane(e.paneId), M.PaneFocus, e.paneId);
    }
  }
}
