/** When replaying a buffer restores the agents. An agent is its pane plus the fields only a snapshot reports, so it is
    enough to follow, for each pane id, whether an agent is there and which of those fields it keeps. */
module ReplayAgents {
  import opened Records
  import opened AssocList
  import opened Wrappers
  import opened Agreement
  import opened Homes
  import opened Replay
  import M = Mirror

  ghost function AgentAt(m: M.State, k: string): Option<Agent> {
    if k in Lookup(m.agents) then Some(Lookup(m.agents)[k]) else None
  }

  /** The part of an agent that its pane does not repeat. */
  ghost function OwnAt(m: M.State, k: string): Option<AgentOwn> {
    if k in Lookup(m.agents) then Some(Lookup(m.agents)[k].own) else None
  }

  /** What events do to the agent of one pane: it may be taken away, and then it may be detected anew. */
  datatype Mark = Mark(taken: bool, detected: bool)

  const NO_MARK := Mark(false, false)
  const TAKEN := Mark(true, false)
  const DETECTED := Mark(false, true)

  function Marked(a: Mark, own: Option<AgentOwn>): Option<AgentOwn> {
    var left := if a.taken then None else own;
    if a.detected && left.None? then Some(ZERO_AGENT.own) else left
  }

  function ThenMark(a: Mark, b: Mark): Mark {
    if b.taken then b else Mark(a.taken, a.detected || b.detected)
  }

  lemma {:induction false} ThenMarks(a: Mark, b: Mark, own: Option<AgentOwn>)
    ensures Marked(ThenMark(a, b), own) == Marked(b, Marked(a, own))
    ensures Marked(a, Marked(a, own)) == Marked(a, own)
  {
  }

  /** The mark of one event, given what the pane was before it. */
  function MarkOf(pane: Option<Record>, e: Event, k: string): Mark {
    var held := pane.Some? && pane.value.P?;
    match e
    case WorkspaceClosed(id) => if held && pane.value.pane.workspace == id then TAKEN else NO_MARK
    case TabClosed(id) => if held && pane.value.pane.tab == id then TAKEN else NO_MARK
    case PaneClosed(id) => if id == k then TAKEN else NO_MARK
    case PaneAgentDetected(id, _, _, released) =>
      if id != k then NO_MARK else if M.Released(released) then TAKEN else if held then DETECTED else NO_MARK
    case _ => NO_MARK
  }

  /** The mark of a list of events: it depends on the pane at the start and on the list, on no agent. */
  ghost function MarkOfAll(pane: Option<Record>, events: seq<Event>, k: string): Mark {
    if events == [] then NO_MARK
    else
      var before := events[..|events| - 1];
      ThenMark(MarkOfAll(pane, before, k), MarkOf(PaneAfter(pane, before, k), events[|events| - 1], k))
  }

  ghost predicate NoMoves(events: seq<Event>) {
    forall i :: 0 <= i < |events| ==> !events[i].PaneMoved?
  }

  // ---------------------------------------------------------------- one event

  lemma {:induction false} AgentsKept(m: M.State, k: string, ofAgent: Agent -> bool)
    requires M.WellFormed(m)
    ensures OwnAt(m.(agents := RemoveWhere(m.agents, ofAgent)), k) ==
            if k in Lookup(m.agents) && ofAgent(Lookup(m.agents)[k]) then None else OwnAt(m, k)
  {
    hide Lookup, RemoveWhere;
    Kept(m.agents, ofAgent);
  }

  lemma {:induction false} SetPaneOwn(m: M.State, pane: Pane, k: string)
    requires M.WellFormed(m)
    ensures OwnAt(M.SetPane(m, pane), k) == OwnAt(m, k)
  {
    hide Lookup, Put;
    if pane.id in Lookup(m.agents) { PutLookup(m.agents, pane.id, MergeAgent(Lookup(m.agents)[pane.id], pane)); }
  }

  lemma {:induction false} DetectedOwn(m: M.State, e: Event, k: string)
    requires M.WellFormed(m) && e.PaneAgentDetected?
    ensures OwnAt(M.ApplyToPane(m, e), k) == Marked(MarkOf(View(m, PaneAt(k)), e, k), OwnAt(m, k))
  {
    hide Lookup, Put, Remove, MergeAgent, M.DetectedPane;
    RemoveLookup(m.agents, e.paneId);
    if e.paneId in Lookup(m.panes) {
      var pane := M.DetectedPane(Lookup(m.panes)[e.paneId], e.agent, e.finalStatus, e.released);
      var was := if e.paneId in Lookup(m.agents) then Lookup(m.agents)[e.paneId] else ZERO_AGENT;
      PutLookup(m.agents, e.paneId, MergeAgent(was, pane));
      MergeKeepsOwn(was, pane);
    }
  }

  lemma {:induction false} MergeKeepsOwn(agent: Agent, pane: Pane)
    ensures MergeAgent(agent, pane).own == agent.own
  {
  }

  lemma {:induction false} StatusOwn(m: M.State, e: Event, k: string)
    requires M.WellFormed(m) && e.PaneAgentStatusChanged?
    ensures OwnAt(M.ApplyToPane(m, e), k) == OwnAt(m, k)
  {
    hide Lookup, Put, M.StatusPane;
    var id := e.paneId;
    if id in Lookup(m.agents) {
      if id in Lookup(m.panes) {
        var pane := M.StatusPane(Lookup(m.panes)[id], e.agentStatus, e.agent, e.displayAgent, e.title, e.stateLabels);
        PutLookup(m.agents, id, MergeAgent(Lookup(m.agents)[id], pane));
      } else {
        PutLookup(m.agents, id, Lookup(m.agents)[id].(agentStatus := e.agentStatus));
      }
    }
  }

  /** One event marks the agent of each pane, when agents agree with their panes. */
  lemma {:induction false} EventMarks(m: M.State, e: Event, k: string)
    requires M.WellFormed(m) && Agreed(m) && !e.PaneMoved?
    ensures OwnAt(M.Apply(m, e), k) == Marked(MarkOf(View(m, PaneAt(k)), e, k), OwnAt(m, k))
  {
    hide Lookup, Put, Update, Filter, M.SetPane, M.AgentDetected, M.AgentStatus, M.WellFormed;
    match e
    case WorkspaceClosed(id) => AgentsKept(m, k, M.AgentOf(id));
    case TabClosed(id) => AgentsKept(m, k, M.AgentInTab(id));
    case PaneReported(_, p) => SetPaneOwn(m, p, k);
    case PaneFocused(id) => FocusOwn(m, id, k);
    case PaneClosed(id) => CloseOwn(m, id, k);
    case PaneOutputChanged(id, revision) =>
      if id in Lookup(m.panes) { SetPaneOwn(m, Lookup(m.panes)[id].(revision := revision), k); }
    case PaneScrollChanged(id, scroll) =>
      if id in Lookup(m.panes) { SetPaneOwn(m, Lookup(m.panes)[id].(scroll := Present(scroll)), k); }
    case PaneAgentDetected(_, _, _, _) => DetectedOwn(m, e, k);
    case PaneAgentStatusChanged(_, _, _, _, _, _) => StatusOwn(m, e, k);
    case _ => UntouchedAgreed(m, e);
  }

  lemma {:induction false} FocusOwn(m: M.State, id: string, k: string)
    requires M.WellFormed(m)
    ensures OwnAt(M.FocusPane(m, id), k) == OwnAt(m, k)
  {
    hide Lookup, Update, Put;
    UpdateLookup(m.agents, M.FocusedAgent(id));
  }

  lemma {:induction false} CloseOwn(m: M.State, id: string, k: string)
    requires M.WellFormed(m)
    ensures OwnAt(M.ClosePane(m, id), k) == if k == id then None else OwnAt(m, k)
  {
    hide Lookup, Remove;
    RemoveLookup(m.agents, id);
  }

  // ---------------------------------------------------------------- lists of events

  lemma {:induction false} FoldKeepsAgreed(m: M.State, events: seq<Event>)
    requires M.WellFormed(m) && Agreed(m) && NoMoves(events)
    ensures M.WellFormed(M.Fold(m, events)) && Agreed(M.Fold(m, events))
  {
    hide M.WellFormed, Agreed, M.Apply;
    if events != [] {
      var before := events[..|events| - 1];
      FoldKeepsAgreed(m, before);
      M.ApplyWellFormed(M.Fold(m, before), events[|events| - 1]);
      ApplyAgreed(M.Fold(m, before), events[|events| - 1]);
    }
  }

  /** A list of events without moves is one mark on the agent of each pane. */
  lemma {:induction false} FoldMarks(m: M.State, events: seq<Event>, k: string)
    requires M.WellFormed(m) && Agreed(m) && NoMoves(events)
    ensures OwnAt(M.Fold(m, events), k) == Marked(MarkOfAll(View(m, PaneAt(k)), events, k), OwnAt(m, k))
    ensures View(M.Fold(m, events), PaneAt(k)) == PaneAfter(View(m, PaneAt(k)), events, k)
  {
    hide M.WellFormed, Agreed, M.Apply, OwnAt, View, Act, ActionOfAll, Marked, MarkOf, ThenMark;
    FoldActs(m, events, PaneAt(k));
    if events == [] {
      NoMarks(OwnAt(m, k));
    } else {
      var before, last := events[..|events| - 1], events[|events| - 1];
      FoldMarks(m, before, k);
      FoldKeepsAgreed(m, before);
      EventMarks(M.Fold(m, before), last, k);
      ThenMarks(MarkOfAll(View(m, PaneAt(k)), before, k), MarkOf(View(M.Fold(m, before), PaneAt(k)), last, k),
                OwnAt(m, k));
    }
  }

  lemma {:induction false} NoMarks(own: Option<AgentOwn>)
    ensures Marked(NO_MARK, own) == own
  {
  }

  /** Where agents agree with their panes, equal panes make equal agents exactly when their own fields are equal. */
  lemma {:induction false} AgentIsOwn(m: M.State, n: M.State, k: string)
    requires Agreed(m) && Agreed(n) && View(m, PaneAt(k)) == View(n, PaneAt(k))
    ensures AgentAt(m, k) == AgentAt(n, k) <==> OwnAt(m, k) == OwnAt(n, k)
  {
    hide Lookup;
    if k in Lookup(m.agents) && k in Lookup(n.agents) {
      var p := Lookup(m.panes)[k];
      assert View(m, PaneAt(k)) == Some(P(p)) && Lookup(n.panes)[k] == p;
      assert Repeats(Lookup(m.agents)[k], p) && Repeats(Lookup(n.agents)[k], p);
    }
  }

  /** The replay undoes nothing for the agent of k: what the second pass over the prefix marks is there already, or the
      rest of the list marks over it. Everything is computed from the mirror before the buffer and the buffer. */
  ghost predicate Restores(m: M.State, before: seq<Event>, after: seq<Event>, k: string) {
    var pane := View(m, PaneAt(k));
    var held := PaneAfter(pane, before, k);
    var own := Marked(MarkOfAll(pane, before, k), OwnAt(m, k));
    var rest := MarkOfAll(held, after, k);
    Marked(rest, Marked(MarkOfAll(held, before, k), own)) == Marked(rest, own)
  }

  /** Exactly when a replay gives the agent of a pane back, for every agreed mirror and every list without moves. */
  lemma {:induction false} AgentConvergesIff(m: M.State, before: seq<Event>, after: seq<Event>, k: string)
    requires M.WellFormed(m) && Agreed(m) && NoMoves(before) && NoMoves(after)
    ensures AgentAt(M.Fold(M.Fold(m, before), before + after), k) == AgentAt(M.Fold(m, before + after), k)
            <==> Restores(m, before, after, k)
  {
    hide M.WellFormed, Agreed, M.Apply, M.Fold, OwnAt, View, Act, ActionOfAll, Marked, MarkOfAll, AgentAt;
    var once := M.Fold(m, before);
    var twice := M.Fold(once, before);
    M.FoldConcat(m, before, after);
    M.FoldConcat(once, before, after);
    FoldKeepsAgreed(m, before);
    FoldKeepsAgreed(once, before);
    FoldKeepsAgreed(once, after);
    FoldKeepsAgreed(twice, after);
    FoldMarks(m, before, k);
    FoldMarks(once, before, k);
    Settles(ActionOfAll(before, PaneAt(k)), View(m, PaneAt(k)));
    FoldMarks(once, after, k);
    FoldMarks(twice, after, k);
    AgentIsOwn(M.Fold(twice, after), M.Fold(once, after), k);
  }

  // ---------------------------------------------------------------- a condition on the buffer

  /** The event detects an agent that is not released. */
  predicate Detects(e: Event) { e.PaneAgentDetected? && !M.Released(e.released) }

  /** Every detection finds its pane held. */
  ghost predicate DetectionsHeld(m: M.State, events: seq<Event>) {
    forall i :: 0 <= i < |events| && Detects(events[i]) ==>
      PaneAfter(View(m, PaneAt(events[i].paneId)), events[..i], events[i].paneId).Some?
  }

  // ---------------------------------------------------------------- one pane id with its home

  /** The event takes the pane away, wherever it came from. */
  predicate Takes(e: Event, k: string, tab: string, workspace: string) {
    e == WorkspaceClosed(workspace) || e == TabClosed(tab) || e == PaneClosed(k)
  }

  /** One event at the pane's home: the pane is taken, reported, or stays what it is at its home. */
  lemma {:induction false} PaneStep(v: Option<Record>, e: Event, k: string, tab: string, workspace: string)
    requires ViewAt(v, tab, workspace) && !e.PaneMoved?
    requires Carries(e, k) ==> LivesIn(e.pane, tab, workspace)
    ensures var r := Act(ActionOf(e, PaneAt(k)), v);
            && ViewAt(r, tab, workspace)
            && (Takes(e, k, tab, workspace) ==> r.None?)
            && (!Takes(e, k, tab, workspace) ==> r.Some? == (v.Some? || (e.PaneReported? && e.pane.id == k)))
  {
    KeepActs(v);
    if e.WorkspaceClosed? {
      DropActs(WorkspaceNamed(e.workspaceId), v);
    } else if e.TabClosed? {
      DropActs(TabNamed(e.tabId), v);
    } else {
      var a := ActionOf(e, PaneAt(k));
      assert a.Adjust? ==> a.dropped == {};
      if a.Adjust? && v.Some? { PatchedAtHome(a.patch, v.value.pane); }
    }
  }

  /** Detections of one pane id all find it held. */
  ghost predicate HeldWhenDetected(v: Option<Record>, events: seq<Event>, k: string) {
    forall i :: 0 <= i < |events| && Detects(events[i]) && events[i].paneId == k ==> PaneAfter(v, events[..i], k).Some?
  }

  /** While nothing takes the pane away, two passes that start no poorer than one another mark the same. */
  lemma {:induction false} SameMarks(v: Option<Record>, w: Option<Record>, events: seq<Event>, k: string, tab: string,
                                     workspace: string)
    requires ViewAt(v, tab, workspace) && ViewAt(w, tab, workspace) && (v.Some? ==> w.Some?)
    requires ReportsAt(events, k, tab, workspace) && NoMoves(events) && HeldWhenDetected(v, events, k)
    requires forall i :: 0 <= i < |events| ==> !Takes(events[i], k, tab, workspace)
    ensures MarkOfAll(v, events, k) == MarkOfAll(w, events, k)
    ensures PaneAfter(v, events, k).Some? ==> PaneAfter(w, events, k).Some?
    ensures v.Some? ==> PaneAfter(v, events, k).Some?
  {
    hide Act, ActionOf, ActionOfAll, PaneAfter, Takes, Detects;
    if events == [] {
      assert PaneAfter(v, events, k) == v && PaneAfter(w, events, k) == w by { NothingAfter(v, k); NothingAfter(w, k); }
    } else {
      var before, last := events[..|events| - 1], events[|events| - 1];
      HeldBefore(v, events, k);
      SameMarks(v, w, before, k, tab, workspace);
      StaysHome(v, before, k, tab, workspace);
      StaysHome(w, before, k, tab, workspace);
      PaneAfterNext(v, events, k);
      PaneAfterNext(w, events, k);
      PaneStep(PaneAfter(v, before, k), last, k, tab, workspace);
      PaneStep(PaneAfter(w, before, k), last, k, tab, workspace);
      SameMark(PaneAfter(v, before, k), PaneAfter(w, before, k), last, k, tab, workspace);
    }
  }

  lemma {:induction false} HeldBefore(v: Option<Record>, events: seq<Event>, k: string)
    requires events != [] && HeldWhenDetected(v, events, k)
    ensures HeldWhenDetected(v, events[..|events| - 1], k)
    ensures var last := events[|events| - 1];
            Detects(last) && last.paneId == k ==> PaneAfter(v, events[..|events| - 1], k).Some?
  {
    hide PaneAfter;
    var before := events[..|events| - 1];
    forall i | 0 <= i < |before| && Detects(before[i]) && before[i].paneId == k
      ensures PaneAfter(v, before[..i], k).Some? {
      assert before[..i] == events[..i];
    }
  }

  lemma {:induction false} SameMark(v: Option<Record>, w: Option<Record>, e: Event, k: string, tab: string,
                                    workspace: string)
    requires ViewAt(v, tab, workspace) && ViewAt(w, tab, workspace) && (v.Some? ==> w.Some?)
    requires !Takes(e, k, tab, workspace) && (Detects(e) && e.paneId == k ==> v.Some?)
    ensures MarkOf(v, e, k) == MarkOf(w, e, k)
  {
  }

  /** After the pane has been taken away, the rest of the list decides alone. */
  lemma {:induction false} AfterTaken(m: M.State, events: seq<Event>, i: nat, k: string, tab: string, workspace: string)
    requires M.WellFormed(m) && Agreed(m) && NoMoves(events)
    requires ViewAt(View(m, PaneAt(k)), tab, workspace) && ReportsAt(events, k, tab, workspace)
    requires i < |events| && Takes(events[i], k, tab, workspace)
    ensures OwnAt(M.Fold(m, events), k) == Marked(MarkOfAll(None, events[i + 1..], k), None)
  {
    hide M.WellFormed, Agreed, M.Apply, M.Fold, OwnAt, View, Act, ActionOf, ActionOfAll, Marked, MarkOfAll, PaneAfter,
         Takes;
    var upTo, rest := events[..i + 1], events[i + 1..];
    assert events == upTo + rest;
    var at := M.Fold(m, upTo);
    M.FoldConcat(m, upTo, rest);
    FoldKeepsAgreed(m, upTo);
    FoldMarks(m, upTo, k);
    FoldMarks(at, rest, k);
    var v := View(m, PaneAt(k));
    assert upTo[..|upTo| - 1] == events[..i] && upTo[|upTo| - 1] == events[i];
    StaysHome(v, events[..i], k, tab, workspace);
    PaneAfterNext(v, upTo, k);
    PaneStep(PaneAfter(v, events[..i], k), events[i], k, tab, workspace);
    NoPaneNoAgent(at, k);
  }

  lemma {:induction false} NoPaneNoAgent(m: M.State, k: string)
    requires Agreed(m) && View(m, PaneAt(k)).None?
    ensures OwnAt(m, k).None?
  {
  }

  /** The second pass over such a prefix gives every agent back. */
  lemma {:induction false} PrefixRestores(m: M.State, before: seq<Event>, k: string)
    requires M.WellFormed(m) && Agreed(m) && NoMoves(before) && OneHome(m, before) && DetectionsHeld(m, before)
    ensures OwnAt(M.Fold(M.Fold(m, before), before), k) == OwnAt(M.Fold(m, before), k)
  {
    hide M.WellFormed, Agreed, M.Apply, M.Fold, OwnAt, View, PaneAfter, Takes, NoMoves, DetectionsHeld, ReportsAt,
         ViewAt;
    assert HasHome(m, before, k);
    var tab, workspace :| AtHome(m, before, k, tab, workspace);
    if i :| 0 <= i < |before| && Takes(before[i], k, tab, workspace) {
      TakenRestores(m, before, i, k, tab, workspace);
    } else {
      KeptRestores(m, before, k, tab, workspace);
    }
  }

  lemma {:induction false} TakenRestores(m: M.State, before: seq<Event>, i: nat, k: string, tab: string,
                                         workspace: string)
    requires M.WellFormed(m) && Agreed(m) && NoMoves(before) && AtHome(m, before, k, tab, workspace)
    requires i < |before| && Takes(before[i], k, tab, workspace)
    ensures OwnAt(M.Fold(M.Fold(m, before), before), k) == OwnAt(M.Fold(m, before), k)
  {
    hide M.WellFormed, Agreed, M.Apply, M.Fold, OwnAt, View, PaneAfter, Takes, NoMoves, Marked, MarkOfAll, ReportsAt,
         ViewAt;
    FoldKeepsAgreed(m, before);
    FoldMarks(m, before, k);
    StaysHome(View(m, PaneAt(k)), before, k, tab, workspace);
    AfterTaken(m, before, i, k, tab, workspace);
    AfterTaken(M.Fold(m, before), before, i, k, tab, workspace);
  }

  lemma {:induction false} KeptRestores(m: M.State, before: seq<Event>, k: string, tab: string, workspace: string)
    requires M.WellFormed(m) && Agreed(m) && NoMoves(before) && AtHome(m, before, k, tab, workspace)
             && DetectionsHeld(m, before)
    requires forall i :: 0 <= i < |before| ==> !Takes(before[i], k, tab, workspace)
    ensures OwnAt(M.Fold(M.Fold(m, before), before), k) == OwnAt(M.Fold(m, before), k)
  {
    hide M.WellFormed, Agreed, M.Apply, M.Fold, OwnAt, View, PaneAfter, Takes, NoMoves, Marked, MarkOfAll, ReportsAt,
         ViewAt;
    hide DetectionsHeld;
    var v := View(m, PaneAt(k));
    FoldKeepsAgreed(m, before);
    FoldMarks(m, before, k);
    FoldMarks(M.Fold(m, before), before, k);
    StaysHome(v, before, k, tab, workspace);
    HeldForOne(m, before, k);
    HeldStays(v, before, k, tab, workspace);
    SameMarks(v, PaneAfter(v, before, k), before, k, tab, workspace);
    ThenMarks(MarkOfAll(v, before, k), NO_MARK, OwnAt(m, k));
  }

  lemma {:induction false} HeldForOne(m: M.State, events: seq<Event>, k: string)
    requires DetectionsHeld(m, events)
    ensures HeldWhenDetected(View(m, PaneAt(k)), events, k)
  {
    hide PaneAfter, View, Detects;
  }

  lemma {:induction false} HeldStays(v: Option<Record>, events: seq<Event>, k: string, tab: string, workspace: string)
    requires ViewAt(v, tab, workspace) && ReportsAt(events, k, tab, workspace) && NoMoves(events)
    requires forall i :: 0 <= i < |events| ==> !Takes(events[i], k, tab, workspace)
    ensures v.Some? ==> PaneAfter(v, events, k).Some?
  {
    hide Act, ActionOf, ActionOfAll, PaneAfter, Takes;
    if events == [] {
      NothingAfter(v, k);
    } else {
      var before, last := events[..|events| - 1], events[|events| - 1];
      HeldStays(v, before, k, tab, workspace);
      StaysHome(v, before, k, tab, workspace);
      PaneAfterNext(v, events, k);
      PaneStep(PaneAfter(v, before, k), last, k, tab, workspace);
    }
  }

  /** Agents converge: from an agreed mirror, when no pane moves, every pane id keeps its tab and workspace, and every
      detection in the prefix finds its pane held, replaying the buffer gives every agent as folding it once does. */
  lemma {:induction false} AgentsConverge(m: M.State, before: seq<Event>, after: seq<Event>)
    requires M.WellFormed(m) && Agreed(m) && NoMoves(before) && NoMoves(after)
    requires OneHome(m, before) && DetectionsHeld(m, before)
    ensures Lookup(M.Fold(M.Fold(m, before), before + after).agents) == Lookup(M.Fold(m, before + after).agents)
  {
    hide M.WellFormed, Agreed, M.Apply, M.Fold, View, Act, ActionOfAll, Marked, MarkOfAll, OneHome, DetectionsHeld,
         PaneAfter, Lookup;
    var once, twice := M.Fold(M.Fold(m, before), before + after), M.Fold(m, before + after);
    forall k ensures AgentAt(once, k) == AgentAt(twice, k) {
      FoldKeepsAgreed(m, before);
      PrefixRestores(m, before, k);
      FoldMarks(m, before, k);
      FoldMarks(M.Fold(m, before), before, k);
      AgentConvergesIff(m, before, after, k);
    }
    SameLookup(once, twice);
  }

  lemma {:induction false} SameLookup(m: M.State, n: M.State)
    requires forall k :: AgentAt(m, k) == AgentAt(n, k)
    ensures Lookup(m.agents) == Lookup(n.agents)
  {
    hide Lookup;
    forall k ensures k in Lookup(m.agents) <==> k in Lookup(n.agents) { assert AgentAt(m, k) == AgentAt(n, k); }
    forall k | k in Lookup(m.agents) ensures Lookup(m.agents)[k] == Lookup(n.agents)[k] {
      assert AgentAt(m, k) == AgentAt(n, k);
    }
  }

  // ---------------------------------------------------------------- each condition is needed

  lemma {:induction false} TwoMarks(v: Option<Record>, e: Event, f: Event, k: string)
    ensures MarkOfAll(v, [e, f], k) == ThenMark(MarkOf(v, e, k), MarkOf(Act(ActionOf(e, PaneAt(k)), v), f, k))
    ensures PaneAfter(v, [e, f], k) == Act(ActionOf(f, PaneAt(k)), Act(ActionOf(e, PaneAt(k)), v))
  {
    hide Act, ActionOf, MarkOf;
    assert [e, f][..1] == [e] && [e][..0] == [];
    NothingAfter(v, k);
    PaneAfterNext(v, [e], k);
    PaneAfterNext(v, [e, f], k);
    assert MarkOfAll(v, [e], k) == ThenMark(NO_MARK, MarkOf(v, e, k));
  }

  /** A workspace closes and a pane is then reported in it: the first pass finds the pane elsewhere and keeps its agent,
      the second takes pane and agent away and only the pane comes back. */
  lemma {:induction false} AgentsNeedOneHome(m: M.State, p: Pane, a: Agent, w: string)
    requires m.panes == [(p.id, p)] && m.agents == [(p.id, a)] && M.WellFormed(m) && Agreed(m) && p.workspace != w
    ensures var events := [WorkspaceClosed(w), PaneReported(Updated, p.(workspace := w))];
            && NoMoves(events) && DetectionsHeld(m, events)
            && AgentAt(M.Fold(M.Fold(m, events), events), p.id) != AgentAt(M.Fold(m, events), p.id)
  {
    hide M.WellFormed, Agreed, M.Apply, M.Fold, View, Act, AgentAt;
    var e, f := WorkspaceClosed(w), PaneReported(Updated, p.(workspace := w));
    var v := View(m, PaneAt(p.id));
    assert v == Some(P(p)) && OwnAt(m, p.id) == Some(a.own) by {
      LookupAt(m.panes, 0);
      LookupAt(m.agents, 0);
      OneEntry(m, p, a);
    }
    TwoMarks(v, e, f, p.id);
    TwoMarks(PaneAfter(v, [e, f], p.id), e, f, p.id);
    DropActs(WorkspaceNamed(w), v);
    Stored(Updated, p.(workspace := w), v);
    assert MarkOfAll(v, [e, f], p.id) == NO_MARK;
    NoEventsLeft(PaneAfter(v, [e, f], p.id), p.id);
    AgentConvergesIff(m, [e, f], [], p.id);
    assert [e, f] + [] == [e, f];
  }

  lemma {:induction false} OneEntry(m: M.State, p: Pane, a: Agent)
    requires m.panes == [(p.id, p)] && m.agents == [(p.id, a)]
    ensures View(m, PaneAt(p.id)) == Some(P(p)) && OwnAt(m, p.id) == Some(a.own)
  {
    LookupAt(m.panes, 0);
    LookupAt(m.agents, 0);
  }

  lemma {:induction false} Stored(report: Report, p: Pane, v: Option<Record>)
    ensures Act(ActionOf(PaneReported(report, p), PaneAt(p.id)), v) == Some(P(p))
  {
  }

  lemma {:induction false} NoEventsLeft(v: Option<Record>, k: string)
    ensures MarkOfAll(v, [], k) == NO_MARK
  {
  }

  /** A pane moves and its id is reported anew and an agent detected in it: the second pass carries that agent along. */
  lemma {:induction false} AgentsNeedNoMoves(m: M.State, p: Pane, q: Pane)
    requires m.panes == [(p.id, p)] && m.agents == [] && p.id != q.id
    ensures var events := [PaneMoved(p.id, q, Absent, Absent, Absent, Absent), PaneReported(Created, p),
                           PaneAgentDetected(p.id, Present("agent"), Absent, Absent)];
            && Agreed(m) && OneHome(m, events) && DetectionsHeld(m, events)
            && q.id !in Lookup(M.Fold(m, events).agents)
            && q.id in Lookup(M.Fold(M.Fold(m, events), events).agents)
  {
    hide M.Apply, Lookup;
    var e, f, d := PaneMoved(p.id, q, Absent, Absent, Absent, Absent), PaneReported(Created, p),
                   PaneAgentDetected(p.id, Present("agent"), Absent, Absent);
    NoAgents(m);
    OnlyPane(m, p);
    OneRecordEach(m, [e, f, d], p, q);
    assert DetectionsHeld(m, [e, f, d]) by { DetectedAfterReport(m, e, f, d); }
    FoldThree(m, e, f, d);
    MovedAway(m, e, q.id);
    var m1 := M.Apply(m, e);
    ReportedHere(m1, f, q.id);
    var m2 := M.Apply(m1, f);
    DetectedHere(m2, d, q.id);
    var once := M.Apply(m2, d);
    FoldThree(once, e, f, d);
    MovedAway(once, e, q.id);
    ReportedHere(M.Apply(once, e), f, q.id);
    DetectedHere(M.Apply(M.Apply(once, e), f), d, q.id);
  }

  lemma {:induction false} DetectedAfterReport(m: M.State, e: Event, f: Event, d: Event)
    requires !Detects(e) && f.PaneReported? && d.PaneAgentDetected? && d.paneId == f.pane.id
    ensures DetectionsHeld(m, [e, f, d])
  {
    hide Act, ActionOf, PaneAfter, View;
    var v := View(m, PaneAt(d.paneId));
    assert [e, f, d][..2] == [e, f];
    TwoMarks(v, e, f, d.paneId);
    Stored(f.report, f.pane, Act(ActionOf(e, PaneAt(d.paneId)), v));
  }

  lemma {:induction false} NoAgents(m: M.State)
    requires m.agents == []
    ensures Agreed(m) && Lookup(m.agents) == map[]
  {
  }

  lemma {:induction false} OnlyPane(m: M.State, p: Pane)
    requires m.panes == [(p.id, p)]
    ensures Lookup(m.panes) == map[p.id := p]
  {
    assert m.panes[..0] == [];
  }

  lemma {:induction false} FoldThree(m: M.State, e: Event, f: Event, g: Event)
    ensures M.Fold(m, [e, f, g]) == M.Apply(M.Apply(M.Apply(m, e), f), g)
  {
    hide M.Apply;
    FoldTwo(m, e, f);
    assert [e, f, g][..2] == [e, f];
  }

  /** A move to q: q has an agent afterwards if the moved pane had one, or q itself. */
  lemma {:induction false} MovedAway(m: M.State, e: Event, q: string)
    requires e.PaneMoved? && e.pane.id == q && e.previousPane != q && Distinct(m.panes) && Distinct(m.agents)
    requires e.createdWorkspace.Absent? && e.createdTab.Absent? && e.closedTab.Absent? && e.closedWorkspace.Absent?
    ensures var r := M.Apply(m, e);
            && Distinct(r.panes) && Distinct(r.agents)
            && (q in Lookup(r.agents) <==> q in Lookup(m.agents) || e.previousPane in Lookup(m.agents))
  {
    hide Lookup, Put, Remove;
    RemoveLookup(m.panes, e.previousPane);
    RemoveLookup(m.agents, e.previousPane);
    PutLookup(Remove(m.panes, e.previousPane), q, e.pane);
    if e.previousPane in Lookup(m.agents) {
      PutLookup(Remove(m.agents, e.previousPane), q, MergeAgent(Lookup(m.agents)[e.previousPane], e.pane));
    }
  }

  lemma {:induction false} ReportedHere(m: M.State, f: Event, q: string)
    requires f.PaneReported? && f.pane.id != q && Distinct(m.panes) && Distinct(m.agents)
    ensures var r := M.Apply(m, f);
            && Distinct(r.panes) && Distinct(r.agents) && f.pane.id in Lookup(r.panes)
            && (q in Lookup(r.agents) <==> q in Lookup(m.agents))
  {
    hide Lookup, Put;
    PutLookup(m.panes, f.pane.id, f.pane);
    if f.pane.id in Lookup(m.agents) {
      PutLookup(m.agents, f.pane.id, MergeAgent(Lookup(m.agents)[f.pane.id], f.pane));
    }
  }

  lemma {:induction false} DetectedHere(m: M.State, d: Event, q: string)
    requires Detects(d) && d.paneId != q && d.paneId in Lookup(m.panes) && Distinct(m.panes) && Distinct(m.agents)
    ensures var r := M.Apply(m, d);
            && Distinct(r.panes) && Distinct(r.agents) && d.paneId in Lookup(r.agents)
            && (q in Lookup(r.agents) <==> q in Lookup(m.agents))
  {
    hide Lookup, Put, M.DetectedPane;
    var pane := M.DetectedPane(Lookup(m.panes)[d.paneId], d.agent, d.finalStatus, d.released);
    PutLookup(m.panes, d.paneId, pane);
    PutLookup(m.agents, d.paneId,
              MergeAgent(if d.paneId in Lookup(m.agents) then Lookup(m.agents)[d.paneId] else ZERO_AGENT, pane));
  }

  /** An agent that disagrees with its pane about the tab: the first close of the pane's tab leaves it, the report that
      follows corrects it, and the second close takes it. */
  lemma {:induction false} AgentsNeedAgreement(m: M.State, p: Pane, a: Agent)
    requires m.panes == [(p.id, p)] && m.agents == [(p.id, a)] && a.pane == p.id && a.tab != p.tab
    ensures var events := [TabClosed(p.tab), PaneReported(Created, p)];
            && NoMoves(events) && OneHome(m, events) && DetectionsHeld(m, events)
            && p.id in Lookup(M.Fold(m, events).agents) && p.id !in Lookup(M.Fold(M.Fold(m, events), events).agents)
  {
    hide M.Apply, Lookup;
    var e, f := TabClosed(p.tab), PaneReported(Created, p);
    OnlyPane(m, p);
    OneRecordEach(m, [e, f], p, p);
    LookupAt(m.agents, 0);
    FoldTwo(m, e, f);
    TabGone(m, e, p.id);
    Corrected(M.Apply(m, e), f);
    var once := M.Apply(M.Apply(m, e), f);
    FoldTwo(once, e, f);
    TabGone(once, e, p.id);
    Corrected(M.Apply(once, e), f);
  }

  lemma {:induction false} TabGone(m: M.State, e: Event, k: string)
    requires e.TabClosed? && Distinct(m.panes) && Distinct(m.agents)
    ensures var r := M.Apply(m, e);
            && Distinct(r.panes) && Distinct(r.agents)
            && (k in Lookup(r.agents) <==> k in Lookup(m.agents) && Lookup(m.agents)[k].tab != e.tabId)
  {
    hide Lookup, RemoveWhere;
    Kept(m.agents, M.AgentInTab(e.tabId));
    GoneLookup(m.agents, M.AgentInTab(e.tabId));
    GoneLookup(m.panes, M.InTab(e.tabId));
  }

  /** A report refreshes the agent of its pane. */
  lemma {:induction false} Corrected(m: M.State, f: Event)
    requires f.PaneReported? && Distinct(m.panes) && Distinct(m.agents)
    ensures var r := M.Apply(m, f);
            && Distinct(r.panes) && Distinct(r.agents)
            && (f.pane.id in Lookup(r.agents) <==> f.pane.id in Lookup(m.agents))
            && (f.pane.id in Lookup(r.agents) ==> Lookup(r.agents)[f.pane.id].tab == f.pane.tab)
  {
    hide Lookup, Put;
    PutLookup(m.panes, f.pane.id, f.pane);
    if f.pane.id in Lookup(m.agents) {
      PutLookup(m.agents, f.pane.id, MergeAgent(Lookup(m.agents)[f.pane.id], f.pane));
    }
  }

  /** A detection precedes the report of its pane: it does nothing the first time and finds the pane the second. */
  lemma {:induction false} AgentsNeedHeldDetections(pane: Pane, m: M.State)
    requires m.panes == [] && m.agents == []
    ensures var events := [PaneAgentDetected(pane.id, Present("agent"), Absent, Absent), PaneReported(Created, pane)];
            && Agreed(m) && NoMoves(events) && OneHome(m, events) && pane.id !in Lookup(M.Fold(m, events).agents)
            && pane.id in Lookup(M.Fold(M.Fold(m, events), events).agents)
  {
    var d, r := PaneAgentDetected(pane.id, Present("agent"), Absent, Absent), PaneReported(Created, pane);
    NoAgents(m);
    OneRecordEach(m, [d, r], pane, pane);
    FoldTwo(m, d, r);
    var once := M.Fold(m, [d, r]);
    assert M.Apply(m, d) == m;
    PutLookup(m.panes, pane.id, pane);
    assert once == m.(panes := Put(m.panes, pane.id, pane));
    FoldTwo(once, d, r);
    var detected := M.Apply(once, d);
    var named := M.DetectedPane(pane, d.agent, d.finalStatus, d.released);
    assert detected.agents == Put(once.agents, pane.id, MergeAgent(ZERO_AGENT, named));
    PutLookup(once.agents, pane.id, MergeAgent(ZERO_AGENT, named));
    PutLookup(detected.agents, pane.id, MergeAgent(Lookup(detected.agents)[pane.id], pane));
  }
}
