/** What the calls of Next on one stream return: the collector's during a bootstrap, which decide whether it succeeds,
    and the session's afterwards. */
module StreamCalls {
  import opened Wrappers
  import opened StreamProtocol

  /** Events, and then one call whose context ended: the collector was stopped and met no error. */
  predicate Stopped(results: seq<Result>) {
    && results != [] && results[|results| - 1].ContextDone?
    && forall i :: 0 <= i < |results| - 1 ==> results[i].Event?
  }

  predicate AllEvents(results: seq<Result>) {
    forall i :: 0 <= i < |results| ==> results[i].Event?
  }

  /** Events, and then one result that ended the collection. */
  predicate Ended(results: seq<Result>) {
    results != [] && AllEvents(results[..|results| - 1]) && !results[|results| - 1].Event?
  }

  ghost predicate Collects(s: State) {
    && s.buffered == Delivered(s.collected)
    && (s.phase.Collecting? ==> AllEvents(s.collected) && s.collectErr.None?)
    && (!s.phase.Collecting? ==> Ended(s.collected))
    && (s.phase.Collected? ==> (s.collectErr.None? <==> s.collected[|s.collected| - 1].ContextDone?))
    && (s.phase.Live? ==> Stopped(s.collected))
    && (s.phase.Abandoned? ==> s.closed)
    && (s.phase.Collected? || s.phase.Abandoned? ==> s.pc.Out?)
  }

  lemma {:induction false} Collected(results: seq<Result>, r: Result)
    requires AllEvents(results)
    ensures Delivered(results + [r]) == Delivered(results) + if r.Event? then [r.raw] else []
    ensures r.Event? ==> AllEvents(results + [r])
    ensures !r.Event? ==> Ended(results + [r]) && (Stopped(results + [r]) <==> r.ContextDone?)
  {
    Appends([], Malformed, [], Data(Malformed), results, r);
    assert (results + [r])[..|results|] == results;
  }

  lemma {:induction false} ReturnCollects(s: State, r: Result)
    requires Collects(s) && (s.phase.Collecting? || s.phase.Live?)
    ensures Collects(Return(s, r))
  {
    hide Delivered, AllEvents, Ended, Stopped;
    if s.phase.Collecting? { Collected(s.collected, r); }
  }

  lemma {:induction false} StepCollects(s: State, a: Action)
    requires Collects(s) && Enabled(s, a)
    ensures Collects(Step(s, a))
  {
    hide Delivered, AllEvents, Ended, Stopped, Return;
    match a
    case CheckContext => ReturnCollects(s, ContextDone);
    case SelectContext => ReturnCollects(s, ContextDone);
    case Terminate =>
      ReturnCollects(s, ContextDone);
      ReturnCollects(s, StreamClosed(s.readErr));
    case SelectLine =>
      var t := s.(reader := AfterHandover(s.reader), taken := s.taken + [s.reader.item]);
      ReturnCollects(t, DecodeFailed);
      if s.reader.item.Data? && s.reader.item.line.EventLine? { ReturnCollects(t, Event(s.reader.item.line.raw)); }
    case FinishBootstrap(_) => FinishCollects(s, a);
    case _ =>
  }

  lemma {:induction false} FinishCollects(s: State, a: Action)
    requires Collects(s) && Enabled(s, a) && a.FinishBootstrap?
    ensures Collects(Step(s, a))
    ensures Step(s, a).phase.Live? <==> a.snapshotOk && Stopped(s.collected)
    ensures !Step(s, a).phase.Live? ==> Step(s, a).phase.Abandoned? && Step(s, a).closed
  {
    hide Delivered;
  }

  lemma {:induction false} RunCollects(states: seq<State>, actions: seq<Action>, n: nat)
    requires Run(states, actions) && n <= |actions|
    ensures Collects(states[n])
  {
    hide Collects, Step, Enabled;
    if n == 0 {
      InitialCollects();
    } else {
      RunCollects(states, actions, n - 1);
      StepCollects(states[n - 1], actions[n - 1]);
    }
  }

  lemma {:induction false} InitialCollects()
    ensures Collects(INITIAL)
  {
  }

  /** In every interleaving a bootstrap succeeds exactly when the snapshot was answered and the collector's calls
      returned events and then, because it was stopped, the end of their context; its buffer is these events. Otherwise,
      whatever error the collector met, the stream is closed. */
  lemma {:induction false} BootstrapOutcome(states: seq<State>, actions: seq<Action>, n: nat)
    requires Run(states, actions) && n < |actions| && actions[n].FinishBootstrap?
    ensures states[n + 1].phase.Live? <==> actions[n].snapshotOk && Stopped(states[n].collected)
    ensures !states[n + 1].phase.Live? ==> states[n + 1].phase.Abandoned? && states[n + 1].closed
    ensures states[n + 1].buffered == Delivered(states[n].collected)
  {
    hide Delivered, Stopped, Ended, AllEvents;
    RunCollects(states, actions, n);
    FinishCollects(states[n], actions[n]);
  }

  // ---------------------------------------------------------------- line by line

  /** What a call makes of a line: an event or a decoding error; an error response ends the stream instead. */
  function Answer(line: Line): seq<Result> {
    match line
    case EventLine(raw) => [Event(raw)]
    case Malformed => [DecodeFailed]
    case ErrorResponse(_) => []
  }

  function Answers(lines: seq<Line>): seq<Result> {
    if lines == [] then [] else Answers(lines[..|lines| - 1]) + Answer(lines[|lines| - 1])
  }

  /** The results that say something about a line. */
  function AboutLines(results: seq<Result>): seq<Result> {
    if results == [] then []
    else
      var last := results[|results| - 1];
      AboutLines(results[..|results| - 1]) + if last.Event? || last.DecodeFailed? then [last] else []
  }

  ghost predicate Answered(s: State) {
    AboutLines(s.collected) + AboutLines(s.returned) == Answers(LinesOf(s.taken))
  }

  lemma {:induction false} OneMore(lines: seq<Line>, l: Line, results: seq<Result>, r: Result)
    ensures Answers(lines + [l]) == Answers(lines) + Answer(l)
    ensures AboutLines(results + [r]) == AboutLines(results) + if r.Event? || r.DecodeFailed? then [r] else []
  {
    assert (lines + [l])[..|lines|] == lines && (results + [r])[..|results|] == results;
  }

  /** The results of the collector's calls and then of the others. */
  ghost function AllAbout(s: State): seq<Result> {
    AboutLines(s.collected) + AboutLines(s.returned)
  }

  lemma {:induction false} ReturnAbout(s: State, r: Result)
    requires s.phase.Collecting? ==> s.returned == []
    ensures AllAbout(Return(s, r)) == AllAbout(s) + if r.Event? || r.DecodeFailed? then [r] else []
  {
    hide AboutLines;
    OneMore([], Malformed, s.collected, r);
    OneMore([], Malformed, s.returned, r);
    assert AboutLines([]) == [] by { NothingAbout(); }
  }

  lemma {:induction false} NothingAbout()
    ensures AboutLines([]) == [] && Answers([]) == []
  {
  }

  lemma {:induction false} TakenLines(items: seq<Item>, item: Item)
    ensures Answers(LinesOf(items + [item])) == Answers(LinesOf(items)) + if item.Data? then Answer(item.line) else []
  {
    Appends([], Malformed, items, item, [], DecodeFailed);
    if item.Data? {
      OneMore(LinesOf(items), item.line, [], DecodeFailed);
    } else {
      assert LinesOf(items) + [] == LinesOf(items);
    }
  }

  lemma {:induction false} StepAnswered(s: State, a: Action)
    requires Answered(s) && Enabled(s, a) && (s.phase.Collecting? ==> s.returned == [])
    ensures Answered(Step(s, a))
  {
    hide AboutLines, Answers, LinesOf, Return;
    ReturnKeeps(s);
    match a
    case CheckContext => ReturnAbout(s, ContextDone);
    case SelectContext => ReturnAbout(s, ContextDone);
    case Terminate =>
      ReturnAbout(s, ContextDone);
      ReturnAbout(s, StreamClosed(s.readErr));
    case SelectLine =>
      var item := s.reader.item;
      var t := s.(reader := AfterHandover(s.reader), taken := s.taken + [item]);
      TakenLines(s.taken, item);
      ReturnAbout(t, DecodeFailed);
      if item.Data? && item.line.EventLine? { ReturnAbout(t, Event(item.line.raw)); }
      ReturnKeeps(t);
    case _ =>
  }

  lemma {:induction false} ReturnKeeps(s: State)
    ensures forall r :: Return(s, r).taken == s.taken
  {
  }

  /** In every interleaving the calls, the collector's first, answer the lines taken from the wire one by one and in
      order: an event line is returned, a malformed one is one decoding error, and neither is lost or repeated. */
  lemma {:induction false} LinesAnswered(states: seq<State>, actions: seq<Action>, n: nat)
    requires Run(states, actions) && n <= |actions|
    ensures AboutLines(states[n].collected) + AboutLines(states[n].returned) == Answers(LinesOf(states[n].taken))
  {
    hide Step, Enabled, Answered;
    if n == 0 {
      InitialAnswered();
    } else {
      LinesAnswered(states, actions, n - 1);
      assert Answered(states[n - 1]) by { Unfolded(states[n - 1]); }
      RunInv(states, actions, n - 1);
      assert states[n - 1].phase.Collecting? ==> states[n - 1].returned == [] by { NoneReturned(states[n - 1]); }
      StepAnswered(states[n - 1], actions[n - 1]);
    }
    Unfolded(states[n]);
  }

  lemma {:induction false} Unfolded(s: State)
    ensures Answered(s) <==> AboutLines(s.collected) + AboutLines(s.returned) == Answers(LinesOf(s.taken))
  {
  }

  lemma {:induction false} NoneReturned(s: State)
    requires Inv(s)
    ensures s.phase.Collecting? || s.phase.Collected? ==> s.returned == []
  {
  }

  lemma {:induction false} InitialAnswered()
    ensures Answered(INITIAL)
  {
    NothingAbout();
  }

  lemma {:induction false} NoneFailed(results: seq<Result>)
    requires forall i :: 0 <= i < |results| ==> !results[i].DecodeFailed?
    ensures DecodeFailed !in AboutLines(results)
  {
    if results != [] { NoneFailed(results[..|results| - 1]); }
  }

  lemma {:induction false} MalformedTold(lines: seq<Line>)
    ensures Malformed in lines ==> DecodeFailed in Answers(lines)
  {
    if lines != [] {
      var before, last := lines[..|lines| - 1], lines[|lines| - 1];
      assert lines == before + [last];
      MalformedTold(before);
      assert last.Malformed? ==> Answer(last) == [DecodeFailed];
    }
  }

  /** A bootstrap that met a malformed line does not succeed: when one does, every line taken so far is an event line or
      the error response that a later call is going to report. */
  lemma {:induction false} NothingSwallowed(states: seq<State>, actions: seq<Action>, n: nat)
    requires Run(states, actions) && n < |actions| && actions[n].FinishBootstrap? && states[n + 1].phase.Live?
    ensures Malformed !in LinesOf(states[n].taken)
    ensures AboutLines(states[n].collected) == Answers(LinesOf(states[n].taken))
  {
    hide AboutLines, Answers, LinesOf, Inv;
    BootstrapOutcome(states, actions, n);
    LinesAnswered(states, actions, n);
    RunInv(states, actions, n);
    NoneReturned(states[n]);
    NothingAbout();
    var collected := states[n].collected;
    assert AboutLines(collected) + [] == AboutLines(collected);
    NoneFailed(collected);
    MalformedTold(LinesOf(states[n].taken));
  }

  // ---------------------------------------------------------------- one call, undisturbed

  /** The state after these steps, if each is enabled where it is taken. */
  function After(s: State, actions: seq<Action>): Option<State>
    decreases |actions|
  {
    if actions == [] then Some(s)
    else if Enabled(s, actions[0]) then After(Step(s, actions[0]), actions[1..])
    else None
  }

  lemma {:induction false} Four(s: State, a: Action, b: Action, c: Action, d: Action)
    requires Enabled(s, a) && Enabled(Step(s, a), b) && Enabled(Step(Step(s, a), b), c)
    requires Enabled(Step(Step(Step(s, a), b), c), d)
    ensures After(s, [a, b, c, d]) == Some(Step(Step(Step(Step(s, a), b), c), d))
  {
    hide Step, Enabled;
    var t := Step(s, a);
    var u := Step(t, b);
    One(Step(u, c), d);
    assert [c, d][1..] == [d] && After(u, [c, d]) == After(Step(u, c), [d]);
    assert [b, c, d][1..] == [c, d] && After(t, [b, c, d]) == After(u, [c, d]);
    assert [a, b, c, d][1..] == [b, c, d];
  }

  lemma {:induction false} Then(s: State, first: seq<Action>, second: seq<Action>)
    requires After(s, first).Some?
    ensures After(s, first + second) == After(After(s, first).value, second)
    decreases |first|
  {
    hide Step, Enabled;
    if first == [] {
      assert first + second == second;
    } else {
      Then(Step(s, first[0]), first[1..], second);
      assert (first + second)[1..] == first[1..] + second;
    }
  }

  lemma {:induction false} One(s: State, a: Action)
    requires Enabled(s, a)
    ensures After(s, [a]) == Some(Step(s, a))
  {
    hide Step, Enabled;
    assert [a][1..] == [];
  }

  /** A call of Next to which its reader hands an item: an event line or a malformed line is returned and the stream
      goes on; an error, read or pushed by the server, ends the stream and is returned as the cause unless one came
      first. */
  lemma {:induction false} CallTakes(s: State)
    requires s.phase.Live? && s.pc.Out? && !s.closed && s.reader.Offering?
    ensures var t := After(s, [Call(false), CheckContext, CheckClosed, SelectLine]);
            var item := s.reader.item;
            && t.Some?
            && (CauseOf(item).None? ==>
                  && t.value.returned == s.returned + Answer(item.line) && t.value.pc == Out
                  && t.value.readErr == s.readErr && (s.reader.next.None? ==> t.value.reader == Reading))
            && (CauseOf(item).Some? ==>
                  var cause := if s.readErr.Some? then s.readErr else CauseOf(item);
                  After(t.value, [Terminate]) ==
                  Some(t.value.(pc := Out, readErr := cause, returned := s.returned + [StreamClosed(cause)])))
  {
    Four(s, Call(false), CheckContext, CheckClosed, SelectLine);
    var t := After(s, [Call(false), CheckContext, CheckClosed, SelectLine]).value;
    if CauseOf(s.reader.item).Some? { One(t, Terminate); }
  }

  /** On a stream that is closed, or whose reader is gone, a call reports the end with the cause remembered. */
  lemma {:induction false} CallEnds(s: State)
    requires s.phase.Live? && s.pc.Out?
    ensures s.closed ==>
              After(s, [Call(false), CheckContext, CheckClosed, Terminate]) ==
              Some(s.(ctxDone := false, returned := s.returned + [StreamClosed(s.readErr)]))
    ensures !s.closed && s.reader.Stopped? ==>
              After(s, [Call(false), CheckContext, CheckClosed, SelectDrained] + [Terminate]) ==
              Some(s.(ctxDone := false, returned := s.returned + [StreamClosed(s.readErr)]))
  {
    if s.closed {
      Four(s, Call(false), CheckContext, CheckClosed, Terminate);
    } else if s.reader.Stopped? {
      Four(s, Call(false), CheckContext, CheckClosed, SelectDrained);
      var t := s.(ctxDone := false, pc := AtTerminal);
      One(t, Terminate);
      Then(s, [Call(false), CheckContext, CheckClosed, SelectDrained], [Terminate]);
    }
  }

  /** A call whose context ends while it waits returns that and takes nothing: the stream is as it was. */
  lemma {:induction false} CallCancelled(s: State)
    requires s.phase.Live? && s.pc.Out? && !s.closed
    ensures After(s, [Call(false), CheckContext, CheckClosed, EndContext] + [SelectContext]) ==
            Some(s.(ctxDone := true, returned := s.returned + [ContextDone]))
  {
    Four(s, Call(false), CheckContext, CheckClosed, EndContext);
    var t := s.(ctxDone := true, pc := AtSelect);
    One(t, SelectContext);
    Then(s, [Call(false), CheckContext, CheckClosed, EndContext], [SelectContext]);
  }

  /** What a call reports is so: its context ended, or the stream did. */
  lemma {:induction false} ReportIsSo(s: State, a: Action)
    requires Inv(s) && Enabled(s, a) && |Step(s, a).returned| == |s.returned| + 1
    ensures var r := Step(s, a).returned[|s.returned|];
            && (r.ContextDone? ==> s.ctxDone)
            && (r.StreamClosed? ==> !s.ctxDone && r.cause == s.readErr && (s.closed || s.readErr.Some?))
            && (r.DecodeFailed? ==> s.reader == Offering(Data(Malformed), s.reader.next))
            && (r.Event? ==> s.reader == Offering(Data(EventLine(r.raw)), s.reader.next))
  {
    hide LinesOf, EventsOf, Delivered, FirstCause;
  }

  /** A call that waits is woken by a close and reports the end of the stream. */
  lemma {:induction false} CloseWakes(s: State)
    requires s.phase.Live? && s.pc.Out? && !s.closed
    ensures After(s, [Call(false), CheckContext, CheckClosed, Close] + [SelectClosed] + [Terminate]) ==
            Some(s.(ctxDone := false, closed := true, returned := s.returned + [StreamClosed(s.readErr)]))
  {
    Four(s, Call(false), CheckContext, CheckClosed, Close);
    var t := s.(ctxDone := false, closed := true, pc := AtSelect);
    One(t, SelectClosed);
    One(t.(pc := AtTerminal), Terminate);
    Then(s, [Call(false), CheckContext, CheckClosed, Close], [SelectClosed]);
    Then(s, [Call(false), CheckContext, CheckClosed, Close] + [SelectClosed], [Terminate]);
  }

  // ---------------------------------------------------------------- the reader, by what it did

  /** The items a step of the reader puts up for handing over. */
  function Reads(a: Action): seq<Item> {
    match a
    case ReadLine(line) => [Data(line)]
    case ReadLast(line, cause) => [Data(line), Failed(cause)]
    case ReadFails(cause) => [Failed(cause)]
    case _ => []
  }

  function AllReads(actions: seq<Action>): seq<Item> {
    if actions == [] then [] else AllReads(actions[..|actions| - 1]) + Reads(actions[|actions| - 1])
  }

  /** The items the reader holds. */
  function Pending(r: Reader): seq<Item> {
    if r.Offering? then [r.item] + if r.next.Some? then [Failed(r.next.value)] else [] else []
  }

  predicate AnyFailed(items: seq<Item>) {
    exists i :: 0 <= i < |items| && items[i].Failed?
  }

  /** The reader has read this, handed over what was taken, and given up on the rest only when it quit. */
  ghost predicate ReaderDid(s: State, read: seq<Item>, quit: bool) {
    && (if quit then s.reader.Stopped? && s.closed && s.taken <= read else s.taken + Pending(s.reader) == read)
    && (s.reader.Reading? ==> !AnyFailed(read))
    && (s.reader.Offering? ==> (s.reader.item.Failed? ==> s.reader.next.None?)
                               && (AnyFailed(read) <==> s.reader.item.Failed? || s.reader.next.Some?))
    && (s.reader.Stopped? ==> quit || AnyFailed(read))
  }

  lemma {:induction false} FailedMore(items: seq<Item>, more: seq<Item>)
    ensures AnyFailed(items + more) <==> AnyFailed(items) || AnyFailed(more)
  {
    if AnyFailed(items) {
      var i :| 0 <= i < |items| && items[i].Failed?;
      assert (items + more)[i].Failed?;
    }
    if AnyFailed(more) {
      var i :| 0 <= i < |more| && more[i].Failed?;
      assert (items + more)[|items| + i].Failed?;
    }
  }

  lemma {:induction false} StepReads(s: State, a: Action, read: seq<Item>, quit: bool)
    requires ReaderDid(s, read, quit) && Enabled(s, a)
    ensures ReaderDid(Step(s, a), read + Reads(a), quit || a.ReaderQuits?)
  {
    hide AnyFailed, ReaderDid, Step;
    if a.SelectLine? {
      assert read + [] == read;
      HandOverReads(s, read, quit);
    } else if Reads(a) != [] {
      ReaderReads(s, a, read, quit);
    } else {
      assert read + [] == read;
      OtherReads(s, a, read, quit);
    }
  }

  lemma {:induction false} HandOverReads(s: State, read: seq<Item>, quit: bool)
    requires ReaderDid(s, read, quit) && Enabled(s, SelectLine)
    ensures ReaderDid(Step(s, SelectLine), read, quit)
  {
    hide AnyFailed, Return;
    ReturnLeavesReader(s.(reader := AfterHandover(s.reader), taken := s.taken + [s.reader.item]));
    assert s.taken + Pending(s.reader) == s.taken + [s.reader.item] + Pending(AfterHandover(s.reader));
  }

  lemma {:induction false} ReaderReads(s: State, a: Action, read: seq<Item>, quit: bool)
    requires ReaderDid(s, read, quit) && Enabled(s, a) && Reads(a) != []
    ensures ReaderDid(Step(s, a), read + Reads(a), quit)
  {
    hide AnyFailed;
    FailedMore(read, Reads(a));
    FailedIs(Reads(a));
  }

  lemma {:induction false} OtherReads(s: State, a: Action, read: seq<Item>, quit: bool)
    requires ReaderDid(s, read, quit) && Enabled(s, a) && Reads(a) == [] && !a.SelectLine?
    ensures ReaderDid(Step(s, a), read, quit || a.ReaderQuits?)
  {
    hide AnyFailed, Return;
    ReturnLeavesReader(s);
  }

  lemma {:induction false} FailedIs(items: seq<Item>)
    ensures items == [] ==> !AnyFailed(items)
    ensures |items| == 1 ==> (AnyFailed(items) <==> items[0].Failed?)
    ensures |items| == 2 && items[1].Failed? ==> AnyFailed(items)
  {
  }

  lemma {:induction false} ReturnLeavesReader(s: State)
    ensures forall r ::
              Return(s, r).reader == s.reader && Return(s, r).taken == s.taken && Return(s, r).closed == s.closed
  {
  }

  lemma {:induction false} StepCloses(s: State, a: Action)
    requires Enabled(s, a) && (s.phase.Abandoned? ==> s.closed) && (s.phase.Abandoned? ==> s.pc.Out?)
    ensures Step(s, a).closed <==> s.closed || a.Close? || Step(s, a).phase.Abandoned?
    ensures s.phase.Abandoned? ==> Step(s, a).phase.Abandoned?
  {
  }

  /** In every interleaving the reader hands over, in order, the lines it read and then the one error that ended its
      reading, after which it stops; it gives up on what it holds only when the stream was closed, and that happens by a
      close or a bootstrap that failed. */
  lemma {:induction false} ReaderHandsOver(states: seq<State>, actions: seq<Action>, n: nat)
    requires Run(states, actions) && n <= |actions|
    ensures ReaderDid(states[n], AllReads(actions[..n]), ReaderQuits in actions[..n])
    ensures states[n].closed <==> Close in actions[..n] || states[n].phase.Abandoned?
  {
    hide ReaderDid, Step, Enabled;
    if n == 0 {
      assert ReaderDid(INITIAL, [], false) by { InitialReads(); }
    } else {
      ReaderHandsOver(states, actions, n - 1);
      RunCollects(states, actions, n - 1);
      StepReads(states[n - 1], actions[n - 1], AllReads(actions[..n - 1]), ReaderQuits in actions[..n - 1]);
      StepCloses(states[n - 1], actions[n - 1]);
      assert actions[..n] == actions[..n - 1] + [actions[n - 1]] && actions[..n][..n - 1] == actions[..n - 1];
    }
  }

  lemma {:induction false} InitialReads()
    ensures ReaderDid(INITIAL, [], false)
  {
  }

  /** A collector that is stopped between two events lets its bootstrap end as the snapshot did: with a live stream and
      what was buffered, or with a closed one. */
  lemma {:induction false} CollectorStops(s: State, ctxDone: bool, snapshotOk: bool)
    requires s.phase.Collecting? && s.pc.Out? && s.collectErr.None?
    ensures After(s, [EndContext, Call(ctxDone), CheckContext, FinishBootstrap(snapshotOk)]) ==
            Some(s.(ctxDone := true, collected := s.collected + [ContextDone],
                    phase := if snapshotOk then Live else Abandoned, closed := s.closed || !snapshotOk))
  {
    Four(s, EndContext, Call(ctxDone), CheckContext, FinishBootstrap(snapshotOk));
  }
}
