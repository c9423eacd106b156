/** One event stream from the reading goroutine to its consumers: the collector that buffers during a bootstrap,
    then the session. Steps are those of the channel, the closed flag and the contexts, in any interleaving. */
module StreamProtocol {
  import opened Wrappers

  type Raw = string

  /** Why a stream ended, as far as a caller can tell: a failed read or an error response pushed by the server. */
  datatype Cause = ReadFailure(text: string) | ApiError(code: string)

  /** A non-blank line by what decoding its envelope makes of it. */
  datatype Line = EventLine(raw: Raw) | Malformed | ErrorResponse(cause: Cause)

  datatype Item = Data(line: Line) | Failed(cause: Cause)

  /** The reading goroutine: reading, blocked on handing over an item (with the error that came with a last,
      unterminated line still to follow), or gone with its channel closed. */
  datatype Reader = Reading | Offering(item: Item, next: Option<Cause>) | Stopped

  datatype Result = Event(raw: Raw) | ContextDone | DecodeFailed | StreamClosed(cause: Option<Cause>)

  /** Where the one call of Next in progress stands. */
  datatype Pc = Out | AtStart | AtClosedCheck | AtSelect | AtTerminal

  datatype Phase = Collecting | Collected | Live | Abandoned

  datatype State = State(
    wire: seq<Line>,         // every line the reader took from the connection
    reader: Reader,
    closed: bool,
    readErr: Option<Cause>,
    taken: seq<Item>,        // every item a Next received
    pc: Pc,
    ctxDone: bool,           // the context of the call in progress; the collector's own while it runs
    phase: Phase,
    buffered: seq<Raw>,
    collectErr: Option<Result>,
    collected: seq<Result>,  // what the collector's calls returned, in order
    returned: seq<Result>)   // what the calls after the bootstrap returned, in order

  const INITIAL := State([], Reading, false, None, [], Out, false, Collecting, [], None, [], [])

  datatype Action =
    | ReadLine(line: Line)
    | ReadLast(line: Line, cause: Cause)
    | ReadFails(cause: Cause)
    | ReaderQuits
    | Call(ctxDone: bool)
    | EndContext
    | CheckContext
    | CheckClosed
    | SelectContext
    | SelectClosed
    | SelectLine
    | SelectDrained
    | Terminate
    | Close
    | FinishBootstrap(snapshotOk: bool)

  predicate Enabled(s: State, a: Action) {
    match a
    case ReadLine(_) => s.reader.Reading?
    case ReadLast(_, _) => s.reader.Reading?
    case ReadFails(_) => s.reader.Reading?
    case ReaderQuits => s.reader.Offering? && s.closed
    case Call(_) => s.pc.Out? && (s.phase.Collecting? || s.phase.Live?)
    case EndContext => true
    case CheckContext => s.pc.AtStart?
    case CheckClosed => s.pc.AtClosedCheck?
    case SelectContext => s.pc.AtSelect? && s.ctxDone
    case SelectClosed => s.pc.AtSelect? && s.closed
    case SelectLine => s.pc.AtSelect? && s.reader.Offering?
    case SelectDrained => s.pc.AtSelect? && s.reader.Stopped?
    case Terminate => s.pc.AtTerminal?
    case Close => true
    case FinishBootstrap(_) => s.phase.Collected? && s.ctxDone
  }

  /** What the caller of Next does with its result. */
  function Return(s: State, r: Result): State {
    if s.phase.Collecting? then
      var t := s.(pc := Out, collected := s.collected + [r]);
      match r
      case Event(raw) => t.(buffered := s.buffered + [raw])
      case ContextDone => t.(phase := Collected)
      case _ => t.(phase := Collected, collectErr := Some(r))
    else s.(pc := Out, returned := s.returned + [r])
  }

  function AfterHandover(r: Reader): Reader
    requires r.Offering?
  {
    match r.item
    case Data(_) => if r.next.Some? then Offering(Failed(r.next.value), None) else Reading
    case Failed(_) => Stopped
  }

  function SetReadErr(s: State, cause: Cause): State {
    if s.readErr.None? then s.(readErr := Some(cause)) else s
  }

  function Receive(s: State, item: Item): State {
    match item
    case Failed(cause) => SetReadErr(s, cause).(pc := AtTerminal)
    case Data(EventLine(raw)) => Return(s, Event(raw))
    case Data(Malformed) => Return(s, DecodeFailed)
    case Data(ErrorResponse(cause)) => SetReadErr(s, cause).(pc := AtTerminal)
  }

  function Step(s: State, a: Action): State
    requires Enabled(s, a)
  {
    match a
    case ReadLine(line) => s.(wire := s.wire + [line], reader := Offering(Data(line), None))
    case ReadLast(line, cause) => s.(wire := s.wire + [line], reader := Offering(Data(line), Some(cause)))
    case ReadFails(cause) => s.(reader := Offering(Failed(cause), None))
    case ReaderQuits => s.(reader := Stopped)
    case Call(ctxDone) => s.(pc := AtStart, ctxDone := if s.phase.Live? then ctxDone else s.ctxDone)
    case EndContext => s.(ctxDone := true)
    case CheckContext => if s.ctxDone then Return(s, ContextDone) else s.(pc := AtClosedCheck)
    case CheckClosed => s.(pc := if s.closed then AtTerminal else AtSelect)
    case SelectContext => Return(s, ContextDone)
    case SelectClosed => s.(pc := AtTerminal)
    case SelectLine =>
      Receive(s.(reader := AfterHandover(s.reader), taken := s.taken + [s.reader.item]), s.reader.item)
    case SelectDrained => s.(pc := AtTerminal)
    case Terminate => Return(s, if s.ctxDone then ContextDone else StreamClosed(s.readErr))
    case Close => s.(closed := true)
    case FinishBootstrap(snapshotOk) =>
      if snapshotOk && s.collectErr.None? then s.(phase := Live) else s.(phase := Abandoned, closed := true)
  }

  ghost predicate Run(states: seq<State>, actions: seq<Action>) {
    && |states| == |actions| + 1 && states[0] == INITIAL
    && forall i :: 0 <= i < |actions| ==> Enabled(states[i], actions[i]) && states[i + 1] == Step(states[i], actions[i])
  }

  // ---------------------------------------------------------------- what the histories mean

  function EventsOf(lines: seq<Line>): seq<Raw> {
    if lines == [] then []
    else
      var last := lines[|lines| - 1];
      EventsOf(lines[..|lines| - 1]) + if last.EventLine? then [last.raw] else []
  }

  function LinesOf(items: seq<Item>): seq<Line> {
    if items == [] then []
    else
      var last := items[|items| - 1];
      LinesOf(items[..|items| - 1]) + if last.Data? then [last.line] else []
  }

  /** The line the reader holds and has not handed over. */
  function InHand(r: Reader): seq<Line> {
    if r.Offering? && r.item.Data? then [r.item.line] else []
  }

  /** The events among the results of the calls after the bootstrap. */
  function Delivered(results: seq<Result>): seq<Raw> {
    if results == [] then []
    else
      var last := results[|results| - 1];
      Delivered(results[..|results| - 1]) + if last.Event? then [last.raw] else []
  }

  function CauseOf(item: Item): Option<Cause> {
    match item
    case Failed(cause) => Some(cause)
    case Data(ErrorResponse(cause)) => Some(cause)
    case Data(_) => None
  }

  /** The first item that ended the stream for its consumer. */
  function FirstCause(items: seq<Item>): Option<Cause> {
    if items == [] then None
    else
      var before := FirstCause(items[..|items| - 1]);
      if before.Some? then before else CauseOf(items[|items| - 1])
  }

  ghost predicate Inv(s: State) {
    && LinesOf(s.taken) <= s.wire
    && (!s.closed ==> LinesOf(s.taken) + InHand(s.reader) == s.wire)
    && (s.reader.Offering? ==> LinesOf(s.taken) + InHand(s.reader) == s.wire)
    && (s.reader.Reading? ==> LinesOf(s.taken) == s.wire)
    && |s.wire| <= |LinesOf(s.taken)| + 1
    && s.buffered + Delivered(s.returned) == EventsOf(LinesOf(s.taken))
    && s.readErr == FirstCause(s.taken)
    && (s.phase.Collecting? || s.phase.Collected? ==> s.returned == [])
    && (s.phase.Collected? || s.phase.Abandoned? ==> s.pc.Out?)
    && (s.pc.AtTerminal? ==> s.closed || s.readErr.Some?)
    && (s.reader.Stopped? ==> s.closed || s.readErr.Some?)
    && (forall i :: 0 <= i < |s.returned| && s.returned[i].StreamClosed? ==> s.closed || s.returned[i].cause.Some?)
  }

  lemma {:induction false} Appends(lines: seq<Line>, l: Line, items: seq<Item>, i: Item, results: seq<Result>,
                                   r: Result)
    ensures EventsOf(lines + [l]) == EventsOf(lines) + if l.EventLine? then [l.raw] else []
    ensures LinesOf(items + [i]) == LinesOf(items) + if i.Data? then [i.line] else []
    ensures Delivered(results + [r]) == Delivered(results) + if r.Event? then [r.raw] else []
    ensures FirstCause(items + [i]) == if FirstCause(items).Some? then FirstCause(items) else CauseOf(i)
  {
    assert (lines + [l])[..|lines|] == lines && (items + [i])[..|items|] == items
           && (results + [r])[..|results|] == results;
  }

  lemma {:induction false} NoneYet()
    ensures Delivered([]) == [] && EventsOf([]) == [] && LinesOf([]) == []
  {
  }

  /** Handing an item over moves it from the reader's hand to the taken items. */
  lemma {:induction false} HandOver(s: State)
    requires Inv(s) && Enabled(s, SelectLine)
    ensures var taken := s.taken + [s.reader.item];
            && LinesOf(taken) == LinesOf(s.taken) + InHand(s.reader) == s.wire
            && FirstCause(taken) == (if s.readErr.Some? then s.readErr else CauseOf(s.reader.item))
            && InHand(AfterHandover(s.reader)) == []
  {
    hide EventsOf, LinesOf, FirstCause, Delivered;
    var item := s.reader.item;
    Appends([], Malformed, s.taken, item, [], DecodeFailed);
  }

  lemma {:induction false} ReceivedEvents(s: State)
    requires Inv(s) && Enabled(s, SelectLine)
    ensures var t := Step(s, SelectLine); t.buffered + Delivered(t.returned) == EventsOf(LinesOf(t.taken))
  {
    hide EventsOf, LinesOf, FirstCause, Delivered;
    HandOver(s);
    NoneYet();
    if s.reader.item.Data? {
      var line := s.reader.item.line;
      var r := if line.EventLine? then Event(line.raw) else DecodeFailed;
      Appends(LinesOf(s.taken), line, [], Data(Malformed), s.returned, r);
    } else {
      assert LinesOf(Step(s, SelectLine).taken) == LinesOf(s.taken);
    }
  }

  lemma {:induction false} ReceiveInv(s: State)
    requires Inv(s) && Enabled(s, SelectLine)
    ensures Inv(Step(s, SelectLine))
  {
    hide EventsOf, LinesOf, FirstCause, Delivered;
    HandOver(s);
    ReceivedEvents(s);
    var t := Step(s, SelectLine);
    assert LinesOf(t.taken) + InHand(t.reader) == LinesOf(t.taken);
  }

  lemma {:induction false} StepInv(s: State, a: Action)
    requires Inv(s) && Enabled(s, a)
    ensures Inv(Step(s, a))
  {
    hide EventsOf, LinesOf, FirstCause, Delivered;
    match a
    case SelectLine => ReceiveInv(s);
    case CheckContext => Appends([], Malformed, [], Data(Malformed), s.returned, ContextDone);
    case SelectContext => Appends([], Malformed, [], Data(Malformed), s.returned, ContextDone);
    case Terminate =>
      Appends([], Malformed, [], Data(Malformed), s.returned, ContextDone);
      Appends([], Malformed, [], Data(Malformed), s.returned, StreamClosed(s.readErr));
    case _ =>
  }

  lemma {:induction false} RunInv(states: seq<State>, actions: seq<Action>, n: nat)
    requires Run(states, actions) && n <= |actions|
    ensures Inv(states[n])
  {
    hide Inv;
    if n == 0 {
      assert Inv(INITIAL) by { InitialInv(); }
    } else {
      RunInv(states, actions, n - 1);
      StepInv(states[n - 1], actions[n - 1]);
    }
  }

  lemma {:induction false} InitialInv()
    ensures Inv(INITIAL)
  {
  }

  /** In every interleaving, the events a bootstrap buffered followed by those later calls returned are the event lines
      handed over so far, in order, none lost and none repeated; while the stream is open the only event line not among
      them is the one the reader still holds, and a close loses at most that one. */
  lemma {:induction false} LinesConserved(states: seq<State>, actions: seq<Action>, n: nat)
    requires Run(states, actions) && n <= |actions|
    ensures var s := states[n];
            && s.buffered + Delivered(s.returned) == EventsOf(LinesOf(s.taken))
            && LinesOf(s.taken) <= s.wire && |s.wire| <= |LinesOf(s.taken)| + 1
            && (!s.closed ==> s.buffered + Delivered(s.returned) + EventsOf(InHand(s.reader)) == EventsOf(s.wire))
  {
    RunInv(states, actions, n);
    if !states[n].closed { HandIsLast(states[n]); }
  }

  lemma {:induction false} HandIsLast(s: State)
    requires Inv(s) && !s.closed
    ensures s.buffered + Delivered(s.returned) + EventsOf(InHand(s.reader)) == EventsOf(s.wire)
  {
    hide FirstCause, EventsOf, LinesOf, Delivered;
    NoneYet();
    var hand := InHand(s.reader);
    if hand == [] {
      assert LinesOf(s.taken) + hand == LinesOf(s.taken);
    } else {
      Appends(LinesOf(s.taken), hand[0], [], Data(Malformed), [], DecodeFailed);
      Appends([], hand[0], [], Data(Malformed), [], DecodeFailed);
      assert hand == [hand[0]] == [] + [hand[0]];
    }
  }

  lemma {:induction false} CauseStep(s: State, a: Action)
    requires Inv(s) && Enabled(s, a)
    ensures s.readErr.Some? ==> Step(s, a).readErr == s.readErr
    ensures s.returned <= Step(s, a).returned
    ensures forall k :: |s.returned| <= k < |Step(s, a).returned| && Step(s, a).returned[k].StreamClosed? ==>
              Step(s, a).returned[k].cause == Step(s, a).readErr
  {
    hide Inv;
  }

  /** The cause of a stream's end, once received by any call, even one whose context ended meanwhile, is the first one,
      never changes, and is what every later call that reports the end carries. */
  lemma {:induction false} CauseSurvives(states: seq<State>, actions: seq<Action>, i: nat, j: nat)
    requires Run(states, actions) && i <= j <= |actions| && states[i].readErr.Some?
    ensures states[i].readErr == FirstCause(states[i].taken) && states[j].readErr == states[i].readErr
    ensures states[i].returned <= states[j].returned
    ensures forall k :: |states[i].returned| <= k < |states[j].returned| && states[j].returned[k].StreamClosed? ==>
              states[j].returned[k].cause == states[i].readErr
    decreases j - i
  {
    RunInv(states, actions, i);
    hide Inv, Step, Enabled, FirstCause;
    if i < j {
      CauseSurvives(states, actions, i, j - 1);
      RunInv(states, actions, j - 1);
      CauseStep(states[j - 1], actions[j - 1]);
    }
  }

  /** A call reports the end without a cause only when the client itself closed the stream. */
  lemma {:induction false} EndHasCause(states: seq<State>, actions: seq<Action>, n: nat, k: nat)
    requires Run(states, actions) && n <= |actions|
    requires k < |states[n].returned| && states[n].returned[k] == StreamClosed(None)
    ensures states[n].closed
  {
    RunInv(states, actions, n);
  }
}
