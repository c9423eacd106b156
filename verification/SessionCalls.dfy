/** Calls that nothing disturbs: what a whole call of Next or Close does when every step of it goes its way, and how
    many failed attempts to reconnect leave no trace. */
module SessionCalls {
  import opened Records
  import opened Wrappers
  import opened SessionProtocol
  import M = Mirror

  type Decoder = Raw -> Option<Event>

  /** The state after these steps, if each is enabled where it is taken. */
  ghost function After(decode: Decoder, s: State, actions: seq<Action>): Option<State>
    decreases |actions|
  {
    if actions == [] then Some(s)
    else if Enabled(s, actions[0]) && s.epochs != [] then After(decode, Step(decode, s, actions[0]), actions[1..])
    else None
  }

  lemma {:induction false} Then(decode: Decoder, s: State, first: seq<Action>, second: seq<Action>)
    requires After(decode, s, first).Some?
    ensures After(decode, s, first + second) == After(decode, After(decode, s, first).value, second)
    decreases |first|
  {
    hide Step, Enabled;
    if first == [] {
      assert first + second == second;
    } else {
      Then(decode, Step(decode, s, first[0]), first[1..], second);
      assert (first + second)[1..] == first[1..] + second;
    }
  }

  lemma {:induction false} One(decode: Decoder, s: State, a: Action)
    requires Enabled(s, a) && s.epochs != []
    ensures After(decode, s, [a]) == Some(Step(decode, s, a))
  {
    hide Step, Enabled;
    assert [a][1..] == [];
  }

  lemma {:induction false} Two(decode: Decoder, s: State, a: Action, b: Action)
    requires Enabled(s, a) && s.epochs != []
    requires var t := Step(decode, s, a); Enabled(t, b) && t.epochs != []
    ensures After(decode, s, [a, b]) == Some(Step(decode, Step(decode, s, a), b))
  {
    hide Step, Enabled;
    assert [a, b][1..] == [b];
    One(decode, Step(decode, s, a), b);
  }

  lemma {:induction false} Three(decode: Decoder, s: State, a: Action, b: Action, c: Action)
    requires Enabled(s, a) && s.epochs != []
    requires var t := Step(decode, s, a);
             Enabled(t, b) && t.epochs != [] && Enabled(Step(decode, t, b), c) && Step(decode, t, b).epochs != []
    ensures After(decode, s, [a, b, c]) == Some(Step(decode, Step(decode, Step(decode, s, a), b), c))
  {
    hide Step, Enabled;
    assert [a, b, c][1..] == [b, c];
    Two(decode, Step(decode, s, a), b, c);
  }

  // ---------------------------------------------------------------- Next with something to return

  /** What one call returns when the session already has it, or its stream hands over a line: the resync first, then the
      queued lines in order, then the stream's. */
  lemma {:induction false} NextReturns(decode: Decoder, s: State, raw: Raw)
    requires s.pc.Idle? && s.epochs != []
    ensures s.resync.Some? ==>
              After(decode, s, [CallNext, Top]) == Some(s.(resync := None, out := s.out + [Resynced(s.resync.value)]))
    ensures s.resync.None? && s.pending != [] ==>
              After(decode, s, [CallNext, Top]) == Some(Consumed(decode, s, s.pending[0]).(pending := s.pending[1..]))
    ensures s.resync.None? && s.pending == [] && s.stream.Some? ==>
              After(decode, s, [CallNext, Top, ReadLine(raw)]) ==
              Some(Consumed(decode, s, raw).(epochs := s.epochs[..|s.epochs| - 1] +
                                              [Last(s).(arrived := Last(s).arrived + [raw])]))
  {
    hide M.Apply;
    if s.resync.Some? || s.pending != [] {
      Two(decode, s, CallNext, Top);
    } else if s.stream.Some? {
      Three(decode, s, CallNext, Top, ReadLine(raw));
    }
  }

  /** A line taken: its event is applied and returned, or it is reported as undecodable and changes nothing. */
  ghost function Consumed(decode: Decoder, s: State, raw: Raw): State {
    match decode(raw)
    case Some(event) => s.(mirror := M.Apply(s.mirror, event), out := s.out + [Returned(event)])
    case None => s.(out := s.out + [Undecodable(raw)])
  }

  // ---------------------------------------------------------------- Next across the loss of its stream

  /** One attempt to reconnect that fails because the server is not there yet. */
  datatype Try = NoDial | BadAck | Broken

  function Attempt(t: Try): seq<Action> {
    match t
    case NoDial => [WaitEnds, BootFails(Unavailable)]
    case BadAck => [WaitEnds, BootBadAck(Unavailable)]
    case Broken => [WaitEnds, BootSubscribes, BootBreaks(Unavailable)]
  }

  function Attempts(tries: seq<Try>): seq<Action> {
    if tries == [] then [] else Attempt(tries[0]) + Attempts(tries[1..])
  }

  /** Only streams that were opened and closed again tell the two states apart. */
  ghost predicate Alike(s: State, t: State) {
    && s.open == t.open && s.nextId <= t.nextId && s.closings <= t.closings
    && t == s.(nextId := t.nextId, closings := t.closings)
  }

  lemma {:induction false} AttemptFails(decode: Decoder, s: State, t: Try)
    requires s.pc.Waiting? && s.epochs != [] && Counted(s)
    ensures var r := After(decode, s, Attempt(t)); r.Some? && Alike(s, r.value) && Counted(r.value)
  {
    assert s.nextId !in s.open && s.open + {s.nextId} - {s.nextId} == s.open;
    match t
    case NoDial => Two(decode, s, WaitEnds, BootFails(Unavailable));
    case BadAck =>
      Two(decode, s, WaitEnds, BootBadAck(Unavailable));
      var r := After(decode, s, Attempt(t)).value;
      OpenCloseCounted(s, r);
    case Broken =>
      Three(decode, s, WaitEnds, BootSubscribes, BootBreaks(Unavailable));
      var r := After(decode, s, Attempt(t)).value;
      assert r.closings == s.closings + [s.nextId] && r.nextId == s.nextId + 1 && r.open == s.open;
      OpenCloseCounted(s, r);
  }

  lemma {:induction false} AttemptsFail(decode: Decoder, s: State, tries: seq<Try>)
    requires s.pc.Waiting? && s.epochs != [] && Counted(s)
    ensures var r := After(decode, s, Attempts(tries)); r.Some? && Alike(s, r.value) && Counted(r.value)
    decreases |tries|
  {
    hide Counted;
    if tries != [] {
      AttemptFails(decode, s, tries[0]);
      var t := After(decode, s, Attempt(tries[0])).value;
      AttemptsFail(decode, t, tries[1..]);
      Then(decode, s, Attempt(tries[0]), Attempts(tries[1..]));
    }
  }

  /** The session has lost its stream and waits. */
  ghost predicate LostBut(s: State, t: State, end: Cause)
    requires s.epochs != [] && s.stream.Some?
  {
    t == s.(pc := t.pc, cause := Some(end), stream := None, open := s.open - {s.stream.value},
            closings := s.closings + [s.stream.value],
            epochs := s.epochs[..|s.epochs| - 1] + [Last(s).(end := Some(end))])
  }

  lemma {:induction false} EndRead(decode: Decoder, s: State, end: Cause)
    requires s.pc.Idle? && s.epochs != [] && s.resync.None? && s.pending == [] && s.stream.Some?
    ensures After(decode, s, [CallNext, Top, ReadEnds(end)]) == Some(s.(pc := Lost(end)))
  {
    hide M.Apply, M.FromSnapshot;
    Three(decode, s, CallNext, Top, ReadEnds(end));
  }

  lemma {:induction false} StreamDropped(decode: Decoder, s: State)
    requires s.pc.Lost? && s.epochs != [] && !s.closed && s.stream.Some?
    ensures var r := After(decode, s, [CheckLost, TakeStream, CloseTaken]);
            r.Some? && r.value.pc == AtTop && LostBut(s, r.value, s.pc.end)
  {
    hide M.Apply, M.FromSnapshot;
    Three(decode, s, CheckLost, TakeStream, CloseTaken);
  }

  /** The end of a stream is remembered, the stream dropped and closed, and the call waits. */
  lemma {:induction false} StreamLost(decode: Decoder, s: State, end: Cause)
    requires s.pc.Idle? && s.epochs != [] && !s.closed && s.resync.None? && s.pending == [] && s.stream.Some?
    requires Counted(s) && s.stream.value in s.open
    ensures var r := After(decode, s, [CallNext, Top, ReadEnds(end)] + [CheckLost, TakeStream, CloseTaken] +
                                      [Top, CheckClosed]);
            r.Some? && Counted(r.value) && r.value.pc == Waiting(end) && LostBut(s, r.value, end)
  {
    hide M.Apply, M.FromSnapshot, Counted;
    EndRead(decode, s, end);
    var a := s.(pc := Lost(end));
    StreamDropped(decode, a);
    var b := After(decode, a, [CheckLost, TakeStream, CloseTaken]).value;
    Two(decode, b, Top, CheckClosed);
    Then(decode, s, [CallNext, Top, ReadEnds(end)], [CheckLost, TakeStream, CloseTaken]);
    Then(decode, s, [CallNext, Top, ReadEnds(end)] + [CheckLost, TakeStream, CloseTaken], [Top, CheckClosed]);
    CloseCounted(s, s.stream.value, b.(pc := Waiting(end)));
  }

  /** A bootstrap that succeeds: its stream, mirror and buffer are installed, and the call returns the resync. */
  lemma {:induction false} BootInstalled(decode: Decoder, s: State, snapshot: Snapshot, buffered: seq<Raw>)
    requires s.pc.Waiting? && s.epochs != [] && !s.closed
    ensures After(decode, s, [WaitEnds, BootSubscribes, BootSucceeds(snapshot, buffered)] + [Install, Publish, Top]) ==
            Some(s.(pc := Idle, stream := Some(s.nextId), open := s.open + {s.nextId}, nextId := s.nextId + 1,
                    mirror := M.FromSnapshot(snapshot), pending := buffered, resync := None, cause := None,
                    epochs := s.epochs + [Epoch(snapshot, buffered, None)], out := s.out + [Resynced(s.pc.why)]))
  {
    hide M.Apply, M.FromSnapshot;
    Three(decode, s, WaitEnds, BootSubscribes, BootSucceeds(snapshot, buffered));
    var a := s.(pc := BootDone(s.nextId, s.pc.why, snapshot, buffered), open := s.open + {s.nextId},
                nextId := s.nextId + 1);
    Three(decode, a, Install, Publish, Top);
    Then(decode, s, [WaitEnds, BootSubscribes, BootSucceeds(snapshot, buffered)], [Install, Publish, Top]);
  }

  function Losing(end: Cause): seq<Action> {
    [CallNext, Top, ReadEnds(end)] + [CheckLost, TakeStream, CloseTaken] + [Top, CheckClosed]
  }

  function Booting(snapshot: Snapshot, buffered: seq<Raw>): seq<Action> {
    [WaitEnds, BootSubscribes, BootSucceeds(snapshot, buffered)] + [Install, Publish, Top]
  }

  /** One call of Next that loses its stream, fails to reconnect any number of times in any way a server that is not
      there yet makes it fail, and then succeeds: it returns one resync with the error that ended the stream, has closed
      every stream but the new one, and leaves the new snapshot's mirror with what was buffered queued. */
  lemma {:induction false} NextReconnects(decode: Decoder, s: State, end: Cause, tries: seq<Try>, snapshot: Snapshot,
                                          buffered: seq<Raw>)
    requires s.pc.Idle? && s.epochs != [] && !s.closed && s.resync.None? && s.pending == [] && s.stream.Some?
    requires Counted(s) && s.open == {s.stream.value}
    ensures var r := After(decode, s, Losing(end) + Attempts(tries) + Booting(snapshot, buffered));
            && r.Some? && r.value.pc == Idle && r.value.out == s.out + [Resynced(end)]
            && r.value.stream.Some? && r.value.open == {r.value.stream.value} && r.value.stream.value >= s.nextId
            && r.value.mirror == M.FromSnapshot(snapshot) && r.value.pending == buffered && !r.value.closed
            && r.value.resync == None && r.value.cause == None
  {
    hide M.FromSnapshot, Counted, Losing, Booting, Attempts;
    assert Losing(end) == [CallNext, Top, ReadEnds(end)] + [CheckLost, TakeStream, CloseTaken] + [Top, CheckClosed] by {
      LosingIs(end);
    }
    StreamLost(decode, s, end);
    var a := After(decode, s, Losing(end)).value;
    AttemptsFail(decode, a, tries);
    var b := After(decode, a, Attempts(tries)).value;
    BootingIs(snapshot, buffered);
    BootInstalled(decode, b, snapshot, buffered);
    Then(decode, s, Losing(end), Attempts(tries));
    Then(decode, s, Losing(end) + Attempts(tries), Booting(snapshot, buffered));
  }

  lemma {:induction false} LosingIs(end: Cause)
    ensures Losing(end) == [CallNext, Top, ReadEnds(end)] + [CheckLost, TakeStream, CloseTaken] + [Top, CheckClosed]
  {
  }

  lemma {:induction false} BootingIs(snapshot: Snapshot, buffered: seq<Raw>)
    ensures Booting(snapshot, buffered) ==
            [WaitEnds, BootSubscribes, BootSucceeds(snapshot, buffered)] + [Install, Publish, Top]
  {
  }

  // ---------------------------------------------------------------- a call that ends otherwise

  /** A call on a session that is closed, or whose context ends while it waits, returns an error and leaves the rest. */
  lemma {:induction false} NextGivesUp(decode: Decoder, s: State)
    requires s.pc.Idle? && s.epochs != [] && s.resync.None? && s.pending == [] && s.stream.None?
    ensures s.closed ==> After(decode, s, [CallNext, Top, CheckClosed]) == Some(s.(out := s.out + [Failed]))
    ensures !s.closed && s.cause.Some? ==>
              After(decode, s, [CallNext, Top, CheckClosed] + [WaitContext]) == Some(s.(out := s.out + [Failed]))
  {
    Three(decode, s, CallNext, Top, CheckClosed);
    if !s.closed && s.cause.Some? {
      var a := s.(pc := Waiting(s.cause.value));
      One(decode, a, WaitContext);
      Then(decode, s, [CallNext, Top, CheckClosed], [WaitContext]);
    }
  }

  /** A bootstrap that succeeds only after the session was closed is not installed: its stream is closed and the call
      fails. */
  lemma {:induction false} LateBootRefused(decode: Decoder, s: State)
    requires s.pc.BootDone? && s.epochs != [] && s.closed
    ensures After(decode, s, [Install, Refuse]) ==
            Some(s.(pc := Idle, open := s.open - {s.pc.id}, closings := s.closings + [s.pc.id],
                    out := s.out + [Failed]))
  {
    hide M.Apply, M.FromSnapshot;
    Two(decode, s, Install, Refuse);
  }

  /** Close ends a session that is not in use: its stream is closed and everything else stays. */
  lemma {:induction false} CloseCloses(decode: Decoder, s: State)
    requires s.epochs != [] && s.closer.NotCalled?
    ensures var r := After(decode, s, [CallClose, CloserCloses]);
            && r.Some? && r.value.closed && r.value.stream.None? && r.value.closer.Done?
            && r.value.closings == s.closings + (if s.stream.Some? then [s.stream.value] else [])
            && r.value.open == s.open - Only(s.stream) && r.value.out == s.out && r.value.mirror == s.mirror
            && r.value.pending == s.pending && r.value.pc == s.pc
  {
    Two(decode, s, CallClose, CloserCloses);
  }
}
