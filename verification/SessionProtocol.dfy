/** The session as a state machine: one call of Next at a time, Close at any moment, and a server that answers as it
    likes. Each step is one critical section or one blocking point of the code. */
module SessionProtocol {
  import opened Records
  import opened Wrappers
  import M = Mirror
  import Replay
  import opened Agreement
  import opened ReplayOrder

  type Raw = string
  type StreamId = nat

  /** The error that ended a stream; one without a received cause reads as plain stream closed. */
  datatype Cause = StreamClosed | ReadError(text: string) | ServerError(code: string)

  /** How a bootstrap fails. An error response and an unexpected result are final, everything else is retried. */
  datatype BootError = ApiError | UnexpectedResult | Unavailable

  predicate Retryable(e: BootError) { e.Unavailable? }

  /** Where the call of Next in progress stands. */
  datatype NextPc =
    | Idle
    | AtTop
    | AtNoStream
    | Waiting(why: Cause)
    | Booting(why: Cause)
    | BootOpen(id: StreamId, why: Cause)
    | BootDone(id: StreamId, why: Cause, snapshot: Snapshot, buffered: seq<Raw>)
    | Installed(why: Cause, snapshot: Snapshot, buffered: seq<Raw>)
    | Refused(id: StreamId)
    | Reading(id: StreamId)
    | Lost(end: Cause)
    | Dropping
    | Closing(taken: Option<StreamId>)

  /** The one call of Close that finds the session open. */
  datatype Closer = NotCalled | Took(taken: Option<StreamId>) | Done

  datatype Out = Returned(event: Event) | Undecodable(raw: Raw) | Resynced(cause: Cause) | Failed

  /** One installed stream: the snapshot it started from, the lines that arrived on it, how it ended. */
  datatype Epoch = Epoch(snapshot: Snapshot, arrived: seq<Raw>, end: Option<Cause>)

  datatype State = State(
    pending: seq<Raw>,
    resync: Option<Cause>,
    cause: Option<Cause>,
    stream: Option<StreamId>,
    closed: bool,
    mirror: M.State,
    pc: NextPc,
    closer: Closer,
    // what happened in the world
    nextId: StreamId,
    open: set<StreamId>,
    closings: seq<StreamId>,
    epochs: seq<Epoch>,
    out: seq<Out>)

  /** What opening a session leaves after its bootstrap. */
  function Opened(snapshot: Snapshot, buffered: seq<Raw>): State {
    State(buffered, None, None, Some(0), false, M.FromSnapshot(snapshot), Idle, NotCalled,
          1, {0}, [], [Epoch(snapshot, buffered, None)], [])
  }

  datatype Action =
    | CallNext
    | Top
    | CheckClosed
    | WaitEnds
    | WaitContext
    | WaitClosed
    | BootFails(error: BootError)
    | BootBadAck(error: BootError)
    | BootSubscribes
    | BootBreaks(error: BootError)
    | BootSucceeds(snapshot: Snapshot, buffered: seq<Raw>)
    | Install
    | Publish
    | Refuse
    | ReadLine(raw: Raw)
    | ReadFails
    | ReadEnds(end: Cause)
    | CheckLost
    | TakeStream
    | CloseTaken
    | CallClose
    | CloserCloses

  predicate Enabled(s: State, a: Action) {
    match a
    case CallNext => s.pc.Idle?
    case Top => s.pc.AtTop?
    case CheckClosed => s.pc.AtNoStream?
    case WaitEnds => s.pc.Waiting?
    case WaitContext => s.pc.Waiting?
    case WaitClosed => s.pc.Waiting? && s.closed
    case BootFails(_) => s.pc.Booting?
    case BootBadAck(_) => s.pc.Booting?
    case BootSubscribes => s.pc.Booting?
    case BootBreaks(_) => s.pc.BootOpen?
    case BootSucceeds(_, _) => s.pc.BootOpen?
    case Install => s.pc.BootDone?
    case Publish => s.pc.Installed?
    case Refuse => s.pc.Refused?
    case ReadLine(_) => s.pc.Reading?
    case ReadFails => s.pc.Reading?
    case ReadEnds(_) => s.pc.Reading?
    case CheckLost => s.pc.Lost?
    case TakeStream => s.pc.Dropping?
    case CloseTaken => s.pc.Closing?
    case CallClose => s.closer.NotCalled?
    case CloserCloses => s.closer.Took?
  }

  function Close(s: State, id: StreamId): State {
    s.(open := s.open - {id}, closings := s.closings + [id])
  }

  function Return(s: State, o: Out): State {
    s.(pc := Idle, out := s.out + [o])
  }

  function Outcome(decode: Raw -> Option<Event>, raw: Raw): Out {
    if decode(raw).Some? then Returned(decode(raw).value) else Undecodable(raw)
  }

  /** Decodes one pushed line, applies it to the mirror and returns it. */
  ghost function Deliver(decode: Raw -> Option<Event>, s: State, raw: Raw): State {
    Return(if decode(raw).Some? then s.(mirror := M.Apply(s.mirror, decode(raw).value)) else s, Outcome(decode, raw))
  }

  function WithLast(s: State, e: Epoch): State
    requires s.epochs != []
  {
    s.(epochs := s.epochs[..|s.epochs| - 1] + [e])
  }

  function Last(s: State): Epoch
    requires s.epochs != []
  {
    s.epochs[|s.epochs| - 1]
  }

  function Retry(s: State, error: BootError, why: Cause): State {
    if Retryable(error) then s.(pc := Waiting(why)) else Return(s, Failed)
  }

  ghost function Step(decode: Raw -> Option<Event>, s: State, a: Action): State
    requires Enabled(s, a) && s.epochs != []
  {
    match a
    case CallNext => s.(pc := AtTop)
    case Top =>
      if s.resync.Some? then Return(s.(resync := None), Resynced(s.resync.value))
      else if s.pending != [] then Deliver(decode, s.(pending := s.pending[1..]), s.pending[0])
      else s.(pc := if s.stream.Some? then Reading(s.stream.value) else AtNoStream)
    case CheckClosed =>
      if s.closed then Return(s, Failed)
      else s.(pc := Waiting(if s.cause.Some? then s.cause.value else StreamClosed))
    case WaitEnds => s.(pc := Booting(s.pc.why))
    case WaitContext => Return(s, Failed)
    case WaitClosed => Return(s, Failed)
    case BootFails(error) => Retry(s, error, s.pc.why)
    case BootBadAck(error) => Retry(Close(s.(nextId := s.nextId + 1), s.nextId), error, s.pc.why)
    case BootSubscribes => s.(pc := BootOpen(s.nextId, s.pc.why), open := s.open + {s.nextId}, nextId := s.nextId + 1)
    case BootBreaks(error) => Retry(Close(s, s.pc.id), error, s.pc.why)
    case BootSucceeds(snapshot, buffered) => s.(pc := BootDone(s.pc.id, s.pc.why, snapshot, buffered))
    case Install =>
      if s.closed then s.(pc := Refused(s.pc.id))
      else s.(stream := Some(s.pc.id), pc := Installed(s.pc.why, s.pc.snapshot, s.pc.buffered))
    case Publish =>
      s.(mirror := M.FromSnapshot(s.pc.snapshot), pending := s.pc.buffered, resync := Some(s.pc.why), cause := None,
         epochs := s.epochs + [Epoch(s.pc.snapshot, s.pc.buffered, None)], pc := AtTop)
    case Refuse => Return(Close(s, s.pc.id), Failed)
    case ReadLine(raw) => Deliver(decode, WithLast(s, Last(s).(arrived := Last(s).arrived + [raw])), raw)
    case ReadFails => Return(s, Failed)
    case ReadEnds(end) => s.(pc := Lost(end))
    case CheckLost =>
      if s.closed then Return(s, Failed)
      else WithLast(s, Last(s).(end := Some(s.pc.end))).(cause := Some(s.pc.end), pc := Dropping)
    case TakeStream => s.(pc := Closing(s.stream), stream := None)
    case CloseTaken => (if s.pc.taken.Some? then Close(s, s.pc.taken.value) else s).(pc := AtTop)
    case CallClose => s.(closed := true, closer := Took(s.stream), stream := None)
    case CloserCloses => (if s.closer.taken.Some? then Close(s, s.closer.taken.value) else s).(closer := Done)
  }

  // ---------------------------------------------------------------- what must hold

  function Only(o: Option<StreamId>): set<StreamId> { if o.Some? then {o.value} else {} }

  /** The stream the call of Next is responsible for closing. */
  function HeldByNext(s: State): set<StreamId> {
    match s.pc
    case BootOpen(id, _) => {id}
    case BootDone(id, _, _, _) => {id}
    case Refused(id) => {id}
    case Closing(taken) => Only(taken)
    case _ => {}
  }

  function HeldByClose(s: State): set<StreamId> {
    if s.closer.Took? then Only(s.closer.taken) else {}
  }

  /** Every stream is open or was closed, once. */
  ghost predicate Counted(s: State) {
    && (forall id :: id in s.open ==> id < s.nextId)
    && (forall id: nat :: id in s.closings <==> id < s.nextId && id !in s.open)
    && (forall i, j :: 0 <= i < j < |s.closings| ==> s.closings[i] != s.closings[j])
  }

  /** Every open stream has exactly one owner: the session, the call of Next or the call of Close. */
  ghost predicate Owned(s: State) {
    var c, n, k := Only(s.stream), HeldByNext(s), HeldByClose(s);
    && s.open == c + n + k && c !! n && c !! k && n !! k
    && (s.closed <==> !s.closer.NotCalled?) && (s.closed ==> s.stream.None?)
  }

  predicate Reconnecting(pc: NextPc) {
    pc.Waiting? || pc.Booting? || pc.BootOpen? || pc.BootDone? || pc.Installed?
  }

  /** Every stream but the last has ended with a known error, and what is remembered of it is that error. */
  ghost predicate Told(s: State) {
    && s.epochs != []
    && (forall i :: 0 <= i < |s.epochs| - 1 ==> s.epochs[i].end.Some?)
    && (s.cause.Some? ==> s.cause == Last(s).end)
    && (s.resync.Some? ==> |s.epochs| > 1 && s.epochs[|s.epochs| - 2].end == s.resync)
  }

  /** The cause is known whenever there is no stream to read, and a reconnect carries it. */
  ghost predicate Placed(s: State) {
    && (s.stream.None? && !s.closed ==> s.cause.Some?)
    && (Reconnecting(s.pc) ==> s.cause == Some(s.pc.why))
    && ((s.pc.AtNoStream? || s.pc.Refused? || (Reconnecting(s.pc) && !s.pc.Installed?)) ==> s.stream.None?)
    && (s.pc.Dropping? ==> s.cause.Some?)
    && (s.pc.Installed? && !s.closed ==> s.stream.Some?)
    && (s.pc.Reading? || s.pc.Lost? ==> s.cause.None?)
    && (s.cause.Some? && !s.pc.Dropping? && !s.pc.Installed? ==> s.stream.None?)
    && (!s.pc.Idle? && !s.pc.AtTop? ==> s.pending == [] && s.resync.None?)
  }

  ghost predicate Explained(s: State) {
    Told(s) && Placed(s)
  }

  function Outs(decode: Raw -> Option<Event>, raws: seq<Raw>): seq<Out> {
    if raws == [] then [] else Outs(decode, raws[..|raws| - 1]) + [Outcome(decode, raws[|raws| - 1])]
  }

  function Decoded(decode: Raw -> Option<Event>, raws: seq<Raw>): seq<Event> {
    if raws == [] then []
    else
      var e := decode(raws[|raws| - 1]);
      Decoded(decode, raws[..|raws| - 1]) + if e.Some? then [e.value] else []
  }

  /** Everything a caller is told about a history of streams: the lines of each in order, and between two streams one
      resync with the error that ended the first. */
  ghost function Script(decode: Raw -> Option<Event>, epochs: seq<Epoch>): seq<Out> {
    if epochs == [] then []
    else
      var n := |epochs|;
      var lines := Outs(decode, epochs[n - 1].arrived);
      if n == 1 then lines
      else
        var end := epochs[n - 2].end;
        Script(decode, epochs[..n - 1]) + [Resynced(if end.Some? then end.value else StreamClosed)] + lines
  }

  /** The results that say something about the streams. */
  function Visible(out: seq<Out>): seq<Out> {
    if out == [] then []
    else
      var last := out[|out| - 1];
      Visible(out[..|out| - 1]) + if last.Failed? then [] else [last]
  }

  function Queued(decode: Raw -> Option<Event>, s: State): seq<Out> {
    (if s.resync.Some? then [Resynced(s.resync.value)] else []) + Outs(decode, s.pending)
  }

  /** What was returned, followed by what is queued, is the script of the streams installed so far. */
  ghost predicate OnScript(decode: Raw -> Option<Event>, s: State) {
    Visible(s.out) + Queued(decode, s) == Script(decode, s.epochs)
  }

  /** The mirror is the fold, over the snapshot of the stream, of what its consumed lines decode to. */
  ghost predicate Follows(decode: Raw -> Option<Event>, snapshot: Snapshot, arrived: seq<Raw>, pending: seq<Raw>,
                          mirror: M.State) {
    && |pending| <= |arrived|
    && var consumed := arrived[..|arrived| - |pending|];
    && arrived == consumed + pending
    && mirror == M.Fold(M.FromSnapshot(snapshot), Decoded(decode, consumed))
  }

  ghost predicate MirrorCurrent(decode: Raw -> Option<Event>, s: State) {
    s.epochs != [] && Follows(decode, Last(s).snapshot, Last(s).arrived, s.pending, s.mirror)
  }

  // ---------------------------------------------------------------- every step keeps it

  lemma {:induction false} StepOwned(decode: Raw -> Option<Event>, s: State, a: Action)
    requires Enabled(s, a) && s.epochs != [] && Owned(s) && Counted(s) && Explained(s)
    ensures Owned(Step(decode, s, a))
  {
    hide M.Apply, M.FromSnapshot, Explained, Counted, Owned, Step;
    if OfBoot(a) {
      InstallFree(s);
      BootOwned(decode, s, a);
    } else if OfClose(a) {
      DropOwned(decode, s, a);
    } else {
      OtherOwned(decode, s, a);
    }
  }

  predicate OfBoot(a: Action) {
    a.BootSubscribes? || a.BootBreaks? || a.BootSucceeds? || a.Install? || a.Refuse?
  }

  predicate OfClose(a: Action) {
    a.TakeStream? || a.CloseTaken? || a.CallClose? || a.CloserCloses?
  }

  lemma {:induction false} BootOwned(decode: Raw -> Option<Event>, s: State, a: Action)
    requires Enabled(s, a) && s.epochs != [] && Owned(s) && Counted(s) && OfBoot(a)
    requires s.pc.BootDone? ==> s.stream.None?
    ensures Owned(Step(decode, s, a))
  {
    hide Counted, Owned;
    OwnsBoot(s, Step(decode, s, a));
  }

  lemma {:induction false} DropOwned(decode: Raw -> Option<Event>, s: State, a: Action)
    requires Enabled(s, a) && s.epochs != [] && Owned(s) && OfClose(a)
    ensures Owned(Step(decode, s, a))
  {
    if a.TakeStream? || a.CloseTaken? { OwnsDrop(s, Step(decode, s, a)); } else { OwnsClose(s, Step(decode, s, a)); }
  }

  lemma {:induction false} OtherOwned(decode: Raw -> Option<Event>, s: State, a: Action)
    requires Enabled(s, a) && s.epochs != [] && Owned(s) && Counted(s) && !OfBoot(a) && !OfClose(a)
    ensures Owned(Step(decode, s, a))
  {
    hide M.Apply, M.FromSnapshot, Counted, Owned;
    OwnsSame(s, Step(decode, s, a));
  }

  lemma {:induction false} OwnsSame(s: State, t: State)
    requires Owned(s) && Counted(s) && t.stream == s.stream && t.closer == s.closer && t.closed == s.closed
    requires t.open == s.open || t.open == s.open - {s.nextId}
    requires HeldByNext(t) == HeldByNext(s)
    ensures Owned(t)
  {
    assert s.nextId !in s.open;
  }

  /** The bootstrap's stream: opened, closed, or handed to the session. */
  lemma {:induction false} OwnsBoot(s: State, t: State)
    requires Owned(s) && Counted(s) && t.closer == s.closer && t.closed == s.closed
    requires || (t.open == s.open + {s.nextId} && HeldByNext(s) == {} && HeldByNext(t) == {s.nextId}
                 && t.stream == s.stream)
             || (t.open == s.open - HeldByNext(s) && HeldByNext(t) == {} && t.stream == s.stream)
             || (t.open == s.open && HeldByNext(t) == HeldByNext(s) && t.stream == s.stream)
             || (t.open == s.open && HeldByNext(t) == {} && s.stream.None? && Only(t.stream) == HeldByNext(s)
                 && !s.closed)
    ensures Owned(t)
  {
    assert s.nextId !in s.open;
  }

  /** A lost stream: taken from the session, then closed. */
  lemma {:induction false} OwnsDrop(s: State, t: State)
    requires Owned(s) && t.closer == s.closer && t.closed == s.closed
    requires || (t.open == s.open && HeldByNext(s) == {} && HeldByNext(t) == Only(s.stream) && t.stream.None?)
             || (t.open == s.open - HeldByNext(s) && HeldByNext(t) == {} && t.stream == s.stream)
    ensures Owned(t)
  {
  }

  lemma {:induction false} OwnsClose(s: State, t: State)
    requires Owned(s) && HeldByNext(t) == HeldByNext(s) && t.stream.None? && t.closed && !t.closer.NotCalled?
    requires || (t.open == s.open && s.closer.NotCalled? && HeldByClose(t) == Only(s.stream))
             || (t.open == s.open - HeldByClose(s) && s.closer.Took? && HeldByClose(t) == {})
    ensures Owned(t)
  {
  }

  lemma {:induction false} StepCounted(decode: Raw -> Option<Event>, s: State, a: Action)
    requires Enabled(s, a) && s.epochs != [] && Owned(s) && Counted(s)
    ensures Counted(Step(decode, s, a))
  {
    hide M.Apply, M.FromSnapshot, Counted;
    match a
    case BootBadAck(error) => OpenCloseCounted(s, Step(decode, s, a));
    case BootSubscribes => OpenCounted(s, Step(decode, s, a));
    case BootBreaks(error) => CloseCounted(s, s.pc.id, Step(decode, s, a));
    case Refuse => CloseCounted(s, s.pc.id, Step(decode, s, a));
    case CloseTaken =>
      if s.pc.taken.Some? {
        CloseCounted(s, s.pc.taken.value, Step(decode, s, a));
      } else {
        SameCounted(s, Step(decode, s, a));
      }
    case CloserCloses =>
      if s.closer.taken.Some? { CloseCounted(s, s.closer.taken.value, Step(decode, s, a)); }
      else { SameCounted(s, Step(decode, s, a)); }
    case _ => SameCounted(s, Step(decode, s, a));
  }

  lemma {:induction false} OpenCounted(s: State, t: State)
    requires Counted(s) && t.open == s.open + {s.nextId} && t.nextId == s.nextId + 1 && t.closings == s.closings
    ensures Counted(t)
  {
  }

  lemma {:induction false} CloseCounted(s: State, id: StreamId, t: State)
    requires Counted(s) && id in s.open && t.open == s.open - {id} && t.nextId == s.nextId
             && t.closings == s.closings + [id]
    ensures Counted(t)
  {
  }

  lemma {:induction false} OpenCloseCounted(s: State, t: State)
    requires Counted(s) && t.open == s.open - {s.nextId} && t.nextId == s.nextId + 1
             && t.closings == s.closings + [s.nextId]
    ensures Counted(t)
  {
    assert s.nextId !in s.closings;
    assert forall i :: 0 <= i < |s.closings| ==> s.closings[i] in s.closings;
  }

  lemma {:induction false} SameCounted(s: State, t: State)
    requires s.open == t.open && s.closings == t.closings && s.nextId == t.nextId
    ensures Counted(s) <==> Counted(t)
  {
  }

  lemma {:induction false} InstallFree(s: State)
    requires Explained(s)
    ensures s.pc.BootDone? ==> s.stream.None?
  {
  }

  /** The steps that move lines, mirrors or causes. */
  predicate Telling(a: Action) {
    a.Top? || a.Publish? || a.ReadLine? || a.CheckLost?
  }

  lemma {:induction false} StepPlaced(decode: Raw -> Option<Event>, s: State, a: Action)
    requires Enabled(s, a) && Owned(s) && s.epochs != [] && Placed(s)
    ensures Placed(Step(decode, s, a))
  {
    hide Owned, Placed, Step;
    assert s.closed ==> s.stream.None? by { ClosedHasNone(s); }
    if Telling(a) { TellingPlaced(decode, s, a); } else { QuietPlaced(decode, s, a); }
  }

  lemma {:induction false} ClosedHasNone(s: State)
    requires Owned(s)
    ensures s.closed ==> s.stream.None?
  {
  }

  lemma {:induction false} TellingPlaced(decode: Raw -> Option<Event>, s: State, a: Action)
    requires Enabled(s, a) && s.epochs != [] && Placed(s) && Telling(a) && (s.closed ==> s.stream.None?)
    ensures Placed(Step(decode, s, a))
  {
    hide M.Apply, M.FromSnapshot;
  }

  lemma {:induction false} QuietPlaced(decode: Raw -> Option<Event>, s: State, a: Action)
    requires Enabled(s, a) && s.epochs != [] && Placed(s) && !Telling(a) && (s.closed ==> s.stream.None?)
    ensures Placed(Step(decode, s, a))
  {
    hide M.Apply, M.FromSnapshot;
  }

  /** All other steps leave what is told and mirrored alone. */
  lemma {:induction false} Quiet(decode: Raw -> Option<Event>, s: State, a: Action)
    requires Enabled(s, a) && s.epochs != [] && !Telling(a)
    ensures var t := Step(decode, s, a);
            && t.epochs == s.epochs && t.pending == s.pending && t.resync == s.resync && t.cause == s.cause
            && t.mirror == s.mirror && (t.out == s.out || t.out == s.out + [Failed])
  {
    hide M.Apply, M.FromSnapshot;
  }

  lemma {:induction false} StepTold(decode: Raw -> Option<Event>, s: State, a: Action)
    requires Enabled(s, a) && Told(s) && Placed(s)
    ensures Told(Step(decode, s, a))
  {
    hide M.Apply, M.FromSnapshot, Step;
    if Telling(a) { TellingTold(decode, s, a); } else { Quiet(decode, s, a); }
  }

  lemma {:induction false} TellingTold(decode: Raw -> Option<Event>, s: State, a: Action)
    requires Enabled(s, a) && Told(s) && Placed(s) && Telling(a)
    ensures Told(Step(decode, s, a))
  {
    hide M.Apply, M.FromSnapshot;
    match a
    case Top =>
    case Publish =>
    case ReadLine(_) =>
    case CheckLost =>
  }

  lemma {:induction false} OutsAppend(decode: Raw -> Option<Event>, raws: seq<Raw>, raw: Raw)
    ensures Outs(decode, raws + [raw]) == Outs(decode, raws) + [Outcome(decode, raw)]
    ensures Decoded(decode, raws + [raw]) == Decoded(decode, raws) + if decode(raw).Some? then [decode(raw).value]
            else []
  {
    assert (raws + [raw])[..|raws|] == raws;
  }

  lemma {:induction false} OutsFirst(decode: Raw -> Option<Event>, raws: seq<Raw>)
    requires raws != []
    ensures Outs(decode, raws) == [Outcome(decode, raws[0])] + Outs(decode, raws[1..])
  {
    if |raws| == 1 {
      assert raws[..0] == [] && raws[1..] == [];
      assert Outs(decode, raws[..0]) == [] && Outs(decode, raws[1..]) == [];
    } else {
      var n := |raws| - 1;
      OutsFirst(decode, raws[..n]);
      assert raws[..n][1..] == raws[1..][..n - 1] && raws[1..][n - 1] == raws[n];
    }
  }

  lemma {:induction false} VisibleAppend(out: seq<Out>, o: Out)
    ensures Visible(out + [o]) == Visible(out) + if o.Failed? then [] else [o]
  {
    assert (out + [o])[..|out|] == out;
  }

  lemma {:induction false} ScriptArrives(decode: Raw -> Option<Event>, s: State, raw: Raw)
    requires s.epochs != []
    ensures Script(decode, WithLast(s, Last(s).(arrived := Last(s).arrived + [raw])).epochs) ==
            Script(decode, s.epochs) + [Outcome(decode, raw)]
  {
    var n := |s.epochs|;
    var next := s.epochs[..n - 1] + [Last(s).(arrived := Last(s).arrived + [raw])];
    assert next[..n - 1] == s.epochs[..n - 1];
    OutsAppend(decode, Last(s).arrived, raw);
  }

  lemma {:induction false} ScriptEnds(decode: Raw -> Option<Event>, s: State, end: Cause)
    requires s.epochs != []
    ensures Script(decode, WithLast(s, Last(s).(end := Some(end))).epochs) == Script(decode, s.epochs)
  {
    var n := |s.epochs|;
    var next := s.epochs[..n - 1] + [Last(s).(end := Some(end))];
    assert next[..n - 1] == s.epochs[..n - 1];
  }

  lemma {:induction false} ScriptInstalls(decode: Raw -> Option<Event>, epochs: seq<Epoch>, e: Epoch)
    requires epochs != [] && epochs[|epochs| - 1].end.Some?
    ensures Script(decode, epochs + [e]) ==
            Script(decode, epochs) + ([Resynced(epochs[|epochs| - 1].end.value)] + Outs(decode, e.arrived))
  {
    assert (epochs + [e])[..|epochs|] == epochs;
  }

  lemma {:induction false} StepScript(decode: Raw -> Option<Event>, s: State, a: Action)
    requires Enabled(s, a) && Told(s) && Placed(s) && OnScript(decode, s)
    ensures OnScript(decode, Step(decode, s, a))
  {
    hide M.Apply, M.FromSnapshot, Visible, Script, Outs, Step, Placed;
    if Telling(a) {
      TellingScript(decode, s, a);
    } else {
      Quiet(decode, s, a);
      VisibleAppend(s.out, Failed);
      assert Visible(s.out) + [] == Visible(s.out);
    }
  }

  lemma {:induction false} TellingScript(decode: Raw -> Option<Event>, s: State, a: Action)
    requires Enabled(s, a) && Told(s) && Placed(s) && OnScript(decode, s) && Telling(a)
    ensures OnScript(decode, Step(decode, s, a))
  {
    hide M.Apply, M.FromSnapshot, Visible, Script, Outs;
    NothingQueued(decode);
    match a
    case Top =>
      if s.resync.Some? {
        VisibleAppend(s.out, Resynced(s.resync.value));
      } else if s.pending != [] {
        OutsFirst(decode, s.pending);
        VisibleAppend(s.out, Outcome(decode, s.pending[0]));
      }
    case Publish =>
      ScriptInstalls(decode, s.epochs, Epoch(s.pc.snapshot, s.pc.buffered, None));
    case ReadLine(raw) =>
      ScriptArrives(decode, s, raw);
      VisibleAppend(s.out, Outcome(decode, raw));
    case CheckLost =>
      if s.closed { VisibleAppend(s.out, Failed); } else { ScriptEnds(decode, s, s.pc.end); }
  }

  lemma {:induction false} NothingQueued(decode: Raw -> Option<Event>)
    ensures Outs(decode, []) == [] && Decoded(decode, []) == [] && Visible([]) == []
  {
  }

  lemma {:induction false} FoldAppend(m: M.State, events: seq<Event>, e: Event)
    ensures M.Fold(m, events + [e]) == M.Apply(M.Fold(m, events), e)
  {
    assert (events + [e])[..|events|] == events;
  }

  /** One more consumed line moves the mirror by what it decodes to. */
  lemma {:induction false} Consume(decode: Raw -> Option<Event>, base: M.State, consumed: seq<Raw>, raw: Raw)
    ensures M.Fold(base, Decoded(decode, consumed + [raw])) ==
            if decode(raw).Some? then M.Apply(M.Fold(base, Decoded(decode, consumed)), decode(raw).value)
            else M.Fold(base, Decoded(decode, consumed))
  {
    hide M.Apply, M.Fold;
    OutsAppend(decode, consumed, raw);
    if decode(raw).Some? {
      FoldAppend(base, Decoded(decode, consumed), decode(raw).value);
    } else {
      assert Decoded(decode, consumed + [raw]) == Decoded(decode, consumed);
    }
  }

  /** The mirror after one line has been consumed. */
  ghost function Moved(decode: Raw -> Option<Event>, mirror: M.State, raw: Raw): M.State {
    if decode(raw).Some? then M.Apply(mirror, decode(raw).value) else mirror
  }

  lemma {:induction false} FollowsPending(decode: Raw -> Option<Event>, snapshot: Snapshot, arrived: seq<Raw>,
                                          pending: seq<Raw>, mirror: M.State)
    requires Follows(decode, snapshot, arrived, pending, mirror) && pending != []
    ensures Follows(decode, snapshot, arrived, pending[1..], Moved(decode, mirror, pending[0]))
  {
    hide M.Apply, M.FromSnapshot, M.Fold, Decoded;
    var n := |arrived| - |pending|;
    Consume(decode, M.FromSnapshot(snapshot), arrived[..n], pending[0]);
    assert arrived[..n + 1] == arrived[..n] + [pending[0]];
  }

  lemma {:induction false} FollowsLine(decode: Raw -> Option<Event>, snapshot: Snapshot, arrived: seq<Raw>, raw: Raw,
                                       mirror: M.State)
    requires Follows(decode, snapshot, arrived, [], mirror)
    ensures Follows(decode, snapshot, arrived + [raw], [], Moved(decode, mirror, raw))
  {
    hide M.Apply, M.FromSnapshot, M.Fold, Decoded;
    assert arrived[..|arrived|] == arrived && (arrived + [raw])[..|arrived| + 1] == arrived + [raw];
    Consume(decode, M.FromSnapshot(snapshot), arrived, raw);
  }

  lemma {:induction false} FollowsFresh(decode: Raw -> Option<Event>, snapshot: Snapshot, arrived: seq<Raw>)
    ensures Follows(decode, snapshot, arrived, arrived, M.FromSnapshot(snapshot))
  {
    hide M.FromSnapshot;
    assert arrived[..0] == [];
    NothingQueued(decode);
    NoEvents(M.FromSnapshot(snapshot));
  }

  /** What the mirror invariant looks at. */
  lemma {:induction false} SameMirror(decode: Raw -> Option<Event>, s: State, t: State, snapshot: Snapshot,
                                      arrived: seq<Raw>)
    requires t.epochs != [] && Last(t).snapshot == snapshot && Last(t).arrived == arrived
    requires Follows(decode, snapshot, arrived, t.pending, t.mirror)
    ensures MirrorCurrent(decode, t)
  {
  }

  lemma {:induction false} StepMirror(decode: Raw -> Option<Event>, s: State, a: Action)
    requires Enabled(s, a) && s.epochs != [] && Placed(s) && MirrorCurrent(decode, s)
    ensures MirrorCurrent(decode, Step(decode, s, a))
  {
    hide M.Apply, M.FromSnapshot, Follows, Step, MirrorCurrent;
    match a
    case Top => TopMirror(decode, s);
    case Publish => PublishMirror(decode, s);
    case ReadLine(raw) => LineMirror(decode, s, raw);
    case CheckLost => LostMirror(decode, s);
    case _ => QuietMirror(decode, s, a);
  }

  lemma {:induction false} QuietMirror(decode: Raw -> Option<Event>, s: State, a: Action)
    requires Enabled(s, a) && s.epochs != [] && !Telling(a) && MirrorCurrent(decode, s)
    ensures MirrorCurrent(decode, Step(decode, s, a))
  {
    hide Follows, Step;
    Quiet(decode, s, a);
    SameMirror(decode, s, Step(decode, s, a), Last(s).snapshot, Last(s).arrived);
  }

  lemma {:induction false} TopMirror(decode: Raw -> Option<Event>, s: State)
    requires Enabled(s, Top) && s.epochs != [] && MirrorCurrent(decode, s)
    ensures MirrorCurrent(decode, Step(decode, s, Top))
  {
    hide M.Apply, M.FromSnapshot, Follows;
    if s.resync.None? && s.pending != [] {
      FollowsPending(decode, Last(s).snapshot, Last(s).arrived, s.pending, s.mirror);
    }
  }

  lemma {:induction false} PublishMirror(decode: Raw -> Option<Event>, s: State)
    requires Enabled(s, Publish) && s.epochs != []
    ensures MirrorCurrent(decode, Step(decode, s, Publish))
  {
    hide M.Apply, M.FromSnapshot, Follows;
    FollowsFresh(decode, s.pc.snapshot, s.pc.buffered);
  }

  lemma {:induction false} LineMirror(decode: Raw -> Option<Event>, s: State, raw: Raw)
    requires Enabled(s, ReadLine(raw)) && s.epochs != [] && s.pending == [] && MirrorCurrent(decode, s)
    ensures MirrorCurrent(decode, Step(decode, s, ReadLine(raw)))
  {
    hide M.Apply, M.FromSnapshot, Follows;
    var t := Step(decode, s, ReadLine(raw));
    FollowsLine(decode, Last(s).snapshot, Last(s).arrived, raw, s.mirror);
    assert t.mirror == Moved(decode, s.mirror, raw) && t.pending == [];
    SameMirror(decode, s, t, Last(s).snapshot, Last(s).arrived + [raw]);
  }

  lemma {:induction false} LostMirror(decode: Raw -> Option<Event>, s: State)
    requires Enabled(s, CheckLost) && s.epochs != [] && MirrorCurrent(decode, s)
    ensures MirrorCurrent(decode, Step(decode, s, CheckLost))
  {
    hide M.Apply, M.FromSnapshot, Follows;
    SameMirror(decode, s, Step(decode, s, CheckLost), Last(s).snapshot, Last(s).arrived);
  }

  lemma {:induction false} NoEvents(m: M.State)
    ensures M.Fold(m, []) == m
  {
  }

  // ---------------------------------------------------------------- whole runs

  ghost predicate Run(decode: Raw -> Option<Event>, states: seq<State>, actions: seq<Action>) {
    && |states| == |actions| + 1
    && (exists snapshot, buffered :: states[0] == Opened(snapshot, buffered))
    && forall i :: 0 <= i < |actions| ==>
         Enabled(states[i], actions[i]) && states[i].epochs != []
           && states[i + 1] == Step(decode, states[i], actions[i])
  }

  ghost predicate Inv(decode: Raw -> Option<Event>, s: State) {
    Explained(s) && Owned(s) && Counted(s) && OnScript(decode, s) && MirrorCurrent(decode, s)
  }

  lemma {:induction false} OpenedInv(decode: Raw -> Option<Event>, snapshot: Snapshot, buffered: seq<Raw>)
    ensures Inv(decode, Opened(snapshot, buffered))
  {
    hide M.FromSnapshot;
    NothingQueued(decode);
    FollowsFresh(decode, snapshot, buffered);
  }

  lemma {:induction false} RunInv(decode: Raw -> Option<Event>, states: seq<State>, actions: seq<Action>, n: nat)
    requires Run(decode, states, actions) && n <= |actions|
    ensures Inv(decode, states[n])
  {
    hide Owned, Counted, Placed, OnScript, MirrorCurrent, Step, Enabled, Opened;
    if n == 0 {
      var snapshot, buffered :| states[0] == Opened(snapshot, buffered);
      OpenedInv(decode, snapshot, buffered);
    } else {
      RunInv(decode, states, actions, n - 1);
      StepInv(decode, states[n - 1], actions[n - 1]);
    }
  }

  lemma {:induction false} StepInv(decode: Raw -> Option<Event>, s: State, a: Action)
    requires Inv(decode, s) && Enabled(s, a)
    ensures Inv(decode, Step(decode, s, a))
  {
    hide Owned, Counted, Placed, OnScript, MirrorCurrent, Step, Enabled;
    StepOwned(decode, s, a);
    StepCounted(decode, s, a);
    StepPlaced(decode, s, a);
    StepTold(decode, s, a);
    StepScript(decode, s, a);
    StepMirror(decode, s, a);
  }

  /** In every interleaving each opened stream is the session's, is held for closing by exactly one of Next and Close,
      or was closed, once; and when no call of Next runs and Close has returned, none is left open. */
  lemma {:induction false} NoStreamLeaks(decode: Raw -> Option<Event>, states: seq<State>, actions: seq<Action>, n: nat)
    requires Run(decode, states, actions) && n <= |actions|
    ensures var s := states[n];
            && (forall id: nat :: id < s.nextId ==>
                  (if s.stream == Some(id) then 1 else 0) + (if id in HeldByNext(s) then 1 else 0)
                  + (if id in HeldByClose(s) then 1 else 0) + (if id in s.closings then 1 else 0) == 1)
            && (forall i, j :: 0 <= i < j < |s.closings| ==> s.closings[i] != s.closings[j])
            && (s.pc.Idle? && s.closer.Done? ==> s.open == {} && forall id: nat :: id < s.nextId ==> id in s.closings)
  {
    hide M.FromSnapshot, OnScript, MirrorCurrent, Explained;
    RunInv(decode, states, actions, n);
    var s := states[n];
    forall id: nat | id < s.nextId
      ensures (if s.stream == Some(id) then 1 else 0) + (if id in HeldByNext(s) then 1 else 0)
              + (if id in HeldByClose(s) then 1 else 0) + (if id in s.closings then 1 else 0) == 1
    {
      assert s.stream == Some(id) <==> id in Only(s.stream);
    }
  }

  /** What callers are told: the lines of the first stream in order, then, for every installed reconnect and before any
      line of its stream, exactly one resync carrying the error that ended the stream before, and so on; nothing is
      skipped, since what is not returned yet is exactly what is queued. */
  lemma {:induction false} ResyncGrammar(decode: Raw -> Option<Event>, states: seq<State>, actions: seq<Action>, n: nat)
    requires Run(decode, states, actions) && n <= |actions|
    ensures var s := states[n];
            && Visible(s.out) + Queued(decode, s) == Script(decode, s.epochs)
            && (forall i :: 0 <= i < |s.epochs| - 1 ==> s.epochs[i].end.Some?)
  {
    hide M.FromSnapshot, MirrorCurrent, Owned, Counted, Placed;
    RunInv(decode, states, actions, n);
  }

  /** After every step the mirror is the fold of the decodable events of the lines consumed from the current stream over
      that stream's snapshot. */
  lemma {:induction false} MirrorRefines(decode: Raw -> Option<Event>, states: seq<State>, actions: seq<Action>, n: nat)
    requires Run(decode, states, actions) && n <= |actions|
    ensures MirrorCurrent(decode, states[n])
  {
    hide M.FromSnapshot, OnScript, Owned, Counted, Placed, MirrorCurrent;
    RunInv(decode, states, actions, n);
  }

  lemma {:induction false} CauseStep(decode: Raw -> Option<Event>, s: State, a: Action)
    requires Enabled(s, a) && Explained(s) && s.cause.Some?
    ensures |s.epochs| <= |Step(decode, s, a).epochs|
    ensures Step(decode, s, a).cause == s.cause || |s.epochs| < |Step(decode, s, a).epochs|
  {
    hide M.FromSnapshot, M.Apply;
  }

  lemma {:induction false} EpochsGrow(decode: Raw -> Option<Event>, s: State, a: Action)
    requires Enabled(s, a) && s.epochs != []
    ensures |s.epochs| <= |Step(decode, s, a).epochs|
  {
    hide M.FromSnapshot, M.Apply;
  }

  lemma {:induction false} EpochsGrowRun(decode: Raw -> Option<Event>, states: seq<State>, actions: seq<Action>, i: nat,
                                         j: nat)
    requires Run(decode, states, actions) && i <= j <= |actions|
    ensures |states[i].epochs| <= |states[j].epochs|
    decreases j - i
  {
    hide Step, Enabled, Opened;
    if i < j {
      EpochsGrowRun(decode, states, actions, i, j - 1);
      EpochsGrow(decode, states[j - 1], actions[j - 1]);
    }
  }

  /** The remembered cause stays what it is, whatever calls of Next give up, until a reconnect is installed. */
  lemma {:induction false} CauseKept(decode: Raw -> Option<Event>, states: seq<State>, actions: seq<Action>, i: nat,
                                     j: nat)
    requires Run(decode, states, actions) && i <= j <= |actions|
    requires states[i].cause.Some? && |states[j].epochs| == |states[i].epochs|
    ensures states[j].cause == states[i].cause
    decreases j - i
  {
    hide Step, Enabled, Opened, Inv;
    if i < j {
      EpochsGrowRun(decode, states, actions, i, j - 1);
      EpochsGrowRun(decode, states, actions, j - 1, j);
      CauseKept(decode, states, actions, i, j - 1);
      RunInv(decode, states, actions, j - 1);
      assert Explained(states[j - 1]) by { InvExplains(decode, states[j - 1]); }
      CauseStep(decode, states[j - 1], actions[j - 1]);
    }
  }

  lemma {:induction false} InvExplains(decode: Raw -> Option<Event>, s: State)
    requires Inv(decode, s)
    ensures Explained(s)
  {
  }

  // ---------------------------------------------------------------- what makes a call give up

  /** The bootstrap fails with this error: before subscribing, on a bad acknowledgement, or afterwards. */
  predicate FailsWith(a: Action, error: BootError) {
    a == BootFails(error) || a == BootBadAck(error) || a == BootBreaks(error)
  }

  /** A server that is not there yet makes the call wait and try again; an error response or an unexpected result ends
      it. Either way the failed attempt leaves no stream open and what the next attempt reports unchanged. */
  lemma {:induction false} BootFailure(decode: Raw -> Option<Event>, s: State, a: Action)
    requires Enabled(s, a) && s.epochs != [] && Counted(s)
    ensures var t := Step(decode, s, a);
            && (FailsWith(a, Unavailable) ==> t.pc == Waiting(s.pc.why) && t.out == s.out)
            && (FailsWith(a, ApiError) || FailsWith(a, UnexpectedResult) ==> t.pc == Idle && t.out == s.out + [Failed])
            && (FailsWith(a, Unavailable) || FailsWith(a, ApiError) || FailsWith(a, UnexpectedResult) ==>
                  && t.open == s.open - HeldByNext(s) && t.cause == s.cause && t.stream == s.stream
                  && t.mirror == s.mirror && t.epochs == s.epochs && t.pending == s.pending)
  {
    hide Step, Enabled, Counted, HeldByNext;
    assert s.nextId !in s.open by { NextIsNew(s); }
    if a.BootFails? || a.BootBadAck? || a.BootBreaks? { FailureOf(decode, s, a); }
  }

  lemma {:induction false} NextIsNew(s: State)
    requires Counted(s)
    ensures s.nextId !in s.open
  {
  }

  lemma {:induction false} FailureOf(decode: Raw -> Option<Event>, s: State, a: Action)
    requires Enabled(s, a) && s.epochs != [] && s.nextId !in s.open && (a.BootFails? || a.BootBadAck? || a.BootBreaks?)
    ensures var t := Step(decode, s, a);
            && (if a.error == Unavailable then t.pc == Waiting(s.pc.why) && t.out == s.out
                else t.pc == Idle && t.out == s.out + [Failed])
            && t.open == s.open - HeldByNext(s) && t.cause == s.cause && t.stream == s.stream
            && t.mirror == s.mirror && t.epochs == s.epochs && t.pending == s.pending
  {
    hide M.Apply, M.FromSnapshot, Deliver, WithLast;
  }

  /** The step ends the call with an error. */
  predicate GivesUp(s: State, a: Action) {
    || FailsWith(a, ApiError) || FailsWith(a, UnexpectedResult)
    || a.WaitContext?                                       // the call's context ended
    || a.ReadFails?                                         // a read failed and left the stream usable
    || (s.closed && (a.WaitClosed? || a.Refuse? || a.CheckClosed? || a.CheckLost?))
  }

  /** Whoever is refused or woken by a close finds the session closed. */
  ghost predicate RefusedClosed(s: State) { s.pc.Refused? ==> s.closed }

  /** The step adds an error to what was returned, or another result, or nothing. */
  ghost predicate Tells(s: State, t: State, failed: bool) {
    if failed then t.out == s.out + [Failed] && t.pc == Idle
    else t.out == s.out || (|t.out| == |s.out| + 1 && s.out <= t.out && t.out[|s.out|] != Failed && t.pc == Idle)
  }

  lemma {:induction false} StepGivesUp(decode: Raw -> Option<Event>, s: State, a: Action)
    requires Enabled(s, a) && s.epochs != [] && RefusedClosed(s)
    ensures RefusedClosed(Step(decode, s, a)) && Tells(s, Step(decode, s, a), GivesUp(s, a))
  {
    hide M.Apply, M.FromSnapshot, Step, GivesUp, RefusedClosed;
    if Telling(a) { TellingTells(decode, s, a); } else { QuietTells(decode, s, a); }
  }

  lemma {:induction false} TellingTells(decode: Raw -> Option<Event>, s: State, a: Action)
    requires Enabled(s, a) && s.epochs != [] && RefusedClosed(s) && Telling(a)
    ensures RefusedClosed(Step(decode, s, a)) && Tells(s, Step(decode, s, a), GivesUp(s, a))
  {
    hide M.Apply, M.FromSnapshot;
  }

  lemma {:induction false} QuietTells(decode: Raw -> Option<Event>, s: State, a: Action)
    requires Enabled(s, a) && s.epochs != [] && RefusedClosed(s) && !Telling(a)
    ensures RefusedClosed(Step(decode, s, a)) && Tells(s, Step(decode, s, a), GivesUp(s, a))
  {
    hide M.Apply, M.FromSnapshot;
  }

  /** Over every run, a call ends with an error exactly at a step that makes it give up: a final bootstrap error, an
      ended context, a close or a failed read. That the server is unavailable never ends one. */
  lemma {:induction false} FailuresExplained(decode: Raw -> Option<Event>, states: seq<State>, actions: seq<Action>,
                                             n: nat, k: nat) returns (i: nat)
    requires Run(decode, states, actions) && n <= |actions| && k < |states[n].out|
    ensures i < n && |states[i].out| == k && |states[i + 1].out| == k + 1 && states[i + 1].out[k] == states[n].out[k]
    ensures states[n].out[k] == Failed <==> GivesUp(states[i], actions[i])
  {
    hide Step, Enabled, GivesUp, RefusedClosed;
    NobodyRefusedOpen(decode, states, actions, n);
    i := n - 1;
    NobodyRefusedOpen(decode, states, actions, i);
    StepGivesUp(decode, states[i], actions[i]);
    if k < |states[i].out| { i := FailuresExplained(decode, states, actions, i, k); }
  }

  lemma {:induction false} NobodyRefusedOpen(decode: Raw -> Option<Event>, states: seq<State>, actions: seq<Action>,
                                             n: nat)
    requires Run(decode, states, actions) && n <= |actions|
    ensures RefusedClosed(states[n]) && (n == 0 ==> states[n].out == [])
  {
    hide Step, Enabled, GivesUp;
    if n > 0 {
      NobodyRefusedOpen(decode, states, actions, n - 1);
      StepGivesUp(decode, states[n - 1], actions[n - 1]);
    }
  }

  /** A mirror that has consumed every line of its stream, when its snapshot was taken after the server had applied some
      of the events that these lines carry. */
  lemma {:induction false} CaughtUp(decode: Raw -> Option<Event>, s: State, server: M.State, before: seq<Event>,
                                    after: seq<Event>)
    requires M.WellFormed(server) && MirrorCurrent(decode, s) && s.pending == []
    requires Last(s).snapshot == M.ToSnapshot(M.Fold(server, before))
    requires Decoded(decode, Last(s).arrived) == before + after
    ensures forall k :: Replay.View(s.mirror, k) == Replay.View(M.Fold(server, before + after), k)
    ensures Agreed(server) && Settled(server, before) ==> s.mirror == M.Fold(server, before + after)
  {
    hide M.FromSnapshot, M.ToSnapshot, M.WellFormed, Replay.View, M.Fold, Agreed, Settled;
    var arrived := Last(s).arrived;
    assert arrived[..|arrived|] == arrived;
    Replay.BootstrapConverges(server, before, after);
    if Agreed(server) && Settled(server, before) { BootstrapIsExact(server, before, after); }
  }

  /** The protocol and the reducer together: when the snapshot of the current stream was taken after the server had
      applied some of the events that the stream carries, the mirror that has consumed them all sees what the server
      sees, workspace by workspace, tab by tab and pane by pane; and it is the server's state, agents, layouts and
      order included, when those first events settle. */
  lemma {:induction false} MirrorMatchesServer(decode: Raw -> Option<Event>, states: seq<State>, actions: seq<Action>,
                                               n: nat, server: M.State, before: seq<Event>, after: seq<Event>)
    requires Run(decode, states, actions) && n <= |actions| && M.WellFormed(server)
    requires states[n].epochs != [] && states[n].pending == []
    requires Last(states[n]).snapshot == M.ToSnapshot(M.Fold(server, before))
    requires Decoded(decode, Last(states[n]).arrived) == before + after
    ensures forall k :: Replay.View(states[n].mirror, k) == Replay.View(M.Fold(server, before + after), k)
    ensures Agreed(server) && Settled(server, before) ==> states[n].mirror == M.Fold(server, before + after)
  {
    hide M.FromSnapshot, M.ToSnapshot, M.WellFormed, Replay.View, M.Fold, Agreed, Settled, MirrorCurrent, Enabled, Step;
    MirrorRefines(decode, states, actions, n);
    CaughtUp(decode, states[n], server, before, after);
  }
}
