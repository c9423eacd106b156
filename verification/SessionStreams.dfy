/** A session together with its streams: one machine in which every line the session reads is handed over by the reader
    of the stream it holds, and every bootstrap installs what that stream's collector buffered. */
module SessionStreams {
  import opened Records
  import opened Wrappers
  import M = Mirror
  import P = StreamProtocol
  import S = SessionProtocol
  import A = Agreement
  import Order = ReplayOrder
  import Replay

  type Decoder = S.Raw -> Option<Event>

  /** What a session makes of the error that a stream's Next reports its end with. */
  function EndOf(cause: Option<P.Cause>): S.Cause {
    match cause
    case None => S.StreamClosed
    case Some(ReadFailure(text)) => S.ReadError(text)
    case Some(ApiError(code)) => S.ServerError(code)
  }

  /** The session, its streams by id, the id of the stream of each epoch, and that of the bootstrap being published. */
  datatype World = World(session: S.State, streams: map<nat, P.State>, ids: seq<nat>, installing: nat)

  datatype Action =
    | Alone(step: S.Action)                          // the session, without its stream
    | OfStream(id: nat, move: P.Action)              // a stream, without returning to the session
    | Subscribes                                     // a bootstrap opens a stream and starts its collector
    | Boots(snapshot: Snapshot)                      // a bootstrap succeeds with what the collector buffered
    | Breaks(error: S.BootError, snapshotOk: bool)   // a bootstrap fails and closes its stream
    | Answers(move: P.Action)                        // the read the session waits for returns

  predicate NeedsStream(a: S.Action) {
    a.BootSubscribes? || a.BootSucceeds? || a.BootBreaks? || a.ReadLine? || a.ReadFails? || a.ReadEnds?
  }

  /** A stream is read by the session that waits for it or by its collector, and closed by whoever owns it. */
  predicate OnItsOwn(w: World, id: nat, a: P.Action) {
    && id in w.streams && P.Enabled(w.streams[id], a) && !a.FinishBootstrap?
    && P.Step(w.streams[id], a).returned == w.streams[id].returned
    && (a.Call? && w.streams[id].phase.Live? ==> w.session.pc == S.Reading(id))
    && (a.Close? ==> id in w.session.closings)
  }

  /** The collector of the bootstrap in progress has stopped. */
  predicate Finishing(w: World, snapshotOk: bool) {
    && w.session.pc.BootOpen? && w.session.pc.id in w.streams
    && P.Enabled(w.streams[w.session.pc.id], P.FinishBootstrap(snapshotOk))
  }

  predicate Answering(w: World, a: P.Action) {
    && w.session.pc.Reading? && w.session.pc.id in w.streams
    && var p := w.streams[w.session.pc.id];
    && p.phase.Live? && P.Enabled(p, a) && |P.Step(p, a).returned| == |p.returned| + 1
  }

  predicate Enabled(w: World, act: Action) {
    match act
    case Alone(a) => !NeedsStream(a) && S.Enabled(w.session, a)
    case OfStream(id, a) => OnItsOwn(w, id, a)
    case Subscribes => S.Enabled(w.session, S.BootSubscribes)
    case Boots(_) => Finishing(w, true) && w.streams[w.session.pc.id].collectErr.None?
    case Breaks(_, ok) => Finishing(w, ok) && (ok ==> w.streams[w.session.pc.id].collectErr.Some?)
    case Answers(a) => Answering(w, a)
  }

  /** What the session does with a result of its stream. */
  function Reaction(r: P.Result): S.Action {
    match r
    case Event(raw) => S.ReadLine(raw)
    case StreamClosed(cause) => S.ReadEnds(EndOf(cause))
    case ContextDone => S.ReadFails
    case DecodeFailed => S.ReadFails
  }

  /** The step of the session in a step of the world. */
  function SessionPart(w: World, act: Action): Option<S.Action>
    requires Enabled(w, act)
  {
    match act
    case Alone(a) => Some(a)
    case OfStream(_, _) => None
    case Subscribes => Some(S.BootSubscribes)
    case Boots(snapshot) => Some(S.BootSucceeds(snapshot, w.streams[w.session.pc.id].buffered))
    case Breaks(error, _) => Some(S.BootBreaks(error))
    case Answers(a) =>
      var p := P.Step(w.streams[w.session.pc.id], a);
      Some(Reaction(p.returned[|p.returned| - 1]))
  }

  function StreamsAfter(w: World, act: Action): map<nat, P.State>
    requires Enabled(w, act)
  {
    match act
    case Alone(_) => w.streams
    case OfStream(id, a) => w.streams[id := P.Step(w.streams[id], a)]
    case Subscribes => w.streams[w.session.nextId := P.INITIAL]
    case Boots(_) => w.streams[w.session.pc.id := P.Step(w.streams[w.session.pc.id], P.FinishBootstrap(true))]
    case Breaks(_, ok) => w.streams[w.session.pc.id := P.Step(w.streams[w.session.pc.id], P.FinishBootstrap(ok))]
    case Answers(a) => w.streams[w.session.pc.id := P.Step(w.streams[w.session.pc.id], a)]
  }

  ghost function Step(decode: Decoder, w: World, act: Action): World
    requires Enabled(w, act) && w.session.epochs != []
  {
    var part := SessionPart(w, act);
    World(if part.Some? then S.Step(decode, w.session, part.value) else w.session, StreamsAfter(w, act),
          if act == Alone(S.Publish) then w.ids + [w.installing] else w.ids,
          if act == Alone(S.Install) then w.session.pc.id else w.installing)
  }

  /** A stream whose bootstrap has succeeded and of which nothing else was read. */
  ghost predicate Booted(p: P.State) {
    && p.phase.Live? && p.pc.Out? && p.returned == [] && !p.closed
    && exists states, actions :: P.Run(states, actions) && p == states[|actions|]
  }

  ghost predicate Initial(w: World) {
    exists snapshot, p :: Booted(p) && w == World(S.Opened(snapshot, p.buffered), map[0 := p], [0], 0)
  }

  ghost predicate Run(decode: Decoder, worlds: seq<World>, acts: seq<Action>) {
    && |worlds| == |acts| + 1 && Initial(worlds[0])
    && forall i :: 0 <= i < |acts| ==>
         && Enabled(worlds[i], acts[i]) && worlds[i].session.epochs != []
         && worlds[i + 1] == Step(decode, worlds[i], acts[i])
  }

  // ---------------------------------------------------------------- what ties the two machines together

  /** An epoch has what its stream delivered and, once it ended, the cause its stream received. */
  ghost predicate Carries(e: S.Epoch, p: P.State) {
    && p.phase.Live? && e.arrived == p.buffered + P.Delivered(p.returned)
    && (e.end.Some? ==> p.readErr.Some? && e.end == Some(EndOf(p.readErr)))
  }

  ghost predicate Named(w: World) {
    && w.ids != [] && |w.ids| == |w.session.epochs|
    && (forall i, j :: 0 <= i < j < |w.ids| ==> w.ids[i] != w.ids[j])
    && (forall i :: 0 <= i < |w.ids| ==> w.ids[i] in w.streams)
    && (forall id :: id in w.streams ==> id < w.session.nextId)
  }

  ghost predicate Carried(w: World)
    requires Named(w)
  {
    forall i :: 0 <= i < |w.ids| ==> Carries(w.session.epochs[i], w.streams[w.ids[i]])
  }

  /** A live stream is being read only while the session waits for it, and is closed only by a recorded close. */
  ghost predicate Engaged(pc: S.NextPc, closings: seq<nat>, id: nat, p: P.State) {
    (p.phase.Live? && !p.pc.Out? ==> pc == S.Reading(id)) && (p.closed ==> id in closings)
  }

  ghost predicate AllEngaged(w: World) {
    forall id :: id in w.streams ==> Engaged(w.session.pc, w.session.closings, id, w.streams[id])
  }

  predicate Untouched(p: P.State, buffered: seq<S.Raw>) {
    p.phase.Live? && p.returned == [] && p.buffered == buffered
  }

  predicate Spare(w: World, id: nat) { id in w.streams && id !in w.ids }

  function Current(w: World): nat
    requires w.ids != []
  {
    w.ids[|w.ids| - 1]
  }

  /** The session holds the stream of its last epoch, or the one being published. */
  predicate Holding(w: World)
    requires w.ids != []
  {
    var s := w.session;
    s.stream.Some? ==> s.stream.value == if s.pc.Installed? then w.installing else Current(w)
  }

  ghost predicate AtPc(w: World)
    requires Named(w)
  {
    match w.session.pc
    case BootOpen(id, _) => Spare(w, id)
    case BootDone(id, _, _, buffered) => Spare(w, id) && Untouched(w.streams[id], buffered)
    case Installed(_, _, buffered) => Spare(w, w.installing) && Untouched(w.streams[w.installing], buffered)
    case Reading(id) => id == Current(w) && (!w.session.closed ==> w.session.stream == Some(id))
    case Lost(end) =>
      var cause := w.streams[Current(w)].readErr;
      !w.session.closed ==> cause.Some? && end == EndOf(cause)
    case _ => true
  }

  ghost predicate Placed(w: World)
    requires Named(w)
  {
    Holding(w) && AtPc(w)
  }

  ghost predicate Linked(w: World) {
    Named(w) && Carried(w) && AllEngaged(w) && Placed(w)
  }

  ghost predicate StreamsInv(w: World) {
    forall id :: id in w.streams ==> P.Inv(w.streams[id])
  }

  ghost predicate Inv(decode: Decoder, w: World) {
    S.Inv(decode, w.session) && StreamsInv(w) && Linked(w)
  }

  // ---------------------------------------------------------------- steps of one stream

  lemma {:induction false} OwnMove(p: P.State, a: P.Action)
    requires P.Enabled(p, a) && !a.FinishBootstrap? && P.Step(p, a).returned == p.returned
    ensures var q := P.Step(p, a);
            && (q.phase.Live? <==> p.phase.Live?) && (p.phase.Live? ==> q.buffered == p.buffered)
            && (p.readErr.Some? ==> q.readErr == p.readErr) && (q.closed ==> p.closed || a.Close?)
            && (q.phase.Live? && !q.pc.Out? ==> !p.pc.Out? || a.Call?)
  {
  }

  lemma {:induction false} AnswerMove(p: P.State, a: P.Action)
    requires P.Inv(p) && P.Enabled(p, a) && p.phase.Live? && |P.Step(p, a).returned| == |p.returned| + 1
    ensures var q := P.Step(p, a);
            var r := q.returned[|q.returned| - 1];
            && q.phase.Live? && q.pc.Out? && q.buffered == p.buffered && q.closed == p.closed
            && (p.readErr.Some? ==> q.readErr == p.readErr)
            && P.Delivered(q.returned) == P.Delivered(p.returned) + (if r.Event? then [r.raw] else [])
            && (r.StreamClosed? ==> r.cause == q.readErr && (p.closed || r.cause.Some?))
  {
    hide P.Inv, P.Delivered;
    P.StepInv(p, a);
    var q := P.Step(p, a);
    var r := q.returned[|q.returned| - 1];
    assert q.returned == p.returned + [r];
    P.Appends([], P.Malformed, [], P.Data(P.Malformed), p.returned, r);
    if r.StreamClosed? { EndExplained(q, |q.returned| - 1); }
  }

  lemma {:induction false} EndExplained(p: P.State, k: nat)
    requires P.Inv(p) && k < |p.returned| && p.returned[k].StreamClosed?
    ensures p.closed || p.returned[k].cause.Some?
  {
  }

  lemma {:induction false} OfStreamLinked(decode: Decoder, w: World, id: nat, a: P.Action)
    requires Linked(w) && Enabled(w, OfStream(id, a)) && w.session.epochs != []
    ensures Linked(Step(decode, w, OfStream(id, a)))
  {
    hide P.Step, P.Enabled, P.Delivered;
    OwnMove(w.streams[id], a);
  }

  // ---------------------------------------------------------------- steps of both

  lemma {:induction false} SubscribesLinked(decode: Decoder, w: World)
    requires Linked(w) && Enabled(w, Subscribes) && w.session.epochs != []
    ensures Linked(Step(decode, w, Subscribes))
  {
    hide Carries;
  }

  lemma {:induction false} BootsLinked(decode: Decoder, w: World, snapshot: Snapshot)
    requires Linked(w) && Enabled(w, Boots(snapshot)) && w.session.epochs != []
    requires P.Inv(w.streams[w.session.pc.id])
    ensures Linked(Step(decode, w, Boots(snapshot)))
  {
    hide Carries, P.EventsOf, P.LinesOf, P.FirstCause;
  }

  lemma {:induction false} BreaksLinked(decode: Decoder, w: World, error: S.BootError, ok: bool)
    requires Linked(w) && Enabled(w, Breaks(error, ok)) && w.session.epochs != []
    ensures Linked(Step(decode, w, Breaks(error, ok)))
  {
    hide Carries;
  }

  /** While a session that is not closed waits for its stream, nobody has closed that stream. */
  lemma {:induction false} StillOpen(w: World)
    requires Linked(w) && S.Owned(w.session) && S.Counted(w.session) && w.session.pc.Reading? && !w.session.closed
    ensures !w.streams[w.session.pc.id].closed
  {
    hide Carried, P.Delivered;
    assert w.session.pc.id in S.Only(w.session.stream);
  }

  /** What a result of the stream does to the last epoch. */
  lemma {:induction false} ReactionEpochs(decode: Decoder, s: S.State, r: P.Result)
    requires s.pc.Reading? && s.epochs != []
    ensures var t := S.Step(decode, s, Reaction(r));
            && |t.epochs| == |s.epochs| && t.nextId == s.nextId
            && (forall i :: 0 <= i < |s.epochs| - 1 ==> t.epochs[i] == s.epochs[i])
            && S.Last(t).end == S.Last(s).end
            && S.Last(t).arrived == S.Last(s).arrived + if r.Event? then [r.raw] else []
  {
    hide M.Apply;
  }

  lemma {:induction false} AnswersCarried(decode: Decoder, w: World, a: P.Action)
    requires Linked(w) && Enabled(w, Answers(a)) && w.session.epochs != []
    requires P.Inv(w.streams[w.session.pc.id])
    ensures Named(Step(decode, w, Answers(a))) && Carried(Step(decode, w, Answers(a)))
  {
    hide P.Delivered, P.Inv, P.Step, P.Enabled, S.Step, AllEngaged;
    var p := P.Step(w.streams[w.session.pc.id], a);
    AnswerMove(w.streams[w.session.pc.id], a);
    ReactionEpochs(decode, w.session, p.returned[|p.returned| - 1]);
  }

  lemma {:induction false} AnswersEngaged(decode: Decoder, w: World, a: P.Action)
    requires Linked(w) && Enabled(w, Answers(a)) && w.session.epochs != []
    requires P.Inv(w.streams[w.session.pc.id])
    ensures AllEngaged(Step(decode, w, Answers(a)))
  {
    hide P.Delivered, P.Inv, P.Step, P.Enabled, M.Apply, Carried;
    AnswerMove(w.streams[w.session.pc.id], a);
  }

  lemma {:induction false} AnswersPlaced(decode: Decoder, w: World, a: P.Action)
    requires Linked(w) && S.Owned(w.session) && S.Counted(w.session)
    requires Enabled(w, Answers(a)) && w.session.epochs != []
    requires P.Inv(w.streams[w.session.pc.id])
    requires Named(Step(decode, w, Answers(a)))
    ensures Placed(Step(decode, w, Answers(a)))
  {
    hide P.Delivered, P.Inv, P.Step, P.Enabled, M.Apply, Carried, AllEngaged, S.Owned, S.Counted;
    AnswerMove(w.streams[w.session.pc.id], a);
    if !w.session.closed { StillOpen(w); }
  }

  lemma {:induction false} AnswersLinked(decode: Decoder, w: World, a: P.Action)
    requires Linked(w) && S.Owned(w.session) && S.Counted(w.session)
    requires Enabled(w, Answers(a)) && w.session.epochs != []
    requires P.Inv(w.streams[w.session.pc.id])
    ensures Linked(Step(decode, w, Answers(a)))
  {
    hide Carried, AllEngaged, Placed, Step, P.Inv, S.Owned, S.Counted;
    AnswersCarried(decode, w, a);
    AnswersEngaged(decode, w, a);
    AnswersPlaced(decode, w, a);
  }

  // ---------------------------------------------------------------- steps of the session

  lemma {:induction false} PublishLinked(decode: Decoder, w: World)
    requires Linked(w) && Enabled(w, Alone(S.Publish)) && w.session.epochs != []
    ensures Linked(Step(decode, w, Alone(S.Publish)))
  {
    hide P.Delivered, M.FromSnapshot;
    P.NoneYet();
  }

  lemma {:induction false} LostLinked(decode: Decoder, w: World)
    requires Linked(w) && Enabled(w, Alone(S.CheckLost)) && w.session.epochs != []
    ensures Linked(Step(decode, w, Alone(S.CheckLost)))
  {
    hide P.Delivered;
  }

  lemma {:induction false} TopLinked(decode: Decoder, w: World)
    requires Linked(w) && Enabled(w, Alone(S.Top)) && w.session.epochs != []
    ensures Linked(Step(decode, w, Alone(S.Top)))
  {
    hide P.Delivered, M.Apply;
  }

  lemma {:induction false} QuietEngaged(decode: Decoder, w: World, a: S.Action)
    requires AllEngaged(w) && Enabled(w, Alone(a)) && !S.Telling(a) && w.session.epochs != []
    ensures AllEngaged(Step(decode, w, Alone(a)))
  {
  }

  lemma {:induction false} QuietNamed(decode: Decoder, w: World, a: S.Action)
    requires Named(w) && Carried(w) && Enabled(w, Alone(a)) && !S.Telling(a) && w.session.epochs != []
    ensures Named(Step(decode, w, Alone(a))) && Carried(Step(decode, w, Alone(a)))
  {
    hide Carries;
  }

  lemma {:induction false} QuietHolding(decode: Decoder, w: World, a: S.Action)
    requires Named(w) && Holding(w) && Enabled(w, Alone(a)) && !S.Telling(a) && w.session.epochs != []
    ensures Holding(Step(decode, w, Alone(a)))
  {
    hide Named;
  }

  lemma {:induction false} QuietAtPc(decode: Decoder, w: World, a: S.Action)
    requires Named(w) && AtPc(w) && Enabled(w, Alone(a)) && !S.Telling(a) && w.session.epochs != []
    requires Named(Step(decode, w, Alone(a)))
    ensures AtPc(Step(decode, w, Alone(a)))
  {
    hide Named;
  }

  lemma {:induction false} AloneLinked(decode: Decoder, w: World, a: S.Action)
    requires Linked(w) && Enabled(w, Alone(a)) && w.session.epochs != []
    ensures Linked(Step(decode, w, Alone(a)))
  {
    hide Carried, AllEngaged, Holding, AtPc, Named, S.Step, Step;
    match a
    case Top => TopLinked(decode, w);
    case Publish => PublishLinked(decode, w);
    case CheckLost => LostLinked(decode, w);
    case _ =>
      QuietNamed(decode, w, a);
      QuietEngaged(decode, w, a);
      QuietHolding(decode, w, a);
      QuietAtPc(decode, w, a);
  }

  // ---------------------------------------------------------------- whole runs

  lemma {:induction false} StepLinked(decode: Decoder, w: World, act: Action)
    requires Inv(decode, w) && Enabled(w, act) && w.session.epochs != []
    ensures Linked(Step(decode, w, act))
  {
    hide Linked, Step, P.Inv, S.Explained, S.OnScript, S.MirrorCurrent;
    match act
    case Alone(a) => AloneLinked(decode, w, a);
    case OfStream(id, a) => OfStreamLinked(decode, w, id, a);
    case Subscribes => SubscribesLinked(decode, w);
    case Boots(snapshot) => BootsLinked(decode, w, snapshot);
    case Breaks(error, ok) => BreaksLinked(decode, w, error, ok);
    case Answers(a) => AnswersLinked(decode, w, a);
  }

  lemma {:induction false} StepStreams(decode: Decoder, w: World, act: Action)
    requires StreamsInv(w) && Enabled(w, act) && w.session.epochs != []
    ensures StreamsInv(Step(decode, w, act))
  {
    hide P.Inv, P.Step, P.Enabled, S.Step;
    match act
    case Alone(_) =>
    case OfStream(id, a) => P.StepInv(w.streams[id], a);
    case Subscribes => P.InitialInv();
    case Boots(_) => P.StepInv(w.streams[w.session.pc.id], P.FinishBootstrap(true));
    case Breaks(_, ok) => P.StepInv(w.streams[w.session.pc.id], P.FinishBootstrap(ok));
    case Answers(a) => P.StepInv(w.streams[w.session.pc.id], a);
  }

  /** Each part of the world takes its own steps. */
  lemma {:induction false} StepInv(decode: Decoder, w: World, act: Action)
    requires Inv(decode, w) && Enabled(w, act) && w.session.epochs != []
    ensures Inv(decode, Step(decode, w, act))
  {
    hide Linked, StreamsInv, S.Inv, S.Step, S.Enabled, StreamsAfter;
    StepLinked(decode, w, act);
    StepStreams(decode, w, act);
    if SessionPart(w, act).Some? { SessionMoves(w, act); S.StepInv(decode, w.session, SessionPart(w, act).value); }
  }

  lemma {:induction false} SessionMoves(w: World, act: Action)
    requires Enabled(w, act) && SessionPart(w, act).Some?
    ensures S.Enabled(w.session, SessionPart(w, act).value)
  {
  }

  lemma {:induction false} InitialInv(decode: Decoder, w: World)
    requires Initial(w)
    ensures Inv(decode, w)
  {
    hide P.Inv, S.Inv, M.FromSnapshot, P.Delivered;
    var snapshot, p :| Booted(p) && w == World(S.Opened(snapshot, p.buffered), map[0 := p], [0], 0);
    var states, actions :| P.Run(states, actions) && p == states[|actions|];
    P.RunInv(states, actions, |actions|);
    S.OpenedInv(decode, snapshot, p.buffered);
    P.NoneYet();
    assert p.buffered + [] == p.buffered;
  }

  lemma {:induction false} RunInv(decode: Decoder, worlds: seq<World>, acts: seq<Action>, n: nat)
    requires Run(decode, worlds, acts) && n <= |acts|
    ensures Inv(decode, worlds[n])
  {
    hide Inv, Initial, Step, Enabled;
    if n == 0 {
      InitialInv(decode, worlds[0]);
    } else {
      RunInv(decode, worlds, acts, n - 1);
      StepInv(decode, worlds[n - 1], acts[n - 1]);
    }
  }

  /** A session is told which error ended its stream: no two ends look alike to it, and only an end without one looks
      like a plain close. */
  lemma {:induction false} EndIsTold(a: Option<P.Cause>, b: Option<P.Cause>)
    ensures EndOf(a) == EndOf(b) <==> a == b
    ensures EndOf(a) == S.StreamClosed <==> a.None?
  {
  }

  /** What the session does with the answer to its read: a line is returned, decoded or not; the end of the stream, and
      nothing else, makes it drop the stream; the end of the call's context or a malformed line fails the call only. */
  lemma {:induction false} AnswerReaches(decode: Decoder, w: World, a: P.Action)
    requires Enabled(w, Answers(a)) && w.session.epochs != []
    ensures var s, t := w.session, Step(decode, w, Answers(a)).session;
            var p := P.Step(w.streams[s.pc.id], a);
            match p.returned[|p.returned| - 1]
            case Event(raw) => t.pc == S.Idle && t.out == s.out + [S.Outcome(decode, raw)] && t.stream == s.stream
            case StreamClosed(cause) => t == s.(pc := S.Lost(EndOf(cause)))
            case _ => t == s.(pc := S.Idle, out := s.out + [S.Failed])
  {
    hide P.Step, M.Apply;
  }

  predicate OfReader(a: P.Action) {
    a.ReadLine? || a.ReadLast? || a.ReadFails? || a.ReaderQuits? || a.EndContext?
  }

  /** The stream can take the step. */
  predicate Can(w: World, id: nat, a: P.Action) { id in w.streams && P.Enabled(w.streams[id], a) }

  /** The bootstrap's own stream has a collector that stopped, without an error if clean. */
  predicate Stopped(w: World, snapshotOk: bool, clean: bool) {
    && w.session.pc.BootOpen? && Can(w, w.session.pc.id, P.FinishBootstrap(snapshotOk))
    && (clean <==> w.streams[w.session.pc.id].collectErr.None?)
  }

  /** Nothing that either machine can do is lost in the world: the session's own steps; a bootstrap's, which ends as its
      collector did; every step of a stream's reader and context; a close, once the session has made it; every step of a
      collector's call; and every step of a call that the session waits for, which either goes on or is the answer. */
  lemma {:induction false} EveryStepIsPossible(w: World, a: S.Action, id: nat, b: P.Action)
    ensures S.Enabled(w.session, a) && !NeedsStream(a) ==> Enabled(w, Alone(a))
    ensures w.session.pc.Booting? ==> Enabled(w, Subscribes)
    ensures forall snapshot :: Stopped(w, true, true) ==> Enabled(w, Boots(snapshot))
    ensures forall error, ok, clean :: Stopped(w, ok, clean) && !(ok && clean) ==> Enabled(w, Breaks(error, ok))
    ensures Can(w, id, b) && OfReader(b) ==> Enabled(w, OfStream(id, b))
    ensures id in w.streams && id in w.session.closings ==> Enabled(w, OfStream(id, P.Close))
    ensures Can(w, id, b) && !b.Close? && !b.FinishBootstrap? ==>
              && (w.streams[id].phase.Collecting? ==> Enabled(w, OfStream(id, b)))
              && (w.streams[id].phase.Live? && w.session.pc == S.Reading(id) ==>
                    Enabled(w, OfStream(id, b)) || Enabled(w, Answers(b)))
    ensures Enabled(w, OfStream(id, b))
            ==> StreamsAfter(w, OfStream(id, b)) == w.streams[id := P.Step(w.streams[id], b)]
  {
  }

  // ---------------------------------------------------------------- what callers are told, line by line from the wire

  /** An epoch says of its stream: every event line taken from it, in order, and the first cause it ended with. */
  ghost predicate FromTheWire(e: S.Epoch, p: P.State) {
    && e.arrived == P.EventsOf(P.LinesOf(p.taken)) && P.LinesOf(p.taken) <= p.wire
    && (!p.closed ==> e.arrived + P.EventsOf(P.InHand(p.reader)) == P.EventsOf(p.wire))
    && (e.end.Some? ==> P.FirstCause(p.taken).Some? && e.end == Some(EndOf(P.FirstCause(p.taken))))
  }

  lemma {:induction false} CarriedFromTheWire(e: S.Epoch, p: P.State)
    requires P.Inv(p) && Carries(e, p)
    ensures FromTheWire(e, p)
  {
    hide P.EventsOf, P.LinesOf, P.Delivered, P.FirstCause;
    if !p.closed { P.HandIsLast(p); }
  }

  /** In every interleaving of a session with its streams: what was returned, followed by what is queued, is stream by
      stream the event lines taken from the wire, in order, with one resync between two streams that carries the first
      cause the earlier one ended with, which is never missing; the last stream's lines are told up to the one its
      reader holds. */
  lemma {:induction false} ToldFromTheWire(decode: Decoder, worlds: seq<World>, acts: seq<Action>, n: nat)
    requires Run(decode, worlds, acts) && n <= |acts|
    ensures var w := worlds[n];
            && S.Visible(w.session.out) + S.Queued(decode, w.session) == S.Script(decode, w.session.epochs)
            && Named(w)
            && (forall i :: 0 <= i < |w.ids| ==> FromTheWire(w.session.epochs[i], w.streams[w.ids[i]]))
            && (forall i :: 0 <= i < |w.ids| - 1 ==> w.session.epochs[i].end.Some?)
  {
    RunInv(decode, worlds, acts, n);
    hide P.Inv, Carries, FromTheWire, S.MirrorCurrent, S.Owned, S.Counted, S.Placed, Run, AllEngaged, Placed;
    var w := worlds[n];
    forall i | 0 <= i < |w.ids| ensures FromTheWire(w.session.epochs[i], w.streams[w.ids[i]]) {
      CarriedFromTheWire(w.session.epochs[i], w.streams[w.ids[i]]);
    }
  }

  lemma {:induction false} EventsPrefix(lines: seq<P.Line>, n: nat)
    requires n <= |lines|
    ensures P.EventsOf(lines[..n]) <= P.EventsOf(lines)
    decreases |lines|
  {
    if n < |lines| {
      EventsPrefix(lines[..|lines| - 1], n);
      assert lines[..|lines| - 1][..n] == lines[..n];
    } else {
      assert lines[..n] == lines;
    }
  }

  /** The stream of the last epoch, and the mirror over it. */
  lemma {:induction false} CurrentFromTheWire(decode: Decoder, w: World)
    requires Inv(decode, w)
    ensures Named(w) && w.session.epochs != [] && S.MirrorCurrent(decode, w.session)
    ensures FromTheWire(S.Last(w.session), w.streams[Current(w)])
  {
    hide P.Inv, Carries, FromTheWire, S.MirrorCurrent, S.OnScript, S.Owned, S.Counted, S.Placed, AllEngaged, Placed;
    CarriedFromTheWire(S.Last(w.session), w.streams[Current(w)]);
  }

  lemma {:induction false} ConsumedFromTheWire(decode: Decoder, s: S.State, p: P.State)
    requires S.MirrorCurrent(decode, s) && FromTheWire(S.Last(s), p)
    ensures |s.pending| <= |S.Last(s).arrived|
    ensures var consumed := S.Last(s).arrived[..|S.Last(s).arrived| - |s.pending|];
            && consumed <= P.EventsOf(p.wire)
            && s.mirror == M.Fold(M.FromSnapshot(S.Last(s).snapshot), S.Decoded(decode, consumed))
  {
    hide P.EventsOf, P.LinesOf, P.FirstCause, M.Fold, M.FromSnapshot, S.Decoded;
    var lines := P.LinesOf(p.taken);
    EventsPrefix(p.wire, |lines|);
    assert p.wire[..|lines|] == lines;
  }

  /** In every interleaving of a session with its streams, the mirror is the fold, over the snapshot of the last stream,
      of what an initial part of the event lines on that stream's wire decodes to. */
  lemma {:induction false} MirrorFromTheWire(decode: Decoder, worlds: seq<World>, acts: seq<Action>, n: nat)
    requires Run(decode, worlds, acts) && n <= |acts|
    ensures var w := worlds[n];
            && Named(w) && w.session.epochs != []
            && var s, p := w.session, w.streams[Current(w)];
            && |s.pending| <= |S.Last(s).arrived|
            && var consumed := S.Last(s).arrived[..|S.Last(s).arrived| - |s.pending|];
            && consumed <= P.EventsOf(p.wire)
            && s.mirror == M.Fold(M.FromSnapshot(S.Last(s).snapshot), S.Decoded(decode, consumed))
  {
    RunInv(decode, worlds, acts, n);
    hide Inv, Named, FromTheWire, S.MirrorCurrent, Run, M.Fold, M.FromSnapshot, S.Decoded, P.EventsOf;
    CurrentFromTheWire(decode, worlds[n]);
    ConsumedFromTheWire(decode, worlds[n].session, worlds[n].streams[Current(worlds[n])]);
  }

  lemma {:induction false} AllOnTheWire(e: S.Epoch, p: P.State)
    requires FromTheWire(e, p) && !p.closed && P.EventsOf(P.InHand(p.reader)) == []
    ensures e.arrived == P.EventsOf(p.wire)
  {
    hide P.EventsOf, P.LinesOf, P.FirstCause;
  }

  /** Every event line on the wire of the last stream has been handed over and consumed. */
  predicate Drained(w: World)
    requires w.ids != [] && Current(w) in w.streams
  {
    var p := w.streams[Current(w)];
    w.session.pending == [] && !p.closed && P.EventsOf(P.InHand(p.reader)) == []
  }

  /** From the server's wire to the accessors: once every event line on the wire of the last stream has been consumed,
      and those lines are the server's events, the first of which its snapshot already reflects, the mirror sees what
      the server sees; it is the server's very state when those first events settle. */
  lemma {:induction false} MirrorSeesServer(decode: Decoder, worlds: seq<World>, acts: seq<Action>, n: nat,
                                            server: M.State, before: seq<Event>, after: seq<Event>)
    requires Run(decode, worlds, acts) && n <= |acts| && M.WellFormed(server)
    requires Named(worlds[n]) && Drained(worlds[n])
    requires S.Last(worlds[n].session).snapshot == M.ToSnapshot(M.Fold(server, before))
    requires S.Decoded(decode, P.EventsOf(worlds[n].streams[Current(worlds[n])].wire)) == before + after
    ensures forall k :: Replay.View(worlds[n].session.mirror, k) == Replay.View(M.Fold(server, before + after), k)
    ensures A.Agreed(server) && Order.Settled(server, before)
            ==> worlds[n].session.mirror == M.Fold(server, before + after)
  {
    RunInv(decode, worlds, acts, n);
    hide Inv, FromTheWire, Run, S.MirrorCurrent, M.Fold, M.ToSnapshot, M.WellFormed, S.Decoded, Replay.View, A.Agreed,
         Order.Settled, P.EventsOf, P.InHand;
    var w := worlds[n];
    CurrentFromTheWire(decode, w);
    AllOnTheWire(S.Last(w.session), w.streams[Current(w)]);
    S.CaughtUp(decode, w.session, server, before, after);
  }
}
