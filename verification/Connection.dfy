/** Who closes a dialed connection: the opening exchange, its cancellation watcher, or the caller it is handed to.
    Steps interleave with the end of the opening context, which may come at any moment. */
module Connection {

  datatype Watcher = Unregistered | Armed | Firing | Fired | Stopped

  datatype Pc =
    | Start
    | Dialing
    | DialReturned(failed: bool)
    | Writing
    | ReadingLine
    | Decoding
    | StoppingWatch(decoded: bool)
    | CheckingContext(decoded: bool)
    | UnwindWatch
    | UnwindClose
    | Returned(transferred: bool)

  datatype State = State(
    pc: Pc,
    cancellable: bool,     // the opening context can end
    ctxDone: bool,
    dialDone: bool,        // the dial's own deadline passed
    watcher: Watcher,
    dialed: bool,          // the dialer produced a connection
    once: bool,            // the owned connection's Close has run
    closes: nat,           // calls of the underlying Close
    callerClosed: bool)

  predicate Initial(s: State) {
    s.pc.Start? && !s.ctxDone && !s.dialDone && s.watcher.Unregistered? && !s.dialed && !s.once && s.closes == 0
      && !s.callerClosed
  }

  datatype Action =
    | EndContext
    | EndDialDeadline
    | EncodeFails
    | BeginDial
    | DialerReturns(connection: bool, failed: bool)
    | JudgeDial
    | Write(ok: bool)
    | ReadLine(ok: bool)
    | Decode(ok: bool)
    | StopWatch
    | CheckContext
    | UnwindStop
    | DeferredClose
    | WatcherStarts
    | WatcherCloses
    | CallerCloses

  /** Stopping the watch returns at once unless its function has started; then it waits for it to finish. */
  predicate StopReturns(w: Watcher) {
    !w.Firing?
  }

  predicate Enabled(s: State, a: Action) {
    match a
    case EndContext => s.cancellable
    case EndDialDeadline => true
    case EncodeFails => s.pc.Start?
    case BeginDial => s.pc.Start?
    case DialerReturns(_, _) => s.pc.Dialing?
    case JudgeDial => s.pc.DialReturned?
    case Write(_) => s.pc.Writing?
    case ReadLine(_) => s.pc.ReadingLine?
    case Decode(_) => s.pc.Decoding?
    case StopWatch => s.pc.StoppingWatch? && StopReturns(s.watcher)
    case CheckContext => s.pc.CheckingContext?
    case UnwindStop => s.pc.UnwindWatch? && StopReturns(s.watcher)
    case DeferredClose => s.pc.UnwindClose?
    case WatcherStarts => s.watcher.Armed? && s.ctxDone
    case WatcherCloses => s.watcher.Firing?
    case CallerCloses => s.pc == Returned(true)
  }

  /** Close of the owned connection: the underlying Close runs once. */
  function CloseOwned(s: State): State {
    if s.once then s else s.(once := true, closes := s.closes + 1)
  }

  function Disarm(w: Watcher): Watcher {
    if w.Armed? then Stopped else w
  }

  function Step(s: State, a: Action): State
    requires Enabled(s, a)
  {
    match a
    case EndContext => s.(ctxDone := true)
    case EndDialDeadline => s.(dialDone := true)
    case EncodeFails => s.(pc := Returned(false))
    case BeginDial => s.(pc := if s.ctxDone || s.dialDone then Returned(false) else Dialing)
    case DialerReturns(connection, failed) => s.(pc := DialReturned(failed), dialed := connection)
    case JudgeDial =>
      if s.pc.failed || s.ctxDone || s.dialDone then
        s.(pc := Returned(false), closes := if s.dialed then s.closes + 1 else s.closes)
      else if !s.dialed then s.(pc := Returned(false))
      else s.(pc := Writing, watcher := if s.cancellable then Armed else Unregistered)
    case Write(ok) => s.(pc := if ok then ReadingLine else UnwindWatch)
    case ReadLine(ok) => s.(pc := if ok then Decoding else UnwindWatch)
    case Decode(ok) => s.(pc := StoppingWatch(ok))
    case StopWatch => s.(pc := CheckingContext(s.pc.decoded), watcher := Disarm(s.watcher))
    case CheckContext => s.(pc := if s.ctxDone || !s.pc.decoded then UnwindWatch else Returned(true))
    case UnwindStop => s.(pc := UnwindClose, watcher := Disarm(s.watcher))
    case DeferredClose => CloseOwned(s).(pc := Returned(false))
    case WatcherStarts => s.(watcher := Firing)
    case WatcherCloses => CloseOwned(s).(watcher := Fired)
    case CallerCloses => CloseOwned(s).(callerClosed := true)
  }

  predicate Owning(pc: Pc) {
    || pc.Writing? || pc.ReadingLine? || pc.Decoding? || pc.StoppingWatch? || pc.CheckingContext?
    || pc.UnwindWatch? || pc.UnwindClose?
  }

  ghost predicate Inv(s: State) {
    && (s.ctxDone ==> s.cancellable)
    && (s.watcher.Firing? || s.watcher.Fired? ==> s.ctxDone)
    && (s.pc.Start? || s.pc.Dialing? ==> !s.dialed)
    && (s.pc.Start? || s.pc.Dialing? || s.pc.DialReturned? ==> s.closes == 0 && !s.once && s.watcher.Unregistered?)
    && (Owning(s.pc) ==> s.dialed && s.closes == (if s.once then 1 else 0) && (s.once <==> s.watcher.Fired?))
    && (s.pc.CheckingContext? || s.pc.UnwindClose? ==> !s.watcher.Armed? && !s.watcher.Firing?)
    && (s.pc.Returned? ==> !s.watcher.Armed? && !s.watcher.Firing?)
    && (s.pc == Returned(false) ==> s.closes == if s.dialed then 1 else 0)
    && (s.pc == Returned(true) ==>
          s.dialed && !s.watcher.Fired? && s.once == s.callerClosed && s.closes == if s.callerClosed then 1 else 0)
    && (!s.pc.Returned? ==> !s.callerClosed)
  }

  lemma {:induction false} StepInv(s: State, a: Action)
    requires Inv(s) && Enabled(s, a)
    ensures Inv(Step(s, a))
  {
    match a
    case CheckContext => // a watcher that closed the connection did so because the context had ended
    case _ =>
  }

  ghost predicate Run(states: seq<State>, actions: seq<Action>) {
    && |states| == |actions| + 1 && Initial(states[0])
    && forall i :: 0 <= i < |actions| ==> Enabled(states[i], actions[i]) && states[i + 1] == Step(states[i], actions[i])
  }

  lemma {:induction false} RunInv(states: seq<State>, actions: seq<Action>, n: nat)
    requires Run(states, actions) && n <= |actions|
    ensures Inv(states[n])
  {
    if n > 0 {
      RunInv(states, actions, n - 1);
      StepInv(states[n - 1], actions[n - 1]);
    }
  }

  /** In every interleaving the underlying connection is closed at most once: exactly once when opening fails after the
      dialer produced one, and otherwise only when the caller it was transferred to closes it, whenever the opening
      context ends. */
  lemma {:induction false} ClosedByItsOwner(states: seq<State>, actions: seq<Action>, n: nat)
    requires Run(states, actions) && n <= |actions|
    ensures var s := states[n];
            && s.closes <= 1
            && (s.pc == Returned(false) ==> s.closes == if s.dialed then 1 else 0)
            && (s.pc == Returned(true) ==> s.dialed && s.closes == if s.callerClosed then 1 else 0)
  {
    RunInv(states, actions, n);
  }

  lemma {:induction false} TransferredStep(s: State, a: Action)
    requires Inv(s) && Enabled(s, a) && s.pc == Returned(true) && !a.CallerCloses?
    ensures Step(s, a).pc == s.pc && Step(s, a).closes == s.closes
  {
  }

  /** Once transferred, nothing but the caller's own Close changes the count: no watcher is left to act. */
  lemma {:induction false} TransferIsFinal(states: seq<State>, actions: seq<Action>, i: nat, j: nat)
    requires Run(states, actions) && i <= j <= |actions| && states[i].pc == Returned(true)
    requires forall k :: i <= k < j ==> !actions[k].CallerCloses?
    ensures states[j].pc == Returned(true) && states[j].closes == states[i].closes
    decreases j - i
  {
    hide Inv, Step, Enabled, Initial;
    if i < j {
      TransferIsFinal(states, actions, i, j - 1);
      RunInv(states, actions, j - 1);
      TransferredStep(states[j - 1], actions[j - 1]);
    }
  }

  // ---------------------------------------------------------------- which exchanges succeed

  /** The step by which opening goes wrong. */
  predicate Spoils(s: State, a: Action) {
    || a.EncodeFails? || a == Write(false) || a == ReadLine(false) || a == Decode(false)
    || (a.DialerReturns? && (a.failed || !a.connection))
    || ((a.BeginDial? || a.JudgeDial?) && (s.ctxDone || s.dialDone))
    || (a.CheckContext? && s.ctxDone)
  }

  ghost predicate Spoiled(states: seq<State>, actions: seq<Action>, n: nat)
    requires n <= |actions| && |states| == |actions| + 1
  {
    exists i :: 0 <= i < n && Spoils(states[i], actions[i])
  }

  /** What the place in the code says of the past. */
  predicate WentWrong(s: State) {
    match s.pc
    case DialReturned(failed) => failed || !s.dialed
    case StoppingWatch(decoded) => !decoded
    case CheckingContext(decoded) => !decoded
    case UnwindWatch => true
    case UnwindClose => true
    case Returned(transferred) => !transferred
    case _ => false
  }

  lemma {:induction false} StepWrong(s: State, a: Action)
    requires Enabled(s, a)
    ensures WentWrong(Step(s, a)) <==> WentWrong(s) || Spoils(s, a)
  {
  }

  lemma {:induction false} WrongIsSpoiled(states: seq<State>, actions: seq<Action>, n: nat)
    requires Run(states, actions) && n <= |actions|
    ensures WentWrong(states[n]) <==> Spoiled(states, actions, n)
  {
    hide Spoils, Step, Enabled;
    if n > 0 {
      WrongIsSpoiled(states, actions, n - 1);
      StepWrong(states[n - 1], actions[n - 1]);
    }
  }

  /** The steps of the opening exchange itself, without those of contexts, the watcher and the caller. */
  predicate OfExchange(a: Action) {
    !a.EndContext? && !a.EndDialDeadline? && !a.WatcherStarts? && !a.WatcherCloses? && !a.CallerCloses?
  }

  function Exchange(actions: seq<Action>): seq<Action> {
    if actions == [] then []
    else
      var last := actions[|actions| - 1];
      Exchange(actions[..|actions| - 1]) + if OfExchange(last) then [last] else []
  }

  /** An exchange that succeeds: dialed, written, answered, decoded, and the watch stopped before the last check. */
  const GOOD := [BeginDial, DialerReturns(true, false), JudgeDial, Write(true), ReadLine(true), Decode(true), StopWatch,
                 CheckContext]

  /** How far the exchange has come. */
  function Reached(pc: Pc): nat {
    match pc
    case Start => 0
    case Dialing => 1
    case DialReturned(_) => 2
    case Writing => 3
    case ReadingLine => 4
    case Decoding => 5
    case StoppingWatch(_) => 6
    case CheckingContext(_) => 7
    case _ => 8
  }

  lemma {:induction false} StepReaches(s: State, a: Action)
    requires Enabled(s, a) && !WentWrong(Step(s, a))
    ensures !WentWrong(s)
    ensures if OfExchange(a) then Reached(s.pc) < 8 && a == GOOD[Reached(s.pc)] &&
                                  Reached(Step(s, a).pc) == Reached(s.pc) + 1
            else Reached(Step(s, a).pc) == Reached(s.pc)
  {
  }

  lemma {:induction false} ExchangeSoFar(states: seq<State>, actions: seq<Action>, n: nat)
    requires Run(states, actions) && n <= |actions| && !WentWrong(states[n])
    ensures Exchange(actions[..n]) == GOOD[..Reached(states[n].pc)]
  {
    hide WentWrong, Step, Enabled, OfExchange, Reached;
    if n == 0 {
      assert Reached(Start) == 0 by { StartReached(); }
    } else {
      StepReaches(states[n - 1], actions[n - 1]);
      ExchangeSoFar(states, actions, n - 1);
      assert actions[..n][..n - 1] == actions[..n - 1] && actions[..n][n - 1] == actions[n - 1];
    }
  }

  lemma {:induction false} StartReached()
    ensures Reached(Start) == 0
  {
  }

  /** In every interleaving opening succeeds or fails by what happened: it fails exactly when encoding, dialing,
      writing, reading or decoding failed, the dialer gave no connection, or a context had ended when it was looked at;
      and when it succeeds its steps were those of a good exchange, each once and in order. */
  lemma {:induction false} OutcomeIsEarned(states: seq<State>, actions: seq<Action>, n: nat)
    requires Run(states, actions) && n <= |actions| && states[n].pc.Returned?
    ensures states[n].pc == Returned(false) <==> Spoiled(states, actions, n)
    ensures states[n].pc == Returned(true) ==> Exchange(actions[..n]) == GOOD
  {
    hide Spoiled, Step, Enabled, Exchange;
    WrongIsSpoiled(states, actions, n);
    if states[n].pc == Returned(true) {
      ExchangeSoFar(states, actions, n);
      assert GOOD[..8] == GOOD;
    }
  }

  /** Opening never gets stuck: until it returns, it or the watcher that it waits for has a step to take. */
  lemma {:induction false} NeverStuck(s: State)
    requires Inv(s) && !s.pc.Returned?
    ensures exists a :: Enabled(s, a) && (OfExchange(a) || a.WatcherCloses?)
  {
    match s.pc
    case Start => assert Enabled(s, BeginDial);
    case Dialing => assert Enabled(s, DialerReturns(true, false));
    case DialReturned(_) => assert Enabled(s, JudgeDial);
    case Writing => assert Enabled(s, Write(true));
    case ReadingLine => assert Enabled(s, ReadLine(true));
    case Decoding => assert Enabled(s, Decode(true));
    case StoppingWatch(_) => assert Enabled(s, StopWatch) || Enabled(s, WatcherCloses);
    case CheckingContext(_) => assert Enabled(s, CheckContext);
    case UnwindWatch => assert Enabled(s, UnwindStop) || Enabled(s, WatcherCloses);
    case UnwindClose => assert Enabled(s, DeferredClose);
  }

  /** While the exchange waits on its connection, the end of a context that can end is watched. */
  ghost predicate Watched(s: State) {
    (s.pc.Writing? || s.pc.ReadingLine? || s.pc.Decoding? || s.pc.StoppingWatch?) && s.cancellable ==>
      s.watcher.Armed? || s.watcher.Firing? || s.watcher.Fired?
  }

  lemma {:induction false} StepWatched(s: State, a: Action)
    requires Watched(s) && Enabled(s, a)
    ensures Watched(Step(s, a))
  {
  }

  lemma {:induction false} RunWatched(states: seq<State>, actions: seq<Action>, n: nat)
    requires Run(states, actions) && n <= |actions|
    ensures Watched(states[n])
  {
    hide Step, Enabled;
    if n > 0 {
      RunWatched(states, actions, n - 1);
      StepWatched(states[n - 1], actions[n - 1]);
    }
  }

  /** Cancelling reaches an exchange that waits: when the opening context ends while a write or a read is blocked, the
      watcher closes the connection under it, whatever else the exchange does not do. */
  lemma {:induction false} CancelUnblocks(states: seq<State>, actions: seq<Action>, n: nat)
    requires Run(states, actions) && n <= |actions|
    requires var s := states[n]; (s.pc.Writing? || s.pc.ReadingLine? || s.pc.Decoding?) && s.cancellable
    ensures var s := states[n];
            var t := if Enabled(s, EndContext) then Step(s, EndContext) else s;
            && t.ctxDone
            && (s.once || Enabled(t, WatcherCloses) || Enabled(t, WatcherStarts))
            && (Enabled(t, WatcherCloses) ==> Step(t, WatcherCloses).closes == 1)
            && (Enabled(t, WatcherStarts) ==> Enabled(Step(t, WatcherStarts), WatcherCloses) &&
                                              Step(Step(t, WatcherStarts), WatcherCloses).closes == 1)
  {
    RunInv(states, actions, n);
    RunWatched(states, actions, n);
  }

  function Rank(pc: Pc): nat {
    match pc
    case UnwindWatch => 8
    case UnwindClose => 9
    case Returned(_) => 10
    case _ => Reached(pc)
  }

  lemma {:induction false} StepProgresses(s: State, a: Action)
    requires Enabled(s, a)
    ensures if OfExchange(a) then Rank(Step(s, a).pc) > Rank(s.pc) else Step(s, a).pc == s.pc
  {
  }

  /** Opening ends: it takes at most ten steps of its own, whatever the others do in between. */
  lemma {:induction false} OpeningEnds(states: seq<State>, actions: seq<Action>, n: nat)
    requires Run(states, actions) && n <= |actions|
    ensures |Exchange(actions[..n])| <= Rank(states[n].pc) <= 10
  {
    hide Step, Enabled, OfExchange;
    if n > 0 {
      OpeningEnds(states, actions, n - 1);
      StepProgresses(states[n - 1], actions[n - 1]);
      assert actions[..n][..n - 1] == actions[..n - 1] && actions[..n][n - 1] == actions[n - 1];
    }
  }

  /** A connection that the dialer hands over after its own deadline is closed and not used. */
  lemma {:induction false} LateConnection(s: State)
    requires Inv(s) && s.pc.Dialing?
    ensures Enabled(s, EndDialDeadline)
    ensures var t := Step(s, EndDialDeadline);
            && t.pc == s.pc && Enabled(t, DialerReturns(true, false))
            && var u := Step(t, DialerReturns(true, false));
            Enabled(u, JudgeDial) && Step(u, JudgeDial).pc == Returned(false) && Step(u, JudgeDial).closes == 1
  {
  }
}
