/**
 Shutdown terminates: on every weakly fair run, a dispatcher that is Exiting becomes Exited, exactly if
 its master is running.  Fairness asks only that a dispatcher thread which stays able to run does run;
 a thread blocked in getEnvelope counts as able to run only once the source was shut down.
 */
module DispatcherLiveness {
  import opened Fairness
  import opened Dispatcher
  import opened DispatcherSafety

  datatype Thread = MasterThread | IncomingThread | OutgoingThread | HandlerThread

  predicate By(a: Action, t: Thread) {
    match t
    case MasterThread => a.Master?
    case IncomingThread => a.Incoming?
    case OutgoingThread => a.Outgoing?
    case HandlerThread => a.Handler?
  }

  /** The thread is not blocked; callbacks and putEnvelope are taken to return. */
  predicate CanRun(s: State, t: Thread) {
    match t
    case MasterThread => MasterEnabled(s)
    case IncomingThread =>
      && !s.incoming.INotStarted? && !s.incoming.IDone?
      && (s.incoming.IReading? ==> s.srcShut)
      && (s.incoming.IPostQuit? || s.incoming.IPostError? ==> !MasterHoldsLock(s))
    case OutgoingThread =>
      && !s.outgoing.ONotStarted? && !s.outgoing.OSleep? && !s.outgoing.ODone?
      && (s.outgoing.OPostError? ==> !MasterHoldsLock(s))
    case HandlerThread =>
      && !s.handler.HNotStarted? && !s.handler.HSleep? && !s.handler.HDone?
      && (s.handler.HPostError? ==> !MasterHoldsLock(s))
  }

  /** An infinite run; it may start in any reachable state. */
  ghost predicate IsInfiniteRun(run: nat -> State, act: nat -> Action) {
    && Inv(run(0))
    && (forall n: nat :: StepAt(run, act, n))
  }

  ghost predicate StepAt(run: nat -> State, act: nat -> Action, n: nat) {
    Enabled(run(n), act(n)) && run(n + 1) == Next(run(n), act(n))
  }

  ghost predicate WeaklyFair(run: nat -> State, act: nat -> Action) {
    forall t, n: nat :: FairFrom(By, CanRun, run, act, t, n)
  }

  // ---------------------------------------------------------------- the measure

  function IncomingLeft(i: IncomingPc, srcShut: bool): nat {
    match i
    case INotStarted => 9
    case IReading => 8
    case ISetGo(_) => if srcShut then 7 else 8
    case INotifyGo(_) => if srcShut then 6 else 8
    case IPostQuit => if srcShut then 5 else 8
    case ICallGet => if srcShut then 4 else 8
    case IPush(_) => 3 case INotify => 2 case IPostError(_) => 2
    case ICheck => 1 case IDone => 0
  }

  function OutgoingLeft(o: OutgoingPc): nat {
    match o
    case ONotStarted => 9
    case OPop => 8 case OSleep => 8 case OWoken => 8
    case OPut(_) => 7 case OCount(_) => 6
    case OPostError(_) => 2 case OCheck => 1 case ODone => 0
  }

  function HandlerLeft(h: HandlerPc): nat {
    match h
    case HNotStarted => 9
    case HPop => 8 case HSleep => 8 case HWoken => 8
    case HPopped(_) => 7 case HDeliver(_) => 6 case HIdle => 6 case HInMessage => 5 case HInIdle => 5
    case HPostError => 2 case HCheck => 1 case HDone => 0
  }

  /** How much is left to do. */
  function Left(s: State): nat {
    16 - Place(s.master) + IncomingLeft(s.incoming, s.srcShut) + OutgoingLeft(s.outgoing) + HandlerLeft(s.handler)
  }

  /** The thread whose next step is certain to be progress. */
  function Helpful(s: State): Thread {
    match s.master
    case MJoinIncoming => if s.incoming.IDone? then MasterThread else IncomingThread
    case MJoinOutgoing => if s.outgoing.ODone? || s.outgoing.ONotStarted? then MasterThread else OutgoingThread
    case MJoinHandler => if s.handler.HDone? || s.handler.HNotStarted? then MasterThread else HandlerThread
    case _ => MasterThread
  }

  predicate ShuttingDown(s: State) { s.st.phase.Exiting? && !s.master.MNotRunning? }

  lemma HelpfulCanRun(s: State)
    requires Inv(s) && ShuttingDown(s)
    ensures CanRun(s, Helpful(s))
  {
  }

  /** Nothing makes more work, and what makes none less leaves the helpful thread helpful. */
  predicate Progress(s: State, t: State, strict: bool) {
    && (t.st.phase.Exited? || ShuttingDown(t))
    && Left(t) <= Left(s)
    && (strict ==> Left(t) < Left(s))
    && (Left(t) == Left(s) ==> Helpful(t) == Helpful(s) && !t.st.phase.Exited?)
  }

  /** What a step of the master does while shutting down. */
  predicate Advanced(s: State, t: State) {
    && Place(t.master) > Place(s.master)
    && (Place(t.master) == 16 <==> t.st.phase.Exited?)
    && (t.st.phase.Exiting? || t.st.phase.Exited?)
    && (s.srcShut ==> t.srcShut)
  }

  lemma MasterAdvancesEarly(s: State)
    requires Structure(s) && ShuttingDown(s) && MasterEnabled(s) && Place(s.master) < 8
    ensures Advanced(s, MasterNext(s))
  {
  }

  lemma MasterAdvancesLate(s: State)
    requires Structure(s) && ShuttingDown(s) && MasterEnabled(s) && Place(s.master) >= 8
    ensures Advanced(s, MasterNext(s))
  {
  }

  lemma MasterAdvances(s: State)
    requires Structure(s) && ShuttingDown(s) && MasterEnabled(s)
    ensures Advanced(s, MasterNext(s))
  {
    if Place(s.master) < 8 {
      MasterAdvancesEarly(s);
    } else {
      MasterAdvancesLate(s);
    }
  }

  ghost predicate Freed(s: State, t: State) {
    && (t.incoming == s.incoming || (t.incoming.ICheck? && s.incoming.INotStarted?))
    && (t.outgoing == s.outgoing || (t.outgoing.OWoken? && s.outgoing.OSleep?))
    && (t.handler == s.handler || (t.handler.HWoken? && s.handler.HSleep?))
  }

  lemma MasterFreesWorkersEarly(s: State)
    requires Structure(s) && ShuttingDown(s) && Place(s.master) < 8
    ensures Freed(s, MasterNext(s))
  {
  }

  lemma MasterFreesWorkersLate(s: State)
    requires Place(s.master) >= 8
    ensures Freed(s, MasterNext(s))
  {
  }

  lemma MasterFreesWorkers(s: State)
    requires Structure(s) && ShuttingDown(s)
    ensures Freed(s, MasterNext(s))
  {
    if Place(s.master) < 8 {
      MasterFreesWorkersEarly(s);
    } else {
      MasterFreesWorkersLate(s);
    }
  }

  lemma MasterProgress(s: State)
    requires Structure(s) && ShuttingDown(s) && MasterEnabled(s)
    ensures Progress(s, MasterNext(s), true)
  {
    MasterAdvances(s);
    MasterFreesWorkers(s);
  }

  lemma IncomingLeavesOthers(s: State, ev: Event)
    requires s.st.phase.Exiting? && NotifyMaster(s.master) == s.master && IncomingEnabled(s, ev)
    ensures var t := IncomingNext(s, ev);
      && t.master == s.master && t.outgoing == s.outgoing && t.srcShut == s.srcShut && t.st.phase.Exiting?
      && (t.handler == s.handler || (t.handler.HWoken? && s.handler.HSleep?))
  {
  }

  lemma IncomingShrinks(s: State, ev: Event)
    requires s.st.phase.Exiting? && IncomingEnabled(s, ev)
    ensures var t := IncomingNext(s, ev);
      && IncomingLeft(t.incoming, s.srcShut) <= IncomingLeft(s.incoming, s.srcShut)
      && (s.srcShut || t.incoming.IDone? ==> IncomingLeft(t.incoming, s.srcShut) < IncomingLeft(s.incoming, s.srcShut))
  {
  }

  lemma OutgoingShrinks(s: State, ev: Event)
    requires s.st.phase.Exiting? && NotifyMaster(s.master) == s.master && OutgoingEnabled(s, ev)
    ensures var t := OutgoingNext(s, ev);
      && t.master == s.master && t.incoming == s.incoming && t.handler == s.handler && t.srcShut == s.srcShut
      && t.st.phase.Exiting?
      && OutgoingLeft(t.outgoing) <= OutgoingLeft(s.outgoing)
      && (s.outQ.shut || t.outgoing.ODone? ==> OutgoingLeft(t.outgoing) < OutgoingLeft(s.outgoing))
  {
  }

  ghost predicate OthersKept(s: State, t: State) {
    && t.master == s.master && t.incoming == s.incoming && t.outgoing == s.outgoing && t.srcShut == s.srcShut
    && t.st.phase.Exiting?
  }

  lemma PopInLeavesOthers(s: State)
    requires s.st.phase.Exiting?
    ensures OthersKept(s, PopIn(s))
  {
  }

  lemma ErrorLeavesOthers(s: State, r: Reason)
    requires s.st.phase.Exiting? && NotifyMaster(s.master) == s.master
    ensures OthersKept(s, PostError(s, r))
  {
  }

  lemma HandlerLeavesOthers(s: State, ev: Event)
    requires s.st.phase.Exiting? && NotifyMaster(s.master) == s.master && HandlerEnabled(s, ev)
    ensures OthersKept(s, HandlerNext(s, ev))
  {
    PopInLeavesOthers(s);
    ErrorLeavesOthers(s, HandlerError);
  }

  ghost predicate HandlerShrunk(s: State, t: State) {
    && HandlerLeft(t.handler) <= HandlerLeft(s.handler)
    && (s.inQ.shut || t.handler.HDone? ==> HandlerLeft(t.handler) < HandlerLeft(s.handler))
  }

  lemma PopInShrinks(s: State)
    requires s.handler.HPop? || s.handler.HWoken?
    ensures HandlerShrunk(s, PopIn(s))
  {
  }

  lemma HandlerShrinks(s: State, ev: Event)
    requires s.st.phase.Exiting? && HandlerEnabled(s, ev)
    ensures HandlerShrunk(s, HandlerNext(s, ev))
  {
    if s.handler.HPop? || s.handler.HWoken? {
      PopInShrinks(s);
    }
  }

  lemma IncomingProgress(s: State, ev: Event)
    requires Structure(s) && Queues(s) && ShuttingDown(s) && IncomingEnabled(s, ev)
    ensures Progress(s, IncomingNext(s, ev), Helpful(s).IncomingThread?)
  {
    IncomingLeavesOthers(s, ev);
    IncomingShrinks(s, ev);
  }

  lemma OutgoingProgress(s: State, ev: Event)
    requires Structure(s) && Queues(s) && ShuttingDown(s) && OutgoingEnabled(s, ev)
    ensures Progress(s, OutgoingNext(s, ev), Helpful(s).OutgoingThread?)
  {
    OutgoingShrinks(s, ev);
  }

  lemma HandlerProgress(s: State, ev: Event)
    requires Structure(s) && Queues(s) && ShuttingDown(s) && HandlerEnabled(s, ev)
    ensures Progress(s, HandlerNext(s, ev), Helpful(s).HandlerThread?)
  {
    HandlerLeavesOthers(s, ev);
    HandlerShrinks(s, ev);
  }

  lemma MainShrinks(s: State, ev: Event)
    requires Structure(s) && ShuttingDown(s) && MainEnabled(s)
    ensures var t := MainNext(s, ev);
      && t.master == s.master && t.incoming == s.incoming && t.outgoing == s.outgoing && t.handler == s.handler
      && t.srcShut == s.srcShut && t.st.phase.Exiting?
  {
    assert PostQuit(s) == s && StartDispatching(s) == s;
  }

  lemma OthersProgress(s: State, a: Action)
    requires Structure(s) && ShuttingDown(s) && Enabled(s, a)
    requires !a.Master? && !a.Incoming? && !a.Outgoing? && !a.Handler?
    ensures Progress(s, Next(s, a), false)
  {
    if a.Main? {
      MainShrinks(s, a.event);
    }
  }

  lemma StepProgress(s: State, a: Action)
    requires Inv(s) && ShuttingDown(s) && Enabled(s, a)
    ensures Progress(s, Next(s, a), By(a, Helpful(s)))
  {
    match a
    case Master => MasterProgress(s);
    case Incoming(ev) => IncomingProgress(s, ev);
    case Outgoing(ev) => OutgoingProgress(s, ev);
    case Handler(ev) => HandlerProgress(s, ev);
    case _ => OthersProgress(s, a);
  }

  // ---------------------------------------------------------------- the theorem

  /** An invariant of every step holds all along a run. */
  lemma {:induction false} Always<S(!new), A(!new)>(inv: S -> bool, step: (S, A, S) -> bool,
                                                    run: nat -> S, act: nat -> A, n: nat)
    requires inv(run(0)) && forall m: nat :: step(run(m), act(m), run(m + 1))
    requires forall s, a, t :: inv(s) && step(s, a, t) ==> inv(t)
    ensures inv(run(n))
  {
    if n > 0 {
      Always(inv, step, run, act, n - 1);
      assert step(run(n - 1), act(n - 1), run(n - 1 + 1));
    }
  }

  ghost predicate IsStep(s: State, a: Action, t: State) { Enabled(s, a) && t == Next(s, a) }

  lemma InvAlways(run: nat -> State, act: nat -> Action, n: nat)
    requires IsInfiniteRun(run, act)
    ensures Inv(run(n))
  {
    forall m: nat ensures IsStep(run(m), act(m), run(m + 1)) {
      assert StepAt(run, act, m);
    }
    forall s, a, t | Inv(s) && IsStep(s, a, t) ensures Inv(t) {
      StepKeepsInv(s, a);
    }
    Always((s: State) => Inv(s), (s: State, a: Action, t: State) => IsStep(s, a, t), run, act, n);
  }

  predicate HasExited(s: State) { s.st.phase.Exited? }

  lemma MovesAt(run: nat -> State, act: nat -> Action, n: nat)
    requires IsInfiniteRun(run, act) && ShuttingDown(run(n))
    ensures Moves(By, CanRun, ShuttingDown, HasExited, Left, Helpful, run(n), act(n), run(n + 1))
  {
    assert StepAt(run, act, n);
    InvAlways(run, act, n);
    HelpfulCanRun(run(n));
    StepProgress(run(n), act(n));
  }

  /** On every weakly fair run, a running master leads from Exiting to Exited, all threads joined and the reason settled. */
  lemma ShutdownTerminates(run: nat -> State, act: nat -> Action, n: nat) returns (k: nat)
    requires IsInfiniteRun(run, act) && WeaklyFair(run, act) && ShuttingDown(run(n))
    ensures n <= k && Over(run(k))
  {
    forall i: nat | n <= i && ShuttingDown(run(i))
      ensures Moves(By, CanRun, ShuttingDown, HasExited, Left, Helpful, run(i), act(i), run(i + 1))
    {
      MovesAt(run, act, i);
    }
    k := LeadsTo(By, CanRun, ShuttingDown, HasExited, Left, Helpful, run, act, n);
    InvAlways(run, act, k);
    ExitedIsOver(run(k));
  }

  // ---------------------------------------------------------------- quitting before the start

  /** Exiting without a master: the threads that could get anything done were never started. */
  predicate NeverStarted(s: State) { s.st.phase.Exiting? && s.master.MNotRunning? }

  lemma StaysUnstarted(s: State, a: Action)
    requires Inv(s) && NeverStarted(s) && Enabled(s, a)
    ensures NeverStarted(Next(s, a))
  {
  }

  lemma NobodyCan(s: State, t: Thread)
    requires Structure(s) && NeverStarted(s)
    ensures !CanRun(s, t)
  {
  }

  lemma {:induction false} NeverExits(run: nat -> State, act: nat -> Action, n: nat, m: nat)
    requires IsInfiniteRun(run, act) && NeverStarted(run(n)) && n <= m
    ensures NeverStarted(run(m))
    decreases m - n
  {
    if n < m {
      NeverExits(run, act, n, m - 1);
      InvAlways(run, act, m - 1);
      assert StepAt(run, act, m - 1);
      StaysUnstarted(run(m - 1), act(m - 1));
    }
  }

  /** On a weakly fair run, Exiting leads to Exited exactly when the master is running. */
  lemma ExitedIff(run: nat -> State, act: nat -> Action, n: nat)
    requires IsInfiniteRun(run, act) && WeaklyFair(run, act) && run(n).st.phase.Exiting?
    ensures (exists k: nat :: n <= k && Over(run(k))) <==> !run(n).master.MNotRunning?
  {
    if run(n).master.MNotRunning? {
      forall k: nat | n <= k ensures !Over(run(k)) {
        NeverExits(run, act, n, k);
      }
    } else {
      var k := ShutdownTerminates(run, act, n);
    }
  }

  /** The run of a dispatcher that is told to quit first: starting it is refused, and sends are all that happens. */
  function QuitFirst(waitForGo: bool, timed: bool, n: nat): State {
    if n == 0 then Init(waitForGo, timed)
    else if n == 1 then PostQuit(QuitFirst(waitForGo, timed, 0))
    else if n == 2 then MainNext(QuitFirst(waitForGo, timed, 1), Returned)
    else PushOut(QuitFirst(waitForGo, timed, n - 1), Heartbeat(0))
  }

  function QuitFirstStep(n: nat): Action {
    if n == 0 then CallPostQuit else if n == 1 then Main(Returned) else Send(Heartbeat(0))
  }

  lemma QuitFirstIsRun(waitForGo: bool, timed: bool, n: nat)
    ensures var s := QuitFirst(waitForGo, timed, n);
      Enabled(s, QuitFirstStep(n)) && QuitFirst(waitForGo, timed, n + 1) == Next(s, QuitFirstStep(n))
  {
  }

  /** postQuit before startQueueing: a fair run that is Exiting from its first step on and never Exited. */
  lemma QuitTooEarly(waitForGo: bool, timed: bool) returns (run: nat -> State, act: nat -> Action)
    ensures IsInfiniteRun(run, act) && WeaklyFair(run, act)
    ensures run(0) == Init(waitForGo, timed) && act(0) == CallPostQuit && run(2).main.RRefused?
    ensures forall n: nat :: n > 0 ==> NeverStarted(run(n))
  {
    run, act := (n: nat) => QuitFirst(waitForGo, timed, n), (n: nat) => QuitFirstStep(n);
    forall n: nat ensures StepAt(run, act, n) {
      QuitFirstIsRun(waitForGo, timed, n);
    }
    forall n: nat | n > 0 ensures NeverStarted(run(n)) {
      assert StepAt(run, act, 0);
      NeverExits(run, act, 1, n);
    }
    forall t, n: nat ensures FairFrom(By, CanRun, run, act, t, n) {
      InvAlways(run, act, n + 1);
      NobodyCan(run(n + 1), t);
      assert n <= n + 1 && !CanRun(run(n + 1), t);
    }
  }
}
