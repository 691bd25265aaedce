/**
 Delivery while the dispatcher is dispatching: on a fair run without a shutdown, every envelope that send
 accepted is written and every message received is handled.  Besides what shutting down needs, fairness
 asks that a send does not put off its notification forever.
 */
module DispatcherDelivery {
  import opened Dispatcher
  import opened DispatcherSafety
  import opened DispatcherLiveness
  import opened Fairness

  datatype Who = Worker(thread: Thread) | Notifier

  predicate Does(a: Action, w: Who) {
    match w case Worker(t) => By(a, t) case Notifier => a.SendNotify?
  }

  predicate Can(s: State, w: Who) {
    match w case Worker(t) => CanRun(s, t) case Notifier => s.outQ.owed > 0
  }

  ghost predicate DeliversFairly(run: nat -> State, act: nat -> Action) {
    forall w, n: nat :: FairFrom(Does, Can, run, act, w, n)
  }

  /** From n on the dispatcher is dispatching. */
  ghost predicate Calm(run: nat -> State, n: nat) {
    forall m: nat :: n <= m ==> run(m).st.phase.Dispatching?
  }

  /** A step of a dispatcher that goes on dispatching. */
  ghost predicate CalmStep(s: State, a: Action, t: State) {
    Inv(s) && s.st.phase.Dispatching? && Enabled(s, a) && t == Next(s, a) && t.st.phase.Dispatching?
  }

  lemma CalmAt(run: nat -> State, act: nat -> Action, n: nat, m: nat)
    requires IsInfiniteRun(run, act) && Calm(run, n) && n <= m
    ensures CalmStep(run(m), act(m), run(m + 1)) && Inv(run(m + 1))
  {
    InvAlways(run, act, m);
    InvAlways(run, act, m + 1);
    assert StepAt(run, act, m);
  }

  /** While dispatching, nothing is shut, and a worker that does not exist is about to be started. */
  lemma CalmMeans(s: State)
    requires Structure(s) && Joins(s) && Queues(s) && s.st.phase.Dispatching?
    ensures !s.incoming.IDone? && !s.outgoing.ODone? && !s.handler.HDone?
    ensures !s.inQ.shut && !s.outQ.shut && !s.srcShut && !MasterHoldsLock(s)
    ensures s.outgoing.ONotStarted? || s.handler.HNotStarted? ==> s.master.MStart? || s.master.MWokenQueueing?
  {
  }

  // ---------------------------------------------------------------- outgoing

  /** How far the outgoing thread is from its next write. */
  function OutDistance(o: OutgoingPc): nat {
    match o
    case OPostError(_) => 0 case OPut(_) => 1 case OPop => 2 case OWoken => 2
    case OCheck => 3 case OSleep => 3 case OCount(_) => 4 case ONotStarted => 4 case ODone => 4
  }

  /** Some of the first n envelopes accepted are not written yet. */
  ghost predicate ToWrite(s: State, n: nat) {
    Inv(s) && s.st.phase.Dispatching? && |s.log.written| < n <= |s.log.accepted|
  }

  predicate Written(s: State, n: nat) { n <= |s.log.written| }

  function OutLeft(s: State, n: nat): nat {
    if Written(s, n) then 0 else (n - |s.log.written|) * 8 + OutDistance(s.outgoing)
  }

  function OutHelper(s: State): Who {
    if s.outgoing.ONotStarted? then Worker(MasterThread)
    else if s.outgoing.OSleep? then Notifier
    else Worker(OutgoingThread)
  }

  lemma OutHelperCan(s: State, n: nat)
    requires ToWrite(s, n)
    ensures Can(s, OutHelper(s)) && (!s.outgoing.OPostError? ==> Sent(s) == s.log.accepted)
    ensures s.outgoing.OPop? || s.outgoing.OWoken? ==> s.outQ.items != []
  {
    CalmMeans(s);
  }

  /** What has become of the outgoing side after a step. */
  ghost predicate OutMoved(s: State, t: State, n: nat, strict: bool) {
    || Written(t, n)
    || (|t.log.written| < n <= |t.log.accepted| && OutLeft(t, n) <= OutLeft(s, n)
        && (strict ==> OutLeft(t, n) < OutLeft(s, n))
        && (OutLeft(t, n) == OutLeft(s, n) ==> OutHelper(t) == OutHelper(s)))
  }

  lemma OutgoingMoves(s: State, ev: Event, n: nat)
    requires ToWrite(s, n) && OutgoingEnabled(s, ev) && OutgoingNext(s, ev).st.phase.Dispatching?
    ensures OutMoved(s, OutgoingNext(s, ev), n, true)
  {
    OutHelperCan(s, n);
    CalmMeans(s);
  }

  /** Steps that leave the outgoing thread alone, start it or wake it. */
  lemma OutFrame(s: State, t: State, n: nat)
    requires ToWrite(s, n) && t.log.written == s.log.written && |s.log.accepted| <= |t.log.accepted|
    requires t.outgoing == s.outgoing || (s.outgoing.ONotStarted? && t.outgoing.OCheck?)
             || (s.outgoing.OSleep? && t.outgoing.OWoken?)
    ensures OutMoved(s, t, n, t.outgoing != s.outgoing)
  {
  }

  lemma MasterStartsOutgoing(s: State)
    requires Structure(s) && Queues(s) && s.st.phase.Dispatching? && MasterEnabled(s)
    ensures var t := MasterNext(s);
      && t.log == s.log
      && (if s.outgoing.ONotStarted? then t.outgoing.OCheck? else t.outgoing == s.outgoing)
      && (if s.handler.HNotStarted? then t.handler.HCheck? else t.handler == s.handler)
      && t.inQ == s.inQ && (t.incoming == s.incoming || (s.incoming.INotStarted? && t.incoming.ICheck?))
  {
  }

  ghost predicate OutgoingKept(s: State, t: State) {
    t.log.written == s.log.written && |s.log.accepted| <= |t.log.accepted| && t.outgoing == s.outgoing
  }

  lemma IncomingLeavesOutgoing(s: State, ev: Event)
    ensures OutgoingKept(s, IncomingNext(s, ev))
  {
  }

  lemma HandlerLeavesOutgoing(s: State, ev: Event)
    ensures OutgoingKept(s, HandlerNext(s, ev))
  {
  }

  /** The computation's thread only sends and makes calls. */
  ghost predicate MainFrame(s: State, t: State) {
    t.outgoing == s.outgoing && t.handler == s.handler && t.inQ == s.inQ && t.log == s.log.(calls := t.log.calls)
  }

  lemma MainEarly(s: State, ev: Event)
    requires s.main.RBegin? || s.main.RWaitGo? || s.main.RGoWoken? || s.main.RCallStart? || s.main.RInStart?
    ensures MainFrame(s, MainNext(s, ev))
  {
  }

  lemma MainLate(s: State, ev: Event)
    requires s.main.RStarted? || s.main.RWaitExit? || s.main.RCallStop? || s.main.RInStop?
    ensures MainFrame(s, MainNext(s, ev))
  {
  }

  lemma MainReady(s: State, ev: Event)
    requires s.main.RSendReady?
    ensures var t := MainNext(s, ev); t == PushOut(s, Control(OtherCommand)).(main := t.main)
  {
  }

  lemma MainIsFrame(s: State, ev: Event)
    requires MainEnabled(s)
    ensures MainFrame(s, MainNext(s, ev))
         || MainNext(s, ev) == PushOut(s, Control(OtherCommand)).(main := MainNext(s, ev).main)
  {
    match s.main
    case RSendReady => MainReady(s, ev);
    case RStarted(_) | RWaitExit(_) | RCallStop | RInStop => MainLate(s, ev);
    case _ => MainEarly(s, ev);
  }

  lemma OthersLeaveOutgoing(s: State, a: Action)
    requires Enabled(s, a) && !a.Master? && !a.Outgoing?
    ensures var t := Next(s, a);
      && t.log.written == s.log.written && |s.log.accepted| <= |t.log.accepted|
      && (if a.SendNotify? || a.WakeOutgoing? then t.outgoing == if s.outgoing.OSleep? then OWoken else s.outgoing
          else t.outgoing == s.outgoing)
  {
    match a
    case Incoming(ev) => IncomingLeavesOutgoing(s, ev);
    case Handler(ev) => HandlerLeavesOutgoing(s, ev);
    case Main(ev) => MainIsFrame(s, ev);
    case _ =>
  }

  lemma OutStep(s: State, a: Action, t: State, n: nat)
    requires ToWrite(s, n) && CalmStep(s, a, t)
    ensures OutMoved(s, t, n, Does(a, OutHelper(s)))
  {
    if a.Outgoing? {
      OutgoingMoves(s, a.event, n);
    } else if a.Master? {
      MasterStartsOutgoing(s);
      OutFrame(s, t, n);
    } else {
      OthersLeaveOutgoing(s, a);
      OutFrame(s, t, n);
    }
  }

  lemma WriteComes(run: nat -> State, act: nat -> Action, n: nat, count: nat) returns (k: nat)
    requires IsInfiniteRun(run, act) && DeliversFairly(run, act) && Calm(run, n) && ToWrite(run(n), count)
    ensures n <= k && Written(run(k), count)
  {
    var pending, goal := (s: State) => ToWrite(s, count), (s: State) => Written(s, count);
    var left := (s: State) => OutLeft(s, count);
    forall i: nat | n <= i && pending(run(i))
      ensures Moves(Does, Can, pending, goal, left, OutHelper, run(i), act(i), run(i + 1))
    {
      CalmAt(run, act, n, i);
      OutHelperCan(run(i), count);
      OutStep(run(i), act(i), run(i + 1), count);
    }
    k := LeadsTo(Does, Can, pending, goal, left, OutHelper, run, act, n);
  }

  // ---------------------------------------------------------------- incoming

  function HandlerDistance(h: HandlerPc): nat {
    match h
    case HPostError => 0 case HDeliver(_) => 1 case HPopped(_) => 2 case HPop => 3 case HCheck => 4
    case HInIdle => 5 case HInMessage => 5 case HIdle => 6 case HWoken => 7 case HSleep => 8
    case HNotStarted => 9 case HDone => 9
  }

  /** Some of the first n messages received are not handled yet. */
  ghost predicate ToHandle(s: State, n: nat) {
    Inv(s) && s.st.phase.Dispatching? && |s.log.handled| < n <= |NonControl(s.log.got)|
  }

  predicate Handled(s: State, n: nat) { n <= |s.log.handled| }

  function InLeft(s: State, n: nat): nat {
    if Handled(s, n) then 0
    else if |Received(s)| < n then 10 * n + 20
    else 10 * (n - |s.log.handled|) + HandlerDistance(s.handler)
  }

  function InHelper(s: State, n: nat): Who {
    if |Received(s)| < n || s.handler.HSleep? then Worker(IncomingThread)
    else if s.handler.HNotStarted? then Worker(MasterThread)
    else Worker(HandlerThread)
  }

  lemma InHelperCan(s: State, n: nat)
    requires ToHandle(s, n)
    ensures Can(s, InHelper(s, n))
    ensures |Received(s)| < n ==> s.incoming.IPush? && |Received(s)| + 1 == n
    ensures |Received(s)| >= n && !Holding(s.handler) ==> s.inQ.items != []
    ensures |Received(s)| >= n && s.handler.HSleep? ==> s.incoming.INotify?
  {
    CalmMeans(s);
  }

  ghost predicate InMoved(s: State, t: State, n: nat, strict: bool) {
    || Handled(t, n)
    || (|t.log.handled| < n <= |NonControl(t.log.got)| && InLeft(t, n) <= InLeft(s, n)
        && (strict ==> InLeft(t, n) < InLeft(s, n))
        && (InLeft(t, n) == InLeft(s, n) ==> InHelper(t, n) == InHelper(s, n)))
  }

  /** How many messages have come as far as the queue. */
  function Arrived(s: State): nat {
    |s.log.handled| + (if Holding(s.handler) then 1 else 0) + |s.inQ.items|
  }

  /** What the handler does to the messages it is given, and how near it comes to handling the next one. */
  ghost predicate HandlerStepped(s: State, t: State) {
    && t.log.got == s.log.got && Arrived(t) == Arrived(s)
    && (if s.handler.HDeliver? then |t.log.handled| == |s.log.handled| + 1 else t.log.handled == s.log.handled)
    && (!s.handler.HDeliver? && (s.inQ.items != [] || Holding(s.handler)) ==>
          HandlerDistance(t.handler) < HandlerDistance(s.handler))
    && HandlerDistance(t.handler) <= 9 && !t.handler.HNotStarted?
  }

  lemma ArrivedIs(s: State)
    ensures |Received(s)| == Arrived(s)
  {
  }

  lemma PopInSteps(s: State)
    requires !s.inQ.shut && (s.handler.HPop? || s.handler.HWoken?)
    ensures HandlerStepped(s, PopIn(s))
  {
  }

  lemma WaitingSteps(s: State, ev: Event)
    requires HandlerEnabled(s, ev) && !s.inQ.shut && s.st.phase.Dispatching?
    requires s.handler.HPop? || s.handler.HWoken? || s.handler.HSleep? || s.handler.HCheck?
    ensures HandlerStepped(s, HandlerNext(s, ev))
  {
    if s.handler.HPop? || s.handler.HWoken? {
      PopInSteps(s);
    }
  }

  lemma CallingSteps(s: State, ev: Event)
    requires s.handler.HPopped? || s.handler.HDeliver? || s.handler.HInMessage? || s.handler.HIdle? || s.handler.HInIdle?
    ensures HandlerStepped(s, HandlerNext(s, ev))
  {
  }

  lemma HandlerSteps(s: State, ev: Event)
    requires HandlerEnabled(s, ev) && !s.inQ.shut && s.st.phase.Dispatching? && HandlerNext(s, ev).st.phase.Dispatching?
    ensures HandlerStepped(s, HandlerNext(s, ev))
  {
    match s.handler
    case HPop | HWoken | HSleep | HCheck => WaitingSteps(s, ev);
    case HPostError =>
    case _ => CallingSteps(s, ev);
  }

  lemma HandlerMoves(s: State, ev: Event, n: nat)
    requires ToHandle(s, n) && HandlerEnabled(s, ev) && HandlerNext(s, ev).st.phase.Dispatching?
    ensures InMoved(s, HandlerNext(s, ev), n, |Received(s)| >= n)
  {
    InHelperCan(s, n);
    CalmMeans(s);
    HandlerSteps(s, ev);
    ArrivedIs(s);
    ArrivedIs(HandlerNext(s, ev));
  }

  /** What the incoming thread does to the messages received. */
  lemma IncomingSteps(s: State, ev: Event)
    requires IncomingEnabled(s, ev) && !s.inQ.shut
    ensures var t := IncomingNext(s, ev);
      && |NonControl(s.log.got)| <= |NonControl(t.log.got)| && t.log.handled == s.log.handled
      && (if s.incoming.IPush? then |Received(t)| == |Received(s)| + 1 else |Received(t)| == |Received(s)|)
      && t.handler == (if s.incoming.INotify? && s.handler.HSleep? then HWoken else s.handler)
  {
    if s.incoming.IReading? && ev.Delivered? {
      assert (s.log.got + [ev.env])[..|s.log.got|] == s.log.got;
    }
  }

  lemma IncomingMoves(s: State, ev: Event, n: nat)
    requires ToHandle(s, n) && IncomingEnabled(s, ev)
    ensures InMoved(s, IncomingNext(s, ev), n, InHelper(s, n) == Worker(IncomingThread))
  {
    InHelperCan(s, n);
    CalmMeans(s);
    IncomingSteps(s, ev);
  }

  lemma InFrame(s: State, t: State, n: nat)
    requires ToHandle(s, n) && t.log.handled == s.log.handled && t.log.got == s.log.got && t.inQ == s.inQ
    requires t.handler == s.handler || (s.handler.HNotStarted? && t.handler.HCheck?)
             || (s.handler.HSleep? && t.handler.HWoken?)
    ensures InMoved(s, t, n, t.handler != s.handler && |Received(s)| >= n)
  {
  }

  ghost predicate HandlerKept(s: State, t: State) {
    && t.log.handled == s.log.handled && t.log.got == s.log.got && t.inQ == s.inQ
    && (t.handler == s.handler || (s.handler.HSleep? && t.handler.HWoken?))
  }

  lemma PopOutLeavesHandler(s: State)
    ensures HandlerKept(s, PopOut(s))
  {
  }

  lemma OutgoingLeavesHandler(s: State, ev: Event)
    ensures HandlerKept(s, OutgoingNext(s, ev))
  {
    if s.outgoing.OPop? || s.outgoing.OWoken? {
      PopOutLeavesHandler(s);
    }
  }

  lemma OthersLeaveHandler(s: State, a: Action)
    requires Enabled(s, a) && !a.Master? && !a.Incoming? && !a.Handler?
    ensures HandlerKept(s, Next(s, a))
  {
    match a
    case Outgoing(ev) => OutgoingLeavesHandler(s, ev);
    case Main(ev) => MainIsFrame(s, ev);
    case _ =>
  }

  lemma InStep(s: State, a: Action, t: State, n: nat)
    requires ToHandle(s, n) && CalmStep(s, a, t)
    ensures InMoved(s, t, n, Does(a, InHelper(s, n)))
  {
    if a.Handler? {
      HandlerMoves(s, a.event, n);
    } else if a.Incoming? {
      IncomingMoves(s, a.event, n);
    } else if a.Master? {
      MasterStartsOutgoing(s);
      InFrame(s, t, n);
    } else {
      OthersLeaveHandler(s, a);
      InFrame(s, t, n);
    }
  }

  lemma HandlingComes(run: nat -> State, act: nat -> Action, n: nat, count: nat) returns (k: nat)
    requires IsInfiniteRun(run, act) && DeliversFairly(run, act) && Calm(run, n) && ToHandle(run(n), count)
    ensures n <= k && Handled(run(k), count)
  {
    var pending, goal := (s: State) => ToHandle(s, count), (s: State) => Handled(s, count);
    var left, help := (s: State) => InLeft(s, count), (s: State) => InHelper(s, count);
    forall i: nat | n <= i && pending(run(i))
      ensures Moves(Does, Can, pending, goal, left, help, run(i), act(i), run(i + 1))
    {
      CalmAt(run, act, n, i);
      InHelperCan(run(i), count);
      InStep(run(i), act(i), run(i + 1), count);
    }
    k := LeadsTo(Does, Can, pending, goal, left, help, run, act, n);
  }

  // ---------------------------------------------------------------- listening

  /** How far the incoming thread is from waiting for the next envelope. */
  function ListenDistance(i: IncomingPc): nat {
    match i
    case IReading => 0 case ICallGet => 1 case ICheck => 2 case IPostQuit => 2
    case INotify => 3 case INotifyGo(_) => 3 case IPostError(_) => 3
    case IPush(_) => 4 case ISetGo(_) => 4 case INotStarted => 5 case IDone => 5
  }

  ghost predicate Busy(s: State) { Inv(s) && s.st.phase.Dispatching? && !s.incoming.IReading? }

  predicate Listens(s: State) { s.incoming.IReading? }

  function ListenHelper(s: State): Who {
    if s.incoming.INotStarted? then Worker(MasterThread) else Worker(IncomingThread)
  }

  function ListenLeft(s: State): nat { ListenDistance(s.incoming) }

  ghost predicate ListenMoved(s: State, t: State, strict: bool) {
    || Listens(t)
    || (ListenLeft(t) <= ListenLeft(s) && (strict ==> ListenLeft(t) < ListenLeft(s))
        && (ListenLeft(t) == ListenLeft(s) ==> ListenHelper(t) == ListenHelper(s)))
  }

  lemma IncomingListens(s: State, ev: Event)
    requires !s.srcShut && IncomingEnabled(s, ev) && !s.incoming.IReading? && s.st.phase.Dispatching?
    requires IncomingNext(s, ev).st.phase.Dispatching?
    ensures ListenMoved(s, IncomingNext(s, ev), true)
  {
  }

  lemma OthersLeaveIncoming(s: State, a: Action)
    requires Enabled(s, a) && !a.Incoming? && !a.Master?
    ensures Next(s, a).incoming == s.incoming
  {
  }

  lemma MasterStartsIncoming(s: State)
    requires Structure(s) && MasterEnabled(s) && s.st.phase.Dispatching?
    ensures MasterNext(s).incoming == (if s.incoming.INotStarted? then ICheck else s.incoming)
  {
  }

  lemma ListenStep(s: State, a: Action, t: State)
    requires Busy(s) && CalmStep(s, a, t)
    ensures Can(s, ListenHelper(s)) && ListenMoved(s, t, Does(a, ListenHelper(s)))
  {
    CalmMeans(s);
    if a.Incoming? {
      IncomingListens(s, a.event);
    } else if a.Master? {
      MasterStartsIncoming(s);
    } else {
      OthersLeaveIncoming(s, a);
    }
  }

  // ---------------------------------------------------------------- the theorems

  /** The dispatcher waits for the next envelope again and again. */
  lemma ListensAgain(run: nat -> State, act: nat -> Action, n: nat) returns (k: nat)
    requires IsInfiniteRun(run, act) && DeliversFairly(run, act) && Calm(run, n)
    ensures n <= k && Listens(run(k))
  {
    k := n;
    if !Listens(run(n)) {
      InvAlways(run, act, n);
      forall i: nat | n <= i && Busy(run(i))
        ensures Moves(Does, Can, Busy, Listens, ListenLeft, ListenHelper, run(i), act(i), run(i + 1))
      {
        CalmAt(run, act, n, i);
        ListenStep(run(i), act(i), run(i + 1));
      }
      k := LeadsTo(Does, Can, Busy, Listens, ListenLeft, ListenHelper, run, act, n);
    }
  }

  /** Nothing is taken back. */
  ghost predicate Grown(s: State, t: State) {
    s.log.accepted <= t.log.accepted && NonControl(s.log.got) <= NonControl(t.log.got)
  }

  lemma IncomingGrows(s: State, ev: Event)
    ensures Grown(s, IncomingNext(s, ev))
  {
    if s.incoming.IReading? && ev.Delivered? {
      assert (s.log.got + [ev.env])[..|s.log.got|] == s.log.got;
    }
  }

  lemma OutgoingAdds(s: State, ev: Event)
    ensures OutgoingNext(s, ev).log.accepted == s.log.accepted && OutgoingNext(s, ev).log.got == s.log.got
  {
  }

  lemma HandlerAdds(s: State, ev: Event)
    ensures HandlerNext(s, ev).log.accepted == s.log.accepted && HandlerNext(s, ev).log.got == s.log.got
  {
  }

  lemma MasterAdds(s: State)
    ensures MasterNext(s).log == s.log
  {
  }

  lemma HistoryGrows(s: State, a: Action)
    requires Enabled(s, a)
    ensures Grown(s, Next(s, a))
  {
    match a
    case Incoming(ev) => IncomingGrows(s, ev);
    case Main(ev) => MainIsFrame(s, ev);
    case Outgoing(ev) => OutgoingAdds(s, ev);
    case Handler(ev) => HandlerAdds(s, ev);
    case Master => MasterAdds(s);
    case _ =>
  }

  lemma {:induction false} HistoryKept(run: nat -> State, act: nat -> Action, n: nat, m: nat)
    requires IsInfiniteRun(run, act) && n <= m
    ensures Grown(run(n), run(m))
    decreases m - n
  {
    if n < m {
      HistoryKept(run, act, n, m - 1);
      assert StepAt(run, act, m - 1);
      HistoryGrows(run(m - 1), act(m - 1));
    }
  }

  lemma PrefixOf<X>(a: seq<X>, b: seq<X>, c: seq<X>)
    requires a <= c && b <= c && |a| <= |b|
    ensures a <= b
  {
    assert a == c[..|a|] && b == c[..|b|];
  }

  lemma ReceivedFirst(s: State)
    requires Inbound(s)
    ensures s.log.handled <= NonControl(s.log.got)
  {
    assert s.log.handled <= Received(s);
  }

  /** Every envelope accepted is written, in order. */
  lemma AllWritten(run: nat -> State, act: nat -> Action, n: nat) returns (k: nat)
    requires IsInfiniteRun(run, act) && DeliversFairly(run, act) && Calm(run, n)
    ensures n <= k && run(n).log.accepted <= run(k).log.written
  {
    var count := |run(n).log.accepted|;
    InvAlways(run, act, n);
    k := n;
    if !Written(run(n), count) {
      k := WriteComes(run, act, n, count);
    }
    InvAlways(run, act, k);
    HistoryKept(run, act, n, k);
    PrefixOf(run(n).log.accepted, run(k).log.written, run(k).log.accepted);
  }

  /** Every message received is handled, in order. */
  lemma AllHandled(run: nat -> State, act: nat -> Action, n: nat) returns (k: nat)
    requires IsInfiniteRun(run, act) && DeliversFairly(run, act) && Calm(run, n)
    ensures n <= k && NonControl(run(n).log.got) <= run(k).log.handled
  {
    var count := |NonControl(run(n).log.got)|;
    InvAlways(run, act, n);
    k := n;
    if !Handled(run(n), count) {
      k := HandlingComes(run, act, n, count);
    }
    InvAlways(run, act, k);
    HistoryKept(run, act, n, k);
    ReceivedFirst(run(k));
    PrefixOf(NonControl(run(n).log.got), run(k).log.handled, NonControl(run(k).log.got));
  }
}
