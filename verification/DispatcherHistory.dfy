/**
 Why things happen: what the dispatcher and the computation end up with is tied to what went on before, that
 is, to callbacks that threw, connections that failed, control messages, and calls of postQuit.
 */
module DispatcherHistory {
  import opened Dispatcher
  import opened DispatcherSafety
  import opened DispatcherDelivery

  /**
   What has happened: the faults in the order they occurred, whether the computation's start and stop threw,
   whether anyone called postQuit, and how often the handler's wait for a message expired.
   */
  datatype History = History(faults: seq<Reason>, startThrew: bool, stopThrew: bool, quitCalled: bool, expired: nat)

  const NOTHING := History([], false, false, false, 0)

  /** A callback of the handler throws, or receiving or sending fails for another reason than a shutdown. */
  function FaultIn(s: State, a: Action): seq<Reason> {
    match a
    case Handler(Threw) => if s.handler.HInMessage? || s.handler.HInIdle? then [HandlerError] else []
    case Incoming(Failed(r)) => if s.incoming.IReading? then [r] else []
    case Outgoing(Failed(r)) => if s.outgoing.OPut? then [r] else []
    case _ => []
  }

  function Then(h: History, s: State, a: Action): History {
    History(
      h.faults + FaultIn(s, a),
      h.startThrew || (a == Main(Threw) && s.main.RInStart?),
      h.stopThrew || (a == Main(Threw) && s.main.RInStop?),
      h.quitCalled || a.CallPostQuit?,
      h.expired + (if a == Handler(Expired) && (s.handler.HSleep? || s.handler.HWoken?) then 1 else 0))
  }

  function HistoryOf(trace: seq<State>, acts: seq<Action>): History
    requires |trace| == |acts| + 1
  {
    if acts == [] then NOTHING
    else
      var n := |acts| - 1;
      Then(HistoryOf(trace[..n + 1], acts[..n]), trace[n], acts[n])
  }

  // ---------------------------------------------------------------- faults

  /** A fault whose postError is still to come. */
  function HandlerOwes(h: HandlerPc): seq<Reason> { if h.HPostError? then [HandlerError] else [] }

  function IncomingOwes(i: IncomingPc): seq<Reason> { if i.IPostError? then [i.reason] else [] }

  function OutgoingOwes(o: OutgoingPc): seq<Reason> { if o.OPostError? then [o.reason] else [] }

  function Count(rs: seq<Reason>, r: Reason): nat { multiset(rs)[r] }

  /** Every fault is posted once, or about to be, and nothing else is. */
  ghost predicate Accounted(s: State, h: History) {
    forall r :: Count(h.faults, r) == Count(s.st.errors, r) + Count(HandlerOwes(s.handler), r)
                                      + Count(IncomingOwes(s.incoming), r) + Count(OutgoingOwes(s.outgoing), r)
  }

  ghost predicate OthersOwe(s: State, t: State, handler: bool, incoming: bool, outgoing: bool) {
    && (handler ==> HandlerOwes(t.handler) == HandlerOwes(s.handler))
    && (incoming ==> IncomingOwes(t.incoming) == IncomingOwes(s.incoming))
    && (outgoing ==> OutgoingOwes(t.outgoing) == OutgoingOwes(s.outgoing))
  }

  /** What one worker's step does to the books, if the others' part in them stays the same. */
  ghost predicate Worked(s: State, t: State, owes: seq<Reason>, owes': seq<Reason>, fault: seq<Reason>) {
    (t.st.errors == s.st.errors && owes + fault == owes') || (t.st.errors == s.st.errors + owes && owes' == fault == [])
  }

  lemma HandlerWaits(s: State, ev: Event)
    requires s.handler.HPop? || s.handler.HWoken? || s.handler.HSleep? || s.handler.HCheck?
    ensures var t := HandlerNext(s, ev);
      Worked(s, t, HandlerOwes(s.handler), HandlerOwes(t.handler), []) && OthersOwe(s, t, false, true, true)
  {
  }

  lemma HandlerCalls(s: State, ev: Event)
    requires !s.handler.HPop? && !s.handler.HWoken? && !s.handler.HSleep? && !s.handler.HCheck?
    ensures var t := HandlerNext(s, ev);
      && Worked(s, t, HandlerOwes(s.handler), HandlerOwes(t.handler), FaultIn(s, Handler(ev)))
      && OthersOwe(s, t, false, true, true)
  {
    if s.handler.HPostError? {
      HandlerPosts(s, ev);
    }
  }

  lemma HandlerPosts(s: State, ev: Event)
    requires s.handler.HPostError?
    ensures var t := HandlerNext(s, ev); Worked(s, t, [HandlerError], [], []) && OthersOwe(s, t, false, true, true)
    ensures HandlerOwes(HandlerNext(s, ev).handler) == [] && FaultIn(s, Handler(ev)) == []
  {
  }

  lemma HandlerFaults(s: State, ev: Event)
    ensures var t := HandlerNext(s, ev);
      && Worked(s, t, HandlerOwes(s.handler), HandlerOwes(t.handler), FaultIn(s, Handler(ev)))
      && OthersOwe(s, t, false, true, true)
  {
    if s.handler.HPop? || s.handler.HWoken? || s.handler.HSleep? || s.handler.HCheck? {
      HandlerWaits(s, ev);
    } else {
      HandlerCalls(s, ev);
    }
  }

  lemma IncomingReads(s: State, ev: Event)
    requires s.incoming.IReading? || s.incoming.IPostError?
    ensures var t := IncomingNext(s, ev);
      && Worked(s, t, IncomingOwes(s.incoming), IncomingOwes(t.incoming), FaultIn(s, Incoming(ev)))
      && OthersOwe(s, t, true, false, true)
  {
  }

  lemma ControlActs(s: State, ev: Event)
    requires s.incoming.ISetGo? || s.incoming.INotifyGo? || s.incoming.IPostQuit?
    ensures var t := IncomingNext(s, ev); t.st.errors == s.st.errors && OthersOwe(s, t, true, true, true)
  {
  }

  lemma IncomingActs(s: State, ev: Event)
    requires !s.incoming.IReading? && !s.incoming.IPostError?
    ensures var t := IncomingNext(s, ev);
      Worked(s, t, IncomingOwes(s.incoming), IncomingOwes(t.incoming), []) && OthersOwe(s, t, true, false, true)
  {
    if s.incoming.ISetGo? || s.incoming.INotifyGo? || s.incoming.IPostQuit? {
      ControlActs(s, ev);
    }
  }

  lemma IncomingFaults(s: State, ev: Event)
    ensures var t := IncomingNext(s, ev);
      && Worked(s, t, IncomingOwes(s.incoming), IncomingOwes(t.incoming), FaultIn(s, Incoming(ev)))
      && OthersOwe(s, t, true, false, true)
  {
    if s.incoming.IReading? || s.incoming.IPostError? {
      IncomingReads(s, ev);
    } else {
      IncomingActs(s, ev);
    }
  }

  lemma PopOutWorks(s: State)
    requires s.outgoing.OPop? || s.outgoing.OWoken?
    ensures Worked(s, PopOut(s), [], OutgoingOwes(PopOut(s).outgoing), []) && OthersOwe(s, PopOut(s), true, true, false)
  {
  }

  lemma OutgoingFaults(s: State, ev: Event)
    ensures var t := OutgoingNext(s, ev);
      && Worked(s, t, OutgoingOwes(s.outgoing), OutgoingOwes(t.outgoing), FaultIn(s, Outgoing(ev)))
      && OthersOwe(s, t, true, true, false)
  {
    if s.outgoing.OPop? || s.outgoing.OWoken? {
      PopOutWorks(s);
    }
  }

  ghost predicate NothingOwed(s: State, t: State) { t.st.errors == s.st.errors && OthersOwe(s, t, true, true, true) }

  lemma MasterFaults(s: State)
    requires Structure(s)
    ensures NothingOwed(s, MasterNext(s))
  {
    if Place(s.master) >= 10 {
      MasterLast(s);
    } else if Place(s.master) >= 4 {
      MasterLater(s);
    }
  }

  lemma MasterLater(s: State)
    requires 4 <= Place(s.master) < 10
    ensures NothingOwed(s, MasterNext(s))
  {
  }

  lemma MasterLast(s: State)
    requires Place(s.master) >= 10
    ensures NothingOwed(s, MasterNext(s))
  {
  }

  lemma StartedFaults(s: State, ev: Event)
    requires s.main.RStarted?
    ensures NothingOwed(s, MainNext(s, ev))
  {
  }

  lemma MainFaults(s: State, ev: Event)
    ensures NothingOwed(s, MainNext(s, ev))
  {
    if s.main.RStarted? {
      StartedFaults(s, ev);
    }
  }

  lemma Balance(errors: seq<Reason>, errors': seq<Reason>, owes: seq<Reason>, owes': seq<Reason>,
                faults: seq<Reason>, fault: seq<Reason>, r: Reason, rest: nat)
    requires Count(faults, r) == Count(errors, r) + Count(owes, r) + rest
    requires (errors' == errors && owes + fault == owes') || (errors' == errors + owes && owes' == fault == [])
    ensures Count(faults + fault, r) == Count(errors', r) + Count(owes', r) + rest
  {
  }

  lemma HandlerAccounts(s: State, ev: Event, h: History)
    requires Accounted(s, h)
    ensures Accounted(HandlerNext(s, ev), h.(faults := h.faults + FaultIn(s, Handler(ev))))
  {
    var t := HandlerNext(s, ev);
    HandlerFaults(s, ev);
    forall r {
      Balance(s.st.errors, t.st.errors, HandlerOwes(s.handler), HandlerOwes(t.handler), h.faults,
              FaultIn(s, Handler(ev)), r, Count(IncomingOwes(s.incoming), r) + Count(OutgoingOwes(s.outgoing), r));
    }
  }

  lemma IncomingAccounts(s: State, ev: Event, h: History)
    requires Accounted(s, h)
    ensures Accounted(IncomingNext(s, ev), h.(faults := h.faults + FaultIn(s, Incoming(ev))))
  {
    var t := IncomingNext(s, ev);
    IncomingFaults(s, ev);
    forall r {
      Balance(s.st.errors, t.st.errors, IncomingOwes(s.incoming), IncomingOwes(t.incoming), h.faults,
              FaultIn(s, Incoming(ev)), r, Count(HandlerOwes(s.handler), r) + Count(OutgoingOwes(s.outgoing), r));
    }
  }

  lemma OutgoingAccounts(s: State, ev: Event, h: History)
    requires Accounted(s, h)
    ensures Accounted(OutgoingNext(s, ev), h.(faults := h.faults + FaultIn(s, Outgoing(ev))))
  {
    var t := OutgoingNext(s, ev);
    OutgoingFaults(s, ev);
    forall r {
      Balance(s.st.errors, t.st.errors, OutgoingOwes(s.outgoing), OutgoingOwes(t.outgoing), h.faults,
              FaultIn(s, Outgoing(ev)), r, Count(HandlerOwes(s.handler), r) + Count(IncomingOwes(s.incoming), r));
    }
  }

  lemma StaysAccounted(s: State, t: State, h: History)
    requires Accounted(s, h) && NothingOwed(s, t)
    ensures Accounted(t, h)
  {
  }

  lemma StepFaults(s: State, a: Action, h: History)
    requires Structure(s) && Enabled(s, a) && Accounted(s, h)
    ensures Accounted(Next(s, a), h.(faults := h.faults + FaultIn(s, a)))
  {
    match a
    case Handler(ev) => HandlerAccounts(s, ev, h);
    case Incoming(ev) => IncomingAccounts(s, ev, h);
    case Outgoing(ev) => OutgoingAccounts(s, ev, h);
    case _ => OthersAccount(s, a, h);
  }

  lemma OthersAccount(s: State, a: Action, h: History)
    requires Structure(s) && Enabled(s, a) && Accounted(s, h) && !a.Handler? && !a.Incoming? && !a.Outgoing?
    ensures Accounted(Next(s, a), h.(faults := h.faults + FaultIn(s, a)))
  {
    match a {
      case Master => MasterFaults(s);
      case Main(ev) => MainFaults(s, ev);
      case _ => OthersFaults(s, a);
    }
    Same(h.faults);
    StaysAccounted(s, Next(s, a), h);
  }

  lemma Same<T>(xs: seq<T>)
    ensures xs + [] == xs
  {
  }

  lemma OthersFaults(s: State, a: Action)
    requires Enabled(s, a) && !a.Handler? && !a.Incoming? && !a.Outgoing? && !a.Master? && !a.Main?
    ensures NothingOwed(s, Next(s, a)) && FaultIn(s, a) == []
  {
  }

  // ---------------------------------------------------------------- the computation's outcome

  /** What runComputation returns, or will, says which of the two calls threw. */
  predicate Outcomes(s: State, h: History) {
    match s.main
    case RStarted(threw) => h.startThrew == threw && !h.stopThrew
    case RWaitExit(threw) => h.startThrew == threw && !h.stopThrew
    case RReturned(StartException) => h.startThrew && !h.stopThrew
    case RReturned(StopException) => !h.startThrew && h.stopThrew
    case _ => !h.startThrew && !h.stopThrew
  }

  lemma MainEarlyOutcomes(s: State, ev: Event, h: History)
    requires Outcomes(s, h) && !s.main.RStarted? && !s.main.RWaitExit? && !s.main.RCallStop? && !s.main.RInStop?
    ensures Outcomes(MainNext(s, ev), Then(h, s, Main(ev)))
  {
  }

  lemma MainLateOutcomes(s: State, ev: Event, h: History)
    requires Outcomes(s, h) && (s.main.RStarted? || s.main.RWaitExit? || s.main.RCallStop? || s.main.RInStop?)
    ensures Outcomes(MainNext(s, ev), Then(h, s, Main(ev)))
  {
  }

  /** Others can wake the computation's thread, no more. */
  predicate MainKept(s: State, t: State) { t.main == s.main || (s.main.RGoSleep? && t.main.RGoWoken?) }

  lemma HandlerKeepsMain(s: State, ev: Event)
    ensures MainKept(s, HandlerNext(s, ev)) && HandlerNext(s, ev).go == s.go && HandlerNext(s, ev).waitForGo == s.waitForGo
  {
  }

  lemma IncomingKeepsMain(s: State, ev: Event)
    ensures MainKept(s, IncomingNext(s, ev)) && IncomingNext(s, ev).waitForGo == s.waitForGo
  {
  }

  lemma OutgoingKeepsMain(s: State, ev: Event)
    ensures MainKept(s, OutgoingNext(s, ev)) && OutgoingNext(s, ev).go == s.go && OutgoingNext(s, ev).waitForGo == s.waitForGo
  {
  }

  lemma MasterKeepsMain(s: State)
    ensures MainKept(s, MasterNext(s)) && MasterNext(s).go == s.go && MasterNext(s).waitForGo == s.waitForGo
  {
  }

  lemma OthersKeepMain(s: State, a: Action)
    requires Enabled(s, a) && !a.Main?
    ensures MainKept(s, Next(s, a)) && Next(s, a).waitForGo == s.waitForGo && (!a.Incoming? ==> Next(s, a).go == s.go)
  {
    match a
    case Handler(ev) => HandlerKeepsMain(s, ev);
    case Incoming(ev) => IncomingKeepsMain(s, ev);
    case Outgoing(ev) => OutgoingKeepsMain(s, ev);
    case Master => MasterKeepsMain(s);
    case _ =>
  }

  lemma StepOutcomes(s: State, a: Action, h: History)
    requires Enabled(s, a) && Outcomes(s, h)
    ensures Outcomes(Next(s, a), Then(h, s, a))
  {
    if a.Main? {
      if s.main.RStarted? || s.main.RWaitExit? || s.main.RCallStop? || s.main.RInStop? {
        MainLateOutcomes(s, a.event, h);
      } else {
        MainEarlyOutcomes(s, a.event, h);
      }
    } else {
      OthersKeepMain(s, a);
    }
  }

  // ---------------------------------------------------------------- the computation's calls

  /** The messages it was given, and how often it was told that there were none. */
  function Messages(calls: seq<Call>): seq<Envelope> {
    if calls == [] then []
    else Messages(calls[..|calls| - 1]) + (if calls[|calls| - 1].OnMessage? then [calls[|calls| - 1].env] else [])
  }

  function Idles(calls: seq<Call>): nat {
    if calls == [] then 0 else Idles(calls[..|calls| - 1]) + (if calls[|calls| - 1].OnIdle? then 1 else 0)
  }

  /** It is given each message handled, in order, and told once of every wait that expired. */
  predicate CallsTell(s: State, h: History) {
    Messages(s.log.calls) == s.log.handled && Idles(s.log.calls) + (if s.handler.HIdle? then 1 else 0) == h.expired
  }

  lemma OneMoreCall(calls: seq<Call>, c: Call)
    ensures Messages(calls + [c]) == Messages(calls) + (if c.OnMessage? then [c.env] else [])
    ensures Idles(calls + [c]) == Idles(calls) + (if c.OnIdle? then 1 else 0)
  {
    assert (calls + [c])[..|calls|] == calls;
  }

  lemma HandlerCallsTell(s: State, ev: Event, h: History)
    requires HandlerEnabled(s, ev) && CallsTell(s, h)
    ensures CallsTell(HandlerNext(s, ev), Then(h, s, Handler(ev)))
  {
    if s.handler.HDeliver? {
      OneMoreCall(s.log.calls, OnMessage(s.handler.env));
    } else if s.handler.HIdle? {
      OneMoreCall(s.log.calls, OnIdle);
    } else {
      QuietHandler(s, ev);
    }
  }

  lemma QuietHandler(s: State, ev: Event)
    requires HandlerEnabled(s, ev) && !s.handler.HDeliver? && !s.handler.HIdle?
    ensures var t := HandlerNext(s, ev);
      && t.log.calls == s.log.calls && t.log.handled == s.log.handled
      && (t.handler.HIdle? <==> ev.Expired? && (s.handler.HSleep? || s.handler.HWoken?))
  {
  }

  lemma MainCallsTell(s: State, ev: Event, h: History)
    requires MainEnabled(s) && CallsTell(s, h)
    ensures CallsTell(MainNext(s, ev), Then(h, s, Main(ev)))
  {
    OneMoreCall(s.log.calls, ConfigureStart);
    OneMoreCall(s.log.calls, ConfigureStop);
    Same(s.log.handled);
    MainCalls(s, ev);
  }

  lemma MainCalls(s: State, ev: Event)
    requires MainEnabled(s)
    ensures var t := MainNext(s, ev);
      && t.log.handled == s.log.handled && t.handler == s.handler
      && t.log.calls == (if s.main.RCallStart? then s.log.calls + [ConfigureStart]
                         else if s.main.RCallStop? then s.log.calls + [ConfigureStop] else s.log.calls)
  {
  }

  /** Nobody else makes calls or has the handler idle. */
  ghost predicate CallsKept(s: State, t: State) {
    t.log.calls == s.log.calls && t.log.handled == s.log.handled && (t.handler.HIdle? <==> s.handler.HIdle?)
  }

  lemma IncomingMakesNoCalls(s: State, ev: Event)
    ensures CallsKept(s, IncomingNext(s, ev))
  {
  }

  lemma OutgoingMakesNoCalls(s: State, ev: Event)
    ensures CallsKept(s, OutgoingNext(s, ev))
  {
  }

  lemma MasterMakesNoCalls(s: State)
    requires Structure(s)
    ensures CallsKept(s, MasterNext(s))
  {
  }

  lemma StepCallsTell(s: State, a: Action, h: History)
    requires Structure(s) && Enabled(s, a) && CallsTell(s, h)
    ensures CallsTell(Next(s, a), Then(h, s, a))
  {
    match a
    case Handler(ev) => HandlerCallsTell(s, ev, h);
    case Main(ev) => MainCallsTell(s, ev, h);
    case Incoming(ev) => IncomingMakesNoCalls(s, ev);
    case Outgoing(ev) => OutgoingMakesNoCalls(s, ev);
    case Master => MasterMakesNoCalls(s);
    case _ => assert CallsKept(s, Next(s, a));
  }

  // ---------------------------------------------------------------- control messages

  predicate Begins(e: Envelope) { e == Control(Go) || e == Control(Stop) || e == Control(Abort) }

  predicate Ends(e: Envelope) { e == Control(Stop) || e == Control(Abort) }

  ghost predicate ToldToBegin(s: State) { exists i :: 0 <= i < |s.log.got| && Begins(s.log.got[i]) }

  ghost predicate ToldToEnd(s: State) { exists i :: 0 <= i < |s.log.got| && Ends(s.log.got[i]) }

  /** The incoming thread is about to act on a stop or an abort. */
  predicate Ending(i: IncomingPc) { i == ISetGo(true) || i == INotifyGo(true) || i.IPostQuit? }

  predicate Leaving(s: State) { s.st.phase.Exiting? || s.st.phase.Exited? }

  /** go, stop and abort each let the computation begin, and stop and abort end it; other messages do neither. */
  ghost predicate Obeys(s: State) {
    && (s.go || s.incoming.ISetGo? <==> ToldToBegin(s))
    && (Ending(s.incoming) ==> ToldToEnd(s))
    && (ToldToEnd(s) ==> Leaving(s) || Ending(s.incoming))
  }

  lemma DeliveryObeys(s: State, e: Envelope)
    requires Obeys(s) && s.incoming.IReading?
    ensures Obeys(IncomingNext(s, Delivered(e)))
  {
    var t := IncomingNext(s, Delivered(e));
    var n := |s.log.got|;
    assert t.log.got[n] == e && forall i :: 0 <= i < n ==> t.log.got[i] == s.log.got[i];
  }

  ghost predicate ControlKept(s: State, t: State) {
    && t.log.got == s.log.got && (Leaving(s) ==> Leaving(t))
  }

  lemma IncomingObeys(s: State, ev: Event)
    requires Obeys(s) && !(s.incoming.IReading? && ev.Delivered?)
    ensures Obeys(IncomingNext(s, ev))
  {
    IncomingControls(s, ev);
  }

  ghost predicate Controlled(s: State, t: State) {
    && ControlKept(s, t) && !t.incoming.ISetGo?
    && t.go == (s.go || s.incoming.ISetGo?)
    && (Ending(t.incoming) ==> Ending(s.incoming))
    && (Ending(s.incoming) ==> Leaving(t) || Ending(t.incoming))
  }

  lemma ControlsStep(s: State, ev: Event)
    requires s.incoming.ISetGo? || s.incoming.INotifyGo? || s.incoming.IPostQuit?
    ensures Controlled(s, IncomingNext(s, ev))
  {
  }

  lemma IncomingControls(s: State, ev: Event)
    requires !(s.incoming.IReading? && ev.Delivered?)
    ensures Controlled(s, IncomingNext(s, ev))
  {
    if s.incoming.ISetGo? || s.incoming.INotifyGo? || s.incoming.IPostQuit? {
      ControlsStep(s, ev);
    } else if s.incoming.IReading? || s.incoming.IPush? || s.incoming.IPostError? {
      ReadingStep(s, ev);
    }
  }

  lemma ReadingStep(s: State, ev: Event)
    requires (s.incoming.IReading? && !ev.Delivered?) || s.incoming.IPush? || s.incoming.IPostError?
    ensures Controlled(s, IncomingNext(s, ev))
  {
  }

  ghost predicate IncomingLeft(s: State, t: State) {
    ControlKept(s, t) && t.go == s.go && (t.incoming == s.incoming || (s.incoming.INotStarted? && t.incoming.ICheck?))
  }

  lemma PopInLeavesIncoming(s: State)
    ensures IncomingLeft(s, PopIn(s))
  {
  }

  lemma HandlerLeavesIncoming(s: State, ev: Event)
    ensures IncomingLeft(s, HandlerNext(s, ev))
  {
    if s.handler.HPop? || s.handler.HWoken? {
      PopInLeavesIncoming(s);
    } else if s.handler.HPostError? {
      PostLeavesIncoming(s, ev);
    }
  }

  lemma PostLeavesIncoming(s: State, ev: Event)
    requires s.handler.HPostError?
    ensures IncomingLeft(s, HandlerNext(s, ev))
  {
  }

  lemma PopOutLeavesIncoming(s: State)
    ensures IncomingLeft(s, PopOut(s))
  {
  }

  lemma OutgoingLeavesIncoming(s: State, ev: Event)
    ensures IncomingLeft(s, OutgoingNext(s, ev))
  {
    if s.outgoing.OPop? || s.outgoing.OWoken? {
      PopOutLeavesIncoming(s);
    }
  }

  lemma MasterLeavesIncoming(s: State)
    requires Structure(s)
    ensures IncomingLeft(s, MasterNext(s))
  {
    if Place(s.master) >= 4 {
      MasterLaterLeaves(s);
    }
  }

  lemma MasterLaterLeaves(s: State)
    requires Place(s.master) >= 4
    ensures IncomingLeft(s, MasterNext(s))
  {
  }

  lemma MainLeavesIncoming(s: State, ev: Event)
    requires MainEnabled(s)
    ensures IncomingLeft(s, MainNext(s, ev))
  {
  }

  lemma StepObeys(s: State, a: Action)
    requires Structure(s) && Enabled(s, a) && Obeys(s)
    ensures Obeys(Next(s, a)) && (Leaving(s) ==> Leaving(Next(s, a)))
  {
    match a
    case Incoming(ev) =>
      if s.incoming.IReading? && ev.Delivered? {
        DeliveryObeys(s, ev.env);
      } else {
        IncomingObeys(s, ev);
        IncomingControls(s, ev);
      }
    case Handler(ev) => HandlerLeavesIncoming(s, ev);
    case Outgoing(ev) => OutgoingLeavesIncoming(s, ev);
    case Master => MasterLeavesIncoming(s);
    case Main(ev) => MainLeavesIncoming(s, ev);
    case _ => assert IncomingLeft(s, Next(s, a));
  }

  // ---------------------------------------------------------------- why it ends

  /** It ends only for a fault, a stop or abort, a start that threw, or a postQuit; and each of these makes it end. */
  ghost predicate Caused(s: State, h: History) {
    && (Leaving(s) ==> h.faults != [] || ToldToEnd(s) || h.startThrew || h.quitCalled)
    && (h.quitCalled ==> Leaving(s))
    && (h.startThrew ==> s.main == RStarted(true) || Leaving(s))
  }

  predicate Owing(s: State) { s.handler.HPostError? || s.incoming.IPostError? || s.outgoing.OPostError? }

  lemma OwedIsFault(s: State, h: History)
    requires Accounted(s, h) && (Owing(s) || s.st.errors != [])
    ensures h.faults != []
  {
    var r := if s.handler.HPostError? then HandlerError
             else if s.incoming.IPostError? then s.incoming.reason
             else if s.outgoing.OPostError? then s.outgoing.reason
             else s.st.errors[0];
    assert Count(h.faults, r) > 0;
  }

  lemma FaultIsOwed(s: State, h: History)
    requires Accounted(s, h) && h.faults != []
    ensures Owing(s) || s.st.errors != []
  {
    assert Count(h.faults, h.faults[0]) > 0;
  }

  lemma MainLeaves(s: State, ev: Event)
    requires Leaving(MainNext(s, ev)) && !Leaving(s)
    ensures s.main == RStarted(true)
  {
  }

  lemma HandlerLeaves(s: State, ev: Event)
    requires Leaving(HandlerNext(s, ev)) && !Leaving(s)
    ensures s.handler.HPostError?
  {
  }

  lemma IncomingLeaves(s: State, ev: Event)
    requires Leaving(IncomingNext(s, ev)) && !Leaving(s)
    ensures s.incoming.IPostError? || Ending(s.incoming)
  {
  }

  lemma OutgoingLeaves(s: State, ev: Event)
    requires Leaving(OutgoingNext(s, ev)) && !Leaving(s)
    ensures s.outgoing.OPostError?
  {
  }

  lemma MasterLeaves(s: State)
    requires Structure(s) && Leaving(MasterNext(s))
    ensures Leaving(s)
  {
  }

  /** What makes it end, step by step. */
  lemma LeavesFor(s: State, a: Action, h: History)
    requires Structure(s) && Enabled(s, a) && Accounted(s, h) && Outcomes(s, h) && Obeys(s)
    requires Leaving(Next(s, a)) && !Leaving(s)
    ensures h.faults != [] || ToldToEnd(s) || h.startThrew || a.CallPostQuit?
  {
    match a
    case Handler(ev) => HandlerLeaves(s, ev); OwedIsFault(s, h);
    case Incoming(ev) =>
      IncomingLeaves(s, ev);
      if s.incoming.IPostError? {
        OwedIsFault(s, h);
      }
    case Outgoing(ev) => OutgoingLeaves(s, ev); OwedIsFault(s, h);
    case Master => MasterLeaves(s);
    case Main(ev) => MainLeaves(s, ev);
    case _ =>
  }

  /** A start that threw is followed by postQuit. */
  lemma StartThrewLeaves(s: State, a: Action, h: History)
    requires Enabled(s, a) && Outcomes(s, h) && (h.startThrew ==> s.main == RStarted(true) || Leaving(s))
    requires Leaving(s) ==> Leaving(Next(s, a))
    ensures Then(h, s, a).startThrew ==> Next(s, a).main == RStarted(true) || Leaving(Next(s, a))
  {
    if !a.Main? {
      OthersKeepMain(s, a);
    } else if s.main == RStarted(true) || s.main.RInStart? {
      assert Next(s, a) == MainNext(s, a.event);
    }
  }

  lemma ToldStays(s: State, a: Action)
    requires Enabled(s, a) && ToldToEnd(s)
    ensures ToldToEnd(Next(s, a))
  {
    var i :| 0 <= i < |s.log.got| && Ends(s.log.got[i]);
    GotGrows(s, a);
    assert Next(s, a).log.got[i] == s.log.got[i];
  }

  lemma GotGrows(s: State, a: Action)
    requires Enabled(s, a)
    ensures s.log.got <= Next(s, a).log.got
  {
    match a
    case Handler(ev) => HandlerAdds(s, ev);
    case Outgoing(ev) => OutgoingAdds(s, ev);
    case Master => MasterAdds(s);
    case Main(ev) => MainIsFrame(s, ev);
    case _ =>
  }

  lemma StepCaused(s: State, a: Action, h: History)
    requires Structure(s) && Enabled(s, a) && Accounted(s, h) && Outcomes(s, h) && Obeys(s) && Caused(s, h)
    ensures Caused(Next(s, a), Then(h, s, a))
  {
    var t := Next(s, a);
    StepObeys(s, a);
    StartThrewLeaves(s, a, h);
    if Leaving(t) {
      if !Leaving(s) {
        LeavesFor(s, a, h);
      }
      if ToldToEnd(s) {
        ToldStays(s, a);
      }
    }
  }

  // ---------------------------------------------------------------- waiting for go

  /** Only a computation that is asked to waits for go, and whoever is past the beginning has said that it is ready. */
  ghost predicate Polite(s: State) {
    && (s.main.RWaitGo? || s.main.RGoSleep? || s.main.RGoWoken? ==> s.waitForGo)
    && (!s.main.RBegin? && !s.main.RRefused? && !s.main.RSendReady? ==>
          Control(OtherCommand) in s.log.accepted || Leaving(s))
  }

  lemma MainPolite(s: State, ev: Event)
    requires Structure(s) && Queues(s) && MainEnabled(s) && Polite(s)
    ensures Polite(MainNext(s, ev))
  {
    if s.main.RSendReady? {
      MainReady(s, ev);
    } else {
      MainIsFrame(s, ev);
    }
  }

  lemma StepPolite(s: State, a: Action)
    requires Structure(s) && Queues(s) && Enabled(s, a) && Obeys(s) && Polite(s)
    ensures Polite(Next(s, a))
  {
    if a.Main? {
      MainPolite(s, a.event);
    } else {
      OthersKeepMain(s, a);
      HistoryGrows(s, a);
      StepObeys(s, a);
    }
  }

  // ---------------------------------------------------------------- every run

  ghost predicate Tells(s: State, h: History) {
    Accounted(s, h) && Outcomes(s, h) && CallsTell(s, h) && Obeys(s) && Caused(s, h) && Polite(s)
  }

  lemma StepTells(s: State, a: Action, h: History)
    requires Inv(s) && Enabled(s, a) && Tells(s, h)
    ensures Tells(Next(s, a), Then(h, s, a))
  {
    StepFaults(s, a, h);
    AccountedOnly(Next(s, a), h.(faults := h.faults + FaultIn(s, a)), Then(h, s, a));
    StepOutcomes(s, a, h);
    StepCallsTell(s, a, h);
    StepObeys(s, a);
    StepCaused(s, a, h);
    StepPolite(s, a);
  }

  lemma AccountedOnly(s: State, h: History, h': History)
    requires Accounted(s, h) && h'.faults == h.faults
    ensures Accounted(s, h')
  {
  }

  lemma {:induction false} HistoryNext(trace: seq<State>, acts: seq<Action>, n: nat)
    requires |acts| == n + 1 && |trace| == n + 2
    ensures HistoryOf(trace, acts) == Then(HistoryOf(trace[..n + 1], acts[..n]), trace[n], acts[n])
  {
  }

  lemma {:induction false} RunPrefix(trace: seq<State>, acts: seq<Action>, n: nat)
    requires IsRun(trace, acts) && |acts| == n + 1
    ensures IsRun(trace[..n + 1], acts[..n]) && trace[..n + 1][n] == trace[n]
    ensures Enabled(trace[n], acts[n]) && trace[n + 1] == Next(trace[n], acts[n])
  {
  }

  lemma InitTells(s: State)
    requires s == Init(s.waitForGo, s.timed)
    ensures Tells(s, NOTHING)
  {
  }

  lemma {:induction false} RunTells(trace: seq<State>, acts: seq<Action>)
    requires IsRun(trace, acts)
    ensures Tells(trace[|acts|], HistoryOf(trace, acts))
    decreases |acts|
  {
    if acts == [] {
      InitTells(trace[0]);
    } else {
      var n := |acts| - 1;
      RunPrefix(trace, acts, n);
      RunTells(trace[..n + 1], acts[..n]);
      RunKeepsInv(trace[..n + 1], acts[..n]);
      StepTells(trace[n], acts[n], HistoryOf(trace[..n + 1], acts[..n]));
      HistoryNext(trace, acts, n);
    }
  }

  /**
   Each fault is posted once or is about to be, nothing else is, and a dispatcher that has exited did so with
   Quit exactly if nothing ever went wrong, and otherwise for something that did.
   */
  lemma {:induction false} ExitReasonIff(trace: seq<State>, acts: seq<Action>)
    requires IsRun(trace, acts)
    ensures var s, h := trace[|acts|], HistoryOf(trace, acts);
      && (h.faults == [] <==> s.st.errors == [] && !Owing(s))
      && (s.st.phase.Exited? ==>
          && s.st.reason.Some? && s.st.observed == s.st.reason
          && multiset(s.st.errors) == multiset(h.faults)
          && (s.st.reason.value == Quit <==> h.faults == [])
          && (s.st.reason.value != Quit ==> s.st.reason.value in h.faults))
  {
    var s, h := trace[|acts|], HistoryOf(trace, acts);
    RunTells(trace, acts);
    RunKeepsInv(trace, acts);
    if h.faults != [] {
      FaultIsOwed(s, h);
    } else if s.st.errors != [] || Owing(s) {
      OwedIsFault(s, h);
    }
    if s.st.phase.Exited? {
      assert !Owing(s);
      forall r ensures multiset(s.st.errors)[r] == multiset(h.faults)[r] {
        assert Count(h.faults, r) == Count(s.st.errors, r);
      }
      if s.st.errors != [] {
        assert s.st.reason.value in multiset(s.st.errors);
        assert s.st.reason.value in multiset(h.faults);
      }
    }
  }

  /** It ends, or is about to, exactly if there was a fault, a stop or abort, a start that threw, or a postQuit. */
  lemma {:induction false} EndsIff(trace: seq<State>, acts: seq<Action>)
    requires IsRun(trace, acts)
    ensures var s, h := trace[|acts|], HistoryOf(trace, acts);
      Leaving(s) || Owing(s) || Ending(s.incoming) || s.main == RStarted(true)
      <==> h.faults != [] || ToldToEnd(s) || h.startThrew || h.quitCalled
  {
    var s, h := trace[|acts|], HistoryOf(trace, acts);
    RunTells(trace, acts);
    RunKeepsInv(trace, acts);
    if Owing(s) {
      OwedIsFault(s, h);
    } else if h.faults != [] {
      FaultIsOwed(s, h);
    }
  }

  /** go, stop and abort let the computation begin, and nothing else; stop and abort are acted on. */
  lemma {:induction false} ObeysOnEveryRun(trace: seq<State>, acts: seq<Action>)
    requires IsRun(trace, acts)
    ensures Obeys(trace[|acts|]) && Polite(trace[|acts|])
  {
    RunTells(trace, acts);
    RunKeepsInv(trace, acts);
  }

  /** What runComputation returns: which call threw, or else why the dispatcher exited. */
  lemma {:induction false} OutcomeOnEveryRun(trace: seq<State>, acts: seq<Action>)
    requires IsRun(trace, acts) && trace[|acts|].main.RReturned?
    ensures var s, h := trace[|acts|], HistoryOf(trace, acts);
      && (s.main.outcome == StartException <==> h.startThrew)
      && (s.main.outcome == StopException <==> h.stopThrew)
      && (s.main.outcome.FromDispatcher? ==> s.main.outcome.reason == s.st.reason)
  {
    RunTells(trace, acts);
    RunKeepsInv(trace, acts);
  }

  /** What the computation has been called with. */
  lemma {:induction false} CallsOnEveryRun(trace: seq<State>, acts: seq<Action>)
    requires IsRun(trace, acts)
    ensures CallsTell(trace[|acts|], HistoryOf(trace, acts))
  {
    RunTells(trace, acts);
    RunKeepsInv(trace, acts);
  }

  // ---------------------------------------------------------------- what the runs range over

  /**
   Nothing that can happen is left out of the runs: calls into foreign code come back in each of their ways,
   interrupted only after the source was shut down; timed waits expire and sleepers wake at any time; anyone may
   send, and call postQuit while the master does not hold its lock.
   */
  lemma MayHappen(s: State, e: Envelope, r: Reason)
    requires r != Quit
    ensures s.incoming.IReading? ==>
              && Enabled(s, Incoming(Delivered(e))) && Enabled(s, Incoming(Failed(r)))
              && (Enabled(s, Incoming(Interrupted)) <==> s.srcShut)
    ensures s.outgoing.OPut? ==>
              && Enabled(s, Outgoing(Returned)) && Enabled(s, Outgoing(Failed(r)))
              && (Enabled(s, Outgoing(Interrupted)) <==> s.srcShut)
    ensures s.handler.HInMessage? || s.handler.HInIdle? ==> Enabled(s, Handler(Returned)) && Enabled(s, Handler(Threw))
    ensures s.handler.HSleep? || s.handler.HWoken? ==> (Enabled(s, Handler(Expired)) <==> s.timed)
    ensures s.handler.HWoken? ==> Enabled(s, Handler(Returned))
    ensures s.main.RInStart? || s.main.RInStop? ==> Enabled(s, Main(Returned)) && Enabled(s, Main(Threw))
    ensures s.handler.HSleep? ==> Enabled(s, WakeHandler)
    ensures s.outgoing.OSleep? ==> Enabled(s, WakeOutgoing)
    ensures s.master.MSleepQueueing? || s.master.MSleepDispatching? ==> Enabled(s, WakeMaster)
    ensures s.main.RGoSleep? ==> Enabled(s, WakeMain)
    ensures Enabled(s, Send(e)) && (Enabled(s, CallPostQuit) <==> !(6 <= Place(s.master) <= 10))
  {
  }
}
