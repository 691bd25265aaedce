/**
 MessageDispatcher and the computation that runs on it, as one state machine.

 The threads are the dispatcher's master, incoming, outgoing and handler threads, the
 thread that executes runComputation, and an environment that may send messages, ask the
 dispatcher to quit and wake any sleeper spuriously.  A region that holds a mutex is one
 step; the master's long hold of mStateMutex, from seeing Exiting until it unlocks to join,
 is a range of program counters during which nobody else can take that mutex.
 */
module Dispatcher {
  import opened Bytes

  datatype Phase = NotStarted | Queueing | Dispatching | Exiting | Exited

  datatype Reason = Quit | Disconnected | MessageError | HandlerError

  datatype Command = Go | Stop | Abort | OtherCommand

  datatype Envelope =
    | Control(command: Command)
    | Heartbeat(beat: nat)
    | Ordinary(id: nat)

  /** A call into the computation. */
  datatype Call = ConfigureStart | OnMessage(env: Envelope) | OnIdle | ConfigureStop

  datatype MasterPc =
    | MNotRunning | MStart
    | MSleepQueueing | MWokenQueueing | MSleepDispatching | MWokenDispatching
    // from here to MShutSource the master holds mStateMutex
    | MShutIn | MNotifyIn | MShutOut | MNotifyOut | MShutSource
    | MJoinIncoming | MJoinOutgoing | MJoinHandler | MObserve | MSetExited | MFinished

  datatype IncomingPc =
    | INotStarted | ICheck | ICallGet | IReading
    | ISetGo(quit: bool) | INotifyGo(quit: bool) | IPostQuit
    | IPush(env: Envelope) | INotify | IPostError(reason: Reason) | IDone

  datatype OutgoingPc =
    | ONotStarted | OCheck | OPop | OSleep | OWoken
    | OPut(env: Envelope) | OCount(env: Envelope) | OPostError(reason: Reason) | ODone

  datatype HandlerPc =
    | HNotStarted | HCheck | HPop | HSleep | HWoken
    | HPopped(env: Envelope) | HDeliver(env: Envelope) | HInMessage
    | HIdle | HInIdle | HPostError | HDone

  datatype Outcome = StartException | StopException | FromDispatcher(reason: Option<Reason>)

  datatype MainPc =
    | RBegin | RRefused | RSendReady | RWaitGo | RGoSleep | RGoWoken
    | RCallStart | RInStart | RStarted(threw: bool) | RWaitExit(threw: bool)
    | RCallStop | RInStop | RReturned(outcome: Outcome)

  /** What mStateMutex guards, and what the observer was told. */
  datatype Status = Status(
    phase: Phase,
    reason: Option<Reason>,
    observed: Option<Reason>,
    errors: seq<Reason>)      // history: reasons passed to postError, in order

  datatype InQueue = InQueue(items: seq<Envelope>, shut: bool)

  datatype OutQueue = OutQueue(items: seq<Envelope>, shut: bool,
                               owed: nat)  // notify_one calls that send() still owes

  datatype Log = Log(
    got: seq<Envelope>,       // delivered by the underlying source, control messages included
    handled: seq<Envelope>,   // passed to handleMessage
    accepted: seq<Envelope>,  // pushed by a send() that returns true
    written: seq<Envelope>,   // putEnvelope returned
    calls: seq<Call>,         // calls into the computation
    received: nat,            // mReceivedCount
    sent: nat)                // mSentCount

  datatype State = State(
    waitForGo: bool,          // runComputation's argument
    timed: bool,              // the handler pops with a non-zero idle interval
    st: Status,
    master: MasterPc, incoming: IncomingPc, outgoing: OutgoingPc, handler: HandlerPc, main: MainPc,
    go: bool,
    inQ: InQueue, outQ: OutQueue, srcShut: bool,
    log: Log)

  function Init(waitForGo: bool, timed: bool): State {
    State(waitForGo, timed, Status(NotStarted, None, None, []),
          MNotRunning, INotStarted, ONotStarted, HNotStarted, RBegin,
          false, InQueue([], false), OutQueue([], false, 0), false,
          Log([], [], [], [], [], 0, 0))
  }

  /** What a blocking call into foreign code does when it comes back. */
  datatype Event =
    | Delivered(env: Envelope)   // getEnvelope got an envelope
    | Failed(reason: Reason)     // getEnvelope or putEnvelope threw something else than a shutdown
    | Interrupted                // they threw ShutdownException
    | Returned                   // a call returned normally
    | Threw                      // a callback threw
    | Expired                    // a timed wait reported timeout

  datatype Action =
    | Master
    | Incoming(event: Event)
    | Outgoing(event: Event)
    | Handler(event: Event)
    | Main(event: Event)
    | Send(env: Envelope)        // any thread calls send
    | SendNotify                 // and later delivers the notify_one
    | CallPostQuit               // any thread calls postQuit
    | WakeMaster | WakeOutgoing | WakeHandler | WakeMain  // spurious wake-ups

  /** How far the master has come. */
  function Place(m: MasterPc): nat {
    match m
    case MNotRunning => 0 case MStart => 1
    case MSleepQueueing => 2 case MWokenQueueing => 3
    case MSleepDispatching => 4 case MWokenDispatching => 5
    case MShutIn => 6 case MNotifyIn => 7 case MShutOut => 8 case MNotifyOut => 9 case MShutSource => 10
    case MJoinIncoming => 11 case MJoinOutgoing => 12 case MJoinHandler => 13
    case MObserve => 14 case MSetExited => 15 case MFinished => 16
  }

  predicate MasterHoldsLock(s: State) { 6 <= Place(s.master) <= 10 }

  // ---------------------------------------------------------------- shared operations

  function NotifyMaster(m: MasterPc): MasterPc {
    match m
    case MSleepQueueing => MWokenQueueing
    case MSleepDispatching => MWokenDispatching
    case _ => m
  }

  function PostError(s: State, r: Reason): State {
    s.(st := s.st.(phase := Exiting, reason := Some(r), errors := s.st.errors + [r]),
       master := NotifyMaster(s.master))
  }

  function PostQuit(s: State): State {
    if s.st.phase.Exiting? || s.st.phase.Exited? then s
    else s.(st := s.st.(phase := Exiting, reason := Some(Quit)), master := NotifyMaster(s.master))
  }

  /** send's push; the notify_one comes later. */
  function PushOut(s: State, e: Envelope): State {
    if s.outQ.shut then s
    else s.(outQ := s.outQ.(items := s.outQ.items + [e], owed := s.outQ.owed + 1),
            log := s.log.(accepted := s.log.accepted + [e]))
  }

  // ---------------------------------------------------------------- master

  /** masterThreadProc's first wait loop, entered with the mutex held. */
  function AwaitDispatching(s: State): State {
    if s.st.phase.Exiting? then s.(master := MShutIn)
    else if s.st.phase.Dispatching? then s.(master := MSleepDispatching, outgoing := OCheck, handler := HCheck)
    else s.(master := MSleepQueueing)
  }

  /** Its second wait loop, once the outgoing and handler threads exist. */
  function AwaitExiting(s: State): State {
    s.(master := if s.st.phase.Exiting? then MShutIn else MSleepDispatching)
  }

  predicate MasterEnabled(s: State) {
    match s.master
    case MNotRunning | MSleepQueueing | MSleepDispatching | MFinished => false
    case MJoinIncoming => s.incoming.IDone?
    case MJoinOutgoing => s.outgoing.ODone? || s.outgoing.ONotStarted?
    case MJoinHandler => s.handler.HDone? || s.handler.HNotStarted?
    case _ => true
  }

  function MasterNext(s: State): State {
    match s.master
    case MStart => AwaitDispatching(s.(incoming := ICheck))
    case MWokenQueueing => AwaitDispatching(s)
    case MWokenDispatching => AwaitExiting(s)
    case MShutIn => s.(master := MNotifyIn, inQ := s.inQ.(shut := true))
    case MNotifyIn => s.(master := MShutOut, handler := if s.handler.HSleep? then HWoken else s.handler)
    case MShutOut => s.(master := MNotifyOut, outQ := s.outQ.(shut := true))
    case MNotifyOut => s.(master := MShutSource, outgoing := if s.outgoing.OSleep? then OWoken else s.outgoing)
    case MShutSource => s.(master := MJoinIncoming, srcShut := true)
    case MJoinIncoming => s.(master := MJoinOutgoing)
    case MJoinOutgoing => s.(master := MJoinHandler)
    case MJoinHandler => s.(master := MObserve)
    case MObserve => s.(master := MSetExited, st := s.st.(observed := s.st.reason))
    case MSetExited => s.(master := MFinished, st := s.st.(phase := Exited))
    case _ => s
  }

  // ---------------------------------------------------------------- incoming

  predicate IncomingEnabled(s: State, ev: Event) {
    match s.incoming
    case INotStarted | IDone => false
    case IReading => ev.Delivered? || (ev.Failed? && ev.reason != Quit) || (ev.Interrupted? && s.srcShut)
    case IPostQuit | IPostError(_) => !MasterHoldsLock(s)
    case _ => true
  }

  /** ControlMessageEndpoint::getEnvelope's loop: control messages are acted on, not returned. */
  function AfterDelivery(e: Envelope): IncomingPc {
    match e
    case Control(Go) => ISetGo(false)
    case Control(Stop) => ISetGo(true)
    case Control(Abort) => ISetGo(true)
    case Control(OtherCommand) => ICallGet
    case _ => IPush(e)
  }

  function IncomingNext(s: State, ev: Event): State {
    match s.incoming
    case ICheck => s.(incoming := if s.st.phase.Exiting? then IDone else ICallGet)
    case ICallGet => s.(incoming := if s.srcShut then ICheck else IReading)
    case IReading =>
      (match ev
       case Delivered(e) => s.(log := s.log.(got := s.log.got + [e]), incoming := AfterDelivery(e))
       case Failed(r) => s.(incoming := IPostError(r))
       case _ => s.(incoming := ICheck))
    case ISetGo(quit) => s.(go := true, incoming := INotifyGo(quit))
    case INotifyGo(quit) =>
      s.(incoming := if quit then IPostQuit else ICallGet,
         main := if s.main.RGoSleep? then RGoWoken else s.main)
    case IPostQuit => PostQuit(s).(incoming := ICallGet)
    case IPush(e) =>
      if s.inQ.shut then s.(incoming := ICheck)
      else s.(inQ := s.inQ.(items := s.inQ.items + [e]), incoming := INotify)
    case INotify => s.(incoming := ICheck, handler := if s.handler.HSleep? then HWoken else s.handler)
    case IPostError(r) => PostError(s, r).(incoming := ICheck)
    case _ => s
  }

  // ---------------------------------------------------------------- outgoing

  predicate OutgoingEnabled(s: State, ev: Event) {
    match s.outgoing
    case ONotStarted | OSleep | ODone => false
    case OPut(_) => ev.Returned? || (ev.Failed? && ev.reason != Quit) || (ev.Interrupted? && s.srcShut)
    case OPostError(_) => !MasterHoldsLock(s)
    case _ => true
  }

  function PopOut(s: State): State {
    if s.outQ.shut then s.(outgoing := OCheck)
    else if s.outQ.items == [] then s.(outgoing := OSleep)
    else s.(outgoing := OPut(s.outQ.items[0]), outQ := s.outQ.(items := s.outQ.items[1..]))
  }

  function OutgoingNext(s: State, ev: Event): State {
    match s.outgoing
    case OCheck => s.(outgoing := if s.st.phase.Exiting? then ODone else OPop)
    case OPop => PopOut(s)
    case OWoken => PopOut(s)
    case OPut(e) =>
      (match ev
       case Returned => s.(outgoing := OCount(e), log := s.log.(written := s.log.written + [e]))
       case Failed(r) => s.(outgoing := OPostError(r))
       case _ => s.(outgoing := OCheck))
    case OCount(e) => s.(outgoing := OCheck, log := if e.Heartbeat? then s.log else s.log.(sent := s.log.sent + 1))
    case OPostError(r) => PostError(s, r).(outgoing := OCheck)
    case _ => s
  }

  // ---------------------------------------------------------------- handler

  predicate HandlerEnabled(s: State, ev: Event) {
    match s.handler
    case HNotStarted | HDone => false
    case HSleep => ev.Expired? && s.timed
    case HWoken => ev.Expired? ==> s.timed
    case HPostError => !MasterHoldsLock(s)
    case _ => true
  }

  /** pop on the incoming queue, with its mutex held. */
  function PopIn(s: State): State {
    if s.inQ.shut then s.(handler := HCheck)
    else if s.inQ.items == [] then s.(handler := HSleep)
    else s.(handler := HPopped(s.inQ.items[0]), inQ := s.inQ.(items := s.inQ.items[1..]))
  }

  function HandlerNext(s: State, ev: Event): State {
    match s.handler
    case HCheck => s.(handler := if s.st.phase.Exiting? then HDone else HPop)
    case HPop => PopIn(s)
    case HWoken => if ev.Expired? then s.(handler := HIdle) else PopIn(s)
    case HSleep => s.(handler := HIdle)
    case HPopped(e) => s.(handler := HDeliver(e), log := s.log.(received := s.log.received + 1))
    case HDeliver(e) => s.(handler := HInMessage,
         log := s.log.(handled := s.log.handled + [e], calls := s.log.calls + [OnMessage(e)]))
    case HIdle => s.(handler := HInIdle, log := s.log.(calls := s.log.calls + [OnIdle]))
    case HInMessage | HInIdle => s.(handler := if ev.Threw? then HPostError else HCheck)
    case HPostError => PostError(s, HandlerError).(handler := HCheck)
    case _ => s
  }

  // ---------------------------------------------------------------- runComputation

  predicate MainEnabled(s: State) {
    match s.main
    case RRefused | RGoSleep | RReturned(_) => false
    case RBegin => !MasterHoldsLock(s)
    case RStarted(_) => !MasterHoldsLock(s)
    case RWaitExit(_) => s.master.MFinished?
    case _ => true
  }

  /** Outside Queueing it throws, which runComputation catches. */
  function StartDispatching(s: State): State {
    if s.st.phase.Queueing?
    then s.(st := s.st.(phase := Dispatching), master := NotifyMaster(s.master))
    else s
  }

  function MainNext(s: State, ev: Event): State {
    match s.main
    case RBegin =>
      if s.st.phase.NotStarted? then s.(st := s.st.(phase := Queueing), master := MStart, main := RSendReady)
      else s.(main := RRefused)  // startQueueing throws logic_error
    case RSendReady =>
      PushOut(s, Control(OtherCommand)).(main := if s.waitForGo then RWaitGo else RCallStart)
    case RWaitGo | RGoWoken => s.(main := if s.go then RCallStart else RGoSleep)
    case RCallStart => s.(main := RInStart, log := s.log.(calls := s.log.calls + [ConfigureStart]))
    case RInStart => s.(main := RStarted(ev.Threw?))
    case RStarted(threw) =>
      if threw then PostQuit(s).(main := RWaitExit(true))
      else StartDispatching(s).(main := RWaitExit(false))
    case RWaitExit(threw) => s.(main := if threw then RReturned(StartException) else RCallStop)
    case RCallStop => s.(main := RInStop, log := s.log.(calls := s.log.calls + [ConfigureStop]))
    case RInStop => s.(main := RReturned(if ev.Threw? then StopException else FromDispatcher(s.st.reason)))
    case _ => s
  }

  // ---------------------------------------------------------------- the whole system

  predicate Enabled(s: State, a: Action) {
    match a
    case Master => MasterEnabled(s)
    case Incoming(ev) => IncomingEnabled(s, ev)
    case Outgoing(ev) => OutgoingEnabled(s, ev)
    case Handler(ev) => HandlerEnabled(s, ev)
    case Main(_) => MainEnabled(s)
    case Send(_) => true
    case SendNotify => s.outQ.owed > 0
    case CallPostQuit => !MasterHoldsLock(s)
    case WakeMaster => s.master.MSleepQueueing? || s.master.MSleepDispatching?
    case WakeOutgoing => s.outgoing.OSleep?
    case WakeHandler => s.handler.HSleep?
    case WakeMain => s.main.RGoSleep?
  }

  function Next(s: State, a: Action): State
    requires Enabled(s, a)
  {
    match a
    case Master => MasterNext(s)
    case Incoming(ev) => IncomingNext(s, ev)
    case Outgoing(ev) => OutgoingNext(s, ev)
    case Handler(ev) => HandlerNext(s, ev)
    case Main(ev) => MainNext(s, ev)
    case Send(e) => PushOut(s, e)
    case SendNotify =>
      s.(outQ := s.outQ.(owed := s.outQ.owed - 1), outgoing := if s.outgoing.OSleep? then OWoken else s.outgoing)
    case CallPostQuit => PostQuit(s)
    case WakeMaster => s.(master := NotifyMaster(s.master))
    case WakeOutgoing => s.(outgoing := OWoken)
    case WakeHandler => s.(handler := HWoken)
    case WakeMain => s.(main := RGoWoken)
  }

  ghost predicate IsRun(trace: seq<State>, acts: seq<Action>) {
    && |trace| == |acts| + 1
    && trace[0] == Init(trace[0].waitForGo, trace[0].timed)
    && (forall i :: 0 <= i < |acts| ==>
      Enabled(trace[i], acts[i]) && trace[i + 1] == Next(trace[i], acts[i]))
  }
}
