/** What every step of every thread keeps, and what therefore holds on every run. */
module DispatcherSafety {
  import opened Bytes
  import opened Dispatcher

  // ---------------------------------------------------------------- control structure

  /** Which threads exist and which phase it is, given where the master stands. */
  predicate Structure(s: State) {
    var m := Place(s.master);
    && (s.st.phase.NotStarted? ==> m == 0)
    && (s.st.phase.Queueing? ==> 1 <= m <= 3)
    && (s.st.phase.Dispatching? ==> 1 <= m <= 5 && m != 2)
    && (s.st.phase.Exiting? ==> m <= 15 && m != 2 && m != 4)
    && (m == 2 ==> s.st.phase.Queueing?)
    && (m == 4 ==> s.st.phase.Dispatching?)
    && (6 <= m <= 15 ==> s.st.phase.Exiting?)
    && (m == 16 <==> s.st.phase.Exited?)
    && (s.incoming.INotStarted? <==> m <= 1)
    && (s.outgoing.ONotStarted? <==> s.handler.HNotStarted?)
    && (m <= 3 ==> s.handler.HNotStarted?)
    && (4 <= m <= 5 ==> !s.handler.HNotStarted?)
    && (m == 0 <==> s.main.RBegin? || s.main.RRefused?)
  }

  /** A joined thread is over, so no postError can come after Exited; and none is over before Exiting. */
  predicate Joins(s: State) {
    var m := Place(s.master);
    && (s.incoming.IDone? || s.outgoing.ODone? || s.handler.HDone? ==> s.st.phase.Exiting? || s.st.phase.Exited?)
    && (m >= 12 ==> s.incoming.IDone?)
    && (m >= 13 ==> s.outgoing.ODone? || s.outgoing.ONotStarted?)
    && (m >= 14 ==> s.handler.HDone? || s.handler.HNotStarted?)
  }

  /** The recorded reason: Quit unless some worker posted an error, then the last one posted. */
  predicate Reasons(s: State) {
    && (s.st.phase.NotStarted? || s.st.phase.Queueing? || s.st.phase.Dispatching? ==> s.st.errors == [])
    && (s.st.phase.Exiting? || s.st.phase.Exited? ==> s.st.reason == Some(ReasonFor(s.st.errors)))
    && (Place(s.master) >= 15 ==> s.st.observed == s.st.reason)
    && (s.main.RReturned? && s.main.outcome.FromDispatcher? ==> s.main.outcome.reason == s.st.reason)
    && (s.main.RCallStop? || s.main.RInStop? || s.main.RReturned? ==> s.st.phase.Exited?)
    && (forall i :: 0 <= i < |s.st.errors| ==> s.st.errors[i] != Quit)
    && (s.incoming.IPostError? ==> s.incoming.reason != Quit)
    && (s.outgoing.OPostError? ==> s.outgoing.reason != Quit)
  }

  function ReasonFor(errors: seq<Reason>): Reason {
    if errors == [] then Quit else errors[|errors| - 1]
  }

  /** Queue flags follow the master; nobody sleeps through work or through the shutdown. */
  predicate Queues(s: State) {
    var m := Place(s.master);
    && (s.inQ.shut <==> m >= 7)
    && (s.outQ.shut <==> m >= 9)
    && (s.srcShut <==> m >= 11)
    && (s.handler.HSleep? ==> if s.inQ.shut then m == 7 else s.inQ.items == [] || s.incoming.INotify?)
    && (s.outgoing.OSleep? ==> if s.outQ.shut then m == 9 else s.outQ.items == [] || s.outQ.owed > 0)
    && (s.main.RGoSleep? ==> s.go ==> s.incoming.INotifyGo?)
  }

  // ---------------------------------------------------------------- delivery

  function NonControl(es: seq<Envelope>): seq<Envelope> {
    if es == [] then []
    else
      var init, last := es[..|es| - 1], es[|es| - 1];
      if last.Control? then NonControl(init) else NonControl(init) + [last]
  }

  function NonHeartbeats(es: seq<Envelope>): nat {
    if es == [] then 0
    else NonHeartbeats(es[..|es| - 1]) + (if es[|es| - 1].Heartbeat? then 0 else 1)
  }

  predicate Holding(h: HandlerPc) { h.HPopped? || h.HDeliver? }

  predicate Putting(o: OutgoingPc) { o.OPut? || o.OCount? }

  /** Handled, then in the handler's hands, then queued. */
  function Received(s: State): seq<Envelope> {
    s.log.handled
    + (if Holding(s.handler) then [s.handler.env] else [])
    + s.inQ.items
  }

  function Sent(s: State): seq<Envelope> {
    s.log.written + (if s.outgoing.OPut? then [s.outgoing.env] else []) + s.outQ.items
  }

  predicate Inbound(s: State) {
    && Received(s) <= NonControl(s.log.got)
    && (!s.inQ.shut ==>
        NonControl(s.log.got) == Received(s) + (if s.incoming.IPush? then [s.incoming.env] else []))
    && (s.incoming.IPush? ==> !s.incoming.env.Control?)
    && s.log.received == |s.log.handled| + (if s.handler.HDeliver? then 1 else 0)
  }

  /** Once an envelope has been lost by a failing putEnvelope nothing more is written. */
  predicate OutgoingOver(s: State) {
    || s.outgoing.OPostError?
    || ((s.outgoing.OCheck? || s.outgoing.ODone?) && (s.st.phase.Exiting? || s.st.phase.Exited?))
  }

  predicate Outbound(s: State) {
    && s.log.written <= s.log.accepted
    && (Sent(s) == s.log.accepted || OutgoingOver(s))
    && NonHeartbeats(s.log.written)
       == s.log.sent + (if s.outgoing.OCount? && !s.outgoing.env.Heartbeat? then 1 else 0)
  }

  // ---------------------------------------------------------------- lifecycle

  predicate Serving(calls: seq<Call>, lo: nat, hi: nat) {
    forall i :: lo <= i < hi <= |calls| ==> calls[i].OnMessage? || calls[i].OnIdle?
  }

  predicate Running(calls: seq<Call>) {
    |calls| >= 1 && calls[0].ConfigureStart? && Serving(calls, 1, |calls|)
  }

  predicate Complete(calls: seq<Call>) {
    && |calls| >= 2 && calls[0].ConfigureStart? && calls[|calls| - 1].ConfigureStop?
    && Serving(calls, 1, |calls| - 1)
  }

  predicate NotServing(s: State) { s.handler.HNotStarted? && !s.st.phase.Dispatching? }

  /** start, then any number of onMessage/onIdle, then stop; after a start that threw, nothing. */
  predicate Lifecycle(s: State) {
    var calls := s.log.calls;
    && (calls != [] ==> s.go || !s.waitForGo)
    && match s.main
       case RInStart | RStarted(_) | RWaitExit(true) => calls == [ConfigureStart] && NotServing(s)
       case RWaitExit(false) | RCallStop => Running(calls)
       case RInStop => Complete(calls)
       case RReturned(o) => if o.StartException? then calls == [ConfigureStart] else Complete(calls)
       case RCallStart => calls == [] && NotServing(s) && (s.go || !s.waitForGo)
       case _ => calls == [] && NotServing(s)
  }

  /** Everything but the histories. */
  predicate Shape(s: State) { Structure(s) && Joins(s) && Reasons(s) && Queues(s) }

  ghost predicate Inv(s: State) { Shape(s) && Lifecycle(s) && Inbound(s) && Outbound(s) }

  // ---------------------------------------------------------------- every step keeps it

  /** A step that leaves the inbound pipeline alone keeps what is known of it. */
  lemma InboundFrame(s: State, t: State)
    requires Inbound(s)
    requires t.inQ.items == s.inQ.items && (s.inQ.shut ==> t.inQ.shut)
    requires t.handler == s.handler || (!Holding(s.handler) && !Holding(t.handler))
    requires t.incoming == s.incoming || (!s.incoming.IPush? && !t.incoming.IPush?)
    requires t.log.got == s.log.got && t.log.handled == s.log.handled && t.log.received == s.log.received
    ensures Inbound(t)
  {
  }

  lemma OutboundFrame(s: State, t: State)
    requires Outbound(s)
    requires t.outQ.items == s.outQ.items
    requires t.outgoing == s.outgoing || (!Putting(s.outgoing) && !Putting(t.outgoing) && !OutgoingOver(s))
    requires s.st.phase.Exiting? || s.st.phase.Exited? ==> t.st.phase.Exiting? || t.st.phase.Exited?
    requires t.log.accepted == s.log.accepted && t.log.written == s.log.written && t.log.sent == s.log.sent
    ensures Outbound(t)
  {
  }

  lemma LifecycleFrame(s: State, t: State)
    requires Lifecycle(s)
    requires t.main == s.main && t.log.calls == s.log.calls && t.waitForGo == s.waitForGo && t.go == s.go
    requires NotServing(s) ==> NotServing(t)
    ensures Lifecycle(t)
  {
  }

  lemma ReadKeepsInbound(s: State, ev: Event)
    requires Inbound(s) && IncomingEnabled(s, ev) && s.incoming.IReading?
    ensures Inbound(IncomingNext(s, ev))
  {
    if ev.Delivered? {
      assert (s.log.got + [ev.env])[..|s.log.got|] == s.log.got;
    }
  }

  lemma PushKeepsInbound(s: State, ev: Event)
    requires Inbound(s) && IncomingEnabled(s, ev) && s.incoming.IPush?
    ensures Inbound(IncomingNext(s, ev))
  {
  }

  lemma Regroup(a: seq<Envelope>, b: seq<Envelope>, c: seq<Envelope>)
    ensures a + b + c == a + [] + (b + c)
  {
  }

  lemma PopInKeepsInbound(s: State)
    requires Inbound(s) && !Holding(s.handler)
    ensures Inbound(PopIn(s))
  {
    if !s.inQ.shut && s.inQ.items != [] {
      var t, e := PopIn(s), s.inQ.items[0];
      assert [e] + s.inQ.items[1..] == s.inQ.items;
      Regroup(s.log.handled, [e], s.inQ.items[1..]);
      assert Received(t) == Received(s);
    }
  }

  lemma PopOutKeepsOutbound(s: State)
    requires Outbound(s) && (s.outgoing.OPop? || s.outgoing.OWoken?) && Queues(s) && Structure(s)
    ensures Outbound(PopOut(s))
  {
    assert s.outQ.items != [] ==> [s.outQ.items[0]] + s.outQ.items[1..] == s.outQ.items;
  }

  lemma PopInKeepsShape(s: State)
    requires Shape(s) && (s.handler.HPop? || s.handler.HWoken?)
    ensures Shape(PopIn(s))
  {
  }

  lemma PopInKeepsInv(s: State)
    requires Inv(s) && (s.handler.HPop? || s.handler.HWoken?)
    ensures Inv(PopIn(s))
  {
    PopInKeepsShape(s);
    PopInKeepsInbound(s);
    OutboundFrame(s, PopIn(s));
    LifecycleFrame(s, PopIn(s));
  }

  lemma PopOutKeepsShape(s: State)
    requires Shape(s) && (s.outgoing.OPop? || s.outgoing.OWoken?)
    ensures Shape(PopOut(s))
  {
  }

  lemma PopOutKeepsInv(s: State)
    requires Inv(s) && (s.outgoing.OPop? || s.outgoing.OWoken?)
    ensures Inv(PopOut(s))
  {
    PopOutKeepsShape(s);
    PopOutKeepsOutbound(s);
    InboundFrame(s, PopOut(s));
    LifecycleFrame(s, PopOut(s));
  }

  lemma QuitKeepsInv(s: State)
    requires Inv(s) && !MasterHoldsLock(s)
    ensures Inv(PostQuit(s))
  {
    if !s.st.phase.Exiting? && !s.st.phase.Exited? {
      InboundFrame(s, PostQuit(s));
      OutboundFrame(s, PostQuit(s));
    }
  }

  lemma MasterStartKeepsShape(s: State)
    requires Shape(s) && s.master.MStart?
    ensures Shape(MasterNext(s))
  {
  }

  lemma MasterStartKeepsInv(s: State)
    requires Inv(s) && MasterEnabled(s)
    requires s.master.MStart?
    ensures Inv(MasterNext(s))
  {
    MasterStartKeepsShape(s);
    LifecycleFrame(s, MasterNext(s));
    InboundFrame(s, MasterNext(s));
    OutboundFrame(s, MasterNext(s));
  }

  lemma MasterDispatchKeepsShape(s: State)
    requires Shape(s) && s.master.MWokenQueueing?
    ensures Shape(MasterNext(s))
  {
  }

  lemma MasterDispatchKeepsInv(s: State)
    requires Inv(s) && MasterEnabled(s)
    requires s.master.MWokenQueueing?
    ensures Inv(MasterNext(s))
  {
    MasterDispatchKeepsShape(s);
    LifecycleFrame(s, MasterNext(s));
    InboundFrame(s, MasterNext(s));
    OutboundFrame(s, MasterNext(s));
  }

  lemma MasterWaitKeepsInv(s: State)
    requires Inv(s) && MasterEnabled(s)
    requires s.master.MWokenDispatching? || s.master.MShutIn?
    ensures Inv(MasterNext(s))
  {
    InboundFrame(s, MasterNext(s));
    OutboundFrame(s, MasterNext(s));
  }

  lemma MasterNotifyInKeepsInv(s: State)
    requires Inv(s) && MasterEnabled(s)
    requires s.master.MNotifyIn?
    ensures Inv(MasterNext(s))
  {
    InboundFrame(s, MasterNext(s));
    OutboundFrame(s, MasterNext(s));
  }

  lemma MasterShutOutKeepsInv(s: State)
    requires Inv(s) && MasterEnabled(s)
    requires s.master.MShutOut?
    ensures Inv(MasterNext(s))
  {
    InboundFrame(s, MasterNext(s));
    OutboundFrame(s, MasterNext(s));
  }

  lemma MasterNotifyOutKeepsInv(s: State)
    requires Inv(s) && MasterEnabled(s)
    requires s.master.MNotifyOut?
    ensures Inv(MasterNext(s))
  {
    OutboundFrame(s, MasterNext(s));
    InboundFrame(s, MasterNext(s));
  }

  lemma MasterShutSourceKeepsInv(s: State)
    requires Inv(s) && MasterEnabled(s)
    requires s.master.MShutSource?
    ensures Inv(MasterNext(s))
  {
    InboundFrame(s, MasterNext(s));
    OutboundFrame(s, MasterNext(s));
  }

  lemma MasterJoinKeepsInv(s: State)
    requires Inv(s) && MasterEnabled(s)
    requires s.master.MJoinIncoming? || s.master.MJoinOutgoing?
    ensures Inv(MasterNext(s))
  {
    InboundFrame(s, MasterNext(s));
    OutboundFrame(s, MasterNext(s));
  }

  lemma MasterJoinedKeepsInv(s: State)
    requires Inv(s) && MasterEnabled(s)
    requires s.master.MJoinHandler?
    ensures Inv(MasterNext(s))
  {
    InboundFrame(s, MasterNext(s));
    OutboundFrame(s, MasterNext(s));
  }

  lemma MasterExitKeepsInv(s: State)
    requires Inv(s) && MasterEnabled(s)
    requires s.master.MObserve? || s.master.MSetExited?
    ensures Inv(MasterNext(s))
  {
    LifecycleFrame(s, MasterNext(s));
    InboundFrame(s, MasterNext(s));
    OutboundFrame(s, MasterNext(s));
  }

  lemma IncomingCheckKeepsInv(s: State, ev: Event)
    requires Inv(s) && IncomingEnabled(s, ev)
    requires s.incoming.ICheck? || s.incoming.ICallGet?
    ensures Inv(IncomingNext(s, ev))
  {
    InboundFrame(s, IncomingNext(s, ev));
    OutboundFrame(s, IncomingNext(s, ev));
  }

  lemma IncomingReadKeepsInv(s: State, ev: Event)
    requires Inv(s) && IncomingEnabled(s, ev)
    requires s.incoming.IReading?
    ensures Inv(IncomingNext(s, ev))
  {
    ReadKeepsInbound(s, ev);
    OutboundFrame(s, IncomingNext(s, ev));
  }

  lemma IncomingGoKeepsInv(s: State, ev: Event)
    requires Inv(s) && IncomingEnabled(s, ev)
    requires s.incoming.ISetGo? || s.incoming.INotifyGo?
    ensures Inv(IncomingNext(s, ev))
  {
    InboundFrame(s, IncomingNext(s, ev));
    OutboundFrame(s, IncomingNext(s, ev));
  }

  lemma IncomingPushKeepsInv(s: State, ev: Event)
    requires Inv(s) && IncomingEnabled(s, ev)
    requires s.incoming.IPush?
    ensures Inv(IncomingNext(s, ev))
  {
    PushKeepsInbound(s, ev);
    OutboundFrame(s, IncomingNext(s, ev));
  }

  lemma IncomingNotifyKeepsInv(s: State, ev: Event)
    requires Inv(s) && IncomingEnabled(s, ev)
    requires s.incoming.INotify?
    ensures Inv(IncomingNext(s, ev))
  {
    InboundFrame(s, IncomingNext(s, ev));
    OutboundFrame(s, IncomingNext(s, ev));
  }

  lemma IncomingQuitKeepsInv(s: State, ev: Event)
    requires Inv(s) && IncomingEnabled(s, ev)
    requires s.incoming.IPostQuit?
    ensures Inv(IncomingNext(s, ev))
  {
    QuitKeepsInv(s);
    InboundFrame(s, IncomingNext(s, ev));
    OutboundFrame(s, IncomingNext(s, ev));
  }

  lemma IncomingErrorKeepsInv(s: State, ev: Event)
    requires Inv(s) && IncomingEnabled(s, ev)
    requires s.incoming.IPostError?
    ensures Inv(IncomingNext(s, ev))
  {
    InboundFrame(s, IncomingNext(s, ev));
    OutboundFrame(s, IncomingNext(s, ev));
  }

  lemma OutgoingCheckKeepsInv(s: State, ev: Event)
    requires Inv(s) && OutgoingEnabled(s, ev)
    requires s.outgoing.OCheck?
    ensures Inv(OutgoingNext(s, ev))
  {
    InboundFrame(s, OutgoingNext(s, ev));
  }

  lemma OutgoingPopKeepsInv(s: State, ev: Event)
    requires Inv(s) && OutgoingEnabled(s, ev)
    requires s.outgoing.OPop? || s.outgoing.OWoken?
    ensures Inv(OutgoingNext(s, ev))
  {
    PopOutKeepsInv(s);
  }

  lemma PutKeepsOutbound(s: State, ev: Event)
    requires Outbound(s) && OutgoingEnabled(s, ev) && s.outgoing.OPut? && Structure(s) && Queues(s)
    ensures Outbound(OutgoingNext(s, ev))
  {
    if ev.Returned? {
      assert (s.log.written + [s.outgoing.env])[..|s.log.written|] == s.log.written;
    }
  }

  /** The outgoing thread going about its business. */
  lemma ShapeFrame(s: State, t: State)
    requires Shape(s) && t == s.(outgoing := t.outgoing, log := t.log)
    requires !s.outgoing.ONotStarted? && !s.outgoing.ODone?
    requires !t.outgoing.ONotStarted? && !t.outgoing.OSleep? && !t.outgoing.ODone?
    requires t.outgoing.OPostError? ==> t.outgoing.reason != Quit
    ensures Shape(t)
  {
  }

  lemma PutIsFrame(s: State, ev: Event)
    requires OutgoingEnabled(s, ev) && s.outgoing.OPut?
    ensures var t := OutgoingNext(s, ev);
      && t == s.(outgoing := t.outgoing, log := s.log.(written := t.log.written))
      && (t.outgoing.OCount? || t.outgoing.OCheck? || (t.outgoing.OPostError? && t.outgoing.reason != Quit))
  {
  }

  lemma OutgoingPutKeepsInv(s: State, ev: Event)
    requires Inv(s) && OutgoingEnabled(s, ev)
    requires s.outgoing.OPut?
    ensures Inv(OutgoingNext(s, ev))
  {
    PutIsFrame(s, ev);
    PutKeepsOutbound(s, ev);
    var t := OutgoingNext(s, ev);
    ShapeFrame(s, t);
    InboundFrame(s, t);
    LifecycleFrame(s, t);
  }

  lemma OutgoingCountKeepsInv(s: State, ev: Event)
    requires Inv(s) && OutgoingEnabled(s, ev)
    requires s.outgoing.OCount?
    ensures Inv(OutgoingNext(s, ev))
  {
    InboundFrame(s, OutgoingNext(s, ev));
  }

  lemma OutgoingErrorKeepsInv(s: State, ev: Event)
    requires Inv(s) && OutgoingEnabled(s, ev)
    requires s.outgoing.OPostError?
    ensures Inv(OutgoingNext(s, ev))
  {
    InboundFrame(s, OutgoingNext(s, ev));
  }

  lemma HandlerPopKeepsInv(s: State, ev: Event)
    requires Inv(s) && HandlerEnabled(s, ev)
    requires s.handler.HPop? || s.handler.HWoken?
    ensures Inv(HandlerNext(s, ev))
  {
    if ev.Expired? && s.handler.HWoken? {
      InboundFrame(s, HandlerNext(s, ev));
      OutboundFrame(s, HandlerNext(s, ev));
    } else {
      PopInKeepsInv(s);
    }
  }

  lemma HandlerTimeoutKeepsInv(s: State, ev: Event)
    requires Inv(s) && HandlerEnabled(s, ev)
    requires s.handler.HSleep? || s.handler.HIdle?
    ensures Inv(HandlerNext(s, ev))
  {
    OutboundFrame(s, HandlerNext(s, ev));
  }

  lemma DeliverKeepsShape(s: State, ev: Event)
    requires Shape(s) && (s.handler.HPopped? || s.handler.HDeliver?)
    ensures Shape(HandlerNext(s, ev))
  {
  }

  lemma HandlerDeliverKeepsInv(s: State, ev: Event)
    requires Inv(s) && HandlerEnabled(s, ev)
    requires s.handler.HPopped? || s.handler.HDeliver?
    ensures Inv(HandlerNext(s, ev))
  {
    DeliverKeepsShape(s, ev);
    OutboundFrame(s, HandlerNext(s, ev));
  }

  lemma HandlerReturnKeepsInv(s: State, ev: Event)
    requires Inv(s) && HandlerEnabled(s, ev)
    requires s.handler.HCheck? || s.handler.HInMessage? || s.handler.HInIdle?
    ensures Inv(HandlerNext(s, ev))
  {
    OutboundFrame(s, HandlerNext(s, ev));
  }

  lemma HandlerErrorKeepsInv(s: State, ev: Event)
    requires Inv(s) && HandlerEnabled(s, ev)
    requires s.handler.HPostError?
    ensures Inv(HandlerNext(s, ev))
  {
    OutboundFrame(s, HandlerNext(s, ev));
  }

  lemma MainBeginKeepsInv(s: State, ev: Event)
    requires Inv(s) && MainEnabled(s)
    requires s.main.RBegin?
    ensures Inv(MainNext(s, ev))
  {
    InboundFrame(s, MainNext(s, ev));
    OutboundFrame(s, MainNext(s, ev));
  }

  lemma MainReadyKeepsInv(s: State, ev: Event)
    requires Inv(s) && MainEnabled(s)
    requires s.main.RSendReady?
    ensures Inv(MainNext(s, ev))
  {
    InboundFrame(s, MainNext(s, ev));
  }

  lemma MainGoKeepsInv(s: State, ev: Event)
    requires Inv(s) && MainEnabled(s)
    requires s.main.RWaitGo? || s.main.RGoWoken? || s.main.RCallStart?
    ensures Inv(MainNext(s, ev))
  {
    InboundFrame(s, MainNext(s, ev));
    OutboundFrame(s, MainNext(s, ev));
  }

  lemma MainConfiguredKeepsInv(s: State, ev: Event)
    requires Inv(s) && MainEnabled(s)
    requires s.main.RInStart?
    ensures Inv(MainNext(s, ev))
  {
    InboundFrame(s, MainNext(s, ev));
    OutboundFrame(s, MainNext(s, ev));
  }

  lemma StartDispatchingKeepsShape(s: State)
    requires Shape(s) && s.main == RStarted(false)
    ensures Shape(StartDispatching(s).(main := RWaitExit(false)))
  {
  }

  lemma StartDispatchingKeepsInv(s: State)
    requires Inv(s) && s.main == RStarted(false)
    ensures Inv(StartDispatching(s).(main := RWaitExit(false)))
  {
    var t := StartDispatching(s).(main := RWaitExit(false));
    StartDispatchingKeepsShape(s);
    InboundFrame(s, t);
    OutboundFrame(s, t);
  }

  lemma MainStartedKeepsInv(s: State, ev: Event)
    requires Inv(s) && MainEnabled(s)
    requires s.main.RStarted?
    ensures Inv(MainNext(s, ev))
  {
    if s.main.threw {
      QuitKeepsInv(s);
      InboundFrame(PostQuit(s), MainNext(s, ev));
      OutboundFrame(PostQuit(s), MainNext(s, ev));
    } else {
      StartDispatchingKeepsInv(s);
    }
  }

  lemma MainStopKeepsInv(s: State, ev: Event)
    requires Inv(s) && MainEnabled(s)
    requires s.main.RWaitExit? || s.main.RCallStop? || s.main.RInStop?
    ensures Inv(MainNext(s, ev))
  {
    InboundFrame(s, MainNext(s, ev));
    OutboundFrame(s, MainNext(s, ev));
  }

  lemma SendKeepsShape(s: State, e: Envelope)
    requires Shape(s)
    ensures Shape(PushOut(s, e))
  {
  }

  lemma SendKeepsInv(s: State, e: Envelope)
    requires Inv(s)
    ensures Inv(PushOut(s, e))
  {
    SendKeepsShape(s, e);
    LifecycleFrame(s, PushOut(s, e));
    InboundFrame(s, PushOut(s, e));
  }

  lemma WakeWorkerKeepsInv(s: State, a: Action)
    requires Inv(s) && Enabled(s, a)
    requires a.SendNotify? || a.WakeOutgoing? || a.WakeHandler?
    ensures Inv(Next(s, a))
  {
    LifecycleFrame(s, Next(s, a));
    InboundFrame(s, Next(s, a));
    OutboundFrame(s, Next(s, a));
  }

  lemma WakeKeepsInv(s: State, a: Action)
    requires Inv(s) && Enabled(s, a)
    requires a.WakeMaster? || a.WakeMain?
    ensures Inv(Next(s, a))
  {
    InboundFrame(s, Next(s, a));
    OutboundFrame(s, Next(s, a));
  }

  lemma MasterKeepsInv(s: State)
    requires Inv(s) && MasterEnabled(s)
    ensures Inv(MasterNext(s))
  {
    match s.master
    case MStart => MasterStartKeepsInv(s);
    case MWokenQueueing => MasterDispatchKeepsInv(s);
    case MWokenDispatching | MShutIn => MasterWaitKeepsInv(s);
    case MNotifyIn => MasterNotifyInKeepsInv(s);
    case MShutOut => MasterShutOutKeepsInv(s);
    case MNotifyOut => MasterNotifyOutKeepsInv(s);
    case MShutSource => MasterShutSourceKeepsInv(s);
    case MJoinIncoming | MJoinOutgoing => MasterJoinKeepsInv(s);
    case MJoinHandler => MasterJoinedKeepsInv(s);
    case MObserve | MSetExited => MasterExitKeepsInv(s);
  }

  lemma IncomingKeepsInv(s: State, ev: Event)
    requires Inv(s) && IncomingEnabled(s, ev)
    ensures Inv(IncomingNext(s, ev))
  {
    match s.incoming
    case ICheck | ICallGet => IncomingCheckKeepsInv(s, ev);
    case IReading => IncomingReadKeepsInv(s, ev);
    case ISetGo(_) | INotifyGo(_) => IncomingGoKeepsInv(s, ev);
    case IPush(_) => IncomingPushKeepsInv(s, ev);
    case INotify => IncomingNotifyKeepsInv(s, ev);
    case IPostQuit => IncomingQuitKeepsInv(s, ev);
    case IPostError(_) => IncomingErrorKeepsInv(s, ev);
  }

  lemma OutgoingKeepsInv(s: State, ev: Event)
    requires Inv(s) && OutgoingEnabled(s, ev)
    ensures Inv(OutgoingNext(s, ev))
  {
    match s.outgoing
    case OCheck => OutgoingCheckKeepsInv(s, ev);
    case OPop | OWoken => OutgoingPopKeepsInv(s, ev);
    case OPut(_) => OutgoingPutKeepsInv(s, ev);
    case OCount(_) => OutgoingCountKeepsInv(s, ev);
    case OPostError(_) => OutgoingErrorKeepsInv(s, ev);
  }

  lemma HandlerKeepsInv(s: State, ev: Event)
    requires Inv(s) && HandlerEnabled(s, ev)
    ensures Inv(HandlerNext(s, ev))
  {
    match s.handler
    case HPop | HWoken => HandlerPopKeepsInv(s, ev);
    case HSleep | HIdle => HandlerTimeoutKeepsInv(s, ev);
    case HPopped(_) | HDeliver(_) => HandlerDeliverKeepsInv(s, ev);
    case HCheck | HInMessage | HInIdle => HandlerReturnKeepsInv(s, ev);
    case HPostError => HandlerErrorKeepsInv(s, ev);
  }

  lemma MainKeepsInv(s: State, ev: Event)
    requires Inv(s) && MainEnabled(s)
    ensures Inv(MainNext(s, ev))
  {
    match s.main
    case RBegin => MainBeginKeepsInv(s, ev);
    case RSendReady => MainReadyKeepsInv(s, ev);
    case RWaitGo | RGoWoken | RCallStart => MainGoKeepsInv(s, ev);
    case RInStart => MainConfiguredKeepsInv(s, ev);
    case RStarted(_) => MainStartedKeepsInv(s, ev);
    case RWaitExit(_) | RCallStop | RInStop => MainStopKeepsInv(s, ev);
  }

  /** Every step of every thread keeps the invariant. */
  lemma StepKeepsInv(s: State, a: Action)
    requires Inv(s) && Enabled(s, a)
    ensures Inv(Next(s, a))
  {
    match a
    case Master => MasterKeepsInv(s);
    case Incoming(ev) => IncomingKeepsInv(s, ev);
    case Outgoing(ev) => OutgoingKeepsInv(s, ev);
    case Handler(ev) => HandlerKeepsInv(s, ev);
    case Main(ev) => MainKeepsInv(s, ev);
    case Send(e) => SendKeepsInv(s, e);
    case CallPostQuit => QuitKeepsInv(s);
    case SendNotify | WakeOutgoing | WakeHandler => WakeWorkerKeepsInv(s, a);
    case WakeMaster | WakeMain => WakeKeepsInv(s, a);
  }

  lemma {:induction false} RunKeepsInv(trace: seq<State>, acts: seq<Action>)
    requires IsRun(trace, acts)
    ensures Inv(trace[|acts|])
  {
    if acts != [] {
      var n := |acts| - 1;
      RunKeepsInv(trace[..|acts|], acts[..n]);
      StepKeepsInv(trace[n], acts[n]);
    }
  }

  // ---------------------------------------------------------------- what holds on every run

  function Order(p: Phase): nat {
    match p
    case NotStarted => 0 case Queueing => 1 case Dispatching => 2 case Exiting => 3 case Exited => 4
  }

  lemma IncomingMovesForward(s: State, ev: Event)
    requires Structure(s) && Joins(s) && IncomingEnabled(s, ev)
    ensures Order(s.st.phase) <= Order(IncomingNext(s, ev).st.phase)
  {
  }

  lemma OutgoingMovesForward(s: State, ev: Event)
    requires Structure(s) && Joins(s) && OutgoingEnabled(s, ev)
    ensures Order(s.st.phase) <= Order(OutgoingNext(s, ev).st.phase)
  {
  }

  lemma HandlerMovesForward(s: State, ev: Event)
    requires Structure(s) && Joins(s) && HandlerEnabled(s, ev)
    ensures Order(s.st.phase) <= Order(HandlerNext(s, ev).st.phase)
  {
  }

  lemma MasterMovesForward(s: State)
    requires Structure(s) && MasterEnabled(s)
    ensures Order(s.st.phase) <= Order(MasterNext(s).st.phase)
  {
  }

  lemma MainMovesForward(s: State, ev: Event)
    requires Structure(s) && MainEnabled(s)
    ensures Order(s.st.phase) <= Order(MainNext(s, ev).st.phase)
  {
  }

  lemma StepMovesForward(s: State, a: Action)
    requires Inv(s) && Enabled(s, a)
    ensures Order(s.st.phase) <= Order(Next(s, a).st.phase)
  {
    match a
    case Master => MasterMovesForward(s);
    case Incoming(ev) => IncomingMovesForward(s, ev);
    case Outgoing(ev) => OutgoingMovesForward(s, ev);
    case Handler(ev) => HandlerMovesForward(s, ev);
    case Main(ev) => MainMovesForward(s, ev);
    case _ =>
  }

  /** The state variable only moves forward, although postError writes it unconditionally. */
  lemma {:induction false} PhaseOnlyMovesForward(trace: seq<State>, acts: seq<Action>, i: nat)
    requires IsRun(trace, acts) && i <= |acts|
    ensures Order(trace[i].st.phase) <= Order(trace[|acts|].st.phase)
    decreases |acts|
  {
    if i < |acts| {
      var n := |acts| - 1;
      PhaseOnlyMovesForward(trace[..|acts|], acts[..n], i);
      RunKeepsInv(trace[..|acts|], acts[..n]);
      StepMovesForward(trace[n], acts[n]);
    }
  }

  /** Every worker is joined, and everyone who asks is told the right reason. */
  predicate Over(s: State) {
    && s.st.phase.Exited?
    && s.incoming.IDone?
    && (s.outgoing.ODone? || s.outgoing.ONotStarted?)
    && (s.handler.HDone? || s.handler.HNotStarted?)
    && (s.st.reason == Some(Quit) <==> s.st.errors == [])
    && (s.st.errors != [] ==> s.st.reason == Some(s.st.errors[|s.st.errors| - 1]))
    && s.st.observed == s.st.reason
    && (s.main.RReturned? && s.main.outcome.FromDispatcher? ==> s.main.outcome.reason == s.st.reason)
  }

  lemma ExitedIsOver(s: State)
    requires Inv(s) && s.st.phase.Exited?
    ensures Over(s)
  {
  }

  lemma ExitReasonOnEveryRun(trace: seq<State>, acts: seq<Action>)
    requires IsRun(trace, acts) && trace[|acts|].st.phase.Exited?
    ensures Over(trace[|acts|])
  {
    RunKeepsInv(trace, acts);
    ExitedIsOver(trace[|acts|]);
  }

  /** Delivery keeps order, loses nothing before the shutdown, and the counters agree. */
  lemma DeliveryOnEveryRun(trace: seq<State>, acts: seq<Action>)
    requires IsRun(trace, acts)
    ensures var s := trace[|acts|];
      && s.log.handled <= NonControl(s.log.got)
      && s.log.written <= s.log.accepted
      && (!s.inQ.shut ==>
          NonControl(s.log.got) == Received(s) + (if s.incoming.IPush? then [s.incoming.env] else []))
      && (!s.st.phase.Exiting? && !s.st.phase.Exited? && !s.outgoing.OPostError? ==> Sent(s) == s.log.accepted)
      && s.log.received == |s.log.handled| + (if s.handler.HDeliver? then 1 else 0)
      && NonHeartbeats(s.log.written)
         == s.log.sent + (if s.outgoing.OCount? && !s.outgoing.env.Heartbeat? then 1 else 0)
  {
    RunKeepsInv(trace, acts);
  }

  /** Nobody sleeps through queued work, the master through a request, or anyone through the shutdown. */
  lemma NoLostWakeupOnEveryRun(trace: seq<State>, acts: seq<Action>)
    requires IsRun(trace, acts)
    ensures var s := trace[|acts|];
      && (s.st.phase.Exiting? ==> !s.master.MSleepQueueing? && !s.master.MSleepDispatching?)
      && (s.st.phase.Dispatching? ==> !s.master.MSleepQueueing?)
      && (s.handler.HSleep? && s.inQ.items != [] ==> s.incoming.INotify? || s.master.MNotifyIn?)
      && (s.outgoing.OSleep? && s.outQ.items != [] ==> s.outQ.owed > 0 || s.master.MNotifyOut?)
      && (s.main.RGoSleep? && s.go ==> s.incoming.INotifyGo?)
  {
    RunKeepsInv(trace, acts);
  }

  /** What the computation sees: start, messages and idles, stop; or a start that threw and nothing else. */
  lemma LifecycleOnEveryRun(trace: seq<State>, acts: seq<Action>)
    requires IsRun(trace, acts)
    ensures var s := trace[|acts|]; var calls := s.log.calls;
      && (calls == [] || Running(calls) || Complete(calls))
      && (calls != [] && s.waitForGo ==> s.go)
      && (s.main.RReturned? ==> if s.main.outcome.StartException? then calls == [ConfigureStart] else Complete(calls))
      && (s.main == RWaitExit(true) ==> calls == [ConfigureStart])
      && (Complete(calls) ==> s.st.phase.Exited?)
  {
    RunKeepsInv(trace, acts);
  }
}
