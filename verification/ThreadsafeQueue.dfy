/**
 The blocking queue shared by the dispatcher's threads, as a state machine.

 Every region that holds mMutex is one atomic step.  push and shutdown notify only
 after unlocking, so "flag changed, notification still owed" is a state of its own.
 A thread that a condition variable has released still has to win the mutex back, and
 a newcomer may overtake it meanwhile.

 `late` says how wait_for reports a thread that was notified but whose deadline also
 passed before it got the mutex back: with late == false such a thread always reports
 no_timeout; with late == true it may report timeout, which the C++ standard permits.
 */
module ThreadsafeQueue {

  type Tid = nat

  datatype Queue<T> = Queue(
    items: seq<T>,
    isShutdown: bool,
    sleeping: set<Tid>,       // in the wait set of mNotEmptyCondition
    woken: set<Tid>,          // released from it, mutex not yet reacquired
    timed: set<Tid>,          // poppers whose current call has a non-zero timeout
    notifying: set<Tid>,      // pushers between unlock() and notify_one()
    drainSleeping: set<Tid>,  // in the wait set of mEmptyCondition
    drainWoken: set<Tid>,     // released from it, mutex not yet reacquired
    closing: set<Tid>,        // shutdown() callers owing both notify_all() calls
    closingDrain: set<Tid>,   // shutdown() callers owing the second one only
    pushed: seq<T>,           // history: every item accepted by push
    popped: seq<T>)           // history: every item handed out by pop

  datatype Action<T> =
    | Push(t: Tid, item: T)
    | NotifyOne(t: Tid, target: Tid)
    | Pop(t: Tid, timeout: bool)
    | Resume(t: Tid)
    | SpuriousWake(t: Tid)
    | Timeout(t: Tid)
    | LateTimeout(t: Tid)
    | WaitUntilEmpty(t: Tid)
    | DrainResume(t: Tid)
    | DrainWake(t: Tid)
    | DrainTimeout(t: Tid)
    | Shutdown(t: Tid)
    | NotifyPoppers(t: Tid)
    | NotifyDrainers(t: Tid)

  function Empty<T>(): Queue<T> {
    Queue([], false, {}, {}, {}, {}, {}, {}, {}, {}, [], [])
  }

  ghost predicate Idle<T>(q: Queue<T>, t: Tid) {
    && t !in q.sleeping && t !in q.woken && t !in q.notifying
    && t !in q.drainSleeping && t !in q.drainWoken
    && t !in q.closing && t !in q.closingDrain
  }

  /** pop's tail: take the front item and, when that empties the queue, release every drainer. */
  ghost function TakeFront<T>(q: Queue<T>): Queue<T>
    requires q.items != []
  {
    var q1 := q.(items := q.items[1..], popped := q.popped + [q.items[0]]);
    if q1.items == []
    then q1.(drainSleeping := {}, drainWoken := q1.drainWoken + q1.drainSleeping)
    else q1
  }

  /** pop's loop body once the mutex is held: wait while there is nothing to take. */
  ghost function PopLocked<T>(q: Queue<T>, t: Tid): Queue<T> {
    if q.isShutdown then q  // throws
    else if q.items == [] then q.(sleeping := q.sleeping + {t})
    else TakeFront(q)
  }

  ghost function DrainLocked<T>(q: Queue<T>, t: Tid): Queue<T> {
    if q.isShutdown || q.items == [] then q
    else q.(drainSleeping := q.drainSleeping + {t})
  }

  ghost predicate Enabled<T>(q: Queue<T>, a: Action<T>, late: bool) {
    match a
    case Push(t, _) => Idle(q, t)
    case NotifyOne(t, u) => t in q.notifying && (q.sleeping != {} ==> u in q.sleeping)
    case Pop(t, _) => Idle(q, t)
    case Resume(t) => t in q.woken
    case SpuriousWake(t) => t in q.sleeping
    case Timeout(t) => t in q.sleeping && t in q.timed
    case LateTimeout(t) => late && t in q.woken && t in q.timed
    case WaitUntilEmpty(t) => Idle(q, t)
    case DrainResume(t) => t in q.drainWoken
    case DrainWake(t) => t in q.drainSleeping
    case DrainTimeout(t) => t in q.drainSleeping
    case Shutdown(t) => Idle(q, t)
    case NotifyPoppers(t) => t in q.closing
    case NotifyDrainers(t) => t in q.closingDrain
  }

  ghost function Next<T>(q: Queue<T>, a: Action<T>): Queue<T> {
    match a
    case Push(t, x) =>
      if q.isShutdown then q  // throws
      else q.(items := q.items + [x], pushed := q.pushed + [x], notifying := q.notifying + {t})
    case NotifyOne(t, u) =>
      var q1 := q.(notifying := q.notifying - {t});
      if u in q.sleeping then q1.(sleeping := q.sleeping - {u}, woken := q.woken + {u}) else q1
    case Pop(t, timeout) =>
      PopLocked(q.(timed := if timeout then q.timed + {t} else q.timed - {t}), t)
    case Resume(t) => PopLocked(q.(woken := q.woken - {t}), t)
    case SpuriousWake(t) => q.(sleeping := q.sleeping - {t}, woken := q.woken + {t})
    case Timeout(t) => q.(sleeping := q.sleeping - {t})
    case LateTimeout(t) => q.(woken := q.woken - {t})
    case WaitUntilEmpty(t) => DrainLocked(q, t)
    case DrainResume(t) => DrainLocked(q.(drainWoken := q.drainWoken - {t}), t)
    case DrainWake(t) =>
      q.(drainSleeping := q.drainSleeping - {t}, drainWoken := q.drainWoken + {t})
    case DrainTimeout(t) => q.(drainSleeping := q.drainSleeping - {t})
    case Shutdown(t) => q.(isShutdown := true, closing := q.closing + {t})
    case NotifyPoppers(t) =>
      q.(closing := q.closing - {t}, closingDrain := q.closingDrain + {t},
         sleeping := {}, woken := q.woken + q.sleeping)
    case NotifyDrainers(t) =>
      q.(closingDrain := q.closingDrain - {t},
         drainSleeping := {}, drainWoken := q.drainWoken + q.drainSleeping)
  }

  /** A run in which only the threads in `poppers` ever call pop. */
  ghost predicate IsRun<T>(trace: seq<Queue<T>>, acts: seq<Action<T>>, late: bool, poppers: set<Tid>) {
    && |trace| == |acts| + 1
    && trace[0] == Empty()
    && (forall i :: 0 <= i < |acts| ==>
      && Enabled(trace[i], acts[i], late)
      && (acts[i].Pop? ==> acts[i].t in poppers)
      && trace[i + 1] == Next(trace[i], acts[i]))
  }

  /** No popper sleeps through work: what is queued is matched by wake-ups under way. */
  ghost predicate NoLostWakeup<T>(q: Queue<T>) {
    && (!q.isShutdown && q.sleeping != {} ==> |q.woken| + |q.notifying| >= |q.items|)
    && (q.isShutdown && q.sleeping != {} ==> q.closing != {})
    && (!q.isShutdown && q.drainSleeping != {} ==> q.items != [])
    && (q.isShutdown && q.drainSleeping != {} ==> q.closing + q.closingDrain != {})
  }

  /** FIFO order and no loss: what came out followed by what is inside is what went in. */
  ghost predicate Fifo<T>(q: Queue<T>) { q.popped + q.items == q.pushed }

  ghost predicate Inv<T>(q: Queue<T>, poppers: set<Tid>) {
    && NoLostWakeup(q)
    && q.sleeping !! q.woken
    && q.sleeping <= poppers
    && q.woken <= poppers
    && q.notifying !! q.sleeping + q.woken
  }

  lemma PopLockedKeepsInv<T>(q: Queue<T>, t: Tid, poppers: set<Tid>)
    requires Inv(q, poppers) && t in poppers
    requires t !in q.sleeping && t !in q.woken && t !in q.notifying
    ensures Inv(PopLocked(q, t), poppers)
  {
  }

  lemma ResumeKeepsInv<T>(q: Queue<T>, t: Tid, poppers: set<Tid>)
    requires Inv(q, poppers) && t in q.woken
    ensures Inv(PopLocked(q.(woken := q.woken - {t}), t), poppers)
  {
    assert |q.woken - {t}| == |q.woken| - 1;
  }

  lemma WakeKeepsInv<T>(q: Queue<T>, a: Action<T>, poppers: set<Tid>)
    requires a.NotifyOne? || a.SpuriousWake? || a.Timeout?
    requires Inv(q, poppers) && Enabled(q, a, false)
    ensures Inv(Next(q, a), poppers)
  {
    if a.NotifyOne? {
      assert |q.notifying - {a.t}| == |q.notifying| - 1;
    }
  }

  lemma DrainKeepsInv<T>(q: Queue<T>, a: Action<T>, poppers: set<Tid>)
    requires a.WaitUntilEmpty? || a.DrainResume? || a.DrainWake? || a.DrainTimeout?
    requires Inv(q, poppers) && Enabled(q, a, false)
    ensures Inv(Next(q, a), poppers)
  {
  }

  lemma ShutdownKeepsInv<T>(q: Queue<T>, a: Action<T>, poppers: set<Tid>)
    requires a.Shutdown? || a.NotifyPoppers? || a.NotifyDrainers?
    requires Inv(q, poppers) && Enabled(q, a, false)
    ensures Inv(Next(q, a), poppers)
  {
    if a.NotifyDrainers? {
      assert Next(q, a).drainSleeping == {};
    }
  }

  lemma PushKeepsInv<T>(q: Queue<T>, a: Action<T>, poppers: set<Tid>)
    requires a.Push? && Inv(q, poppers) && Enabled(q, a, false)
    ensures Inv(Next(q, a), poppers)
  {
  }

  /** Every step of every thread keeps the invariant. */
  lemma StepKeepsInv<T>(q: Queue<T>, a: Action<T>, late: bool, poppers: set<Tid>)
    requires !late || |poppers| <= 1
    requires Inv(q, poppers) && Enabled(q, a, late)
    requires a.Pop? ==> a.t in poppers
    ensures Inv(Next(q, a), poppers)
  {
    match a
    case Push(_, _) => PushKeepsInv(q, a, poppers);
    case NotifyOne(_, _) | SpuriousWake(_) | Timeout(_) => WakeKeepsInv(q, a, poppers);
    case Pop(t, timeout) =>
      PopLockedKeepsInv(q.(timed := if timeout then q.timed + {t} else q.timed - {t}), t, poppers);
    case Resume(t) => ResumeKeepsInv(q, t, poppers);
    case LateTimeout(t) => SingletonIsAll(poppers, t);
    case WaitUntilEmpty(_) | DrainResume(_) | DrainWake(_) | DrainTimeout(_) => DrainKeepsInv(q, a, poppers);
    case Shutdown(_) | NotifyPoppers(_) | NotifyDrainers(_) => ShutdownKeepsInv(q, a, poppers);
  }

  lemma SingletonIsAll(s: set<Tid>, t: Tid)
    requires t in s && |s| <= 1
    ensures s == {t}
  {
    assert |s - {t}| == |s| - 1;
    assert s - {t} == {};
  }

  lemma {:induction false} RunKeepsInv<T>(trace: seq<Queue<T>>, acts: seq<Action<T>>, late: bool, poppers: set<Tid>)
    requires !late || |poppers| <= 1
    requires IsRun(trace, acts, late, poppers)
    ensures Inv(trace[|acts|], poppers)
  {
    if acts != [] {
      var n := |acts| - 1;
      RunKeepsInv(trace[..|acts|], acts[..n], late, poppers);
      StepKeepsInv(trace[n], acts[n], late, poppers);
    }
  }

  /** The failing family: two poppers, one timed, and one item pushed once. */
  lemma LateTimeoutLosesWakeup<T>(a: Tid, b: Tid, p: Tid, x: T, poppers: set<Tid>)
    returns (trace: seq<Queue<T>>, acts: seq<Action<T>>)
    requires a in poppers && b in poppers && a != b && p != a && p != b
    ensures IsRun(trace, acts, true, poppers)
    ensures !NoLostWakeup(trace[|acts|])
  {
    acts := [Pop(a, true), Pop(b, false), Push(p, x), NotifyOne(p, a), LateTimeout(a)];
    var q0 := Empty<T>();
    var q1 := Next(q0, acts[0]);
    var q2 := Next(q1, acts[1]);
    var q3 := Next(q2, acts[2]);
    var q4 := Next(q3, acts[3]);
    var q5 := Next(q4, acts[4]);
    trace := [q0, q1, q2, q3, q4, q5];
    assert b in q5.sleeping;
  }

  /** wake-ups are never lost, on any run, exactly when late timeouts cannot meet a second popper. */
  lemma NoLostWakeupIff<T(!new)>(late: bool, poppers: set<Tid>, x: T)
    ensures (forall trace: seq<Queue<T>>, acts ::
              IsRun(trace, acts, late, poppers) ==> NoLostWakeup(trace[|acts|]))
       <==> (!late || |poppers| <= 1)
  {
    if !late || |poppers| <= 1 {
      forall trace: seq<Queue<T>>, acts | IsRun(trace, acts, late, poppers)
        ensures NoLostWakeup(trace[|acts|])
      {
        RunKeepsInv(trace, acts, late, poppers);
      }
    } else {
      var a :| a in poppers;
      assert |poppers - {a}| == |poppers| - 1;
      var b :| b in poppers - {a};
      var p := a + b + 1;
      var trace, acts := LateTimeoutLosesWakeup(a, b, p, x, poppers);
      assert IsRun(trace, acts, late, poppers) && !NoLostWakeup(trace[|acts|]);
    }
  }

  lemma StepKeepsFifo<T>(q: Queue<T>, a: Action<T>)
    requires Fifo(q)
    ensures Fifo(Next(q, a))
  {
  }

  /** On every run the queue hands items out in the order, and the number, they went in. */
  lemma {:induction false} FifoOnEveryRun<T>(trace: seq<Queue<T>>, acts: seq<Action<T>>, late: bool, poppers: set<Tid>)
    requires IsRun(trace, acts, late, poppers)
    ensures Fifo(trace[|acts|])
    ensures trace[|acts|].popped <= trace[|acts|].pushed
    decreases |acts|
  {
    if acts != [] {
      var n := |acts| - 1;
      FifoOnEveryRun(trace[..|acts|], acts[..n], late, poppers);
      StepKeepsFifo(trace[n], acts[n]);
    }
  }

  // ---------------------------------------------------------------- what the calls do

  /** Nothing goes in or comes out once the queue is shut, and it stays shut. */
  lemma {:induction false} NothingAfterShutdown<T>(trace: seq<Queue<T>>, acts: seq<Action<T>>, late: bool,
                                                   poppers: set<Tid>, i: nat, j: nat)
    requires IsRun(trace, acts, late, poppers) && i <= j <= |acts| && trace[i].isShutdown
    ensures trace[j].isShutdown && trace[j].pushed == trace[i].pushed
    ensures trace[j].popped == trace[i].popped && trace[j].items == trace[i].items
    decreases j - i
  {
    if i < j {
      NothingAfterShutdown(trace, acts, late, poppers, i, j - 1);
    }
  }

  /** Thread t is inside pop, waiting or about to look again. */
  ghost predicate InPop<T>(q: Queue<T>, t: Tid) { t in q.sleeping || t in q.woken }

  ghost predicate InDrain<T>(q: Queue<T>, t: Tid) { t in q.drainSleeping || t in q.drainWoken }

  /**
   How a call of pop ends: it hands out the front item, or the queue is shut, which it throws, or it reports a
   timeout, which takes a timed call.
   */
  lemma HowPopEnds<T>(q: Queue<T>, a: Action<T>, late: bool, t: Tid)
    requires Enabled(q, a, late) && (InPop(q, t) || (a.Pop? && a.t == t)) && !InPop(Next(q, a), t)
    ensures a.Pop? || a.Resume? || a.Timeout? || a.LateTimeout?
    ensures a.t == t
    ensures a.Pop? || a.Resume? ==>
              || (q.isShutdown && Next(q, a).popped == q.popped && Next(q, a).items == q.items)
              || (!q.isShutdown && q.items != [] && Next(q, a).popped == q.popped + [q.items[0]])
    ensures a.Timeout? || a.LateTimeout? ==> t in q.timed && Next(q, a).popped == q.popped
  {
  }

  /** And nothing else takes an item: whoever it is handed to is through with pop. */
  lemma TakenByPop<T>(q: Queue<T>, a: Action<T>, late: bool)
    requires Enabled(q, a, late) && q.sleeping !! q.woken && Next(q, a).popped != q.popped
    ensures (a.Pop? || a.Resume?) && !q.isShutdown && !InPop(Next(q, a), a.t)
  {
  }

  /** waitUntilEmpty comes back, if not by a timeout or for a shutdown, only when the queue is empty. */
  lemma HowDrainEnds<T>(q: Queue<T>, a: Action<T>, late: bool, t: Tid)
    requires Enabled(q, a, late) && (InDrain(q, t) || (a.WaitUntilEmpty? && a.t == t)) && !InDrain(Next(q, a), t)
    ensures a == DrainTimeout(t) || ((a == WaitUntilEmpty(t) || a == DrainResume(t)) && (q.isShutdown || q.items == []))
  {
  }

  /** push adds its item at the end and owes a notification, exactly if the queue is open. */
  lemma PushAddsIff<T>(q: Queue<T>, t: Tid, x: T, late: bool)
    requires Enabled(q, Push(t, x), late)
    ensures var q' := Next(q, Push(t, x));
      && (!q.isShutdown <==> q'.pushed == q.pushed + [x])
      && (!q.isShutdown <==> q'.items == q.items + [x] && t in q'.notifying)
  {
  }
}
