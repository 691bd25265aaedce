/**
 What is bound to happen: a process asked to terminate becomes Terminated, and a child that died has
 its exit handled.  Fairness asks that a thread which stays able to run does run, that a timed wait
 does not last forever, and that a spawn which finds the table free again and again gets it.
 */
module ProcessLiveness {
  import opened Processes
  import opened ProcessSafety
  import opened ProcessReset

  /** An infinite run; where the step chosen is not possible, nothing happens. */
  ghost predicate IsInfiniteRun(cfg: Config, run: nat -> State, act: nat -> Action) {
    run(0) == Init(cfg) && forall n: nat :: StepAt(cfg, run, act, n)
  }

  ghost predicate StepAt(cfg: Config, run: nat -> State, act: nat -> Action, n: nat) {
    run(n + 1) == if Enabled(cfg, run(n), act(n)) then Next(cfg, run(n), act(n)) else run(n)
  }

  lemma {:induction false} BaseAlways(cfg: Config, run: nat -> State, act: nat -> Action, n: nat)
    requires IsInfiniteRun(cfg, run, act)
    ensures Base(cfg, run(n))
  {
    if n == 0 {
      InitBase(cfg);
    } else {
      BaseAlways(cfg, run, act, n - 1);
      assert StepAt(cfg, run, act, n - 1);
      BaseAfter(cfg, run(n - 1), act(n - 1), run(n));
    }
  }

  lemma BaseAfter(cfg: Config, s: State, a: Action, t: State)
    requires Base(cfg, s) && t == if Enabled(cfg, s, a) then Next(cfg, s, a) else s
    ensures Base(cfg, t)
  {
    if Enabled(cfg, s, a) {
      StepKeepsBase(cfg, s, a);
    }
  }

  lemma {:induction false} InvAlways(cfg: Config, run: nat -> State, act: nat -> Action, n: nat)
    requires Careful(cfg) && IsInfiniteRun(cfg, run, act)
    ensures Inv(cfg, run(n))
  {
    if n == 0 {
      InitInv(cfg);
    } else {
      InvAlways(cfg, run, act, n - 1);
      assert StepAt(cfg, run, act, n - 1);
      InvAfter(cfg, run(n - 1), act(n - 1), run(n));
    }
  }

  lemma InvAfter(cfg: Config, s: State, a: Action, t: State)
    requires Careful(cfg) && Inv(cfg, s) && t == if Enabled(cfg, s, a) then Next(cfg, s, a) else s
    ensures Inv(cfg, t)
  {
    if Enabled(cfg, s, a) {
      StepKeepsInv(cfg, s, a);
    }
  }

  // ---------------------------------------------------------------- termination

  /** Steps that bring the termination of p forward: starting its thread, its first step, its timeouts. */
  predicate Terminates(cfg: Config, s: State, a: Action, p: nat) {
    && Enabled(cfg, s, a)
    && ((a.LaunchThread? && s.ctl.p == p) || ((a.ThreadBegins? || a.ThreadTimesOut?) && a.p == p))
  }

  predicate CanTerminate(s: State, p: nat) {
    && p < |s.procs|
    && ((s.ctl.Launching? && s.ctl.p == p) || s.procs[p].thread.Started? || s.procs[p].thread.Waiting?)
    && !StateLocked(s, p)
  }

  ghost predicate FairAt(cfg: Config, run: nat -> State, act: nat -> Action, p: nat, n: nat) {
    exists m: nat :: n <= m && (Terminates(cfg, run(m), act(m), p) || !CanTerminate(run(m), p))
  }

  /** Weak fairness for p's termination. */
  ghost predicate TerminationIsFair(cfg: Config, run: nat -> State, act: nat -> Action, p: nat) {
    forall n: nat :: FairAt(cfg, run, act, p, n)
  }

  /** Running out of patience takes at most four thread steps, and the last one ends the process. */
  function Patience(p: Proc): nat {
    match p.thread
    case Started(_) => 4
    case Waiting(AwaitStop) => 3
    case Waiting(AwaitTerm) => 2
    case Waiting(AwaitKill) => 1
    case _ => 0
  }

  function Left(s: State, p: nat): nat
    requires p < |s.procs|
  {
    if s.ctl.Launching? && s.ctl.p == p then 5 else Patience(s.procs[p])
  }

  predicate IsTerminating(s: State, p: nat) { p < |s.procs| && s.procs[p].phase.Terminating? }

  predicate IsTerminated(s: State, p: nat) { p < |s.procs| && s.procs[p].phase.Terminated? }

  lemma TerminatingCan(cfg: Config, s: State, p: nat)
    requires Base(cfg, s) && IsTerminating(s, p)
    ensures CanTerminate(s, p)
  {
    assert ProcOk(s.procs[p]);
  }

  /** Terminating ends in nothing but Terminated, and no step puts it off. */
  predicate Closer(s: State, t: State, p: nat, strict: bool)
    requires p < |s.procs|
  {
    IsTerminated(t, p) || (IsTerminating(t, p) && Left(t, p) <= Left(s, p) && (strict ==> Left(t, p) < Left(s, p)))
  }

  lemma ControllerGetsCloser(cfg: Config, s: State, a: Action, p: nat)
    requires Procs(s) && Control(s) && Enabled(cfg, s, a) && IsTerminating(s, p) && ByController(a)
    ensures Closer(s, Next(cfg, s, a), p, Terminates(cfg, s, a, p))
  {
    assert ProcOk(s.procs[p]);
  }

  lemma ThreadsGetCloser(cfg: Config, s: State, a: Action, p: nat)
    requires Procs(s) && Control(s) && Enabled(cfg, s, a) && IsTerminating(s, p) && ByThread(a)
    ensures Closer(s, Next(cfg, s, a), p, Terminates(cfg, s, a, p))
  {
    assert ProcOk(s.procs[p]);
  }

  lemma MarkGetsCloser(cfg: Config, s: State, p: nat)
    requires Enabled(cfg, s, ReaperMarks) && IsTerminating(s, p)
    ensures Closer(s, Next(cfg, s, ReaperMarks), p, Terminates(cfg, s, ReaperMarks, p))
  {
  }

  lemma OthersGetCloser(cfg: Config, s: State, a: Action, p: nat)
    requires Enabled(cfg, s, a) && IsTerminating(s, p) && (ByReaper(a) || a.ChildDies?)
    ensures Closer(s, Next(cfg, s, a), p, Terminates(cfg, s, a, p))
  {
    if a.ReaperMarks? {
      MarkGetsCloser(cfg, s, p);
    }
  }

  lemma StepGetsCloser(cfg: Config, s: State, a: Action, p: nat)
    requires Base(cfg, s) && Enabled(cfg, s, a) && IsTerminating(s, p)
    ensures Closer(s, Next(cfg, s, a), p, Terminates(cfg, s, a, p))
  {
    if ByController(a) {
      ControllerGetsCloser(cfg, s, a, p);
    } else if ByThread(a) {
      ThreadsGetCloser(cfg, s, a, p);
    } else {
      OthersGetCloser(cfg, s, a, p);
    }
  }

  lemma CloserAt(cfg: Config, run: nat -> State, act: nat -> Action, p: nat, n: nat)
    requires IsInfiniteRun(cfg, run, act) && IsTerminating(run(n), p)
    ensures CanTerminate(run(n), p) && Closer(run(n), run(n + 1), p, Terminates(cfg, run(n), act(n), p))
  {
    assert StepAt(cfg, run, act, n);
    BaseAlways(cfg, run, act, n);
    TerminatingCan(cfg, run(n), p);
    if Enabled(cfg, run(n), act(n)) {
      StepGetsCloser(cfg, run(n), act(n), p);
    }
  }

  /** From n to m the process is terminated at some point, or still terminating and no further away. */
  lemma {:induction false} StaysTerminating(cfg: Config, run: nat -> State, act: nat -> Action, p: nat, n: nat, m: nat)
    returns (k: nat)
    requires IsInfiniteRun(cfg, run, act) && IsTerminating(run(n), p) && n <= m
    ensures n <= k <= m
    ensures IsTerminated(run(k), p) || (k == m && IsTerminating(run(m), p) && Left(run(m), p) <= Left(run(n), p))
    decreases m - n
  {
    if n == m {
      k := n;
    } else {
      k := StaysTerminating(cfg, run, act, p, n, m - 1);
      if !IsTerminated(run(k), p) {
        CloserAt(cfg, run, act, p, m - 1);
        k := m;
      }
    }
  }

  /** On every fair run, in every configuration, a process that is Terminating becomes Terminated. */
  lemma {:induction false} TerminationHappens(cfg: Config, run: nat -> State, act: nat -> Action, p: nat, n: nat)
    returns (k: nat)
    requires IsInfiniteRun(cfg, run, act) && TerminationIsFair(cfg, run, act, p) && IsTerminating(run(n), p)
    ensures n <= k && IsTerminated(run(k), p)
    decreases Left(run(n), p)
  {
    assert FairAt(cfg, run, act, p, n);
    var m: nat :| n <= m && (Terminates(cfg, run(m), act(m), p) || !CanTerminate(run(m), p));
    k := StaysTerminating(cfg, run, act, p, n, m);
    if !IsTerminated(run(k), p) {
      CloserAt(cfg, run, act, p, m);
      k := m + 1;
      if !IsTerminated(run(k), p) {
        k := TerminationHappens(cfg, run, act, p, k);
      }
    }
  }

  // ---------------------------------------------------------------- reaping

  /** The reaper takes a step. */
  predicate Reaps(cfg: Config, s: State, a: Action) { Enabled(cfg, s, a) && ByReaper(a) }

  predicate ReaperCanRun(cfg: Config, s: State) { s.reaper.Closing? ==> Enabled(cfg, s, ReaperMarks) }

  ghost predicate ReaperFairAt(cfg: Config, run: nat -> State, act: nat -> Action, n: nat) {
    exists m: nat :: n <= m && (Reaps(cfg, run(m), act(m)) || !ReaperCanRun(cfg, run(m)))
  }

  /** Weak fairness for the reaper. */
  ghost predicate ReaperIsFair(cfg: Config, run: nat -> State, act: nat -> Action) {
    forall n: nat :: ReaperFairAt(cfg, run, act, n)
  }

  /** postFork_cb gets the table mutex and enters the child. */
  predicate Enters(cfg: Config, s: State, a: Action) { a.PostFork? && Enabled(cfg, s, a) }

  ghost predicate NeverAgain(cfg: Config, run: nat -> State, n: nat) {
    forall m: nat :: n <= m ==> !Enabled(cfg, run(m), PostFork)
  }

  ghost predicate TableFairAt(cfg: Config, run: nat -> State, act: nat -> Action, n: nat) {
    exists m: nat :: n <= m && (Enters(cfg, run(m), act(m)) || NeverAgain(cfg, run, m))
  }

  /** Strong fairness for entering the table: it happens, or at some point is no longer possible. */
  ghost predicate TableIsFair(cfg: Config, run: nat -> State, act: nat -> Action) {
    forall n: nat :: TableFairAt(cfg, run, act, n)
  }

  /** Child k has died and its exit has not been processed. */
  predicate Dead(s: State, k: nat) {
    k in s.children && (s.children[k].life.Zombie? || s.children[k].life.Collected?)
  }

  /** And it is in the table. */
  predicate Pending(s: State, k: nat) { Dead(s, k) && k in s.pidMap }

  function Todo(r: Reaper): set<nat> { if r.Sleeping? then {} else r.todo }

  /** Which part of its round the reaper still has to do for k. */
  function Round(r: Reaper, k: nat): nat {
    if r.Holding? && r.pid == k then 0
    else if k in Todo(r) then 1
    else if r.Sleeping? then 2
    else 3
  }

  function Steps(r: Reaper): nat {
    3 * |Todo(r)| + (match r case Holding(_, _, _) => 2 case Closing(_, _, _, _) => 1 case _ => 0)
  }

  predicate Nearer(r: Reaper, r': Reaper, k: nat) {
    Round(r', k) < Round(r, k) || (Round(r', k) == Round(r, k) && Steps(r') < Steps(r))
  }

  lemma OneLess(xs: set<nat>, x: nat)
    requires x in xs
    ensures |xs - {x}| == |xs| - 1
  {
  }

  lemma LookingGetsNearer(cfg: Config, s: State, a: Action, k: nat)
    requires Reaping(s) && Enabled(cfg, s, a) && Looking(a) && Pending(s, k)
    ensures var t := Next(cfg, s, a); Pending(t, k) && Nearer(s.reaper, t.reaper, k)
  {
    if a.ReaperSkips? || a.ReaperCollects? {
      OneLess(s.reaper.todo, a.pid);
    }
  }

  lemma HandlingGetsNearer(cfg: Config, s: State, k: nat)
    requires Owners(s) && Table(s) && Reaping(s) && Enabled(cfg, s, ReaperHandles) && Pending(s, k)
    ensures var t := Next(cfg, s, ReaperHandles); k in t.exits || (Pending(t, k) && Nearer(s.reaper, t.reaper, k))
  {
    HeldIsListed(s);
  }

  lemma MarkingGetsNearer(cfg: Config, s: State, k: nat)
    requires Reaping(s) && Enabled(cfg, s, ReaperMarks) && Pending(s, k)
    ensures var t := Next(cfg, s, ReaperMarks); Pending(t, k) && Nearer(s.reaper, t.reaper, k)
  {
  }

  lemma ReaperGetsNearer(cfg: Config, s: State, a: Action, k: nat)
    requires Base(cfg, s) && Reaps(cfg, s, a) && Pending(s, k)
    ensures k in Next(cfg, s, a).exits || (Pending(Next(cfg, s, a), k) && Nearer(s.reaper, Next(cfg, s, a).reaper, k))
  {
    if Looking(a) {
      LookingGetsNearer(cfg, s, a, k);
    } else if a.ReaperHandles? {
      HandlingGetsNearer(cfg, s, k);
    } else {
      MarkingGetsNearer(cfg, s, k);
    }
  }

  lemma OthersLeaveReaper(cfg: Config, s: State, a: Action, k: nat)
    requires Enabled(cfg, s, a) && !ByReaper(a) && Pending(s, k)
    ensures var t := Next(cfg, s, a); Pending(t, k) && t.reaper == s.reaper
  {
  }

  /** What step n does for k. */
  lemma NearerAt(cfg: Config, run: nat -> State, act: nat -> Action, k: nat, n: nat)
    requires IsInfiniteRun(cfg, run, act) && Pending(run(n), k)
    ensures Reaps(cfg, run(n), act(n)) ==>
              k in run(n + 1).exits || (Pending(run(n + 1), k) && Nearer(run(n).reaper, run(n + 1).reaper, k))
    ensures !Reaps(cfg, run(n), act(n)) ==> Pending(run(n + 1), k) && run(n + 1).reaper == run(n).reaper
  {
    BaseAlways(cfg, run, act, n);
    assert StepAt(cfg, run, act, n);
    if Enabled(cfg, run(n), act(n)) {
      if ByReaper(act(n)) {
        ReaperGetsNearer(cfg, run(n), act(n), k);
      } else {
        OthersLeaveReaper(cfg, run(n), act(n), k);
      }
    }
  }

  lemma ReaperStepComes(cfg: Config, run: nat -> State, act: nat -> Action, n: nat) returns (m: nat)
    requires Careful(cfg) && IsInfiniteRun(cfg, run, act) && ReaperIsFair(cfg, run, act)
    ensures n <= m && Reaps(cfg, run(m), act(m))
  {
    assert ReaperFairAt(cfg, run, act, n);
    m :| n <= m && (Reaps(cfg, run(m), act(m)) || !ReaperCanRun(cfg, run(m)));
    InvAlways(cfg, run, act, m);
    NoDeadlock(cfg, run(m));
  }

  /** The reaper's next step after n, up to which it stands still. */
  lemma {:induction false} FirstReaperStep(cfg: Config, run: nat -> State, act: nat -> Action, k: nat, n: nat, m: nat)
    returns (i: nat)
    requires IsInfiniteRun(cfg, run, act) && Pending(run(n), k) && n <= m && Reaps(cfg, run(m), act(m))
    ensures n <= i && Reaps(cfg, run(i), act(i)) && Pending(run(i), k) && run(i).reaper == run(n).reaper
    decreases m - n
  {
    if Reaps(cfg, run(n), act(n)) {
      i := n;
    } else {
      NearerAt(cfg, run, act, k, n);
      i := FirstReaperStep(cfg, run, act, k, n + 1, m);
    }
  }

  /** The exit of a dead child in the table is processed. */
  lemma {:induction false} PendingIsHandled(cfg: Config, run: nat -> State, act: nat -> Action, k: nat, n: nat)
    returns (m: nat)
    requires Careful(cfg) && IsInfiniteRun(cfg, run, act) && ReaperIsFair(cfg, run, act) && Pending(run(n), k)
    ensures n <= m && k in run(m).exits
    decreases Round(run(n).reaper, k), Steps(run(n).reaper)
  {
    var f := ReaperStepComes(cfg, run, act, n);
    var i := FirstReaperStep(cfg, run, act, k, n, f);
    NearerAt(cfg, run, act, k, i);
    m := i + 1;
    if k !in run(m).exits {
      m := PendingIsHandled(cfg, run, act, k, m);
    }
  }

  // ---------------------------------------------------------------- entering the table

  /** Between fork and postFork_cb only postFork_cb moves the controller. */
  lemma SpawnWaits(cfg: Config, s: State, a: Action, k: nat)
    requires s.ctl.Forked? && s.ctl.pid == k && Dead(s, k) && s.children[k].life.Zombie?
    requires Enabled(cfg, s, a)
    requires s.reaper.Checking? ==> k !in s.reaper.todo
    requires s.reaper.Holding? || s.reaper.Closing? ==> s.reaper.pid != k
    ensures var t := Next(cfg, s, a);
      k in t.children && t.children[k] == s.children[k] && (if a.PostFork? then k in t.pidMap else t.ctl == s.ctl)
  {
  }

  lemma WaitsAt(cfg: Config, run: nat -> State, act: nat -> Action, k: nat, n: nat)
    requires IsInfiniteRun(cfg, run, act)
    requires run(n).ctl.Forked? && run(n).ctl.pid == k && Dead(run(n), k)
    ensures Dead(run(n + 1), k)
    ensures if Enters(cfg, run(n), act(n)) then k in run(n + 1).pidMap else run(n + 1).ctl == run(n).ctl
  {
    BaseAlways(cfg, run, act, n);
    assert StepAt(cfg, run, act, n);
    if Enabled(cfg, run(n), act(n)) {
      SpawnWaits(cfg, run(n), act(n), k);
    }
  }

  /** From n to m the child is entered at some point, or the spawn still waits. */
  lemma {:induction false} StillWaits(cfg: Config, run: nat -> State, act: nat -> Action, k: nat, n: nat, m: nat)
    returns (i: nat)
    requires IsInfiniteRun(cfg, run, act) && n <= m
    requires run(n).ctl.Forked? && run(n).ctl.pid == k && Dead(run(n), k)
    ensures n <= i <= m && Dead(run(i), k)
    ensures k in run(i).pidMap || (i == m && run(m).ctl == run(n).ctl)
    ensures (exists j: nat :: n <= j < m && Enters(cfg, run(j), act(j))) ==> k in run(i).pidMap
    decreases m - n
  {
    if n == m {
      i := n;
    } else if Enters(cfg, run(n), act(n)) {
      WaitsAt(cfg, run, act, k, n);
      i := n + 1;
    } else {
      WaitsAt(cfg, run, act, k, n);
      i := StillWaits(cfg, run, act, k, n + 1, m);
    }
  }

  /** A spawn that waits for the table finds it free, for the reaper does not keep it. */
  lemma TableComesFree(cfg: Config, run: nat -> State, act: nat -> Action, k: nat, n: nat) returns (i: nat)
    requires Careful(cfg) && IsInfiniteRun(cfg, run, act) && ReaperIsFair(cfg, run, act)
    requires run(n).ctl.Forked? && run(n).ctl.pid == k && Dead(run(n), k)
    ensures n <= i && Dead(run(i), k) && (k in run(i).pidMap || Enabled(cfg, run(i), PostFork))
  {
    var f := ReaperStepComes(cfg, run, act, n);
    i := StillWaits(cfg, run, act, k, n, f);
    if k !in run(i).pidMap && !Enabled(cfg, run(i), PostFork) {
      assert StepAt(cfg, run, act, f);
      WaitsAt(cfg, run, act, k, f);
      i := f + 1;
    }
  }

  lemma ChildIsEntered(cfg: Config, run: nat -> State, act: nat -> Action, k: nat, n: nat) returns (i: nat)
    requires Careful(cfg) && IsInfiniteRun(cfg, run, act)
    requires ReaperIsFair(cfg, run, act) && TableIsFair(cfg, run, act)
    requires run(n).ctl.Forked? && run(n).ctl.pid == k && Dead(run(n), k)
    ensures n <= i && Pending(run(i), k)
  {
    assert TableFairAt(cfg, run, act, n);
    var m: nat :| n <= m && (Enters(cfg, run(m), act(m)) || NeverAgain(cfg, run, m));
    if Enters(cfg, run(m), act(m)) {
      i := StillWaits(cfg, run, act, k, n, m + 1);
    } else {
      i := StillWaits(cfg, run, act, k, n, m);
      if k !in run(i).pidMap {
        i := TableComesFree(cfg, run, act, k, m);
      }
    }
  }

  // ---------------------------------------------------------------- the theorem

  /** The exit of every child that dies is processed. */
  ghost predicate AllHandled(run: nat -> State) {
    forall n: nat, k: nat :: Dead(run(n), k) ==> HandledAfter(run, n, k)
  }

  ghost predicate HandledAfter(run: nat -> State, n: nat, k: nat) {
    exists m: nat :: n <= m && k in run(m).exits
  }

  ghost predicate IsFairRun(cfg: Config, run: nat -> State, act: nat -> Action) {
    IsInfiniteRun(cfg, run, act) && ReaperIsFair(cfg, run, act) && TableIsFair(cfg, run, act)
  }

  lemma DeadIsKnown(cfg: Config, s: State, k: nat)
    requires Base(cfg, s) && Dead(s, k)
    ensures k in s.pidMap || (s.ctl.Forked? && s.ctl.pid == k)
  {
  }

  lemma ExitIsHandled(cfg: Config, run: nat -> State, act: nat -> Action, k: nat, n: nat) returns (m: nat)
    requires Careful(cfg) && IsFairRun(cfg, run, act) && Dead(run(n), k)
    ensures n <= m && k in run(m).exits
  {
    BaseAlways(cfg, run, act, n);
    DeadIsKnown(cfg, run(n), k);
    var i := n;
    if k !in run(n).pidMap {
      i := ChildIsEntered(cfg, run, act, k, n);
    }
    m := PendingIsHandled(cfg, run, act, k, i);
  }

  /** A deadlocked run goes on without anything happening, which is fair. */
  lemma StuckForever(cfg: Config) returns (run: nat -> State, act: nat -> Action)
    requires !Careful(cfg)
    ensures IsFairRun(cfg, run, act) && !AllHandled(run)
  {
    var trace, acts := LocksCross(cfg);
    RunKeepsBase(cfg, trace, acts);
    DeadlockLasts(cfg, trace[|acts|], ChildDies(2, 0));
    trace, acts := Extend(cfg, trace, acts, ChildDies(2, 0));
    var last, size := trace[|acts|], |acts|;
    run := (n: nat) => if n < |trace| then trace[n] else last;
    act := (n: nat) => if n < |acts| then acts[n] else PostFork;
    forall n: nat ensures StepAt(cfg, run, act, n) {
    }
    forall n: nat ensures ReaperFairAt(cfg, run, act, n) && TableFairAt(cfg, run, act, n) {
      var m := if n < size then size else n;
      assert run(m) == last;
      assert n <= m && !ReaperCanRun(cfg, run(m));
      assert NeverAgain(cfg, run, m);
    }
    assert Dead(run(size), 2) && !HandledAfter(run, size, 2);
  }

  /** On every fair run every exit is processed, exactly when no reset comes too early. */
  lemma AllHandledIff(cfg: Config)
    ensures (forall run: nat -> State, act: nat -> Action :: IsFairRun(cfg, run, act) ==> AllHandled(run))
       <==> Careful(cfg)
  {
    if !Careful(cfg) {
      var run, act := StuckForever(cfg);
      assert IsFairRun(cfg, run, act) && !AllHandled(run);
    } else {
      forall run: nat -> State, act: nat -> Action | IsFairRun(cfg, run, act) ensures AllHandled(run) {
        forall n: nat, k: nat | Dead(run(n), k) ensures HandledAfter(run, n, k) {
          var m := ExitIsHandled(cfg, run, act, k, n);
        }
      }
    }
  }
}
