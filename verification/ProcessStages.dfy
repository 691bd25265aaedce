/**
 How processes end: in which order one is asked to stop, terminated and killed, what the status it ends up
 with says, and that the exit reported for a child is the one it died with.
 */
module ProcessStages {
  import opened Processes
  import opened ProcessSafety

  // ---------------------------------------------------------------- ask, terminate, kill

  /**
   How the termination of a process has gone: whether it was to be fast, once it was asked for; whether the
   stop was sent, once the thread has begun; and how often the thread has waited in vain since.
   */
  datatype Course = Course(fast: bool, begun: bool, stopSent: bool, timeouts: nat)

  function Continued(c: Course, s: State, a: Action, p: nat): Course {
    match a
    case Terminate(q, fast) =>
      if q == p && p < |s.procs| && s.procs[p].phase.Spawned? then Course(fast, false, false, 0) else c
    case ThreadBegins(q, stopSent) => if q == p then c.(begun := true, stopSent := stopSent, timeouts := 0) else c
    case ThreadTimesOut(q) => if q == p then c.(timeouts := c.timeouts + 1) else c
    case _ => c
  }

  function CourseOf(trace: seq<State>, acts: seq<Action>, p: nat): Course
    requires |trace| == |acts| + 1
  {
    if acts == [] then Course(false, false, false, 0)
    else
      var n := |acts| - 1;
      Continued(CourseOf(trace[..n + 1], acts[..n], p), trace[n], acts[n], p)
  }

  /** The stages come in this order: a stop if one was sent and there is time, SIGTERM unless in a hurry, SIGKILL. */
  predicate AtStage(stage: Stage, c: Course) {
    && (stage.AwaitStop? <==> !c.fast && c.stopSent && c.timeouts == 0)
    && (stage.AwaitTerm? <==> !c.fast && c.timeouts == (if c.stopSent then 1 else 0))
    && (stage.AwaitKill? <==> c.timeouts == (if c.fast then 0 else if c.stopSent then 2 else 1))
  }

  predicate OnCourse(s: State, p: nat, c: Course) {
    && (s.ctl.Launching? && s.ctl.p == p ==> s.ctl.fast == c.fast && !c.begun)
    && (p < |s.procs| && s.procs[p].thread.Started? ==> s.procs[p].thread.fast == c.fast && !c.begun)
    && (p < |s.procs| && s.procs[p].thread.Waiting? ==> c.begun && AtStage(s.procs[p].thread.stage, c))
  }

  lemma ControllerOnCourse(cfg: Config, s: State, a: Action, p: nat, c: Course)
    requires Procs(s) && Midway(s) && Enabled(cfg, s, a) && ByController(a) && OnCourse(s, p, c)
    ensures OnCourse(Next(cfg, s, a), p, Continued(c, s, a, p))
  {
    if p < |s.procs| {
      assert ProcOk(s.procs[p]);
    }
  }

  lemma ThreadOnCourse(cfg: Config, s: State, a: Action, p: nat, c: Course)
    requires Midway(s) && Enabled(cfg, s, a) && ByThread(a) && OnCourse(s, p, c)
    ensures OnCourse(Next(cfg, s, a), p, Continued(c, s, a, p))
  {
  }

  lemma OthersOnCourse(cfg: Config, s: State, a: Action, p: nat, c: Course)
    requires Enabled(cfg, s, a) && !ByController(a) && !ByThread(a) && OnCourse(s, p, c)
    ensures OnCourse(Next(cfg, s, a), p, Continued(c, s, a, p))
  {
  }

  lemma {:induction false} RunPrefix(cfg: Config, trace: seq<State>, acts: seq<Action>, n: nat)
    requires IsRun(cfg, trace, acts) && |acts| == n + 1
    ensures IsRun(cfg, trace[..n + 1], acts[..n]) && trace[..n + 1][n] == trace[n]
    ensures Enabled(cfg, trace[n], acts[n]) && trace[n + 1] == Next(cfg, trace[n], acts[n])
  {
  }

  /** On every run the termination thread of a process is where its course says. */
  lemma {:induction false} StagesOnEveryRun(cfg: Config, trace: seq<State>, acts: seq<Action>, p: nat)
    requires IsRun(cfg, trace, acts)
    ensures OnCourse(trace[|acts|], p, CourseOf(trace, acts, p))
    decreases |acts|
  {
    if acts != [] {
      var n := |acts| - 1;
      var s, a, c := trace[n], acts[n], CourseOf(trace[..n + 1], acts[..n], p);
      RunPrefix(cfg, trace, acts, n);
      StagesOnEveryRun(cfg, trace[..n + 1], acts[..n], p);
      RunKeepsBase(cfg, trace[..n + 1], acts[..n]);
      if ByController(a) {
        ControllerOnCourse(cfg, s, a, p, c);
      } else if ByThread(a) {
        ThreadOnCourse(cfg, s, a, p, c);
      } else {
        OthersOnCourse(cfg, s, a, p, c);
      }
    }
  }

  // ---------------------------------------------------------------- what the status says

  /** What happened to a process whose status becomes this. */
  predicate Explains(s: State, a: Action, p: nat, status: ExitStatus)
    requires p < |s.procs|
  {
    match status
    case NoExit => false
    case ForkFailed => a == PipeFails(p) || (a.ForkFails? && s.ctl == Forking(p))
    case NeverSpawned => a.Terminate? && a.p == p && s.procs[p].phase.NotSpawned?
    case Uninterruptable => a == ThreadTimesOut(p) && s.procs[p].thread == Waiting(AwaitKill)
    case FromOs(raw) => a.ReaperMarks? && s.reaper.Closing? && s.reaper.p == p && s.reaper.raw == raw
  }

  lemma SpawnEnds(cfg: Config, s: State, a: Action, p: nat)
    requires Enabled(cfg, s, a) && InSpawn(a) && p < |s.procs| && !s.procs[p].phase.Terminated?
    ensures var t := Next(cfg, s, a);
      p < |t.procs| && (t.procs[p].phase.Terminated? ==> Explains(s, a, p, t.procs[p].status))
  {
  }

  lemma TerminateEnds(cfg: Config, s: State, a: Action, p: nat)
    requires Enabled(cfg, s, a) && (InTerminate(a) || ByThread(a)) && p < |s.procs| && !s.procs[p].phase.Terminated?
    ensures var t := Next(cfg, s, a);
      p < |t.procs| && (t.procs[p].phase.Terminated? ==> Explains(s, a, p, t.procs[p].status))
  {
  }

  lemma MarkEnds(cfg: Config, s: State, p: nat)
    requires Enabled(cfg, s, ReaperMarks) && p < |s.procs| && !s.procs[p].phase.Terminated?
    ensures var t := Next(cfg, s, ReaperMarks);
      p < |t.procs| && (t.procs[p].phase.Terminated? ==> Explains(s, ReaperMarks, p, t.procs[p].status))
  {
  }

  lemma ReaperEnds(cfg: Config, s: State, a: Action, p: nat)
    requires Enabled(cfg, s, a) && (ByReaper(a) || a.ChildDies?) && p < |s.procs| && !s.procs[p].phase.Terminated?
    ensures var t := Next(cfg, s, a);
      p < |t.procs| && (t.procs[p].phase.Terminated? ==> Explains(s, a, p, t.procs[p].status))
  {
    if a.ReaperMarks? {
      MarkEnds(cfg, s, p);
    }
  }

  /** Whenever a process becomes terminated, its status says what happened. */
  lemma StatusExplains(cfg: Config, s: State, a: Action, p: nat)
    requires Enabled(cfg, s, a) && p < |s.procs| && !s.procs[p].phase.Terminated?
    ensures var t := Next(cfg, s, a);
      p < |t.procs| && (t.procs[p].phase.Terminated? ==> Explains(s, a, p, t.procs[p].status))
  {
    if InSpawn(a) {
      SpawnEnds(cfg, s, a, p);
    } else if InTerminate(a) || ByThread(a) {
      TerminateEnds(cfg, s, a, p);
    } else {
      ReaperEnds(cfg, s, a, p);
    }
  }

  /**
   When a termination thread ends: at once if there is nothing to terminate, when it is woken after the end of
   the process, and when waiting for the kill was in vain.
   */
  lemma ThreadEndsIff(cfg: Config, s: State, a: Action, p: nat)
    requires Enabled(cfg, s, a) && ByThread(a) && a.p == p
    ensures Next(cfg, s, a).procs[p].thread.Finished? <==>
              match a
              case ThreadBegins(_, _) => !s.procs[p].phase.Terminating? || s.procs[p].pid == 0
              case ThreadWakes(_) => s.procs[p].phase.Terminated?
              case ThreadTimesOut(_) => s.procs[p].thread.stage.AwaitKill?
  {
  }

  // ---------------------------------------------------------------- what is reported

  /** The exit a child died with is what is collected, marked and recorded for it. */
  predicate Reports(life: Life, died: seq<int>) {
    match life
    case Running => died == []
    case Zombie(raw) => died == [raw]
    case Collected(raw) => died == [raw]
    case Marking(raw) => died == [raw]
    case Handled(raw) => died == [raw]
  }

  /** The exits child k has died with. */
  function Deaths(acts: seq<Action>, k: nat): seq<int> {
    if acts == [] then []
    else
      var last := acts[|acts| - 1];
      Deaths(acts[..|acts| - 1], k) + (if last.ChildDies? && last.pid == k then [last.raw] else [])
  }

  /** Every child dies once at most, and what is known of its exit is what it died with. */
  ghost predicate AllReported(s: State, acts: seq<Action>) {
    forall k :: if k in s.children then Reports(s.children[k].life, Deaths(acts, k)) else Deaths(acts, k) == []
  }

  lemma {:induction false} OneMoreDeath(acts: seq<Action>, a: Action, k: nat)
    ensures Deaths(acts + [a], k) == Deaths(acts, k) + (if a.ChildDies? && a.pid == k then [a.raw] else [])
  {
    assert (acts + [a])[..|acts|] == acts;
  }

  /** A step moves the lives of children on, one stage at a time and with the same exit. */
  ghost predicate LifeGoesOn(s: State, t: State, a: Action, k: nat) {
    && (k in s.children ==> k in t.children)
    && (k in t.children && k !in s.children ==> t.children[k].life.Running? && !a.ChildDies?)
    && (k in s.children && !(a.ChildDies? && a.pid == k) ==>
          || t.children[k].life == s.children[k].life
          || (s.children[k].life.Zombie? && t.children[k].life == Collected(s.children[k].life.exit))
          || (s.children[k].life.Collected? && t.children[k].life == Marking(s.children[k].life.exit))
          || (s.children[k].life.Marking? && t.children[k].life == Handled(s.children[k].life.exit)))
    && (a.ChildDies? && a.pid == k ==> k in s.children && s.children[k].life.Running? && t.children[k].life == Zombie(a.raw))
  }

  lemma ControllerLives(cfg: Config, s: State, a: Action, k: nat)
    requires Enabled(cfg, s, a) && ByController(a)
    ensures LifeGoesOn(s, Next(cfg, s, a), a, k)
  {
  }

  lemma ReaperLives(cfg: Config, s: State, a: Action, k: nat)
    requires Owners(s) && Table(s) && Reaping(s) && Enabled(cfg, s, a) && ByReaper(a)
    ensures LifeGoesOn(s, Next(cfg, s, a), a, k)
  {
  }

  lemma OthersLive(cfg: Config, s: State, a: Action, k: nat)
    requires Enabled(cfg, s, a) && !ByController(a) && !ByReaper(a)
    ensures LifeGoesOn(s, Next(cfg, s, a), a, k)
  {
  }

  /** On every run, a child's exit is the one it died with, up to the status recorded. */
  lemma {:induction false} ReportedOnEveryRun(cfg: Config, trace: seq<State>, acts: seq<Action>)
    requires IsRun(cfg, trace, acts)
    ensures AllReported(trace[|acts|], acts)
    ensures var s := trace[|acts|];
      s.reaper.Holding? || s.reaper.Closing? ==> Deaths(acts, s.reaper.pid) == [s.reaper.raw]
    decreases |acts|
  {
    if acts != [] {
      var n := |acts| - 1;
      var s, a, t := trace[n], acts[n], trace[n + 1];
      RunPrefix(cfg, trace, acts, n);
      ReportedOnEveryRun(cfg, trace[..n + 1], acts[..n]);
      RunKeepsBase(cfg, trace[..n + 1], acts[..n]);
      assert acts == acts[..n] + [a];
      forall k ensures if k in t.children then Reports(t.children[k].life, Deaths(acts, k)) else Deaths(acts, k) == [] {
        OneMoreDeath(acts[..n], a, k);
        if ByController(a) {
          ControllerLives(cfg, s, a, k);
        } else if ByReaper(a) {
          ReaperLives(cfg, s, a, k);
        } else {
          OthersLive(cfg, s, a, k);
        }
      }
    }
    RunKeepsBase(cfg, trace, acts);
  }

  // ---------------------------------------------------------------- what the runs range over

  /**
   Nothing that can happen is left out of the runs: children die at any time and in any way, waits of termination
   threads end either way unless spawn holds the process, and an idle controller may do anything to any process.
   */
  lemma MayHappen(cfg: Config, s: State, p: nat, k: nat, raw: int, asked: int)
    requires p < |s.procs|
    ensures k in s.children && s.children[k].life.Running? ==> Enabled(cfg, s, ChildDies(k, raw))
    ensures s.procs[p].thread.Waiting? && !(s.ctl.Forking? && s.ctl.p == p) && !(s.ctl.Forked? && s.ctl.p == p) ==>
              Enabled(cfg, s, ThreadTimesOut(p)) && Enabled(cfg, s, ThreadWakes(p))
    ensures s.ctl.Idle? ==>
              && Enabled(cfg, s, PipeFails(p)) && Enabled(cfg, s, Terminate(p, true)) && Enabled(cfg, s, Terminate(p, false))
              && (0 <= asked <= cfg.maxAsked ==> Enabled(cfg, s, SpawnBegins(p, asked)))
              && (cfg.resetStuck ==> Enabled(cfg, s, ResetBegins(p)))
    ensures s.ctl.Forking? && s.ctl.p == p ==>
              Enabled(cfg, s, ForkFails) && (k > 0 && k !in s.children ==> Enabled(cfg, s, ForkSucceeds(k)))
    ensures s.ctl.Forked? && s.ctl.p == p ==> (Enabled(cfg, s, PostFork) <==> !s.reaper.Closing?)
  {
  }
}
