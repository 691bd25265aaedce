/** What every run of the process manager keeps, whatever is reset and when. */
module ProcessSafety {
  import opened MemoryTracking
  import opened Processes

  // ---------------------------------------------------------------- the invariant

  /** A pid exactly while there is a process to speak of; a thread only once it is asked to stop. */
  predicate ProcOk(p: Proc) {
    && (p.pid != 0 <==> p.phase.Spawned? || p.phase.Terminating?)
    && (p.phase.NotSpawned? || p.phase.Spawned? ==> p.thread.NoThread?)
    && (p.thread.Finished? ==> p.phase.Terminated?)
  }

  ghost predicate Procs(s: State) { forall i :: 0 <= i < |s.procs| ==> ProcOk(s.procs[i]) }

  /** What the controller is in the middle of. */
  predicate Midway(s: State) {
    && (!s.ctl.Idle? ==> s.ctl.p < |s.procs|)
    && (s.ctl.Forking? ==> s.procs[s.ctl.p].phase.NotSpawned?)
    && (s.ctl.Forked? ==> s.procs[s.ctl.p].phase.Spawned? && s.procs[s.ctl.p].pid == s.ctl.pid)
    && (s.ctl.Launching? ==>
          && (s.procs[s.ctl.p].phase.Terminating? || s.procs[s.ctl.p].phase.Terminated?)
          && s.procs[s.ctl.p].thread.NoThread?)
    && (s.ctl.Joining? ==> s.procs[s.ctl.p].phase.Terminated?)
  }

  /** A process that is terminating has its thread, or is about to get it. */
  ghost predicate Attended(s: State) {
    forall i :: 0 <= i < |s.procs| && s.procs[i].phase.Terminating? && s.procs[i].thread.NoThread?
      ==> s.ctl.Launching? && s.ctl.p == i
  }

  ghost predicate Control(s: State) { Midway(s) && Attended(s) }

  ghost predicate Owners(s: State) {
    0 !in s.children && forall k :: k in s.children ==> s.children[k].owner < |s.procs|
  }

  predicate Uncollected(l: Life) { l.Running? || l.Zombie? }

  /** The table lists every child whose exit is still to be handled, and nothing else. */
  ghost predicate Table(s: State) {
    && (forall k :: k in s.pidMap ==>
          && k in s.children && s.pidMap[k] == s.children[k].owner
          && (Uncollected(s.children[k].life) || s.children[k].life.Collected?))
    && (forall k :: k in s.children && (Uncollected(s.children[k].life) || s.children[k].life.Collected?)
          ==> k in s.pidMap || (s.ctl.Forked? && s.ctl.pid == k))
    && (s.ctl.Forked? ==>
          && s.ctl.pid in s.children && s.ctl.pid !in s.pidMap
          && s.children[s.ctl.pid].owner == s.ctl.p && Uncollected(s.children[s.ctl.pid].life))
  }

  /** The reaper's position matches the one child whose exit it is dealing with. */
  ghost predicate Reaping(s: State) {
    && (s.reaper.Checking? ==> forall k :: k in s.reaper.todo ==> k in s.pidMap)
    && (s.reaper.Holding? ==>
          && s.reaper.pid in s.children && s.children[s.reaper.pid].life == Collected(s.reaper.raw)
          && s.reaper.pid !in s.reaper.todo
          && forall k :: k in s.reaper.todo ==> k in s.pidMap)
    && (s.reaper.Closing? ==>
          && s.reaper.pid in s.children && s.children[s.reaper.pid] == Child(s.reaper.p, Marking(s.reaper.raw))
          && forall k :: k in s.reaper.todo ==> k in s.pidMap)
    && (forall k :: k in s.children && s.children[k].life.Collected? ==> s.reaper.Holding? && s.reaper.pid == k)
    && (forall k :: k in s.children && s.children[k].life.Marking? ==> s.reaper.Closing? && s.reaper.pid == k)
  }

  /** Every exit is processed once, and it is recorded here. */
  ghost predicate Exits(s: State) {
    && (forall i, j :: 0 <= i < j < |s.exits| ==> s.exits[i] != s.exits[j])
    && (forall k :: k in s.exits <==>
          k in s.children && (s.children[k].life.Marking? || s.children[k].life.Handled?))
  }

  /** By the time the reaper can mark a process, its reservation has been given back. */
  predicate GivenBack(s: State) {
    s.reaper.Closing? && s.reaper.p < |s.procs| && !StateLocked(s, s.reaper.p) ==> s.procs[s.reaper.p].reserved == 0
  }

  ghost predicate Base(cfg: Config, s: State) {
    && |s.procs| == cfg.count && !s.crashed
    && Procs(s) && Control(s)
    && Owners(s) && Table(s) && Reaping(s) && Exits(s)
    && GivenBack(s)
  }

  // ---------------------------------------------------------------- steps of the controller

  lemma SpawnKeepsProcs(cfg: Config, s: State, a: Action)
    requires Procs(s) && Control(s) && Enabled(cfg, s, a) && InSpawn(a)
    ensures var t := Next(cfg, s, a); |t.procs| == |s.procs| && t.crashed == s.crashed && Procs(t)
  {
  }

  lemma TerminateKeepsProcs(cfg: Config, s: State, a: Action)
    requires Procs(s) && Control(s) && Enabled(cfg, s, a) && InTerminate(a)
    ensures var t := Next(cfg, s, a); |t.procs| == |s.procs| && t.crashed == s.crashed && Procs(t)
  {
  }

  lemma SpawnKeepsControl(cfg: Config, s: State, a: Action)
    requires Procs(s) && Control(s) && Enabled(cfg, s, a) && InSpawn(a)
    ensures Control(Next(cfg, s, a))
  {
  }

  lemma TerminateKeepsControl(cfg: Config, s: State, a: Action)
    requires Procs(s) && Control(s) && Enabled(cfg, s, a) && InTerminate(a)
    ensures Control(Next(cfg, s, a))
  {
  }

  lemma SpawnKeepsTable(cfg: Config, s: State, a: Action)
    requires Control(s) && Owners(s) && Table(s) && Enabled(cfg, s, a) && InSpawn(a)
    ensures Owners(Next(cfg, s, a)) && Table(Next(cfg, s, a))
  {
  }

  lemma SpawnKeepsReaping(cfg: Config, s: State, a: Action)
    requires Owners(s) && Table(s) && Reaping(s) && Exits(s) && Enabled(cfg, s, a) && InSpawn(a)
    ensures Reaping(Next(cfg, s, a)) && Exits(Next(cfg, s, a))
  {
  }

  /** A step that touches neither the children nor what is known of them. */
  lemma RestFrame(s: State, t: State)
    requires Owners(s) && Table(s) && Reaping(s) && Exits(s)
    requires |t.procs| == |s.procs| && t.children == s.children && t.pidMap == s.pidMap
    requires t.reaper == s.reaper && t.exits == s.exits
    requires t.ctl == s.ctl || (!s.ctl.Forked? && !t.ctl.Forked?)
    ensures Owners(t) && Table(t) && Reaping(t) && Exits(t)
  {
  }

  lemma TerminateKeepsRest(cfg: Config, s: State, a: Action)
    requires Owners(s) && Table(s) && Reaping(s) && Exits(s) && Enabled(cfg, s, a) && InTerminate(a)
    ensures var t := Next(cfg, s, a); Owners(t) && Table(t) && Reaping(t) && Exits(t)
  {
    RestFrame(s, Next(cfg, s, a));
  }

  lemma ControllerKeepsGivenBack(cfg: Config, s: State, a: Action)
    requires GivenBack(s) && Control(s) && Enabled(cfg, s, a) && ByController(a)
    ensures GivenBack(Next(cfg, s, a))
  {
  }

  lemma ControllerKeepsBase(cfg: Config, s: State, a: Action)
    requires Base(cfg, s) && Enabled(cfg, s, a) && ByController(a)
    ensures Base(cfg, Next(cfg, s, a))
  {
    ControllerKeepsGivenBack(cfg, s, a);
    if InSpawn(a) {
      SpawnKeepsProcs(cfg, s, a);
      SpawnKeepsControl(cfg, s, a);
      SpawnKeepsTable(cfg, s, a);
      SpawnKeepsReaping(cfg, s, a);
    } else {
      TerminateKeepsProcs(cfg, s, a);
      TerminateKeepsControl(cfg, s, a);
      TerminateKeepsRest(cfg, s, a);
    }
  }

  // ---------------------------------------------------------------- steps of threads, children and the reaper

  lemma ThreadsKeepProcs(cfg: Config, s: State, a: Action)
    requires Procs(s) && Enabled(cfg, s, a) && ByThread(a)
    ensures var t := Next(cfg, s, a);
      |t.procs| == |s.procs| && t.crashed == s.crashed && Procs(t) && (GivenBack(s) ==> GivenBack(t))
  {
  }

  lemma ThreadsKeepControl(cfg: Config, s: State, a: Action)
    requires Procs(s) && Control(s) && Enabled(cfg, s, a) && ByThread(a)
    ensures Control(Next(cfg, s, a))
  {
    assert ProcOk(s.procs[a.p]);
  }

  lemma ThreadsKeepRest(cfg: Config, s: State, a: Action)
    requires Owners(s) && Table(s) && Reaping(s) && Exits(s) && Enabled(cfg, s, a) && ByThread(a)
    ensures var t := Next(cfg, s, a); Owners(t) && Table(t) && Reaping(t) && Exits(t)
  {
    RestFrame(s, Next(cfg, s, a));
  }

  lemma DeathKeepsTable(cfg: Config, s: State, a: Action)
    requires Owners(s) && Table(s) && Enabled(cfg, s, a) && a.ChildDies?
    ensures Owners(Next(cfg, s, a)) && Table(Next(cfg, s, a))
  {
  }

  lemma DeathKeepsReaping(cfg: Config, s: State, a: Action)
    requires Reaping(s) && Exits(s) && Enabled(cfg, s, a) && a.ChildDies?
    ensures Reaping(Next(cfg, s, a)) && Exits(Next(cfg, s, a))
  {
  }

  /** The reaper's steps other than handling and marking. */
  predicate Looking(a: Action) { a.ReaperLists? || a.ReaperSkips? || a.ReaperCollects? || a.ReaperSleeps? }

  lemma LookingKeepsTable(cfg: Config, s: State, a: Action)
    requires Owners(s) && Table(s) && Reaping(s) && Enabled(cfg, s, a) && Looking(a)
    ensures Owners(Next(cfg, s, a)) && Table(Next(cfg, s, a))
  {
  }

  lemma LookingKeepsReaping(cfg: Config, s: State, a: Action)
    requires Table(s) && Reaping(s) && Exits(s) && Enabled(cfg, s, a) && Looking(a)
    ensures Reaping(Next(cfg, s, a)) && Exits(Next(cfg, s, a))
  {
  }

  /** Nothing the reaper collects is unmanaged. */
  lemma HeldIsListed(s: State)
    requires Owners(s) && Table(s) && Reaping(s) && s.reaper.Holding? && !(s.ctl.Forked? && s.ctl.pid == s.reaper.pid)
    ensures s.reaper.pid in s.pidMap && s.pidMap[s.reaper.pid] == s.children[s.reaper.pid].owner < |s.procs|
  {
  }

  lemma HandleKeepsProcs(cfg: Config, s: State)
    requires Owners(s) && Table(s) && Reaping(s) && Procs(s) && Control(s) && Enabled(cfg, s, ReaperHandles)
    ensures var t := Next(cfg, s, ReaperHandles);
      |t.procs| == |s.procs| && t.crashed == s.crashed && Procs(t) && Control(t) && GivenBack(t)
  {
    HeldIsListed(s);
  }

  lemma HandleKeepsTable(cfg: Config, s: State)
    requires Owners(s) && Table(s) && Reaping(s) && Enabled(cfg, s, ReaperHandles)
    ensures var t := Next(cfg, s, ReaperHandles); Owners(t) && Table(t)
  {
    HeldIsListed(s);
  }

  lemma HandleKeepsReaping(cfg: Config, s: State)
    requires Owners(s) && Table(s) && Reaping(s) && Exits(s) && Enabled(cfg, s, ReaperHandles)
    ensures Reaping(Next(cfg, s, ReaperHandles)) && Exits(Next(cfg, s, ReaperHandles))
  {
    HeldIsListed(s);
    assert s.reaper.pid !in s.exits;
  }

  lemma MarkKeepsProcs(cfg: Config, s: State)
    requires Procs(s) && Enabled(cfg, s, ReaperMarks)
    ensures var t := Next(cfg, s, ReaperMarks);
      |t.procs| == |s.procs| && t.crashed == s.crashed && Procs(t) && GivenBack(t)
  {
  }

  lemma MarkKeepsMidway(cfg: Config, s: State)
    requires Procs(s) && Midway(s) && Enabled(cfg, s, ReaperMarks)
    ensures Midway(Next(cfg, s, ReaperMarks))
  {
    var t := Next(cfg, s, ReaperMarks);
    assert t.ctl == s.ctl && |t.procs| == |s.procs|;
    if !s.ctl.Idle? {
      assert ProcOk(s.procs[s.ctl.p]);
      assert t.procs[s.ctl.p].thread == s.procs[s.ctl.p].thread;
      assert t.procs[s.ctl.p] == s.procs[s.ctl.p] || t.procs[s.ctl.p].phase.Terminated?;
    }
  }

  lemma MarkKeepsAttended(cfg: Config, s: State)
    requires Attended(s) && Enabled(cfg, s, ReaperMarks)
    ensures Attended(Next(cfg, s, ReaperMarks))
  {
  }

  lemma MarkKeepsTable(cfg: Config, s: State)
    requires Owners(s) && Table(s) && Reaping(s) && Enabled(cfg, s, ReaperMarks)
    ensures Owners(Next(cfg, s, ReaperMarks)) && Table(Next(cfg, s, ReaperMarks))
  {
  }

  lemma MarkKeepsReaping(cfg: Config, s: State)
    requires Table(s) && Reaping(s) && Exits(s) && Enabled(cfg, s, ReaperMarks)
    ensures Reaping(Next(cfg, s, ReaperMarks)) && Exits(Next(cfg, s, ReaperMarks))
  {
  }

  lemma ReaperKeepsBase(cfg: Config, s: State, a: Action)
    requires Base(cfg, s) && Enabled(cfg, s, a) && ByReaper(a)
    ensures Base(cfg, Next(cfg, s, a))
  {
    if Looking(a) {
      LookingKeepsTable(cfg, s, a);
      LookingKeepsReaping(cfg, s, a);
    } else if a.ReaperHandles? {
      HandleKeepsProcs(cfg, s);
      HandleKeepsTable(cfg, s);
      HandleKeepsReaping(cfg, s);
    } else {
      MarkKeepsProcs(cfg, s);
      MarkKeepsMidway(cfg, s);
      MarkKeepsAttended(cfg, s);
      MarkKeepsTable(cfg, s);
      MarkKeepsReaping(cfg, s);
    }
  }

  // ---------------------------------------------------------------- every step, every run

  /** Every step of every thread keeps the invariant, in every configuration. */
  lemma StepKeepsBase(cfg: Config, s: State, a: Action)
    requires Base(cfg, s) && Enabled(cfg, s, a)
    ensures Base(cfg, Next(cfg, s, a))
  {
    if ByController(a) {
      ControllerKeepsBase(cfg, s, a);
    } else if ByReaper(a) {
      ReaperKeepsBase(cfg, s, a);
    } else if ByThread(a) {
      ThreadsKeepProcs(cfg, s, a);
      ThreadsKeepControl(cfg, s, a);
      ThreadsKeepRest(cfg, s, a);
    } else {
      DeathKeepsTable(cfg, s, a);
      DeathKeepsReaping(cfg, s, a);
    }
  }

  lemma InitBase(cfg: Config)
    ensures Base(cfg, Init(cfg))
  {
  }

  lemma {:induction false} RunKeepsBase(cfg: Config, trace: seq<State>, acts: seq<Action>)
    requires IsRun(cfg, trace, acts)
    ensures Base(cfg, trace[|acts|])
    decreases |acts|
  {
    if acts == [] {
      InitBase(cfg);
    } else {
      var n := |acts| - 1;
      RunKeepsBase(cfg, trace[..|acts|], acts[..n]);
      StepKeepsBase(cfg, trace[n], acts[n]);
    }
  }

  // ---------------------------------------------------------------- what it means

  /** A pid exactly while spawned or terminating; a finished termination thread left nothing terminating. */
  lemma LifecycleOnEveryRun(cfg: Config, trace: seq<State>, acts: seq<Action>, p: nat)
    requires IsRun(cfg, trace, acts) && p < cfg.count
    ensures var s := trace[|acts|];
      && p < |s.procs|
      && (s.procs[p].pid != 0 <==> s.procs[p].phase.Spawned? || s.procs[p].phase.Terminating?)
      && (s.procs[p].thread.Finished? ==> s.procs[p].phase.Terminated?)
      && (s.procs[p].phase.Terminating? ==>
            s.procs[p].thread.Started? || s.procs[p].thread.Waiting? || (s.ctl.Launching? && s.ctl.p == p))
      && !s.crashed
  {
    RunKeepsBase(cfg, trace, acts);
  }

  /** The status of p changes only as it becomes terminated, and only reset leaves that state. */
  predicate StatusKept(s: State, t: State, a: Action, p: nat)
    requires p < |s.procs|
  {
    && p < |t.procs|
    && (t.procs[p].status != s.procs[p].status ==> !s.procs[p].phase.Terminated? && t.procs[p].phase.Terminated?)
    && (s.procs[p].phase.Terminated? && !t.procs[p].phase.Terminated? ==> a.ResetEnds? && s.ctl == Joining(p))
  }

  lemma SpawnKeepsStatus(cfg: Config, s: State, a: Action, p: nat)
    requires (s.ctl.Forking? && s.ctl.p == p ==> p < |s.procs| && s.procs[p].phase.NotSpawned?)
    requires Enabled(cfg, s, a) && p < |s.procs| && InSpawn(a)
    ensures StatusKept(s, Next(cfg, s, a), a, p)
  {
  }

  lemma OthersKeepStatus(cfg: Config, s: State, a: Action, p: nat)
    requires Enabled(cfg, s, a) && p < |s.procs| && !InSpawn(a) && !a.ReaperHandles? && !a.ReaperMarks?
    ensures StatusKept(s, Next(cfg, s, a), a, p)
  {
  }

  lemma ReaperKeepsStatus(cfg: Config, s: State, a: Action, p: nat)
    requires Enabled(cfg, s, a) && p < |s.procs| && (a.ReaperHandles? || a.ReaperMarks?)
    ensures StatusKept(s, Next(cfg, s, a), a, p)
  {
  }

  lemma StatusChangesOnExit(cfg: Config, s: State, a: Action, p: nat)
    requires Base(cfg, s) && Enabled(cfg, s, a) && p < |s.procs|
    ensures StatusKept(s, Next(cfg, s, a), a, p)
  {
    if InSpawn(a) {
      SpawnKeepsStatus(cfg, s, a, p);
    } else if a.ReaperHandles? || a.ReaperMarks? {
      ReaperKeepsStatus(cfg, s, a, p);
    } else {
      OthersKeepStatus(cfg, s, a, p);
    }
  }

  /** Over any stretch of any run without a reset of it, a terminated process keeps its status. */
  lemma {:induction false} FirstStatusSurvives(cfg: Config, trace: seq<State>, acts: seq<Action>, p: nat, i: nat, j: nat)
    requires IsRun(cfg, trace, acts) && i <= j <= |acts|
    requires p < |trace[i].procs| && trace[i].procs[p].phase.Terminated?
    requires forall k :: i <= k < j && acts[k].ResetEnds? ==> trace[k].ctl != Joining(p)
    ensures p < |trace[j].procs| && trace[j].procs[p].phase.Terminated?
    ensures trace[j].procs[p].status == trace[i].procs[p].status
    decreases j - i
  {
    if i < j {
      FirstStatusSurvives(cfg, trace, acts, p, i, j - 1);
      RunKeepsBase(cfg, trace[..j], acts[..j - 1]);
      StatusChangesOnExit(cfg, trace[j - 1], acts[j - 1], p);
    }
  }

  /**
   * Every child ever forked is on its way to being handled or has been, once; until then the reaper's
   * table, or the controller about to fill it in, knows it, even if it died before postFork_cb.
   */
  lemma ExitsOnEveryRun(cfg: Config, trace: seq<State>, acts: seq<Action>, k: nat)
    requires IsRun(cfg, trace, acts) && k in trace[|acts|].children
    ensures var s := trace[|acts|];
      && multiset(s.exits)[k] == (if s.children[k].life.Marking? || s.children[k].life.Handled? then 1 else 0)
      && (s.children[k].life.Running? || s.children[k].life.Zombie? ==>
            (k in s.pidMap && s.pidMap[k] == s.children[k].owner)
            || s.ctl == Forked(s.children[k].owner, k))
      && (s.children[k].life.Collected? ==> s.reaper.Holding? && s.reaper.pid == k && k in s.pidMap)
  {
    RunKeepsBase(cfg, trace, acts);
    OncePerPid(trace[|acts|].exits, k);
  }

  lemma {:induction false} OncePerPid(xs: seq<nat>, k: nat)
    requires forall i, j :: 0 <= i < j < |xs| ==> xs[i] != xs[j]
    ensures multiset(xs)[k] == (if k in xs then 1 else 0)
  {
    if xs != [] {
      var n := |xs| - 1;
      OncePerPid(xs[..n], k);
      assert xs == xs[..n] + [xs[n]];
    }
  }

  /** Handling an exit gives back the whole reservation; marking it, later, gives back nothing more. */
  lemma ReleasedOnce(cfg: Config, s: State)
    requires Base(cfg, s)
    ensures Enabled(cfg, s, ReaperHandles) ==>
              var t, k := Next(cfg, s, ReaperHandles), s.reaper.pid;
              && k in s.children && s.children[k].owner < |s.procs| == |t.procs|
              && t.memory == ReleaseIn(s.memory, s.procs[s.children[k].owner].reserved)
              && t.procs[s.children[k].owner].reserved == 0
    ensures Enabled(cfg, s, ReaperMarks) ==> Next(cfg, s, ReaperMarks).memory == s.memory
  {
    if s.reaper.Holding? {
      HeldIsListed(s);
    }
  }
}
