/**
 What depends on never resetting a process that was given up as uninterruptable before the exit of its
 child has been handled: whose exit is recorded, and freedom from deadlock.  Each holds on every run
 exactly if that never happens.
 */
module ProcessReset {
  import opened Bytes
  import opened MemoryTracking
  import opened Processes
  import opened ProcessSafety

  /** Nobody resets a process given up before the exit of its child has been handled. */
  predicate Careful(cfg: Config) { cfg.resetStuck ==> cfg.count == 0 }

  // ---------------------------------------------------------------- the invariant

  predicate GivenUp(p: Proc) { p.phase.Terminated? && p.status.Uninterruptable? }

  /** A process keeps a reservation past its end only while the exit of its child is to be handled. */
  ghost predicate Thrift(s: State) {
    && (forall i :: 0 <= i < |s.procs| && s.procs[i].phase.Terminated? && s.procs[i].reserved != 0
          ==> Unhandled(s.children, i))
    && (forall i :: 0 <= i < |s.procs| && s.procs[i].phase.NotSpawned? && s.procs[i].reserved != 0
          ==> s.ctl.Forking? && s.ctl.p == i)
    && (s.ctl.Joining? && s.ctl.p < |s.procs| ==> s.procs[s.ctl.p].reserved == 0 && !Unhandled(s.children, s.ctl.p))
  }

  /** The process a live child belongs to still has its pid, unless it was given up. */
  predicate Owned(procs: seq<Proc>, k: nat, c: Child) {
    c.owner < |procs| && (!c.life.Handled? ==> procs[c.owner].pid == k || GivenUp(procs[c.owner]))
  }

  predicate Has(procs: seq<Proc>, children: map<nat, Child>, i: nat)
    requires i < |procs|
  {
    procs[i].pid != 0 ==>
      procs[i].pid in children && children[procs[i].pid].owner == i && !children[procs[i].pid].life.Handled?
  }

  ghost predicate Kin(procs: seq<Proc>, children: map<nat, Child>) {
    && 0 !in children
    && (forall i :: 0 <= i < |procs| ==> Has(procs, children, i))
    && (forall k :: k in children ==> Owned(procs, k, children[k]))
  }

  ghost predicate Kinship(s: State) { Kin(s.procs, s.children) }

  ghost predicate Inv(cfg: Config, s: State) {
    Base(cfg, s) && Thrift(s) && Kinship(s)
  }

  // ---------------------------------------------------------------- every step, every run

  lemma SpawnKeepsThrift(cfg: Config, s: State, a: Action)
    requires Thrift(s) && Midway(s) && Enabled(cfg, s, a) && InSpawn(a)
    ensures Thrift(Next(cfg, s, a))
  {
    if a.ForkSucceeds? {
      ForkLeavesUnhandled(s.children, a.pid, Child(s.ctl.p, Running));
    }
  }

  lemma ForkLeavesUnhandled(children: map<nat, Child>, pid: nat, c: Child)
    requires pid !in children
    ensures forall i :: Unhandled(children, i) ==> Unhandled(children[pid := c], i)
  {
    var all := children[pid := c];
    forall i | Unhandled(children, i) ensures Unhandled(all, i) {
      var k :| k in children && children[k].owner == i && !children[k].life.Handled?;
      assert k in all && all[k] == children[k];
    }
  }

  lemma TerminateKeepsThrift(cfg: Config, s: State, a: Action)
    requires !cfg.resetStuck || s.procs == []
    requires Thrift(s) && Midway(s) && Enabled(cfg, s, a) && InTerminate(a)
    ensures Thrift(Next(cfg, s, a))
  {
  }

  lemma ThreadsKeepThrift(cfg: Config, s: State, a: Action)
    requires Thrift(s) && Kinship(s) && Midway(s) && Procs(s) && Enabled(cfg, s, a) && ByThread(a)
    ensures Thrift(Next(cfg, s, a))
  {
    var p := s.procs[a.p];
    assert ProcOk(p) && Has(s.procs, s.children, a.p);
    assert p.pid != 0 ==> s.children[p.pid].owner == a.p;
  }

  /** A child going on living, or dying, is as unhandled as before. */
  lemma LifeLeavesUnhandled(children: map<nat, Child>, k: nat, life: Life)
    requires k in children && !children[k].life.Handled? && !life.Handled?
    ensures forall i :: Unhandled(children[k := children[k].(life := life)], i) <==> Unhandled(children, i)
  {
    var all := children[k := children[k].(life := life)];
    forall i ensures Unhandled(all, i) <==> Unhandled(children, i) {
      if Unhandled(children, i) {
        var j :| j in children && children[j].owner == i && !children[j].life.Handled?;
        assert j in all && all[j].owner == i && !all[j].life.Handled?;
      }
    }
  }

  lemma DeathKeepsThrift(cfg: Config, s: State, a: Action)
    requires Thrift(s) && Enabled(cfg, s, a) && a.ChildDies?
    ensures Thrift(Next(cfg, s, a))
  {
    LifeLeavesUnhandled(s.children, a.pid, Zombie(a.raw));
  }

  lemma LookingKeepsThrift(cfg: Config, s: State, a: Action)
    requires Thrift(s) && Enabled(cfg, s, a) && Looking(a)
    ensures Thrift(Next(cfg, s, a))
  {
    if a.ReaperCollects? {
      LifeLeavesUnhandled(s.children, a.pid, Collected(s.children[a.pid].life.exit));
    }
  }

  lemma HandleKeepsThrift(cfg: Config, s: State)
    requires Thrift(s) && Owners(s) && Table(s) && Reaping(s) && Enabled(cfg, s, ReaperHandles)
    ensures Thrift(Next(cfg, s, ReaperHandles))
  {
    HeldIsListed(s);
    LifeLeavesUnhandled(s.children, s.reaper.pid, Marking(s.reaper.raw));
  }

  /** Handling the exit of k settles nothing for other processes than its own. */
  lemma DoneLeavesUnhandled(children: map<nat, Child>, k: nat, raw: int)
    requires k in children
    ensures forall i :: i != children[k].owner ==>
              (Unhandled(children[k := children[k].(life := Handled(raw))], i) <==> Unhandled(children, i))
    ensures forall i :: Unhandled(children[k := children[k].(life := Handled(raw))], i) ==> Unhandled(children, i)
  {
    var all := children[k := children[k].(life := Handled(raw))];
    forall i | Unhandled(children, i) && i != children[k].owner ensures Unhandled(all, i) {
      var j :| j in children && children[j].owner == i && !children[j].life.Handled?;
      assert j in all && all[j] == children[j];
    }
  }

  lemma MarkKeepsThrift(cfg: Config, s: State)
    requires Thrift(s) && Midway(s) && Reaping(s) && GivenBack(s) && Enabled(cfg, s, ReaperMarks)
    ensures Thrift(Next(cfg, s, ReaperMarks))
  {
    DoneLeavesUnhandled(s.children, s.reaper.pid, s.reaper.raw);
  }

  /** A process may change as long as it keeps its pid or is given up, and stays so while its child is around. */
  lemma KinUpdate(procs: seq<Proc>, children: map<nat, Child>, i: nat, p: Proc)
    requires Kin(procs, children) && i < |procs|
    requires p.pid == procs[i].pid || (p.pid == 0 && GivenUp(p))
    requires GivenUp(procs[i]) ==> GivenUp(p) || !Unhandled(children, i)
    ensures Kin(procs[i := p], children)
  {
    var now := procs[i := p];
    forall k | k in children ensures Owned(now, k, children[k]) {
      assert Owned(procs, k, children[k]);
    }
    forall j | 0 <= j < |now| ensures Has(now, children, j) {
      assert Has(procs, children, j);
    }
  }

  lemma KinFork(procs: seq<Proc>, children: map<nat, Child>, i: nat, p: Proc)
    requires Kin(procs, children) && i < |procs| && procs[i].pid == 0 && !GivenUp(procs[i])
    requires p.pid != 0 && p.pid !in children
    ensures Kin(procs[i := p], children[p.pid := Child(i, Running)])
  {
    var now, all := procs[i := p], children[p.pid := Child(i, Running)];
    forall k | k in all ensures Owned(now, k, all[k]) {
      if k != p.pid {
        assert Owned(procs, k, children[k]);
      }
    }
    forall j | 0 <= j < |now| ensures Has(now, all, j) {
      assert Has(procs, children, j);
    }
  }

  lemma KinLife(procs: seq<Proc>, children: map<nat, Child>, k: nat, life: Life)
    requires Kin(procs, children) && k in children && !children[k].life.Handled? && !life.Handled?
    ensures Kin(procs, children[k := children[k].(life := life)])
  {
    var all := children[k := children[k].(life := life)];
    forall j | j in all ensures Owned(procs, j, all[j]) {
      assert Owned(procs, j, children[j]);
    }
    forall j | 0 <= j < |procs| ensures Has(procs, all, j) {
      assert Has(procs, children, j);
    }
  }

  /** A child is done with: its process loses the pid, or was given up before. */
  lemma KinDone(procs: seq<Proc>, children: map<nat, Child>, k: nat, p: Proc, raw: int)
    requires Kin(procs, children) && k in children && !children[k].life.Handled?
    requires var q := procs[children[k].owner]; if q.phase.Terminated? then p == q else p.pid == 0
    requires forall j :: 0 <= j < |procs| ==> ProcOk(procs[j])
    ensures Kin(procs[children[k].owner := p], children[k := children[k].(life := Handled(raw))])
  {
    var o := children[k].owner;
    var now, all := procs[o := p], children[k := children[k].(life := Handled(raw))];
    forall j | j in all ensures Owned(now, j, all[j]) {
      assert Owned(procs, j, children[j]) && Owned(procs, k, children[k]);
    }
    forall j | 0 <= j < |now| ensures Has(now, all, j) {
      assert Has(procs, children, j);
      assert Owned(procs, k, children[k]);
    }
  }

  lemma ControllerKeepsKinship(cfg: Config, s: State, a: Action)
    requires Kinship(s) && Thrift(s) && Procs(s) && Midway(s) && Enabled(cfg, s, a) && ByController(a)
    ensures Kinship(Next(cfg, s, a))
  {
    match a
    case PipeFails(p) =>
      if s.procs[p].phase.NotSpawned? {
        KinUpdate(s.procs, s.children, p, TerminatedInternally(s.procs[p], ForkFailed));
      }
    case SpawnBegins(p, asked) =>
      KinUpdate(s.procs, s.children, p, s.procs[p].(reserved := ReserveUpTo(s.memory, asked).1));
    case ForkFails =>
      var q := TerminatedInternally(s.procs[s.ctl.p], ForkFailed);
      KinUpdate(s.procs, s.children, s.ctl.p, q);
      KinUpdate(s.procs[s.ctl.p := q], s.children, s.ctl.p, q.(reserved := 0));
    case ForkSucceeds(pid) =>
      KinFork(s.procs, s.children, s.ctl.p, s.procs[s.ctl.p].(pid := pid, phase := Spawned));
    case PostFork =>
    case Terminate(p, fast) => KinUpdate(s.procs, s.children, p, AskedToTerminate(s.procs[p]));
    case LaunchThread =>
      KinUpdate(s.procs, s.children, s.ctl.p, s.procs[s.ctl.p].(thread := Started(s.ctl.fast)));
    case ResetBegins(p) =>
    case ResetEnds =>
      KinUpdate(s.procs, s.children, s.ctl.p, s.procs[s.ctl.p].(phase := NotSpawned, thread := NoThread));
  }

  lemma OthersKeepKinship(cfg: Config, s: State, a: Action)
    requires Base(cfg, s) && Kinship(s) && Enabled(cfg, s, a) && !ByController(a)
    ensures Kinship(Next(cfg, s, a))
  {
    match a
    case ThreadBegins(p, stopSent) => KinUpdate(s.procs, s.children, p, ThreadBegun(s.procs[p], stopSent));
    case ThreadWakes(p) => KinUpdate(s.procs, s.children, p, ThreadWoken(s.procs[p]));
    case ThreadTimesOut(p) => KinUpdate(s.procs, s.children, p, ThreadTimedOut(s.procs[p]));
    case ChildDies(pid, raw) => KinLife(s.procs, s.children, pid, Zombie(raw));
    case ReaperCollects(pid) => KinLife(s.procs, s.children, pid, Collected(s.children[pid].life.exit));
    case ReaperHandles => HandleKeepsKinship(s);
    case ReaperMarks => MarkKeepsKinship(s);
    case _ =>
  }

  lemma HandleKeepsKinship(s: State)
    requires Kinship(s) && Table(s) && Reaping(s) && s.reaper.Holding?
    ensures var k := s.reaper.pid;
      && k in s.pidMap && s.pidMap[k] == s.children[k].owner < |s.procs|
      && Kinship(SetLife(Released(s, s.pidMap[k]), k, Marking(s.reaper.raw)))
  {
    var k := s.reaper.pid;
    assert Owned(s.procs, k, s.children[k]);
    var o := s.children[k].owner;
    KinUpdate(s.procs, s.children, o, s.procs[o].(reserved := 0));
    KinLife(Released(s, o).procs, s.children, k, Marking(s.reaper.raw));
  }

  lemma MarkKeepsKinship(s: State)
    requires Kinship(s) && Reaping(s) && Procs(s) && s.reaper.Closing?
    ensures s.reaper.p < |s.procs|
    ensures Kinship(SetLife(MarkedTerminated(s, s.reaper.p, s.reaper.raw), s.reaper.pid, Handled(s.reaper.raw)))
  {
    var k, o := s.reaper.pid, s.reaper.p;
    assert Owned(s.procs, k, s.children[k]);
    var t := MarkedTerminated(s, o, s.reaper.raw);
    KinDone(s.procs, s.children, k, t.procs[o], s.reaper.raw);
    assert t.procs == s.procs[o := t.procs[o]];
  }

  lemma StepKeepsThrift(cfg: Config, s: State, a: Action)
    requires Careful(cfg) && Inv(cfg, s) && Enabled(cfg, s, a)
    ensures Thrift(Next(cfg, s, a))
  {
    if InSpawn(a) {
      SpawnKeepsThrift(cfg, s, a);
    } else if InTerminate(a) {
      TerminateKeepsThrift(cfg, s, a);
    } else if ByThread(a) {
      ThreadsKeepThrift(cfg, s, a);
    } else if a.ChildDies? {
      DeathKeepsThrift(cfg, s, a);
    } else if Looking(a) {
      LookingKeepsThrift(cfg, s, a);
    } else if a.ReaperHandles? {
      HandleKeepsThrift(cfg, s);
    } else {
      MarkKeepsThrift(cfg, s);
    }
  }

  lemma StepKeepsInv(cfg: Config, s: State, a: Action)
    requires Careful(cfg) && Inv(cfg, s) && Enabled(cfg, s, a)
    ensures Inv(cfg, Next(cfg, s, a))
  {
    StepKeepsBase(cfg, s, a);
    StepKeepsThrift(cfg, s, a);
    if ByController(a) {
      ControllerKeepsKinship(cfg, s, a);
    } else {
      OthersKeepKinship(cfg, s, a);
    }
  }

  lemma InitInv(cfg: Config)
    ensures Inv(cfg, Init(cfg))
  {
    InitBase(cfg);
  }

  lemma {:induction false} RunKeepsInv(cfg: Config, trace: seq<State>, acts: seq<Action>)
    requires Careful(cfg) && IsRun(cfg, trace, acts)
    ensures Inv(cfg, trace[|acts|])
    decreases |acts|
  {
    if acts == [] {
      InitInv(cfg);
    } else {
      var n := |acts| - 1;
      RunKeepsInv(cfg, trace[..|acts|], acts[..n]);
      StepKeepsInv(cfg, trace[n], acts[n]);
    }
  }

  // ---------------------------------------------------------------- giving up and starting over

  lemma Extend(cfg: Config, trace: seq<State>, acts: seq<Action>, a: Action)
    returns (more: seq<State>, taken: seq<Action>)
    requires IsRun(cfg, trace, acts) && Enabled(cfg, trace[|acts|], a)
    ensures IsRun(cfg, more, taken) && |taken| == |acts| + 1
    ensures more[|taken|] == Next(cfg, trace[|acts|], a)
  {
    more, taken := trace + [Next(cfg, trace[|acts|], a)], acts + [a];
  }

  /** Process 0 is there to be spawned, and nobody is doing anything. */
  predicate AtRest(s: State) {
    s.procs != [] && s.procs[0].phase.NotSpawned? && s.procs[0].pid == 0 && s.ctl.Idle? && s.reaper.Sleeping?
  }

  /** Process 0 has been spawned with a new child. */
  lemma Born(cfg: Config, trace: seq<State>, acts: seq<Action>, asked: u32, pid: nat)
    returns (more: seq<State>, taken: seq<Action>)
    requires IsRun(cfg, trace, acts) && AtRest(trace[|acts|])
    requires asked <= cfg.maxAsked && pid > 0 && pid !in trace[|acts|].children
    ensures IsRun(cfg, more, taken)
    ensures var s, t := trace[|acts|], more[|taken|];
      t == s.(procs := s.procs[0 := s.procs[0].(phase := Spawned, pid := pid, reserved := ReserveUpTo(s.memory, asked).1)],
              memory := ReserveUpTo(s.memory, asked).0,
              children := s.children[pid := Child(0, Running)], pidMap := s.pidMap[pid := 0])
  {
    more, taken := Extend(cfg, trace, acts, SpawnBegins(0, asked));
    more, taken := Extend(cfg, more, taken, ForkSucceeds(pid));
    more, taken := Extend(cfg, more, taken, PostFork);
  }

  /** It is asked to terminate, does not, is given up, and is reset although its child lives on. */
  lemma StartOver(cfg: Config, trace: seq<State>, acts: seq<Action>, asked: u32, pid: nat)
    returns (more: seq<State>, taken: seq<Action>)
    requires cfg.resetStuck && IsRun(cfg, trace, acts) && AtRest(trace[|acts|]) && trace[|acts|].procs[0].thread.NoThread?
    requires asked <= cfg.maxAsked && pid > 0 && pid !in trace[|acts|].children
    ensures IsRun(cfg, more, taken)
    ensures var s, t := trace[|acts|], more[|taken|];
      && t.procs == s.procs[0 := Proc(NotSpawned, 0, Uninterruptable, ReserveUpTo(s.memory, asked).1, NoThread)]
      && t.memory == ReserveUpTo(s.memory, asked).0
      && t.children == s.children[pid := Child(0, Running)] && t.pidMap == s.pidMap[pid := 0]
      && t.ctl.Idle? && t.reaper.Sleeping? && t.exits == s.exits
  {
    more, taken := Born(cfg, trace, acts, asked, pid);
    more, taken := Extend(cfg, more, taken, Terminate(0, true));
    more, taken := Extend(cfg, more, taken, LaunchThread);
    more, taken := Extend(cfg, more, taken, ThreadBegins(0, false));
    more, taken := Extend(cfg, more, taken, ThreadTimesOut(0));
    more, taken := Extend(cfg, more, taken, ResetBegins(0));
    more, taken := Extend(cfg, more, taken, ResetEnds);
  }

  /** The first process is in its second life, its first child running, and nothing is reserved. */
  lemma StartedOver(cfg: Config) returns (trace: seq<State>, acts: seq<Action>)
    requires !Careful(cfg)
    ensures IsRun(cfg, trace, acts)
    ensures var s := trace[|acts|];
      && s.procs == Init(cfg).procs[0 := Proc(NotSpawned, 0, Uninterruptable, 0, NoThread)]
      && s.memory == Ledger(cfg.available, 0, 0)
      && s.children == map[1 := Child(0, Running)] && s.pidMap == map[1 := 0]
      && s.ctl.Idle? && s.reaper.Sleeping? && s.exits == []
  {
    trace, acts := [Init(cfg)], [];
    ReserveUpToIff(Init(cfg).memory, 0);
    trace, acts := StartOver(cfg, trace, acts, 0, 1);
  }

  // ---------------------------------------------------------------- whose exit is recorded

  /** When an exit is marked, it is that of the process's present child, unless the process was given up. */
  ghost predicate RecordsOwn(cfg: Config, s: State) {
    Enabled(cfg, s, ReaperMarks) ==>
      var k, p, t := s.reaper.pid, s.reaper.p, Next(cfg, s, ReaperMarks);
      && k in s.children && s.children[k].owner == p && s.children[k].life.Marking?
      && p < |t.procs|
      && (if s.procs[p].phase.Terminated? then GivenUp(s.procs[p]) && t.procs[p] == s.procs[p]
          else s.procs[p].pid == k && t.procs[p].phase.Terminated?
               && t.procs[p].status == FromOs(s.children[k].life.exit))
  }

  lemma ExitReachesOwner(cfg: Config, s: State)
    requires Inv(cfg, s)
    ensures RecordsOwn(cfg, s)
  {
    if s.reaper.Closing? {
      assert Owned(s.procs, s.reaper.pid, s.children[s.reaper.pid]);
      assert ProcOk(s.procs[s.reaper.p]);
    }
  }

  /** Spawned again while the reaper's list still has the first child on it. */
  lemma SpawnedAgain(cfg: Config) returns (trace: seq<State>, acts: seq<Action>)
    requires !Careful(cfg)
    ensures IsRun(cfg, trace, acts)
    ensures var s := trace[|acts|];
      && s.ctl.Idle? && s.reaper == Checking({1}) && s.pidMap == map[1 := 0, 2 := 0]
      && s.procs == Init(cfg).procs[0 := Proc(Spawned, 2, Uninterruptable, 0, NoThread)]
      && s.memory == Ledger(cfg.available, 0, 0)
      && s.children == map[1 := Child(0, Running), 2 := Child(0, Running)]
  {
    trace, acts := StartedOver(cfg);
    trace, acts := Extend(cfg, trace, acts, ReaperLists);
    ReserveUpToIff(trace[|acts|].memory, 0);
    trace, acts := Extend(cfg, trace, acts, SpawnBegins(0, 0));
    trace, acts := Extend(cfg, trace, acts, ForkSucceeds(2));
    trace, acts := Extend(cfg, trace, acts, PostFork);
  }

  /** The first child's exit is handled while the second life runs. */
  lemma SecondLife(cfg: Config) returns (trace: seq<State>, acts: seq<Action>)
    requires !Careful(cfg)
    ensures IsRun(cfg, trace, acts)
    ensures var s := trace[|acts|];
      && s.ctl.Idle? && s.reaper == Closing(1, 0, 9, {})
      && s.procs == Init(cfg).procs[0 := Proc(Spawned, 2, Uninterruptable, 0, NoThread)]
      && s.children == map[1 := Child(0, Marking(9)), 2 := Child(0, Running)]
  {
    trace, acts := SpawnedAgain(cfg);
    trace, acts := Extend(cfg, trace, acts, ChildDies(1, 9));
    trace, acts := Extend(cfg, trace, acts, ReaperCollects(1));
    trace, acts := Extend(cfg, trace, acts, ReaperHandles);
  }

  /** So the process ends up terminated with its first child's status while its second child runs on. */
  lemma WrongExit(cfg: Config) returns (trace: seq<State>, acts: seq<Action>)
    requires !Careful(cfg)
    ensures IsRun(cfg, trace, acts)
    ensures var s := trace[|acts|];
      && s.procs == Init(cfg).procs[0 := Proc(Terminated, 0, FromOs(9), 0, NoThread)]
      && s.children == map[1 := Child(0, Handled(9)), 2 := Child(0, Running)]
  {
    trace, acts := SecondLife(cfg);
    trace, acts := Extend(cfg, trace, acts, ReaperMarks);
  }

  /** Every exit recorded is the process's own exactly when no reset comes too early. */
  lemma RecordsOwnIff(cfg: Config)
    ensures (forall trace: seq<State>, acts :: IsRun(cfg, trace, acts) ==> RecordsOwn(cfg, trace[|acts|]))
       <==> Careful(cfg)
  {
    if !Careful(cfg) {
      var trace, acts := SecondLife(cfg);
      assert Enabled(cfg, trace[|acts|], ReaperMarks);
      assert IsRun(cfg, trace, acts) && !RecordsOwn(cfg, trace[|acts|]);
    } else {
      forall trace: seq<State>, acts | IsRun(cfg, trace, acts) ensures RecordsOwn(cfg, trace[|acts|]) {
        RunKeepsInv(cfg, trace, acts);
        ExitReachesOwner(cfg, trace[|acts|]);
      }
    }
  }

  // ---------------------------------------------------------------- deadlock

  /** spawn holds the state mutex and waits for the table, the reaper holds the table and waits for that mutex. */
  predicate Deadlocked(cfg: Config, s: State) {
    s.ctl.Forked? && s.reaper.Closing? && !Enabled(cfg, s, PostFork) && !Enabled(cfg, s, ReaperMarks)
  }

  lemma NoDeadlock(cfg: Config, s: State)
    requires Inv(cfg, s)
    ensures !Deadlocked(cfg, s)
    ensures s.reaper.Closing? ==> Enabled(cfg, s, ReaperMarks)
  {
    if s.reaper.Closing? {
      assert Owned(s.procs, s.reaper.pid, s.children[s.reaper.pid]);
    }
  }

  /** The reaper has collected the first child but not yet looked it up. */
  lemma CollectedEarly(cfg: Config) returns (trace: seq<State>, acts: seq<Action>)
    requires !Careful(cfg)
    ensures IsRun(cfg, trace, acts)
    ensures var s := trace[|acts|];
      && s.ctl.Idle? && s.reaper == Holding(1, 9, {}) && s.exits == [] && s.pidMap == map[1 := 0]
      && s.procs == Init(cfg).procs[0 := Proc(NotSpawned, 0, Uninterruptable, 0, NoThread)]
      && s.memory == Ledger(cfg.available, 0, 0)
      && s.children == map[1 := Child(0, Collected(9))]
  {
    trace, acts := StartedOver(cfg);
    trace, acts := Extend(cfg, trace, acts, ReaperLists);
    trace, acts := Extend(cfg, trace, acts, ChildDies(1, 9));
    trace, acts := Extend(cfg, trace, acts, ReaperCollects(1));
  }

  /** It does so between the second fork and its postFork_cb. */
  lemma LocksCross(cfg: Config) returns (trace: seq<State>, acts: seq<Action>)
    requires !Careful(cfg)
    ensures IsRun(cfg, trace, acts) && Deadlocked(cfg, trace[|acts|])
    ensures var s := trace[|acts|]; s.exits == [1] && 2 in s.children && s.children[2] == Child(0, Running)
  {
    trace, acts := CollectedEarly(cfg);
    ReserveUpToIff(trace[|acts|].memory, 0);
    trace, acts := Extend(cfg, trace, acts, SpawnBegins(0, 0));
    trace, acts := Extend(cfg, trace, acts, ForkSucceeds(2));
    trace, acts := Extend(cfg, trace, acts, ReaperHandles);
  }

  /** Nothing gets the two out of it again. */
  lemma DeadlockLasts(cfg: Config, s: State, a: Action)
    requires Base(cfg, s) && Deadlocked(cfg, s) && Enabled(cfg, s, a)
    ensures Deadlocked(cfg, Next(cfg, s, a)) && Next(cfg, s, a).exits == s.exits
  {
  }

  /** No run deadlocks exactly when no reset comes too early. */
  lemma NoDeadlockIff(cfg: Config)
    ensures (forall trace: seq<State>, acts :: IsRun(cfg, trace, acts) ==> !Deadlocked(cfg, trace[|acts|]))
       <==> Careful(cfg)
  {
    if !Careful(cfg) {
      var trace, acts := LocksCross(cfg);
      assert IsRun(cfg, trace, acts) && Deadlocked(cfg, trace[|acts|]);
    } else {
      forall trace: seq<State>, acts | IsRun(cfg, trace, acts) ensures !Deadlocked(cfg, trace[|acts|]) {
        RunKeepsInv(cfg, trace, acts);
        NoDeadlock(cfg, trace[|acts|]);
      }
    }
  }
}
