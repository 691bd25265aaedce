/**
 Memory of the process manager's processes.  What is reserved stays within what is available, and covers
 what the processes have, exactly if no request can make the 32-bit sum overflow; it is exactly what they
 have if, besides, no reset comes too early.
 */
module ProcessMemory {
  import opened Bytes
  import opened MemoryTracking
  import opened Processes
  import opened ProcessSafety
  import opened ProcessReset

  function Sum(procs: seq<Proc>): nat {
    if procs == [] then 0 else Sum(procs[..|procs| - 1]) + procs[|procs| - 1].reserved
  }

  /** No process has memory that is not reserved, and no more is reserved than there is. */
  predicate Covered(cfg: Config, s: State) {
    && s.memory.available == cfg.available && s.memory.borrowed == 0
    && Sum(s.procs) <= s.memory.reserved <= cfg.available
  }

  lemma {:induction false} SumUpdate(procs: seq<Proc>, i: nat, p: Proc)
    requires i < |procs|
    ensures Sum(procs[i := p]) == Sum(procs) - procs[i].reserved + p.reserved
    ensures procs[i].reserved <= Sum(procs)
    decreases |procs|
  {
    var n := |procs| - 1;
    if i == n {
      assert procs[i := p][..n] == procs[..n];
    } else {
      SumUpdate(procs[..n], i, p);
      assert procs[i := p][..n] == procs[..n][i := p];
    }
  }

  /** What is reserved beyond what the processes have. */
  function Surplus(s: State): int { s.memory.reserved - Sum(s.procs) }

  lemma ReleaseKeepsCover(cfg: Config, s: State, p: nat)
    requires p < |s.procs| && Covered(cfg, s)
    ensures Covered(cfg, Released(s, p)) && Surplus(Released(s, p)) == Surplus(s)
    ensures Released(s, p).memory.reserved == s.memory.reserved - s.procs[p].reserved
  {
    SumUpdate(s.procs, p, s.procs[p].(reserved := 0));
  }

  /** Changing anything but the reservation of a process. */
  lemma WithKeepsCover(cfg: Config, s: State, p: nat, q: Proc)
    requires p < |s.procs| && Covered(cfg, s) && q.reserved == s.procs[p].reserved
    ensures Covered(cfg, With(s, p, q)) && Surplus(With(s, p, q)) == Surplus(s)
  {
    SumUpdate(s.procs, p, q);
  }

  /** What is reserved is exactly what the processes have, and no more than there is. */
  predicate Conserved(cfg: Config, s: State) { Covered(cfg, s) && Surplus(s) == 0 }

  /** No process has more than a spawn can ask for. */
  ghost predicate Modest(cfg: Config, procs: seq<Proc>) {
    forall i :: 0 <= i < |procs| ==> procs[i].reserved <= cfg.maxAsked
  }

  lemma {:induction false} SumOfFresh(procs: seq<Proc>)
    requires forall i :: 0 <= i < |procs| ==> procs[i] == Fresh()
    ensures Sum(procs) == 0
  {
    if procs != [] {
      SumOfFresh(procs[..|procs| - 1]);
    }
  }

  // ---------------------------------------------------------------- how much can be reserved

  function Most(available: nat, count: nat, each: nat): nat { Min(available, count * each) }

  /** The most that can be reserved when a spawn begins: by all the others, or by all who were here before. */
  function Peak(cfg: Config): nat {
    if cfg.count == 0 then 0
    else if cfg.resetStuck && cfg.maxAsked > 0 then cfg.available
    else Most(cfg.available, cfg.count - 1, cfg.maxAsked)
  }

  predicate NoOverflow(cfg: Config) { Peak(cfg) + cfg.maxAsked < TWO_32 }

  lemma {:induction false} SumAtMost(procs: seq<Proc>, max: nat)
    requires forall i :: 0 <= i < |procs| ==> procs[i].reserved <= max
    ensures Sum(procs) <= |procs| * max
  {
    if procs != [] {
      SumAtMost(procs[..|procs| - 1], max);
      assert |procs| * max == (|procs| - 1) * max + max;
    }
  }

  lemma {:induction false} SumWithoutOne(procs: seq<Proc>, p: nat, max: nat)
    requires p < |procs| && procs[p].reserved == 0 && forall i :: 0 <= i < |procs| ==> procs[i].reserved <= max
    ensures Sum(procs) <= (|procs| - 1) * max
  {
    var n := |procs| - 1;
    if p == n {
      SumAtMost(procs[..n], max);
    } else {
      SumWithoutOne(procs[..n], p, max);
      assert n * max == (n - 1) * max + max;
    }
  }

  // ---------------------------------------------------------------- every step, every run

  lemma ControllerKeepsCover(cfg: Config, s: State, a: Action)
    requires Covered(cfg, s) && Enabled(cfg, s, a) && ByController(a) && !a.SpawnBegins?
    ensures Covered(cfg, Next(cfg, s, a)) && Surplus(Next(cfg, s, a)) == Surplus(s)
    ensures Next(cfg, s, a).memory.reserved <= s.memory.reserved
  {
    match a
    case PipeFails(p) => WithKeepsCover(cfg, s, p, TerminatedInternally(s.procs[p], ForkFailed));
    case ForkFails =>
      var q := TerminatedInternally(s.procs[s.ctl.p], ForkFailed);
      WithKeepsCover(cfg, s, s.ctl.p, q);
      ReleaseKeepsCover(cfg, With(s, s.ctl.p, q), s.ctl.p);
    case ForkSucceeds(pid) => WithKeepsCover(cfg, s, s.ctl.p, s.procs[s.ctl.p].(pid := pid, phase := Spawned));
    case PostFork =>
    case Terminate(p, fast) => WithKeepsCover(cfg, s, p, AskedToTerminate(s.procs[p]));
    case LaunchThread => WithKeepsCover(cfg, s, s.ctl.p, s.procs[s.ctl.p].(thread := Started(s.ctl.fast)));
    case ResetBegins(p) =>
    case ResetEnds =>
      WithKeepsCover(cfg, s, s.ctl.p, s.procs[s.ctl.p].(phase := NotSpawned, thread := NoThread));
  }

  lemma MarkKeepsCover(cfg: Config, s: State, p: nat, raw: int)
    requires p < |s.procs| && Covered(cfg, s)
    ensures Covered(cfg, MarkedTerminated(s, p, raw)) && Surplus(MarkedTerminated(s, p, raw)) == Surplus(s)
    ensures MarkedTerminated(s, p, raw).memory.reserved <= s.memory.reserved
  {
    if !s.procs[p].phase.Terminated? {
      ReleaseKeepsCover(cfg, s, p);
      var t := Released(s, p);
      WithKeepsCover(cfg, t, p, t.procs[p].(phase := Terminated, status := FromOs(raw), pid := 0));
    }
  }

  lemma OthersKeepCover(cfg: Config, s: State, a: Action)
    requires Covered(cfg, s) && Enabled(cfg, s, a) && !ByController(a)
    ensures Covered(cfg, Next(cfg, s, a)) && Surplus(Next(cfg, s, a)) == Surplus(s)
    ensures Next(cfg, s, a).memory.reserved <= s.memory.reserved
  {
    match a
    case ThreadBegins(p, stopSent) => WithKeepsCover(cfg, s, p, ThreadBegun(s.procs[p], stopSent));
    case ThreadWakes(p) => WithKeepsCover(cfg, s, p, ThreadWoken(s.procs[p]));
    case ThreadTimesOut(p) => WithKeepsCover(cfg, s, p, ThreadTimedOut(s.procs[p]));
    case ReaperHandles =>
      if s.reaper.pid in s.pidMap && s.pidMap[s.reaper.pid] < |s.procs| {
        ReleaseKeepsCover(cfg, s, s.pidMap[s.reaper.pid]);
      }
    case ReaperMarks => MarkKeepsCover(cfg, s, s.reaper.p, s.reaper.raw);
    case _ =>
  }

  /** A spawn that does not make the sum overflow. */
  lemma SpawnKeepsCover(cfg: Config, s: State, p: nat, asked: u32)
    requires Covered(cfg, s) && Enabled(cfg, s, SpawnBegins(p, asked)) && s.memory.reserved + asked < TWO_32
    ensures var t := Next(cfg, s, SpawnBegins(p, asked));
      && Covered(cfg, t) && (s.procs[p].reserved == 0 ==> Surplus(t) == Surplus(s))
      && (Modest(cfg, s.procs) ==> Modest(cfg, t.procs))
  {
    ReserveUpToIff(s.memory, asked);
    SumUpdate(s.procs, p, s.procs[p].(reserved := ReserveUpTo(s.memory, asked).1));
  }

  ghost predicate Books(cfg: Config, s: State) {
    Covered(cfg, s) && Modest(cfg, s.procs) && (Careful(cfg) ==> Surplus(s) == 0)
  }

  /** When a spawn begins, no more than the peak is reserved. */
  lemma WithinPeak(cfg: Config, s: State, p: nat)
    requires |s.procs| == cfg.count && Books(cfg, s) && p < |s.procs| && s.procs[p].phase.NotSpawned? && s.ctl.Idle?
    requires Careful(cfg) ==> Thrift(s)
    requires cfg.maxAsked > 0
    ensures s.memory.reserved <= Peak(cfg)
  {
    if Careful(cfg) {
      SumWithoutOne(s.procs, p, cfg.maxAsked);
    }
  }

  lemma ReaperKeepsModest(cfg: Config, s: State, a: Action)
    requires Enabled(cfg, s, a) && ByReaper(a) && Modest(cfg, s.procs)
    ensures Modest(cfg, Next(cfg, s, a).procs)
  {
  }

  lemma OthersKeepModest(cfg: Config, s: State, a: Action)
    requires Enabled(cfg, s, a) && !a.SpawnBegins? && Modest(cfg, s.procs)
    ensures Modest(cfg, Next(cfg, s, a).procs)
  {
    if ByReaper(a) {
      ReaperKeepsModest(cfg, s, a);
    }
  }

  lemma StepKeepsBooks(cfg: Config, s: State, a: Action)
    requires NoOverflow(cfg) && Base(cfg, s) && (Careful(cfg) ==> Thrift(s)) && Books(cfg, s) && Enabled(cfg, s, a)
    ensures Books(cfg, Next(cfg, s, a))
  {
    if a.SpawnBegins? {
      if s.procs[a.p].phase.NotSpawned? {
        if cfg.maxAsked > 0 {
          WithinPeak(cfg, s, a.p);
        }
        SpawnKeepsCover(cfg, s, a.p, a.asked);
      }
    } else {
      OthersKeepModest(cfg, s, a);
      if ByController(a) {
        ControllerKeepsCover(cfg, s, a);
      } else {
        OthersKeepCover(cfg, s, a);
      }
    }
  }

  lemma {:induction false} RunKeepsBooks(cfg: Config, trace: seq<State>, acts: seq<Action>)
    requires NoOverflow(cfg) && IsRun(cfg, trace, acts)
    ensures Books(cfg, trace[|acts|])
    decreases |acts|
  {
    if acts == [] {
      SumOfFresh(Init(cfg).procs);
    } else {
      var n := |acts| - 1;
      RunKeepsBooks(cfg, trace[..|acts|], acts[..n]);
      RunKeepsBase(cfg, trace[..|acts|], acts[..n]);
      if Careful(cfg) {
        RunKeepsInv(cfg, trace[..|acts|], acts[..n]);
      }
      StepKeepsBooks(cfg, trace[n], acts[n]);
    }
  }

  // ---------------------------------------------------------------- overflow

  /** The processes have more than is reserved. */
  predicate Overdrawn(s: State) { Surplus(s) < 0 }

  lemma OverflowOverdraws(cfg: Config, s: State, p: nat, asked: u32)
    requires Enabled(cfg, s, SpawnBegins(p, asked)) && s.procs[p].phase.NotSpawned?
    requires InOrder(s.memory) && s.memory.borrowed == 0 && s.memory.reserved + asked >= TWO_32
    ensures Overdrawn(Next(cfg, s, SpawnBegins(p, asked)))
  {
    OverflowGrants(s.memory, asked);
    var t := Next(cfg, s, SpawnBegins(p, asked));
    SumUpdate(t.procs, p, t.procs[p]);
  }

  /** The first j processes have been spawned, each asking for all it may. */
  ghost predicate Crowd(cfg: Config, s: State, j: nat) {
    && j <= |s.procs| == cfg.count && s.ctl.Idle? && s.reaper.Sleeping?
    && (forall i :: j <= i < |s.procs| ==> s.procs[i] == Fresh())
    && (forall k :: k in s.children ==> k <= j)
    && s.memory == Ledger(cfg.available, Most(cfg.available, j, cfg.maxAsked), 0)
  }

  lemma OneMore(available: nat, j: nat, each: nat)
    ensures Most(available, j + 1, each) == Min(available, Most(available, j, each) + each)
  {
    assert (j + 1) * each == j * each + each;
  }

  lemma {:induction false} SpawnMany(cfg: Config, j: nat) returns (trace: seq<State>, acts: seq<Action>)
    requires j <= cfg.count
    ensures IsRun(cfg, trace, acts) && (Overdrawn(trace[|acts|]) || Crowd(cfg, trace[|acts|], j))
  {
    if j == 0 {
      trace, acts := [Init(cfg)], [];
    } else {
      trace, acts := SpawnMany(cfg, j - 1);
      if !Overdrawn(trace[|acts|]) {
        trace, acts := SpawnNext(cfg, trace, acts, j - 1);
      }
    }
  }

  lemma SpawnNext(cfg: Config, trace: seq<State>, acts: seq<Action>, j: nat) returns (more: seq<State>, taken: seq<Action>)
    requires IsRun(cfg, trace, acts) && Crowd(cfg, trace[|acts|], j) && j < cfg.count
    ensures IsRun(cfg, more, taken) && (Overdrawn(more[|taken|]) || Crowd(cfg, more[|taken|], j + 1))
    ensures trace[|acts|].memory.reserved + cfg.maxAsked >= TWO_32 ==> Overdrawn(more[|taken|])
  {
    var s := trace[|acts|];
    more, taken := Extend(cfg, trace, acts, SpawnBegins(j, cfg.maxAsked));
    if s.memory.reserved + cfg.maxAsked >= TWO_32 {
      OverflowOverdraws(cfg, s, j, cfg.maxAsked);
    } else {
      ReserveUpToIff(s.memory, cfg.maxAsked);
      OneMore(cfg.available, j, cfg.maxAsked);
      more, taken := Extend(cfg, more, taken, ForkSucceeds(j + 1));
      more, taken := Extend(cfg, more, taken, PostFork);
    }
  }

  /** The first process has had j lives. */
  ghost predicate Lives(cfg: Config, s: State, j: nat) {
    && AtRest(s) && s.procs[0].thread.NoThread? && (forall k :: k in s.children ==> k <= j)
    && s.memory.available == cfg.available && s.memory.borrowed == 0 && s.memory.reserved <= cfg.available
  }

  /** Life after life leaks until nothing is left. */
  lemma {:induction false} LeakAll(cfg: Config, trace: seq<State>, acts: seq<Action>, j: nat)
    returns (more: seq<State>, taken: seq<Action>)
    requires cfg.resetStuck && cfg.maxAsked > 0 && cfg.available + cfg.maxAsked >= TWO_32
    requires IsRun(cfg, trace, acts) && Lives(cfg, trace[|acts|], j)
    ensures IsRun(cfg, more, taken) && Overdrawn(more[|taken|])
    decreases cfg.available - trace[|acts|].memory.reserved
  {
    var s := trace[|acts|];
    if s.memory.reserved + cfg.maxAsked >= TWO_32 {
      OverflowOverdraws(cfg, s, 0, cfg.maxAsked);
      more, taken := Extend(cfg, trace, acts, SpawnBegins(0, cfg.maxAsked));
    } else {
      ReserveUpToIff(s.memory, cfg.maxAsked);
      more, taken := StartOver(cfg, trace, acts, cfg.maxAsked, j + 1);
      more, taken := LeakAll(cfg, more, taken, j + 1);
    }
  }

  lemma OverflowHappens(cfg: Config) returns (trace: seq<State>, acts: seq<Action>)
    requires !NoOverflow(cfg)
    ensures IsRun(cfg, trace, acts) && Overdrawn(trace[|acts|])
  {
    if cfg.resetStuck && cfg.maxAsked > 0 {
      trace, acts := LeakAll(cfg, [Init(cfg)], [], 0);
    } else {
      trace, acts := SpawnMany(cfg, cfg.count - 1);
      if !Overdrawn(trace[|acts|]) {
        trace, acts := SpawnNext(cfg, trace, acts, cfg.count - 1);
      }
    }
  }

  // ---------------------------------------------------------------- the theorems

  /** No process ever has memory that is not reserved, nor is more reserved than there is, unless a sum overflows. */
  lemma CoveredIff(cfg: Config)
    ensures (forall trace: seq<State>, acts :: IsRun(cfg, trace, acts) ==> Covered(cfg, trace[|acts|]))
       <==> NoOverflow(cfg)
  {
    if NoOverflow(cfg) {
      forall trace: seq<State>, acts | IsRun(cfg, trace, acts) ensures Covered(cfg, trace[|acts|]) {
        RunKeepsBooks(cfg, trace, acts);
      }
    } else {
      var trace, acts := OverflowHappens(cfg);
      assert IsRun(cfg, trace, acts) && !Covered(cfg, trace[|acts|]);
    }
  }

  /** Spawned again while its first child still has memory reserved, a process forgets about that. */
  lemma ResetStuckLeaks(cfg: Config) returns (trace: seq<State>, acts: seq<Action>)
    requires !Careful(cfg) && cfg.available > 0 && cfg.maxAsked > 0
    ensures IsRun(cfg, trace, acts) && Surplus(trace[|acts|]) == 1
  {
    ReserveUpToIff(Init(cfg).memory, 1);
    trace, acts := StartOver(cfg, [Init(cfg)], [], 1, 1);
    ReserveUpToIff(trace[|acts|].memory, 1);
    trace, acts := Extend(cfg, trace, acts, SpawnBegins(0, 1));
    SumOfFresh(Init(cfg).procs);
    var s := trace[|acts|];
    SumUpdate(Init(cfg).procs, 0, s.procs[0]);
    assert s.procs == Init(cfg).procs[0 := s.procs[0]];
  }

  /** Memory is conserved on every run exactly when no sum overflows and no reset that matters comes too early. */
  lemma ConservedIff(cfg: Config)
    ensures (forall trace: seq<State>, acts :: IsRun(cfg, trace, acts) ==> Conserved(cfg, trace[|acts|]))
       <==> NoOverflow(cfg) && (Careful(cfg) || cfg.available == 0 || cfg.maxAsked == 0)
  {
    if !NoOverflow(cfg) {
      var trace, acts := OverflowHappens(cfg);
      assert IsRun(cfg, trace, acts) && !Conserved(cfg, trace[|acts|]);
    } else if !Careful(cfg) && cfg.available > 0 && cfg.maxAsked > 0 {
      var trace, acts := ResetStuckLeaks(cfg);
      assert IsRun(cfg, trace, acts) && !Conserved(cfg, trace[|acts|]);
    } else {
      forall trace: seq<State>, acts | IsRun(cfg, trace, acts) ensures Conserved(cfg, trace[|acts|]) {
        RunKeepsBooks(cfg, trace, acts);
        if !Careful(cfg) {
          NothingReserved(cfg, trace, acts);
        }
      }
    }
  }

  lemma {:induction false} NothingReserved(cfg: Config, trace: seq<State>, acts: seq<Action>)
    requires (cfg.available == 0 || cfg.maxAsked == 0) && NoOverflow(cfg) && IsRun(cfg, trace, acts)
    ensures trace[|acts|].memory.reserved == 0
    decreases |acts|
  {
    if acts != [] {
      var n := |acts| - 1;
      NothingReserved(cfg, trace[..|acts|], acts[..n]);
      RunKeepsBooks(cfg, trace[..|acts|], acts[..n]);
      NothingAdded(cfg, trace[n], acts[n]);
    }
  }

  lemma NothingGranted(l: Ledger, asked: u32)
    requires l.reserved == l.borrowed == 0 && (l.available == 0 || asked == 0)
    ensures ReserveUpTo(l, asked) == (l, 0)
  {
    assert Add32(0, 0) == 0;
    assert ReserveIn(l, 0) == (l, 0);
    if asked > 0 {
      assert ReserveIn(l, asked) == (l, asked);
    }
  }

  lemma NothingAdded(cfg: Config, s: State, a: Action)
    requires (cfg.available == 0 || cfg.maxAsked == 0) && Covered(cfg, s) && s.memory.reserved == 0 && Enabled(cfg, s, a)
    ensures Next(cfg, s, a).memory.reserved == 0
  {
    if a.SpawnBegins? {
      NothingGranted(s.memory, a.asked);
    } else if ByController(a) {
      ControllerKeepsCover(cfg, s, a);
    } else {
      OthersKeepCover(cfg, s, a);
    }
  }

  /** A spawn gets the smaller of what it asks for and what is left, exactly when the sum does not overflow. */
  lemma SpawnGets(cfg: Config, s: State, p: nat, asked: u32)
    requires Covered(cfg, s) && Enabled(cfg, s, SpawnBegins(p, asked)) && s.procs[p].phase.NotSpawned?
    ensures var t := Next(cfg, s, SpawnBegins(p, asked)); var free := cfg.available - s.memory.reserved;
      && free >= 0
      && (t.procs == s.procs[p := s.procs[p].(reserved := if asked <= free then asked else free)]
          && t.memory.reserved == s.memory.reserved + t.procs[p].reserved
          <==> s.memory.reserved + asked < TWO_32)
  {
    ReserveUpToIff(s.memory, asked);
    if s.memory.reserved + asked >= TWO_32 {
      OverflowGrants(s.memory, asked);
    }
  }
}
