/** Closing the capture: once the complete closing line is in the pipe, both threads come to their end. */
module CaptureShutdown {
  import opened CaptureQueue

  datatype Thread = Pipe | Log

  /** Thread t takes the step. */
  predicate By(cfg: Config, s: State, a: Action, t: Thread) {
    Enabled(cfg, s, a) && if t.Pipe? then a.PipeStep? else a.LogTake? || a.LogWrite?
  }

  predicate CanRun(cfg: Config, s: State, t: Thread) {
    if t.Pipe? then s.pipe.Reading? && s.read < |cfg.input| else s.log.Taking? || s.log.Holding?
  }

  /** An infinite run from a reachable state; where nothing can happen, nothing does. */
  ghost predicate IsInfiniteRun(cfg: Config, run: nat -> State, act: nat -> Action) {
    Inv(cfg, run(0)) && forall n: nat :: StepAt(cfg, run, act, n)
  }

  ghost predicate StepAt(cfg: Config, run: nat -> State, act: nat -> Action, n: nat) {
    if Enabled(cfg, run(n), act(n)) then run(n + 1) == Next(cfg, run(n), act(n)) else run(n + 1) == run(n)
  }

  ghost predicate FairFrom(cfg: Config, run: nat -> State, act: nat -> Action, t: Thread, n: nat) {
    exists m: nat :: n <= m && (By(cfg, run(m), act(m), t) || !CanRun(cfg, run(m), t))
  }

  /** A thread that stays able to run does run; sleeping threads need not wake up by themselves. */
  ghost predicate WeaklyFair(cfg: Config, run: nat -> State, act: nat -> Action) {
    forall t, n: nat :: FairFrom(cfg, run, act, t, n)
  }

  /** The first closing line is there and complete, as the destructor writes it. */
  predicate Closes(cfg: Config) {
    FirstStop(cfg.input) < |cfg.input| && IsMarker(cfg.input[FirstStop(cfg.input)])
  }

  /** What there still is to read, to take and to write. */
  function Left(cfg: Config, s: State): int {
    Readable(cfg.input) - s.read + 2 * (FirstStop(cfg.input) + 1 - Taken(s)) + (if s.log.Holding? then 1 else 0)
  }

  /** The thread whose next step is certain to be progress. */
  function Helpful(s: State): Thread { if s.queue != [] || s.log.Holding? then Log else Pipe }

  predicate Over(s: State) { s.log.LogDone? && s.pipe.PipeDone? }

  lemma ReadUpToStop(cfg: Config)
    requires Closes(cfg)
    ensures Readable(cfg.input) == FirstStop(cfg.input) + 1
  {
    ReadableIs(cfg.input, FirstStop(cfg.input));
  }

  lemma StepKeepsInv(cfg: Config, s: State, a: Action)
    requires Inv(cfg, s) && Enabled(cfg, s, a)
    ensures Inv(cfg, Next(cfg, s, a))
  {
    match a
    case PipeStep =>
      PipeKeepsContents(cfg, s);
      PipeKeepsWaiting(cfg, s);
    case LogTake => TakeKeepsInv(cfg, s);
    case LogWrite => WriteKeepsInv(cfg, s);
    case _ =>
  }

  lemma {:induction false} InvAlways(cfg: Config, run: nat -> State, act: nat -> Action, n: nat)
    requires IsInfiniteRun(cfg, run, act)
    ensures Inv(cfg, run(n))
  {
    if n > 0 {
      InvAlways(cfg, run, act, n - 1);
      assert StepAt(cfg, run, act, n - 1);
      if Enabled(cfg, run(n - 1), act(n - 1)) {
        StepKeepsInv(cfg, run(n - 1), act(n - 1));
      }
    }
  }

  lemma DoneMeansOver(cfg: Config, s: State)
    requires Closes(cfg) && Inv(cfg, s) && s.log.LogDone?
    ensures Over(s) && s.logged == Texts(cfg.input[..FirstStop(cfg.input)])
  {
    ReadUpToStop(cfg);
  }

  lemma HelpfulCanRun(cfg: Config, s: State)
    requires Closes(cfg) && Inv(cfg, s) && !s.log.LogDone?
    ensures CanRun(cfg, s, Helpful(s)) && Left(cfg, s) > 0
  {
    ReadUpToStop(cfg);
  }

  /** Nothing makes more work, and what makes none less leaves the helpful thread helpful. */
  predicate Progress(cfg: Config, s: State, t: State, strict: bool) {
    && Left(cfg, t) <= Left(cfg, s)
    && (strict ==> Left(cfg, t) < Left(cfg, s))
    && (Left(cfg, t) == Left(cfg, s) && !t.log.LogDone? ==> Helpful(t) == Helpful(s))
  }

  lemma StepProgress(cfg: Config, s: State, a: Action)
    requires Closes(cfg) && Inv(cfg, s) && !s.log.LogDone? && Enabled(cfg, s, a)
    ensures Progress(cfg, s, Next(cfg, s, a), By(cfg, s, a, Helpful(s)))
  {
    ReadUpToStop(cfg);
  }

  lemma ProgressAt(cfg: Config, run: nat -> State, act: nat -> Action, n: nat)
    requires Closes(cfg) && IsInfiniteRun(cfg, run, act) && !run(n).log.LogDone?
    ensures CanRun(cfg, run(n), Helpful(run(n))) && Left(cfg, run(n)) > 0
    ensures Progress(cfg, run(n), run(n + 1), By(cfg, run(n), act(n), Helpful(run(n))))
  {
    InvAlways(cfg, run, act, n);
    assert StepAt(cfg, run, act, n);
    HelpfulCanRun(cfg, run(n));
    if Enabled(cfg, run(n), act(n)) {
      StepProgress(cfg, run(n), act(n));
    }
  }

  /** From n on, look for the first point where work got less; until then the helper stays. */
  lemma {:induction false} HelpfulStays(cfg: Config, run: nat -> State, act: nat -> Action, n: nat, m: nat) returns (k: nat)
    requires Closes(cfg) && IsInfiniteRun(cfg, run, act) && n <= m && !run(n).log.LogDone?
    ensures n <= k <= m
    ensures
      || run(k).log.LogDone?
      || Left(cfg, run(k)) < Left(cfg, run(n))
      || (k == m && Left(cfg, run(m)) == Left(cfg, run(n)) && Helpful(run(m)) == Helpful(run(n)))
    decreases m - n
  {
    if n == m {
      k := n;
    } else {
      k := HelpfulStays(cfg, run, act, n, m - 1);
      if !run(k).log.LogDone? && Left(cfg, run(k)) == Left(cfg, run(n)) {
        ProgressAt(cfg, run, act, k);
        k := m;
      }
    }
  }

  /** On every weakly fair run both threads end, and everything before the closing line is logged. */
  lemma {:induction false} CaptureEnds(cfg: Config, run: nat -> State, act: nat -> Action, n: nat) returns (k: nat)
    requires Closes(cfg) && IsInfiniteRun(cfg, run, act) && WeaklyFair(cfg, run, act)
    ensures n <= k && Over(run(k)) && run(k).logged == Texts(cfg.input[..FirstStop(cfg.input)])
    decreases if run(n).log.LogDone? then 0 else Left(cfg, run(n))
  {
    if run(n).log.LogDone? {
      InvAlways(cfg, run, act, n);
      DoneMeansOver(cfg, run(n));
      k := n;
    } else {
      var t := Helpful(run(n));
      assert FairFrom(cfg, run, act, t, n);
      var m: nat :| n <= m && (By(cfg, run(m), act(m), t) || !CanRun(cfg, run(m), t));
      k := HelpfulStays(cfg, run, act, n, m);
      ProgressAt(cfg, run, act, n);
      if !run(k).log.LogDone? && Left(cfg, run(k)) == Left(cfg, run(n)) {
        ProgressAt(cfg, run, act, m);
        k := m + 1;
      }
      if !run(k).log.LogDone? {
        ProgressAt(cfg, run, act, k);
      }
      k := CaptureEnds(cfg, run, act, k);
    }
  }
}
