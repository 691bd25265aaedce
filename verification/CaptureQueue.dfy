/**
 Captured output on its way to the logger: one thread reads lines from a pipe into a bounded queue,
 another logs them.  They share one mutex and one condition variable, and each notifies the other
 only when the queue stops being empty or stops being full.  A step is one locked region.
 */
module CaptureQueue {

  const CLOSING := "Closing stream prefixer"

  /**
   What becomes of one fgets: its line as a string, with the newline unless something cut the string short.
   A line too long for the buffer is cut at 4095 characters, which is not the closing line; but a NUL in the
   line also ends the string there, so a closing line with a NUL before its newline arrives without it.
   */
  datatype Piece = Piece(text: string, newline: bool)

  /** The pipe thread stops after queueing this. */
  predicate IsMarker(p: Piece) { p.text == CLOSING && p.newline }

  /** The log thread, which strips the newline first, stops at either form. */
  predicate IsStop(p: Piece) { p.text == CLOSING }

  datatype PipeThread = Reading | PipeAsleep | PipeDone

  datatype LogThread = Taking | LogAsleep | Holding(piece: Piece) | LogDone

  /** read counts the pieces queued; logged is what reached the logger. */
  datatype State = State(queue: seq<Piece>, read: nat, pipe: PipeThread, log: LogThread, logged: seq<string>)

  /** Everything that can be read from the pipe, and the queue's bound. */
  datatype Config = Config(input: seq<Piece>, max: nat)

  datatype Action = PipeStep | LogTake | LogWrite | PipeWakes | LogWakes

  const INIT := State([], 0, Reading, Taking, [])

  predicate Enabled(cfg: Config, s: State, a: Action) {
    match a
    case PipeStep => s.pipe.Reading? && s.read < |cfg.input|
    case LogTake => s.log.Taking?
    case LogWrite => s.log.Holding?
    case PipeWakes => s.pipe.PipeAsleep?  // spuriously, or notified
    case LogWakes => s.log.LogAsleep?
  }

  /** notify_all: whoever waits gets to look again. */
  function WakePipe(p: PipeThread): PipeThread { if p.PipeAsleep? then Reading else p }

  function WakeLog(l: LogThread): LogThread { if l.LogAsleep? then Taking else l }

  /** Queue the piece in hand, or wait while the queue is full. */
  function Queue(cfg: Config, s: State): State
    requires s.read < |cfg.input|
  {
    if |s.queue| >= cfg.max then s.(pipe := PipeAsleep)
    else
      var piece := cfg.input[s.read];
      var queue := s.queue + [piece];
      s.(queue := queue, read := s.read + 1,
         log := if |queue| == 1 then WakeLog(s.log) else s.log,
         pipe := if IsMarker(piece) then PipeDone else Reading)
  }

  function Take(cfg: Config, s: State): State {
    if s.queue == [] then s.(log := LogAsleep)
    else
      s.(queue := s.queue[1..], log := Holding(s.queue[0]),
         pipe := if |s.queue| == cfg.max then WakePipe(s.pipe) else s.pipe)
  }

  /** Log the line, or put the marker back, without its newline, for any other log thread. */
  function Write(s: State): State
    requires s.log.Holding?
  {
    if IsStop(s.log.piece)
    then s.(queue := s.queue + [Piece(CLOSING, false)], pipe := WakePipe(s.pipe), log := LogDone)
    else s.(logged := s.logged + [s.log.piece.text], log := Taking)
  }

  function Next(cfg: Config, s: State, a: Action): State
    requires Enabled(cfg, s, a)
  {
    match a
    case PipeStep => Queue(cfg, s)
    case LogTake => Take(cfg, s)
    case LogWrite => Write(s)
    case PipeWakes => s.(pipe := Reading)
    case LogWakes => s.(log := Taking)
  }

  ghost predicate IsRun(cfg: Config, trace: seq<State>, acts: seq<Action>) {
    && |trace| == |acts| + 1
    && trace[0] == INIT
    && (forall i :: 0 <= i < |acts| ==> Enabled(cfg, trace[i], acts[i]) && trace[i + 1] == Next(cfg, trace[i], acts[i]))
  }

  // ---------------------------------------------------------------- the invariant

  /** Where the log thread will stop: the first closing line, in either form. */
  function FirstStop(input: seq<Piece>): (k: nat)
    ensures k <= |input|
    ensures forall i :: 0 <= i < k ==> !IsStop(input[i])
    ensures k < |input| ==> IsStop(input[k])
  {
    if input == [] || IsStop(input[0]) then 0 else 1 + FirstStop(input[1..])
  }

  /** How much the pipe thread reads: up to and including the first complete closing line. */
  function Readable(input: seq<Piece>): (n: nat)
    ensures n <= |input|
    ensures forall i :: 0 <= i < n - 1 ==> !IsMarker(input[i])
    ensures n < |input| ==> n > 0 && IsMarker(input[n - 1])
  {
    if input == [] then 0 else if IsMarker(input[0]) then 1 else 1 + Readable(input[1..])
  }

  /** Pieces that are read after the log thread has stopped taking them. */
  function Orphans(input: seq<Piece>): int { Readable(input) - FirstStop(input) - 1 }

  function Texts(ps: seq<Piece>): seq<string> {
    if ps == [] then [] else Texts(ps[..|ps| - 1]) + [ps[|ps| - 1].text]
  }

  /** How many pieces the log thread has taken. */
  function Taken(s: State): nat { |s.logged| + (if s.log.Holding? || s.log.LogDone? then 1 else 0) }

  ghost predicate Contents(cfg: Config, s: State) {
    && s.read <= Readable(cfg.input)
    && Taken(s) <= s.read && |s.logged| <= FirstStop(cfg.input)
    && s.logged == Texts(cfg.input[..|s.logged|])
    && (s.log.Holding? ==> s.log.piece == cfg.input[|s.logged|])
    && (s.log.LogDone? ==> |s.logged| == FirstStop(cfg.input))
    && (if s.log.LogDone? then |s.queue| == s.read - Taken(s) + 1 else s.queue == cfg.input[Taken(s)..s.read])
  }

  ghost predicate Waiting(cfg: Config, s: State)
    requires s.read <= |cfg.input|
  {
    && (s.pipe.PipeAsleep? ==> |s.queue| >= cfg.max && s.read < Readable(cfg.input))
    && (s.log.LogAsleep? ==> s.queue == [])
    && |s.queue| <= cfg.max + (if s.log.LogDone? then 1 else 0)
    && (s.pipe.PipeDone? <==> s.read > 0 && IsMarker(cfg.input[s.read - 1]))
    && (s.pipe.Reading? && s.read < |cfg.input| ==> s.read < Readable(cfg.input))
  }

  ghost predicate Inv(cfg: Config, s: State) {
    cfg.max > 0 && s.read <= |cfg.input| && Contents(cfg, s) && Waiting(cfg, s)
  }

  lemma {:induction false} ReadableIs(input: seq<Piece>, n: nat)
    requires n < |input| && forall i :: 0 <= i < n ==> !IsMarker(input[i])
    ensures Readable(input) > n
    ensures IsMarker(input[n]) ==> Readable(input) == n + 1
    decreases n
  {
    if n > 0 {
      ReadableIs(input[1..], n - 1);
    }
  }

  lemma TextsSnoc(input: seq<Piece>, n: nat)
    requires n < |input|
    ensures Texts(input[..n + 1]) == Texts(input[..n]) + [input[n].text]
  {
    assert input[..n + 1][..n] == input[..n];
  }

  lemma SliceGrows(input: seq<Piece>, i: nat, j: nat)
    requires i <= j < |input|
    ensures input[i..j] + [input[j]] == input[i..j + 1]
  {
  }

  lemma PipeKeepsContents(cfg: Config, s: State)
    requires Inv(cfg, s) && Enabled(cfg, s, PipeStep)
    ensures Contents(cfg, Next(cfg, s, PipeStep))
  {
    if |s.queue| < cfg.max {
      var t, taken := Next(cfg, s, PipeStep), Taken(s);
      assert Taken(t) == taken && t.read == s.read + 1 <= Readable(cfg.input);
      if !s.log.LogDone? {
        SliceGrows(cfg.input, taken, s.read);
      }
    }
  }

  lemma PipeKeepsWaiting(cfg: Config, s: State)
    requires Inv(cfg, s) && Enabled(cfg, s, PipeStep)
    ensures Waiting(cfg, Next(cfg, s, PipeStep))
  {
    ReadableIs(cfg.input, s.read);
    if s.read + 1 < |cfg.input| && !IsMarker(cfg.input[s.read]) {
      ReadableIs(cfg.input, s.read + 1);
    }
  }

  lemma TakeKeepsInv(cfg: Config, s: State)
    requires Inv(cfg, s) && Enabled(cfg, s, LogTake)
    ensures Inv(cfg, Next(cfg, s, LogTake))
  {
    if s.queue != [] {
      var taken := Taken(s);
      assert s.queue == cfg.input[taken..s.read];
      assert s.queue[1..] == cfg.input[taken + 1..s.read];
    }
  }

  lemma WriteKeepsContents(cfg: Config, s: State)
    requires Inv(cfg, s) && Enabled(cfg, s, LogWrite)
    ensures Contents(cfg, Next(cfg, s, LogWrite))
  {
    TextsSnoc(cfg.input, |s.logged|);
  }

  lemma WriteKeepsWaiting(cfg: Config, s: State)
    requires Inv(cfg, s) && Enabled(cfg, s, LogWrite)
    ensures Waiting(cfg, Next(cfg, s, LogWrite))
  {
  }

  lemma WriteKeepsInv(cfg: Config, s: State)
    requires Inv(cfg, s) && Enabled(cfg, s, LogWrite)
    ensures Inv(cfg, Next(cfg, s, LogWrite))
  {
    WriteKeepsContents(cfg, s);
    WriteKeepsWaiting(cfg, s);
  }

  lemma {:induction false} RunKeepsInv(cfg: Config, trace: seq<State>, acts: seq<Action>)
    requires cfg.max > 0 && IsRun(cfg, trace, acts)
    ensures Inv(cfg, trace[|acts|])
    decreases |acts|
  {
    if acts == [] {
      InitInv(cfg);
    } else {
      var n := |acts| - 1;
      RunKeepsInv(cfg, trace[..|acts|], acts[..n]);
      var s := trace[n];
      match acts[n]
      case PipeStep =>
        PipeKeepsContents(cfg, s);
        PipeKeepsWaiting(cfg, s);
      case LogTake => TakeKeepsInv(cfg, s);
      case LogWrite => WriteKeepsInv(cfg, s);
      case PipeWakes =>
      case LogWakes =>
    }
  }

  lemma InitInv(cfg: Config)
    requires cfg.max > 0
    ensures Inv(cfg, INIT)
  {
    if cfg.input != [] {
      ReadableIs(cfg.input, 0);
    }
  }

  // ---------------------------------------------------------------- what it means

  /** Never both asleep, and what is logged is the lines read, in order, up to the closing one. */
  lemma CaptureOnEveryRun(cfg: Config, trace: seq<State>, acts: seq<Action>)
    requires cfg.max > 0 && IsRun(cfg, trace, acts)
    ensures var s := trace[|acts|];
      && !(s.pipe.PipeAsleep? && s.log.LogAsleep?)
      && |s.logged| <= FirstStop(cfg.input) && s.logged == Texts(cfg.input[..|s.logged|])
      && (s.log.LogDone? ==> s.logged == Texts(cfg.input[..FirstStop(cfg.input)]))
      && |s.queue| <= cfg.max + 1
  {
    RunKeepsInv(cfg, trace, acts);
  }

  /** Within its bound, and nobody left waiting for a log thread that is gone. */
  ghost predicate Safe(cfg: Config, s: State) {
    |s.queue| <= cfg.max && !(s.pipe.PipeAsleep? && s.log.LogDone?)
  }

  lemma SafeUnlessOrphans(cfg: Config, trace: seq<State>, acts: seq<Action>)
    requires cfg.max > 0 && IsRun(cfg, trace, acts) && Orphans(cfg.input) < cfg.max
    ensures Safe(cfg, trace[|acts|])
  {
    RunKeepsInv(cfg, trace, acts);
  }

  // ---------------------------------------------------------------- the failing family

  lemma Extend(cfg: Config, trace: seq<State>, acts: seq<Action>, a: Action)
    returns (more: seq<State>, taken: seq<Action>)
    requires IsRun(cfg, trace, acts) && Enabled(cfg, trace[|acts|], a)
    ensures IsRun(cfg, more, taken) && |taken| == |acts| + 1
    ensures more[|taken|] == Next(cfg, trace[|acts|], a)
  {
    more, taken := trace + [Next(cfg, trace[|acts|], a)], acts + [a];
  }

  /** Line by line, each queued and logged at once, up to the closing line. */
  lemma {:induction false} LogFirst(cfg: Config, n: nat) returns (trace: seq<State>, acts: seq<Action>)
    requires cfg.max > 0 && n <= FirstStop(cfg.input) && n <= Readable(cfg.input)
    ensures IsRun(cfg, trace, acts)
    ensures trace[|acts|] == State([], n, trace[|acts|].pipe, Taking, Texts(cfg.input[..n])) && trace[|acts|].pipe.Reading?
  {
    if n == 0 {
      trace, acts := [INIT], [];
    } else {
      trace, acts := LogFirst(cfg, n - 1);
      trace, acts := Extend(cfg, trace, acts, PipeStep);
      trace, acts := Extend(cfg, trace, acts, LogTake);
      trace, acts := Extend(cfg, trace, acts, LogWrite);
      TextsSnoc(cfg.input, n - 1);
    }
  }

  /** The log thread holds the closing line while the pipe thread queues k more. */
  lemma {:induction false} QueueMore(cfg: Config, k: nat) returns (trace: seq<State>, acts: seq<Action>)
    requires cfg.max > 0 && k <= cfg.max && k <= Orphans(cfg.input)
    ensures IsRun(cfg, trace, acts)
    ensures var s := trace[|acts|]; var n := FirstStop(cfg.input);
      s.read == n + 1 + k && |s.queue| == k && s.log == Holding(cfg.input[n]) && (k < Orphans(cfg.input) ==> s.pipe.Reading?)
  {
    var n := FirstStop(cfg.input);
    if k == 0 {
      trace, acts := LogFirst(cfg, n);
      trace, acts := Extend(cfg, trace, acts, PipeStep);
      trace, acts := Extend(cfg, trace, acts, LogTake);
    } else {
      trace, acts := QueueMore(cfg, k - 1);
      trace, acts := Extend(cfg, trace, acts, PipeStep);
    }
  }

  /** A closing line without its newline, and a full queue's worth of lines behind it: one too many. */
  lemma OrphansOverflow(cfg: Config) returns (trace: seq<State>, acts: seq<Action>)
    requires cfg.max > 0 && Orphans(cfg.input) >= cfg.max
    ensures IsRun(cfg, trace, acts) && |trace[|acts|].queue| == cfg.max + 1
  {
    trace, acts := QueueMore(cfg, cfg.max);
    trace, acts := Extend(cfg, trace, acts, LogWrite);
  }

  /** The bound holds, and nobody waits in vain, on every run exactly when fewer lines than that follow. */
  lemma SafeIff(cfg: Config)
    requires cfg.max > 0
    ensures (forall trace: seq<State>, acts :: IsRun(cfg, trace, acts) ==> Safe(cfg, trace[|acts|]))
       <==> Orphans(cfg.input) < cfg.max
  {
    if Orphans(cfg.input) < cfg.max {
      forall trace: seq<State>, acts | IsRun(cfg, trace, acts) ensures Safe(cfg, trace[|acts|]) {
        SafeUnlessOrphans(cfg, trace, acts);
      }
    } else {
      var trace, acts := OrphansOverflow(cfg);
      assert IsRun(cfg, trace, acts) && !Safe(cfg, trace[|acts|]);
    }
  }

  /** In particular when every closing line is complete, as the destructor writes it. */
  lemma CompleteMarkerIsSafe(cfg: Config)
    requires forall i :: 0 <= i < |cfg.input| && IsStop(cfg.input[i]) ==> cfg.input[i].newline
    ensures Orphans(cfg.input) <= 0
  {
    var n := FirstStop(cfg.input);
    if n < |cfg.input| {
      ReadableIs(cfg.input, n);
    }
  }

  // ---------------------------------------------------------------- who stops at what

  /** The log thread leaves a closing line behind, without its newline, for any other log thread. */
  ghost predicate LeftBehind(s: State) { s.log.LogDone? ==> Piece("Closing stream prefixer", false) in s.queue }

  lemma {:induction false} MarkerIsPutBack(cfg: Config, trace: seq<State>, acts: seq<Action>)
    requires cfg.max > 0 && IsRun(cfg, trace, acts)
    ensures LeftBehind(trace[|acts|])
    decreases |acts|
  {
    if acts != [] {
      var n := |acts| - 1;
      MarkerIsPutBack(cfg, trace[..n + 1], acts[..n]);
      var s, t := trace[n], trace[n + 1];
      if t.log.LogDone? && s.log.LogDone? {
        assert s.queue <= t.queue;
      } else if t.log.LogDone? {
        assert t.queue[|s.queue|] == Piece("Closing stream prefixer", false);
      }
    }
  }

  /**
   The pipe thread ends with a complete closing line; the log thread with any closing line, which it does not
   log, and nothing before it is one.
   */
  lemma {:induction false} WhoStops(cfg: Config, trace: seq<State>, acts: seq<Action>)
    requires cfg.max > 0 && IsRun(cfg, trace, acts)
    ensures var s := trace[|acts|];
      && (s.pipe.PipeDone? <==> 0 < s.read <= |cfg.input| && cfg.input[s.read - 1] == Piece("Closing stream prefixer", true))
      && (s.log.LogDone? ==> |s.logged| < |cfg.input| && cfg.input[|s.logged|].text == "Closing stream prefixer")
      && (forall i :: 0 <= i < |s.logged| ==> s.logged[i] != "Closing stream prefixer")
  {
    RunKeepsInv(cfg, trace, acts);
    var s := trace[|acts|];
    TextsAre(cfg.input[..|s.logged|]);
    LogStops(cfg, trace, acts);
  }

  lemma {:induction false} TextsAre(ps: seq<Piece>)
    ensures |Texts(ps)| == |ps| && forall i :: 0 <= i < |ps| ==> Texts(ps)[i] == ps[i].text
  {
    if ps != [] {
      TextsAre(ps[..|ps| - 1]);
    }
  }

  lemma {:induction false} LogStops(cfg: Config, trace: seq<State>, acts: seq<Action>)
    requires cfg.max > 0 && IsRun(cfg, trace, acts)
    ensures var s := trace[|acts|];
      s.log.LogDone? ==> |s.logged| < |cfg.input| && cfg.input[|s.logged|].text == "Closing stream prefixer"
    decreases |acts|
  {
    if acts != [] {
      var n := |acts| - 1;
      LogStops(cfg, trace[..n + 1], acts[..n]);
      RunKeepsInv(cfg, trace[..n + 1], acts[..n]);
      assert Inv(cfg, trace[n]);
    }
  }

  /** A closing line without its newline, and more lines than the queue holds: its bound does not hold. */
  lemma CutClosingOverflows(max: nat) returns (cfg: Config, trace: seq<State>, acts: seq<Action>)
    requires max > 0
    ensures cfg.max == max && |cfg.input| == max + 2 && cfg.input[0] == Piece("Closing stream prefixer", false)
    ensures IsRun(cfg, trace, acts) && !Safe(cfg, trace[|acts|])
  {
    var lines := seq(max + 1, _ => Piece("line", true));
    cfg := Config([Piece("Closing stream prefixer", false)] + lines, max);
    NoMarker(cfg.input);
    assert FirstStop(cfg.input) == 0;
    trace, acts := OrphansOverflow(cfg);
  }

  lemma {:induction false} NoMarker(input: seq<Piece>)
    requires forall i :: 0 <= i < |input| ==> input[i] != Piece("Closing stream prefixer", true)
    ensures Readable(input) == |input|
  {
    if input != [] {
      NoMarker(input[1..]);
    }
  }
}
