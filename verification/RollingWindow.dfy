/** The performance monitor's 12-slot ring: its sum is always the difference of two totals. */
module RollingWindow {

  const SLOTS := 12

  /** The totals read at a tick: cpu clock ticks, messages sent, messages received. */
  datatype Reading = Reading(ticks: nat, sent: nat, received: nat)

  /** What a slot or a sum of slots holds. */
  datatype Load = Load(cpuSeconds: real, sent: int, received: int)

  datatype Heartbeat = Heartbeat(fiveSeconds: Load, oneMinute: Load, totalSent: nat, totalReceived: nat)

  function Plus(a: Load, b: Load): Load {
    Load(a.cpuSeconds + b.cpuSeconds, a.sent + b.sent, a.received + b.received)
  }

  function Minus(a: Load, b: Load): Load {
    Load(a.cpuSeconds - b.cpuSeconds, a.sent - b.sent, a.received - b.received)
  }

  /** The load between two readings. */
  function Between(earlier: Reading, later: Reading, rate: real): Load
    requires rate > 0.0
  {
    Load((later.ticks - earlier.ticks) as real / rate, later.sent - earlier.sent, later.received - earlier.received)
  }

  function Sum(slots: seq<Load>): Load {
    if slots == [] then Load(0.0, 0, 0) else Plus(Sum(slots[..|slots| - 1]), slots[|slots| - 1])
  }

  lemma {:induction false} SumUpdate(slots: seq<Load>, i: nat, l: Load)
    requires i < |slots|
    ensures Sum(slots[i := l]) == Plus(Minus(Sum(slots), slots[i]), l)
    decreases |slots|
  {
    var n := |slots| - 1;
    if i == n {
      assert slots[i := l][..n] == slots[..n];
    } else {
      SumUpdate(slots[..n], i, l);
      assert slots[i := l][..n] == slots[..n][i := l];
    }
  }

  predicate Blank(l: Load) { l.cpuSeconds == 0.0 && l.sent == 0 && l.received == 0 }

  predicate AllBlank(slots: seq<Load>) { forall i :: 0 <= i < |slots| ==> Blank(slots[i]) }

  lemma {:induction false} SumOfBlanks(slots: seq<Load>)
    requires AllBlank(slots)
    ensures Blank(Sum(slots))
  {
    if slots != [] {
      var n := |slots| - 1;
      var init := slots[..n];
      assert AllBlank(init);
      SumOfBlanks(init);
      assert Blank(slots[n]);
      assert Sum(slots) == Plus(Sum(init), slots[n]);
    }
  }

  /** A reading's totals as a load; the load between two readings is the difference of these. */
  function Total(r: Reading, rate: real): Load
    requires rate > 0.0
  {
    Load(r.ticks as real / rate, r.sent, r.received)
  }

  lemma OverRate(x: real, y: real, rate: real)
    requires rate > 0.0
    ensures x / rate - y / rate == (x - y) / rate
  {
    var inverse := 1.0 / rate;
    assert x / rate == x * inverse && y / rate == y * inverse;
    assert (x - y) / rate == (x - y) * inverse;
  }

  lemma BetweenIs(earlier: Reading, later: Reading, rate: real)
    requires rate > 0.0
    ensures Between(earlier, later, rate) == Minus(Total(later, rate), Total(earlier, rate))
  {
    OverRate(later.ticks as real, earlier.ticks as real, rate);
  }

  // ---------------------------------------------------------------- the ring

  function Oldest(n: nat): nat { if n <= SLOTS then 0 else n - SLOTS }

  /** After n ticks the ring holds the last 12 differences of the totals, wherever they are, and nothing else. */
  ghost predicate Holds(slots: seq<Load>, totals: seq<Load>, n: nat) {
    && |slots| == SLOTS && n < |totals|
    && (forall k :: Oldest(n) <= k < n ==> slots[k % SLOTS] == Minus(totals[k + 1], totals[k]))
    && (forall k :: n <= k < SLOTS ==> Blank(slots[k]))
  }

  ghost predicate SumsUp(slots: seq<Load>, totals: seq<Load>, n: nat) {
    n < |totals| && Sum(slots) == Minus(totals[n], totals[Oldest(n)])
  }

  lemma Fresh(slots: seq<Load>, totals: seq<Load>)
    requires totals != [] && AllBlank(slots)
    ensures SumsUp(slots, totals, 0)
  {
    SumOfBlanks(slots);
    SameBlank(Sum(slots), Minus(totals[0], totals[0]));
  }

  lemma SameBlank(a: Load, b: Load)
    requires Blank(a) && Blank(b)
    ensures a == b
  {
  }

  lemma TickHolds(slots: seq<Load>, totals: seq<Load>, n: nat)
    requires Holds(slots, totals, n) && n + 1 < |totals|
    ensures Holds(slots[n % SLOTS := Minus(totals[n + 1], totals[n])], totals, n + 1)
  {
    var now := slots[n % SLOTS := Minus(totals[n + 1], totals[n])];
    forall k | Oldest(n + 1) <= k < n + 1 ensures now[k % SLOTS] == Minus(totals[k + 1], totals[k]) {
      if k < n {
        assert k % SLOTS != n % SLOTS;
      }
    }
  }

  lemma Shift(sum: Load, out: Load, a: Load, b: Load, c: Load, d: Load)
    requires sum == Minus(c, a) && out == Minus(b, a)
    ensures Plus(Minus(sum, out), Minus(d, c)) == Minus(d, b)
  {
  }

  lemma Grow(sum: Load, out: Load, a: Load, c: Load, d: Load)
    requires sum == Minus(c, a) && Blank(out)
    ensures Plus(Minus(sum, out), Minus(d, c)) == Minus(d, a)
  {
  }

  /** A tick replaces the interval that falls out of the window by the new one. */
  lemma WindowMoves(slots: seq<Load>, totals: seq<Load>, n: nat, sum: Load)
    requires Holds(slots, totals, n) && n + 1 < |totals| && sum == Minus(totals[n], totals[Oldest(n)])
    ensures Plus(Minus(sum, slots[n % SLOTS]), Minus(totals[n + 1], totals[n]))
            == Minus(totals[n + 1], totals[Oldest(n + 1)])
  {
    var o, out := Oldest(n), slots[n % SLOTS];
    if n >= SLOTS {
      assert o % SLOTS == n % SLOTS;
      Shift(sum, out, totals[o], totals[o + 1], totals[n], totals[n + 1]);
    } else {
      assert n % SLOTS == n;
      Grow(sum, out, totals[0], totals[n], totals[n + 1]);
    }
  }

  lemma TickSumsUp(slots: seq<Load>, totals: seq<Load>, n: nat)
    requires Holds(slots, totals, n) && SumsUp(slots, totals, n) && n + 1 < |totals|
    ensures SumsUp(slots[n % SLOTS := Minus(totals[n + 1], totals[n])], totals, n + 1)
  {
    SumUpdate(slots, n % SLOTS, Minus(totals[n + 1], totals[n]));
    WindowMoves(slots, totals, n, Sum(slots));
  }

  // ---------------------------------------------------------------- the monitor's loop

  /** Counters only ever grow. */
  predicate Growing(all: seq<Reading>) {
    forall i :: 0 <= i < |all| - 1 ==>
      all[i].ticks <= all[i + 1].ticks && all[i].sent <= all[i + 1].sent && all[i].received <= all[i + 1].received
  }

  /** The heartbeat of tick n + 1: the last interval, the last twelve, and the totals. */
  ghost predicate Right(b: Heartbeat, all: seq<Reading>, n: nat, rate: real)
    requires rate > 0.0 && n + 1 < |all|
  {
    var first, last, now := all[if n < 12 then 0 else n - 11], all[n], all[n + 1];
    && b.fiveSeconds.cpuSeconds == (now.ticks - last.ticks) as real / rate
    && b.fiveSeconds.sent == now.sent - last.sent && b.fiveSeconds.received == now.received - last.received
    && b.oneMinute.cpuSeconds == (now.ticks - first.ticks) as real / rate
    && b.oneMinute.sent == now.sent - first.sent && b.oneMinute.received == now.received - first.received
    && b.totalSent == now.sent && b.totalReceived == now.received
  }

  /** The same in terms of the totals. */
  ghost predicate RightTotals(b: Heartbeat, all: seq<Reading>, totals: seq<Load>, n: nat) {
    && n + 1 < |totals| == |all|
    && b.fiveSeconds == Minus(totals[n + 1], totals[n])
    && b.oneMinute == Minus(totals[n + 1], totals[Oldest(n + 1)])
    && b.totalSent == all[n + 1].sent && b.totalReceived == all[n + 1].received
  }

  ghost predicate AllRight(beats: seq<Heartbeat>, all: seq<Reading>, totals: seq<Load>) {
    forall n :: 0 <= n < |beats| ==> RightTotals(beats[n], all, totals, n)
  }

  lemma AllRightSnoc(beats: seq<Heartbeat>, beat: Heartbeat, all: seq<Reading>, totals: seq<Load>)
    requires AllRight(beats, all, totals) && RightTotals(beat, all, totals, |beats|)
    ensures AllRight(beats + [beat], all, totals)
  {
    var more := beats + [beat];
    forall n | 0 <= n < |more| ensures RightTotals(more[n], all, totals, n) {
      if n < |beats| {
        assert more[n] == beats[n];
      }
    }
  }

  /** The ring after n ticks. */
  ghost predicate RingAt(slots: array<Load>, totals: seq<Load>, n: nat)
    reads slots
  {
    slots.Length == SLOTS && Holds(slots[..], totals, n) && SumsUp(slots[..], totals, n)
  }

  lemma TotalsAreRight(b: Heartbeat, all: seq<Reading>, n: nat, rate: real)
    requires rate > 0.0 && RightTotals(b, all, Totals(all, rate), n)
    ensures Right(b, all, n, rate)
  {
    BetweenIs(all[n], all[n + 1], rate);
    BetweenIs(all[Oldest(n + 1)], all[n + 1], rate);
  }

  method SumSlots(slots: array<Load>) returns (total: Load)
    requires slots.Length == SLOTS
    ensures total == Sum(slots[..])
  {
    total := Load(0.0, 0, 0);
    for i := 0 to SLOTS
      invariant total == Sum(slots[..i])
    {
      assert slots[..i + 1][..i] == slots[..i];
      total := Plus(total, slots[i]);
    }
    assert slots[..SLOTS] == slots[..];
  }

  /** Put an interval into its slot and add up all of them. */
  method Tick(slots: array<Load>, index: nat, interval: Load, ghost totals: seq<Load>) returns (minute: Load)
    requires slots.Length == SLOTS && index + 1 < |totals|
    requires Holds(slots[..], totals, index) && SumsUp(slots[..], totals, index)
    requires interval == Minus(totals[index + 1], totals[index])
    modifies slots
    ensures Holds(slots[..], totals, index + 1) && SumsUp(slots[..], totals, index + 1)
    ensures minute == Minus(totals[index + 1], totals[Oldest(index + 1)])
  {
    TickHolds(slots[..], totals, index);
    TickSumsUp(slots[..], totals, index);
    ghost var before := slots[..];
    slots[index % SLOTS] := interval;
    assert slots[..] == before[index % SLOTS := interval];
    minute := SumSlots(slots);
  }

  method ClearSlots(ghost totals: seq<Load>) returns (slots: array<Load>)
    requires totals != []
    ensures fresh(slots) && RingAt(slots, totals, 0)
  {
    slots := new Load[SLOTS](_ => Load(0.0, 0, 0));
    assert AllBlank(slots[..]);
    Fresh(slots[..], totals);
  }

  ghost function Totals(all: seq<Reading>, rate: real): (t: seq<Load>)
    requires rate > 0.0
    ensures |t| == |all| && forall i :: 0 <= i < |all| ==> t[i] == Total(all[i], rate)
  {
    if all == [] then [] else Totals(all[..|all| - 1], rate) + [Total(all[|all| - 1], rate)]
  }

  /** One turn of the loop. */
  method Beat(slots: array<Load>, index: nat, last: Reading, total: Reading, rate: real,
              ghost all: seq<Reading>, ghost totals: seq<Load>) returns (beat: Heartbeat)
    requires rate > 0.0 && index + 1 < |all| && totals == Totals(all, rate) && RingAt(slots, totals, index)
    requires last == all[index] && total == all[index + 1]
    modifies slots
    ensures RingAt(slots, totals, index + 1)
    ensures RightTotals(beat, all, totals, index)
  {
    var interval := Between(last, total, rate);
    BetweenIs(last, total, rate);
    var minute := Tick(slots, index, interval, totals);
    beat := Heartbeat(interval, minute, total.sent, total.received);
  }

  method Loop(start: Reading, readings: seq<Reading>, rate: real, ghost all: seq<Reading>, ghost totals: seq<Load>)
    returns (beats: seq<Heartbeat>)
    requires rate > 0.0 && all == [start] + readings && totals == Totals(all, rate)
    ensures |beats| == |readings|
    ensures AllRight(beats, all, totals)
  {
    var last := start;
    var slots := ClearSlots(totals);
    var index := 0;
    beats := [];
    while index < |readings|
      invariant 0 <= index == |beats| <= |readings| && last == all[index] && fresh(slots)
      invariant RingAt(slots, totals, index) && AllRight(beats, all, totals)
    {
      var beat := Beat(slots, index, last, readings[index], rate, all, totals);
      AllRightSnoc(beats, beat, all, totals);
      beats := beats + [beat];
      last := readings[index];
      index := index + 1;
    }
  }

  /**
   * One heartbeat per tick.  The first reading only sets the clock ticks to count from; messages are
   * counted from the beginning.
   */
  method Run(startTicks: nat, readings: seq<Reading>, rate: real) returns (beats: seq<Heartbeat>)
    requires rate > 0.0 && Growing([Reading(startTicks, 0, 0)] + readings)
    ensures |beats| == |readings|
    ensures forall n :: 0 <= n < |beats| ==> Right(beats[n], [Reading(startTicks, 0, 0)] + readings, n, rate)
  {
    var start := Reading(startTicks, 0, 0);
    ghost var all := [start] + readings;
    beats := Loop(start, readings, rate, all, Totals(all, rate));
    forall n | 0 <= n < |beats| ensures Right(beats[n], all, n, rate) {
      TotalsAreRight(beats[n], all, n, rate);
    }
  }
}
