/** Buffer, a bounded byte block with a read and a write position, and MultiBuffer, which grows. */
module Buffers {
  import opened Bytes

  /** What a buffer amounts to: the bytes written, how many were read back, and the room there is. */
  datatype Span = Span(written: seq<byte>, taken: nat, capacity: nat)

  class Buffer {
    const data: array<byte>
    var start: nat
    var end: nat

    ghost predicate Valid()
      reads this
    {
      start <= end <= data.Length
    }

    ghost function View(): (v: Span)
      requires Valid()
      reads this, data
      ensures v.taken <= |v.written| <= v.capacity == data.Length
    {
      Span(data[..end], start, data.Length)
    }

    function Remaining(): nat
      requires Valid()
      reads this
    {
      end - start
    }

    function RemainingCapacity(): nat
      requires Valid()
      reads this
    {
      data.Length - end
    }

    /** An empty buffer of its own. */
    constructor (capacity: nat)
      ensures Valid() && fresh(data)
      ensures View() == Span([], 0, capacity)
    {
      data := new byte[capacity](_ => 0);
      start, end := 0, 0;
    }

    /** The buffer interface on an existing block, of which `filled` bytes count as written. */
    constructor Around(block: array<byte>, filled: nat)
      requires filled <= block.Length
      ensures Valid() && data == block
      ensures View() == Span(block[..filled], 0, block.Length)
    {
      data := block;
      start, end := 0, filled;
    }

    method Reset()
      requires Valid()
      modifies this
      ensures Valid() && View() == Span([], 0, data.Length)
    {
      start, end := 0, 0;
    }

    /** Append as much of src as fits. */
    method Write(src: seq<byte>) returns (n: nat)
      requires Valid()
      modifies this, data
      ensures Valid() && n == Min(|src|, old(RemainingCapacity()))
      ensures View() == old(View()).(written := old(View()).written + src[..n])
    {
      n := Min(|src|, data.Length - end);
      for i := 0 to n
        invariant start == old(start) && end == old(end)
        invariant data[..end] == old(data[..end])
        invariant data[end..end + i] == src[..i]
      {
        data[end + i] := src[i];
      }
      assert data[..end + n] == data[..end] + data[end..end + n];
      end := end + n;
    }

    /** Take up to n unread bytes. */
    method Read(n: nat) returns (out: seq<byte>)
      requires Valid()
      modifies this
      ensures Valid()
      ensures var v := old(View()); var k := Min(n, |v.written| - v.taken);
        && out == v.written[v.taken..v.taken + k]
        && View() == v.(taken := v.taken + k)
    {
      var k := Min(n, end - start);
      out := data[start..start + k];
      assert out == data[..end][start..start + k];
      start := start + k;
    }

    method Skip(n: nat) returns (k: nat)
      requires Valid()
      modifies this
      ensures Valid() && k == Min(n, old(Remaining()))
      ensures View() == old(View()).(taken := old(View()).taken + k)
    {
      k := Min(n, end - start);
      start := start + k;
    }

    /** Claim room for n bytes that the caller fills in place; returns where it starts. */
    method Assign(n: nat) returns (at: nat, k: nat)
      requires Valid()
      modifies this
      ensures Valid() && at == old(end) && k == Min(n, old(RemainingCapacity()))
      ensures start == old(start) && end == at + k
    {
      at, k := end, Min(n, data.Length - end);
      end := end + k;
    }
  }

  // ---------------------------------------------------------------- sequences of buffers, as values

  /** All bytes written into the spans, in order. */
  function Flat(vs: seq<Span>): seq<byte> {
    if vs == [] then [] else Flat(vs[..|vs| - 1]) + vs[|vs| - 1].written
  }

  predicate InRange(v: Span) { v.taken <= |v.written| <= v.capacity }

  predicate AllInRange(vs: seq<Span>) { forall i :: 0 <= i < |vs| ==> InRange(vs[i]) }

  predicate Consumed(vs: seq<Span>, r: nat) { forall i :: 0 <= i < r && i < |vs| ==> vs[i].taken == |vs[i].written| }

  /** The bytes not read back yet, in order. */
  function Rest(vs: seq<Span>): seq<byte>
    requires AllInRange(vs)
  {
    if vs == [] then []
    else Rest(vs[..|vs| - 1]) + vs[|vs| - 1].written[vs[|vs| - 1].taken..]
  }

  /** Writing into the last span appends to the whole. */
  lemma FlatExtendLast(vs: seq<Span>, more: seq<byte>)
    requires vs != []
    ensures var v := vs[|vs| - 1];
      Flat(vs[|vs| - 1 := v.(written := v.written + more)]) == Flat(vs) + more
  {
    var ws := vs[|vs| - 1 := vs[|vs| - 1].(written := vs[|vs| - 1].written + more)];
    assert ws[..|ws| - 1] == vs[..|vs| - 1];
  }

  lemma RestExtendLast(vs: seq<Span>, more: seq<byte>)
    requires vs != [] && AllInRange(vs)
    requires |vs[|vs| - 1].written| + |more| <= vs[|vs| - 1].capacity
    ensures var v := vs[|vs| - 1]; var ws := vs[|vs| - 1 := v.(written := v.written + more)];
      AllInRange(ws) && Rest(ws) == Rest(vs) + more
  {
    var v := vs[|vs| - 1];
    var ws := vs[|vs| - 1 := v.(written := v.written + more)];
    assert ws[..|ws| - 1] == vs[..|vs| - 1];
    assert (v.written + more)[v.taken..] == v.written[v.taken..] + more;
  }

  /** Taking bytes from the first span that has any takes them from the front of the whole. */
  lemma {:induction false} RestTakeFirst(vs: seq<Span>, r: nat, k: nat)
    requires r < |vs| && AllInRange(vs) && Consumed(vs, r)
    requires vs[r].taken + k <= |vs[r].written|
    ensures var ws := vs[r := vs[r].(taken := vs[r].taken + k)];
      && AllInRange(ws)
      && |Rest(vs)| >= k
      && Rest(vs)[..k] == vs[r].written[vs[r].taken..vs[r].taken + k]
      && Rest(ws) == Rest(vs)[k..]
    decreases |vs|
  {
    var n := |vs| - 1;
    var ws := vs[r := vs[r].(taken := vs[r].taken + k)];
    if r == n {
      RestConsumed(vs[..n]);
      assert ws[..n] == vs[..n];
    } else {
      RestTakeFirst(vs[..n], r, k);
      assert ws[..n] == vs[..n][r := vs[r].(taken := vs[r].taken + k)];
      assert vs[..n][r] == vs[r];
    }
  }

  lemma {:induction false} RestConsumed(vs: seq<Span>)
    requires AllInRange(vs) && Consumed(vs, |vs|)
    ensures Rest(vs) == []
  {
    if vs != [] {
      RestConsumed(vs[..|vs| - 1]);
    }
  }

  /** If everything before r is consumed and something is left, it is in r or beyond. */
  lemma StillToRead(vs: seq<Span>, r: nat)
    requires AllInRange(vs) && Consumed(vs, r) && Rest(vs) != []
    ensures r < |vs| && (vs[r].taken == |vs[r].written| ==> r + 1 < |vs|)
  {
    if r >= |vs| || (vs[r].taken == |vs[r].written| && r + 1 == |vs|) {
      RestConsumed(vs);
    }
  }

  lemma {:induction false} RestPrefix(vs: seq<Span>, i: nat)
    requires AllInRange(vs) && i <= |vs|
    ensures Rest(vs[..i]) <= Rest(vs)
    decreases |vs|
  {
    if i == |vs| {
      assert vs[..i] == vs;
    } else {
      RestPrefix(vs[..|vs| - 1], i);
      assert vs[..|vs| - 1][..i] == vs[..i];
    }
  }

  lemma TakenAt(vs: seq<Span>, r: nat, v: Span, m: nat)
    requires r < m <= |vs|
    ensures vs[r := v][..m] == vs[..m][r := v]
  {
  }

  /** Taking from span r takes from the front of the first m spans, for every m beyond r. */
  lemma TakenFrom(vs: seq<Span>, r: nat, k: nat, m: nat)
    requires r < m <= |vs| && AllInRange(vs) && Consumed(vs, r) && vs[r].taken + k <= |vs[r].written|
    ensures var ws := vs[r := vs[r].(taken := vs[r].taken + k)];
      && AllInRange(ws) && Flat(ws[..m]) == Flat(vs[..m])
      && Rest(vs[..m]) == vs[r].written[vs[r].taken..vs[r].taken + k] + Rest(ws[..m])
  {
    var v := vs[r].(taken := vs[r].taken + k);
    TakenAt(vs, r, v, m);
    RestTakeFirst(vs[..m], r, k);
    FlatIgnoresTaken(vs[..m], vs[..m][r := v]);
  }

  lemma SomethingLeft(vs: seq<Span>, r: nat, m: nat)
    requires r < m <= |vs| && AllInRange(vs) && Consumed(vs, r) && vs[r].taken < |vs[r].written|
    ensures Rest(vs[..m]) != []
  {
    TakenFrom(vs, r, 1, m);
  }

  lemma {:induction false} FlatIgnoresTaken(vs: seq<Span>, ws: seq<Span>)
    requires |vs| == |ws| && forall i :: 0 <= i < |vs| ==> vs[i].written == ws[i].written
    ensures Flat(vs) == Flat(ws)
  {
    if vs != [] {
      FlatIgnoresTaken(vs[..|vs| - 1], ws[..|ws| - 1]);
    }
  }

  // ---------------------------------------------------------------- MultiBuffer

  /** Stands for an access outside a vector, after which the original's behaviour is undefined. */
  const OUT_OF_RANGE := "out of range"

  function Fill(v: Span, src: seq<byte>): Span { v.(written := v.written + src) }

  function Blank(capacity: nat): Span { Span([], 0, capacity) }

  /** As much of src as fits behind what a span holds. */
  function Appended(v: Span, src: seq<byte>): Span
    requires |v.written| <= v.capacity
  {
    v.(written := v.written + src[..Min(|src|, v.capacity - |v.written|)])
  }

  lemma AppendedTwice(v: Span, a: seq<byte>, b: seq<byte>)
    requires |v.written| <= v.capacity
    ensures |Appended(v, a).written| <= v.capacity
    ensures Appended(Appended(v, a), b) == Appended(v, a + b)
  {
    var room := v.capacity - |v.written|;
    if |a| < room {
      var k := Min(|b|, room - |a|);
      assert a[..|a|] == a && (a + b)[..|a| + k] == a + b[..k];
      assert v.written + a + b[..k] == v.written + (a + b[..k]);
    } else {
      assert (a + b)[..room] == a[..room] && b[..0] == [];
      assert Appended(v, a).written + [] == Appended(v, a).written;
    }
  }

  lemma AppendedFull(v: Span, a: seq<byte>, b: seq<byte>)
    requires |v.written| <= v.capacity && a <= b && |Appended(v, a).written| == v.capacity
    ensures Appended(v, a) == Appended(v, b)
  {
    var room := v.capacity - |v.written|;
    assert a[..room] == b[..room];
  }

  lemma NothingMoreFits(v: Span, vs: seq<Span>, i: nat)
    requires |v.written| <= v.capacity && AllInRange(vs) && i <= |vs|
    requires |Appended(v, Rest(vs[..i])).written| == v.capacity
    ensures Appended(v, Rest(vs[..i])) == Appended(v, Rest(vs))
  {
    RestPrefix(vs, i);
    AppendedFull(v, Rest(vs[..i]), Rest(vs));
  }

  lemma NextFits(v: Span, vs: seq<Span>, i: nat)
    requires |v.written| <= v.capacity && AllInRange(vs) && i < |vs|
    ensures |Appended(v, Rest(vs[..i])).written| <= v.capacity
    ensures Appended(Appended(v, Rest(vs[..i])), vs[i].written[vs[i].taken..]) == Appended(v, Rest(vs[..i + 1]))
  {
    assert vs[..i + 1][..i] == vs[..i];
    AppendedTwice(v, Rest(vs[..i]), vs[i].written[vs[i].taken..]);
  }

  predicate FullButLast(vs: seq<Span>, k: nat) {
    && (forall i :: 0 <= i < |vs| ==> vs[i].capacity == k)
    && (forall i :: 0 <= i < |vs| - 1 ==> |vs[i].written| == k)
    && (vs != [] ==> 0 < |vs[|vs| - 1].written| <= k)
  }

  /** All buffers are full but the last, which has room. */
  predicate Roomy(vs: seq<Span>, k: nat) {
    && vs != []
    && (forall i :: 0 <= i < |vs| ==> vs[i].capacity == k)
    && (forall i :: 0 <= i < |vs| - 1 ==> |vs[i].written| == k)
    && |vs[|vs| - 1].written| < k
  }

  lemma RoomFilled(vs: seq<Span>, k: nat, src: seq<byte>)
    ensures Roomy(vs, k) && src != [] && |vs[|vs| - 1].written| + |src| <= k ==>
              FullButLast(vs[|vs| - 1 := Fill(vs[|vs| - 1], src)], k)
  {
  }

  /** What a turn of the read loop does at buffer r: it moves on, or takes at most n bytes. */
  function Turn(vs: seq<Span>, r: nat, n: nat): (seq<byte>, seq<Span>, nat)
    requires AllInRange(vs) && r < |vs|
  {
    var v := vs[r];
    if |v.written| == v.taken then ([], vs, r + 1)
    else
      var k := Min(n, |v.written| - v.taken);
      (v.written[v.taken..v.taken + k], vs[r := v.(taken := v.taken + k)], r)
  }

  lemma TurnKeeps(vs: seq<Span>, r: nat, n: nat)
    requires AllInRange(vs) && Consumed(vs, r) && r < |vs| && n > 0
    ensures var (more, ws, r') := Turn(vs, r, n);
      && |ws| == |vs| && AllInRange(ws) && Consumed(ws, r') && |more| <= n
      && r' == (if vs[r].taken == |vs[r].written| then r + 1 else r)
      && (more == [] <==> r' == r + 1)
  {
  }

  /** What it takes is the front of what the first m spans still hold. */
  lemma TurnTakes(vs: seq<Span>, r: nat, n: nat, m: nat)
    requires r < m <= |vs| && AllInRange(vs) && Consumed(vs, r) && n > 0
    ensures var (more, ws, _) := Turn(vs, r, n);
      && |ws| == |vs| && AllInRange(ws)
      && Flat(ws[..m]) == Flat(vs[..m]) && Rest(vs[..m]) == more + Rest(ws[..m])
  {
    if |vs[r].written| == vs[r].taken {
      assert Turn(vs, r, n) == ([], vs, r + 1);
    } else {
      TakenFrom(vs, r, Min(n, |vs[r].written| - vs[r].taken), m);
    }
  }

  /** Between two turns: what was taken and what is left make up what the first m spans held. */
  ghost predicate Reading(vs: seq<Span>, m: nat, ws: seq<Span>, at: nat, out: seq<byte>) {
    && AllInRange(vs) && AllInRange(ws) && at <= m <= |vs| == |ws| && Consumed(ws, at)
    && out + Rest(ws[..m]) == Rest(vs[..m]) && Flat(ws[..m]) == Flat(vs[..m])
  }

  lemma TurnKeepsReading(vs: seq<Span>, m: nat, ws: seq<Span>, at: nat, out: seq<byte>, n: nat)
    requires Reading(vs, m, ws, at, out) && at < m && n > 0
    ensures var (more, xs, next) := Turn(ws, at, n);
      && Reading(vs, m, xs, next, out + more) && |more| <= n && (more == [] <==> next == at + 1)
      && next == (if ws[at].taken == |ws[at].written| then at + 1 else at)
  {
    TurnKeeps(ws, at, n);
    TurnTakes(ws, at, n, m);
    var (more, xs, _) := Turn(ws, at, n);
    Associative(out, more, Rest(xs[..m]));
  }

  /** At the end: everything that was asked for, or everything there was. */
  lemma ReadingDone(vs: seq<Span>, m: nat, ws: seq<Span>, at: nat, out: seq<byte>, n: nat)
    requires Reading(vs, m, ws, at, out) && |out| <= n && (|out| < n ==> at == m)
    ensures var all := Rest(vs[..m]);
      out == all[..Min(n, |all|)] && (|out| == n ==> Rest(ws[..m]) == all[n..]) && (|out| < n ==> |all| < n)
  {
    if at == m {
      RestConsumed(ws[..m]);
    }
  }

  lemma RestGrows(vs: seq<Span>, i: nat, m: nat)
    requires AllInRange(vs) && i <= m <= |vs|
    ensures Rest(vs[..i]) <= Rest(vs[..m])
  {
    RestPrefix(vs[..m], i);
    assert vs[..m][..i] == vs[..i];
  }

  /** What is read are the bytes not read yet; beyond them those of the next buffer, or it is outside the vector. */
  ghost predicate ReadIs(vs: seq<Span>, used: nat, n: nat, r: Result<seq<byte>>, ws: seq<Span>, at: nat) {
    && AllInRange(vs) && AllInRange(ws) && used <= |vs| == |ws|
    && var unread, all := Rest(vs[..used]), Rest(vs[..Min(used + 1, |vs|)]);
       && (r.Err? <==> used == |vs| && n > |unread|)
       && (r.Ok? ==> r.value == all[..Min(n, |all|)])
       && (n <= |unread| ==>
           && (at == 0 || at < used) && Consumed(ws, at)
           && r == Ok(unread[..n]) && Rest(ws[..used]) == unread[n..] && Flat(ws[..used]) == Flat(vs[..used]))
  }

  lemma ReadingStarts(vs: seq<Span>, m: nat, at: nat)
    requires AllInRange(vs) && at <= m <= |vs| && Consumed(vs, at)
    ensures Reading(vs, m, vs, at, [])
  {
  }

  lemma MoreToRead(vs: seq<Span>, m: nat, ws: seq<Span>, at: nat, out: seq<byte>, n: nat)
    requires Reading(vs, m, ws, at, out) && |out| < n <= |Rest(vs[..m])|
    ensures at < m && (ws[at].taken == |ws[at].written| ==> at + 1 < m)
  {
    StillToRead(ws[..m], at);
  }

  lemma ReadingFails(vs: seq<Span>, used: nat, m: nat, ws: seq<Span>, out: seq<byte>, n: nat)
    requires Reading(vs, m, ws, |vs|, out) && used == m == |vs| && |out| < n
    ensures ReadIs(vs, used, n, Err(OUT_OF_RANGE), ws, |vs|)
  {
    ReadingDone(vs, m, ws, |vs|, out, n);
  }

  lemma ReadingEnds(vs: seq<Span>, used: nat, m: nat, ws: seq<Span>, at: nat, out: seq<byte>, n: nat)
    requires Reading(vs, m, ws, at, out) && |out| <= n && (|out| < n ==> at == m) && used <= |vs|
    requires if n <= |Rest(vs[..used])| then m == used && (at == 0 || at < used) && |out| == n else m == Min(used + 1, |vs|)
    requires |out| < n ==> used < |vs|
    ensures ReadIs(vs, used, n, Ok(out), ws, at)
  {
    ReadingDone(vs, m, ws, at, out, n);
    RestGrows(vs, used, Min(used + 1, |vs|));
    if m == used < |vs| && |out| == n {
      FrontOf(Rest(vs[..used]), Rest(vs[..used + 1]), n);
    }
  }

  lemma FrontOf(a: seq<byte>, b: seq<byte>, n: nat)
    requires a <= b && n <= |a|
    ensures a[..n] == b[..n]
  {
  }

  /** The read loop. */
  method ReadFrom(vs: seq<Span>, used: nat, from: nat, n: nat) returns (r: Result<seq<byte>>, ws: seq<Span>, at: nat)
    requires AllInRange(vs) && used <= |vs| && (from == 0 || from < used) && Consumed(vs, from)
    ensures ReadIs(vs, used, n, r, ws, at)
  {
    ws, at := vs, from;
    var out := [];
    ghost var within := n <= |Rest(vs[..used])|;
    ghost var m := if within then used else Min(used + 1, |vs|);
    ReadingStarts(vs, m, at);
    while at <= used && |out| < n
      invariant Reading(vs, m, ws, at, out) && |out| <= n
      invariant within ==> at == 0 || at < used
      decreases n - |out|, used + 1 - at
    {
      if at == |ws| {
        ReadingFails(vs, used, m, ws, out, n);
        return Err(OUT_OF_RANGE), ws, at;
      }
      if within {
        MoreToRead(vs, m, ws, at, out, n);
      }
      TurnKeepsReading(vs, m, ws, at, out, n - |out|);
      var (more, spans, next) := Turn(ws, at, n - |out|);
      out, ws, at := out + more, spans, next;
    }
    ReadingEnds(vs, used, m, ws, at, out, n);
    r := Ok(out);
  }

  /** The skip loop: it moves over consumed buffers only. */
  method SkipOver(vs: seq<Span>, used: nat, from: nat, n: nat) returns (at: nat, r: Result<nat>)
    requires AllInRange(vs) && used <= |vs| && from <= used && Consumed(vs, from)
    ensures var all := Rest(vs[..Min(used + 1, |vs|)]);
      && (r.Err? <==> n > 0 && all == [] && used == |vs|)
      && (r.Ok? ==> r.value == if all == [] then 0 else n)
    ensures Rest(vs[..used]) != [] ==> at < used && Consumed(vs, at)
  {
    at := from;
    var skipped := 0;
    ghost var m, unread := Min(used + 1, |vs|), Rest(vs[..used]) != [];
    if unread {
      StillToRead(vs[..used], at);
      RestGrows(vs, used, m);
    }
    while at <= used && skipped < n
      invariant at <= m && Consumed(vs, at) && (unread ==> at < used)
      invariant skipped <= n && (skipped > 0 ==> Rest(vs[..m]) != [])
      decreases n - skipped, used + 1 - at
    {
      if at == |vs| {
        RestConsumed(vs[..m]);
        return at, Err(OUT_OF_RANGE);
      }
      var left := |vs[at].written| - vs[at].taken;
      if left == 0 {
        if unread {
          StillToRead(vs[..used], at);
        }
        at := at + 1;
      } else {
        SomethingLeft(vs, at, m);
        skipped := skipped + Min(n - skipped, left);
      }
    }
    if skipped < n {
      RestConsumed(vs[..m]);
    }
    r := Ok(skipped);
  }

  /** New buffers will have room. */
  predicate Growing(initial: nat, vs: seq<Span>) { initial > 0 || (vs != [] && vs[|vs| - 1].capacity > 0) }

  function RoomFrom(vs: seq<Span>, i: nat): nat
    decreases |vs| - i
  {
    if i >= |vs| then 0 else vs[i].capacity + RoomFrom(vs, i + 1)
  }

  /** How much fits into the buffers there are: behind what the last one in use holds, and into the unused ones. */
  function Room(vs: seq<Span>, used: nat): nat
    requires AllInRange(vs) && used <= |vs|
  {
    (if used > 0 then vs[used - 1].capacity - |vs[used - 1].written| else 0) + RoomFrom(vs, used)
  }

  lemma {:induction false} SameRoom(vs: seq<Span>, ws: seq<Span>, i: nat)
    requires |ws| == |vs| && forall j :: i <= j < |vs| ==> ws[j].capacity == vs[j].capacity
    ensures RoomFrom(ws, i) == RoomFrom(vs, i)
    decreases |vs| - i
  {
    if i < |vs| {
      SameRoom(vs, ws, i + 1);
    }
  }

  predicate FullAt(vs: seq<Span>, used: nat) {
    used <= |vs| && (used > 0 ==> vs[used - 1].capacity - |vs[used - 1].written| == 0)
  }

  /** Bringing an unused buffer into use makes no difference. */
  lemma RoomReused(initial: nat, vs: seq<Span>, used: nat)
    requires AllInRange(vs) && used < |vs| && FullAt(vs, used)
    ensures var ws := vs[used := Blank(vs[used].capacity)];
      AllInRange(ws) && Growing(initial, ws) == Growing(initial, vs) && Room(ws, used + 1) == Room(vs, used)
  {
    SameRoom(vs, vs[used := Blank(vs[used].capacity)], used + 1);
  }

  /** Neither does a new buffer, unless there is growth. */
  lemma RoomAdded(initial: nat, vs: seq<Span>, c: nat)
    requires AllInRange(vs) && FullAt(vs, |vs|) && (c > 0 <==> Growing(initial, vs))
    ensures var ws := vs + [Blank(c)];
      && AllInRange(ws) && Growing(initial, ws) == Growing(initial, vs)
      && (!Growing(initial, vs) ==> Room(ws, |ws|) == Room(vs, |vs|))
  {
  }

  lemma RoomTaken(initial: nat, vs: seq<Span>, used: nat, src: seq<byte>)
    requires AllInRange(vs) && 0 < used <= |vs| && |vs[used - 1].written| + |src| <= vs[used - 1].capacity
    ensures var ws := vs[used - 1 := Fill(vs[used - 1], src)];
      AllInRange(ws) && Growing(initial, ws) == Growing(initial, vs) && Room(ws, used) == Room(vs, used) - |src|
  {
    SameRoom(vs, vs[used - 1 := Fill(vs[used - 1], src)], used);
  }

  /** MultiBuffer owns its buffers exclusively, so they are values here; Buffer gives them a body. */
  class MultiBuffer {
    const initialSize: nat
    const linearSize: nat
    var buffers: seq<Span>
    var used: nat
    var readBuffer: nat
    var bytesWritten: nat
    var bytesRead: nat

    ghost predicate Valid()
      reads this
    {
      && AllInRange(buffers)
      && used <= |buffers|
      && (readBuffer == 0 || readBuffer < used)
      && Consumed(buffers, readBuffer)
    }

    /** All bytes written since the last reset. */
    ghost function Contents(): seq<byte>
      requires Valid()
      reads this
    {
      Flat(buffers[..used])
    }

    /** The part of them not read back yet. */
    ghost function Unread(): seq<byte>
      requires Valid()
      reads this
    {
      Rest(buffers[..used])
    }

    constructor (initialSize: nat, linearSize: nat)
      ensures this.initialSize == initialSize && this.linearSize == linearSize
      ensures Valid() && buffers == [] && used == 0 && bytesWritten == 0 && bytesRead == 0
    {
      this.initialSize, this.linearSize := initialSize, linearSize;
      buffers, used, readBuffer, bytesWritten, bytesRead := [], 0, 0, 0, 0;
    }

    /** Forget the contents but keep the memory. */
    method Reset()
      requires Valid()
      modifies this
      ensures Valid() && Contents() == [] && Unread() == []
      ensures buffers == old(buffers) && used == 0 && bytesWritten == 0 && bytesRead == 0
    {
      bytesWritten, bytesRead, used, readBuffer := 0, 0, 0, 0;
    }

    /** Put another buffer into use behind the ones there are; refused while some are unused. */
    method AddBuffer(b: Span) returns (ok: bool)
      requires Valid() && InRange(b)
      modifies this`buffers, this`used
      ensures Valid() && ok == (old(used) == |old(buffers)|)
      ensures !ok ==> buffers == old(buffers) && used == old(used)
      ensures ok ==> buffers == old(buffers) + [b] && used == |buffers|
      ensures ok ==> Contents() == old(Contents()) + b.written && Unread() == old(Unread()) + b.written[b.taken..]
    {
      ok := used == |buffers|;
      if ok {
        assert (buffers + [b])[..used] == buffers[..used];
        assert (buffers + [b])[..used + 1] == buffers + [b];
        buffers := buffers + [b];
        used := used + 1;
      }
    }

    /** The size doubles from initialSize up to linearSize and stays there. */
    function NextSize(size: nat): nat {
      if size == 0 then initialSize else if size < linearSize then size * 2 else size
    }

    /** There is room for n bytes, or will be. */
    ghost predicate CanTake(n: nat)
      requires Valid()
      reads this
    {
      Growing(initialSize, buffers) || n <= Room(buffers, used)
    }

    method UseNextBuffer()
      requires Valid()
      modifies this`buffers, this`used
      ensures Valid() && used == old(used) + 1
      ensures Contents() == old(Contents()) && Unread() == old(Unread())
      ensures old(used < |buffers|) ==> buffers == old(buffers)[old(used) := Blank(old(buffers[used].capacity))]
      ensures old(used == |buffers|) ==>
                buffers == old(buffers)
                           + [Blank(if used == 1 || old(buffers)[used - 2].capacity == 0 then initialSize
                                    else if old(buffers)[used - 2].capacity < linearSize
                                    then old(buffers)[used - 2].capacity * 2
                                    else old(buffers)[used - 2].capacity)]
    {
      ghost var before := buffers[..used];
      if used >= |buffers| {
        var size := if used > 0 then NextSize(buffers[used - 1].capacity) else initialSize;
        buffers := buffers + [Blank(size)];
      } else {
        buffers := buffers[used := Blank(buffers[used].capacity)];
      }
      used := used + 1;
      assert buffers[..used][..used - 1] == before;
    }

    /** Write what fits into the buffer at the end. */
    method FillLast(src: seq<byte>) returns (n: nat)
      requires Valid() && used > 0
      modifies this`buffers
      ensures Valid() && n == Min(|src|, old(buffers[used - 1].capacity - |buffers[used - 1].written|))
      ensures buffers == old(buffers)[used - 1 := Fill(old(buffers[used - 1]), src[..n])]
      ensures Contents() == old(Contents()) + src[..n]
      ensures Unread() == old(Unread()) + src[..n]
      ensures Growing(initialSize, buffers) == old(Growing(initialSize, buffers))
      ensures Room(buffers, used) + n == old(Room(buffers, used))
    {
      var b := buffers[used - 1];
      n := Min(|src|, b.capacity - |b.written|);
      RoomTaken(initialSize, buffers, used, src[..n]);
      ghost var vs := buffers[..used];
      FlatExtendLast(vs, src[..n]);
      RestExtendLast(vs, src[..n]);
      buffers := buffers[used - 1 := Fill(b, src[..n])];
      assert buffers[..used] == vs[used - 1 := Fill(b, src[..n])];
    }

    /** With initial and linear size equal, all buffers are that size and only the last may be partly full. */
    ghost predicate Chunked()
      reads this
    {
      initialSize == linearSize > 0 && used == |buffers| && FullButLast(buffers, linearSize)
    }

    /** If the buffer at the end is full, move on to the next one. */
    method MakeRoom()
      requires Valid()
      modifies this`buffers, this`used
      ensures Valid() && used > 0 && Contents() == old(Contents()) && Unread() == old(Unread())
      ensures Growing(initialSize, buffers) == old(Growing(initialSize, buffers))
      ensures !Growing(initialSize, buffers) ==> Room(buffers, used) == old(Room(buffers, used))
      ensures old(CanTake(1)) ==>
                |buffers[used - 1].written| < buffers[used - 1].capacity || |buffers| - used < old(|buffers| - used)
      ensures old(Chunked()) ==> used == |buffers| && Roomy(buffers, linearSize)
    {
      if used == 0 || buffers[used - 1].capacity - |buffers[used - 1].written| == 0 {
        if used < |buffers| {
          RoomReused(initialSize, buffers, used);
        } else {
          RoomAdded(initialSize, buffers, if used == 0 then initialSize else NextSize(buffers[used - 1].capacity));
        }
        UseNextBuffer();
      }
    }

    /**
     One turn of the write loop; it writes something or brings an existing buffer into use, if there is or
     will be room for the rest.  Otherwise there never is, so the loop does not end.
     */
    method WriteSome(src: seq<byte>) returns (n: nat)
      requires Valid() && src != []
      modifies this`buffers, this`used
      ensures Valid() && n <= |src|
      ensures Contents() == old(Contents()) + src[..n]
      ensures Unread() == old(Unread()) + src[..n]
      ensures Growing(initialSize, buffers) == old(Growing(initialSize, buffers))
      ensures !Growing(initialSize, buffers) ==> Room(buffers, used) + n == old(Room(buffers, used))
      ensures old(CanTake(1)) ==> n > 0 || |buffers| - used < old(|buffers| - used)
      ensures old(Chunked()) ==> Chunked()
    {
      MakeRoom();
      ghost var vs := buffers;
      n := FillLast(src);
      RoomFilled(vs, linearSize, src[..n]);
    }

    /** Append src, zero-capacity buffers notwithstanding; without room for it this would go on forever. */
    method Write(src: seq<byte>)
      requires Valid() && CanTake(|src|)
      modifies this`buffers, this`used, this`bytesWritten
      ensures Valid()
      ensures Contents() == old(Contents()) + src
      ensures Unread() == old(Unread()) + src
      ensures bytesWritten == old(bytesWritten) + |src|
      ensures src == [] ==> buffers == old(buffers) && used == old(used)
      ensures old(Chunked()) ==> Chunked()
    {
      ghost var contents, unread := Contents(), Unread();
      var off := 0;
      while off < |src|
        invariant Valid() && 0 <= off <= |src|
        invariant Contents() == contents + src[..off] && Unread() == unread + src[..off]
        invariant bytesWritten == old(bytesWritten)
        invariant src == [] ==> buffers == old(buffers) && used == old(used)
        invariant old(Chunked()) ==> Chunked()
        invariant CanTake(|src| - off)
        decreases |src| - off, |buffers| - used
      {
        var n := WriteSome(src[off..]);
        assert src[..off] + src[off..][..n] == src[..off + n];
        off := off + n;
      }
      assert src[..off] == src;
      bytesWritten := bytesWritten + |src|;
    }

    /** Without room for src, some of it is left after any number of turns. */
    method WriteWithoutEnd(src: seq<byte>, turns: nat) returns (off: nat)
      requires Valid() && !CanTake(|src|)
      modifies this`buffers, this`used
      ensures Valid() && off < |src| && !CanTake(|src| - off)
    {
      off := 0;
      for t := 0 to turns
        invariant Valid() && off < |src| && !CanTake(|src| - off)
      {
        var n := WriteSome(src[off..]);
        off := off + n;
      }
    }

    /** The read loop runs one buffer beyond the ones in use, if there is one: it holds what a reset left in it. */
    ghost function Reach(): nat
      reads this
    {
      Min(used + 1, |buffers|)
    }

    ghost function Readable(): seq<byte>
      requires AllInRange(buffers)
      reads this
    {
      Rest(buffers[..Reach()])
    }

    /** The next n bytes are what is unread; beyond that they are left-overs, or it reads outside the vector. */
    method Read(n: nat) returns (r: Result<seq<byte>>)
      requires Valid()
      modifies this`buffers, this`readBuffer, this`bytesRead
      ensures |buffers| == |old(buffers)| && (r.Err? <==> used == |buffers| && n > |old(Unread())|)
      ensures r.Ok? ==> r.value == old(Readable())[..Min(n, |old(Readable())|)] && bytesRead == old(bytesRead) + |r.value|
      ensures n <= |old(Unread())| ==>
                && r == Ok(old(Unread())[..n]) && Valid() && Unread() == old(Unread())[n..]
                && Contents() == old(Contents())
    {
      r, buffers, readBuffer := ReadFrom(buffers, used, readBuffer, n);
      if r.Ok? {
        bytesRead := bytesRead + |r.value|;
      }
    }

    /** Counts bytes as skipped without passing over them: the next read returns them all the same. */
    method Skip(n: nat) returns (r: Result<nat>)
      requires Valid()
      modifies this`readBuffer, this`bytesRead
      ensures r.Err? <==> n > 0 && Readable() == [] && used == |buffers|
      ensures r.Ok? ==> r.value == (if Readable() == [] then 0 else n) && bytesRead == old(bytesRead) + r.value
      ensures old(Unread()) != [] ==> r == Ok(n) && Valid() && Unread() == old(Unread())
    {
      RestGrows(buffers, used, Reach());
      var skipped;
      readBuffer, skipped := SkipOver(buffers, used, readBuffer, n);
      if skipped.Err? {
        return Err(skipped.error);
      }
      bytesRead := bytesRead + skipped.value;
      r := skipped;
    }

    /** Copy the unread bytes into `out` until it is full. */
    method Collect(out: Buffer)
      requires Valid() && out.Valid()
      modifies out, out.data
      ensures out.Valid()
      ensures out.View() == Appended(old(out.View()), Unread())
    {
      ghost var before := out.View();
      assert before.written + [] == before.written;
      for i := 0 to used
        invariant out.Valid() && out.View() == Appended(before, Rest(buffers[..i]))
      {
        assert buffers[..used][..i] == buffers[..i];
        if out.RemainingCapacity() == 0 {
          NothingMoreFits(before, buffers[..used], i);
          return;
        }
        var more := buffers[i].written[buffers[i].taken..];
        NextFits(before, buffers, i);
        var _ := out.Write(more);
      }
    }

    /** Free memory from the end down to maxCapacity, but never a buffer in use. */
    method ShrinkTo(maxCapacity: nat)
      requires Valid()
      modifies this`buffers
      ensures Valid() && Contents() == old(Contents()) && Unread() == old(Unread())
      ensures used <= |buffers| <= |old(buffers)| && buffers == old(buffers)[..|buffers|]
      ensures |buffers| == used || TotalCapacity(buffers) <= maxCapacity
      ensures |buffers| < |old(buffers)| ==> TotalCapacity(old(buffers)[..|buffers| + 1]) > maxCapacity
    {
      var fits := FirstExceeding(buffers, maxCapacity);
      var target := if fits < used then used else fits;
      EnoughGone(buffers, used, fits, maxCapacity);
      if target < |buffers| {
        assert buffers[..target][..used] == buffers[..used];
        buffers := buffers[..target];
      }
    }
  }

  /** Keeping what fits or what is in use, whichever is more, keeps no more than it has to. */
  lemma EnoughGone(vs: seq<Span>, used: nat, fits: nat, maxCapacity: nat)
    requires used <= |vs| && fits <= |vs| && TotalCapacity(vs[..fits]) <= maxCapacity
    requires fits < |vs| ==> TotalCapacity(vs[..fits + 1]) > maxCapacity
    ensures var target := if fits < used then used else fits;
      && (target == used || TotalCapacity(vs[..target]) <= maxCapacity)
      && (target < |vs| ==> TotalCapacity(vs[..target + 1]) > maxCapacity)
  {
    if fits < used {
      CapacityGrows(vs, fits, used);
    }
  }

  /** How many buffers fit into maxCapacity together. */
  method FirstExceeding(vs: seq<Span>, maxCapacity: nat) returns (target: nat)
    ensures target <= |vs| && TotalCapacity(vs[..target]) <= maxCapacity
    ensures target < |vs| ==> TotalCapacity(vs[..target + 1]) > maxCapacity
  {
    var capacity := 0;
    target := 0;
    while target < |vs|
      invariant target <= |vs| && capacity == TotalCapacity(vs[..target]) <= maxCapacity
    {
      assert vs[..target + 1][..target] == vs[..target];
      capacity := capacity + vs[target].capacity;
      if capacity > maxCapacity {
        break;
      }
      target := target + 1;
    }
  }

  lemma {:induction false} FlatAtLeast(vs: seq<Span>)
    requires forall i :: 0 <= i < |vs| ==> vs[i].written != []
    ensures |Flat(vs)| >= |vs|
  {
    if vs != [] {
      FlatAtLeast(vs[..|vs| - 1]);
    }
  }

  lemma OneOnly(vs: seq<Span>, used: nat, b: byte)
    requires AllInRange(vs) && FullButLast(vs, 1) && used == |vs| && Flat(vs[..used]) == [b] && Rest(vs[..used]) == [b]
    ensures |vs| == 1 && Rest(vs[..1]) == [b]
  {
    assert vs[..used] == vs;
    FlatAtLeast(vs);
  }

  /** After a reset the bytes written before it can still be read. */
  method LeftOversAreRead(b: byte) returns (r: Result<seq<byte>>)
    ensures r == Ok([b])
  {
    var mb := new MultiBuffer(1, 1);
    assert mb.Chunked() && mb.Contents() == [] && mb.Unread() == [];
    mb.Write([b]);
    ghost var vs := mb.buffers;
    assert mb.Contents() == [] + [b] == [b] && mb.Unread() == [] + [b] == [b];
    OneOnly(vs, mb.used, b);
    mb.Reset();
    assert mb.Unread() == [] && mb.Readable() == [b] && [b][..1] == [b];
    r := mb.Read(1);
  }

  function TotalCapacity(vs: seq<Span>): nat {
    if vs == [] then 0 else TotalCapacity(vs[..|vs| - 1]) + vs[|vs| - 1].capacity
  }

  lemma {:induction false} CapacityGrows(vs: seq<Span>, i: nat, j: nat)
    requires i <= j <= |vs|
    ensures TotalCapacity(vs[..i]) <= TotalCapacity(vs[..j])
    ensures i < |vs| && j < |vs| ==> TotalCapacity(vs[..i + 1]) <= TotalCapacity(vs[..j + 1])
    decreases j - i
  {
    if i < j {
      CapacityGrows(vs, i, j - 1);
      assert vs[..j][..j - 1] == vs[..j - 1];
      if j < |vs| {
        assert vs[..j + 1][..j] == vs[..j];
      }
    }
  }
}
