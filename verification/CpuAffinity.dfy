/** CPU lists such as "0,2,17": the strict parser, the printer that it inverts, and enableAffinity. */
module CpuAffinity {
  import opened Bytes

  const CPU_SETSIZE := 1024
  const INT_MAX := 2147483647

  // ---------------------------------------------------------------- decimal numbers

  predicate IsDigit(c: char) { '0' <= c <= '9' }

  function DigitOf(c: char): nat
    requires IsDigit(c)
  {
    c as int - '0' as int
  }

  function CharOf(d: nat): (c: char)
    requires d < 10
    ensures IsDigit(c) && DigitOf(c) == d
  {
    '0' + d as char
  }

  /** The ten digits and what they stand for. */
  lemma TenDigits(d: nat)
    requires d < 10
    ensures CharOf(d) == "0123456789"[d] && DigitOf("0123456789"[d]) == d
    ensures forall c: char :: IsDigit(c) <==> c in "0123456789"
  {
    var all := "0123456789";
    forall c: char | IsDigit(c) ensures c in all {
      assert all[c as int - '0' as int] == c;
    }
  }

  predicate AllDigits(s: string) { forall i :: 0 <= i < |s| ==> IsDigit(s[i]) }

  function Value(s: string): nat
    requires AllDigits(s)
  {
    if s == [] then 0 else 10 * Value(s[..|s| - 1]) + DigitOf(s[|s| - 1])
  }

  /** std::to_string: no leading zeros. */
  function Digits(n: nat): (s: string)
    ensures AllDigits(s) && s != [] && Value(s) == n
  {
    if n < 10 then
      var s := [CharOf(n)];
      assert s[..0] == [] && Value(s[..0]) == 0;
      s
    else
      var s := Digits(n / 10) + [CharOf(n % 10)];
      assert s[..|s| - 1] == Digits(n / 10);
      s
  }

  /** No string of digits is shorter than the canonical one of the same value. */
  lemma {:induction false} DigitsAreShortest(s: string)
    requires AllDigits(s) && s != []
    ensures |Digits(Value(s))| <= |s|
  {
    var init, v := s[..|s| - 1], Value(s);
    if v >= 10 {
      assert v / 10 == Value(init);
      DigitsAreShortest(init);
    }
  }

  lemma {:induction false} SameLengthSameValue(s: string, t: string)
    requires AllDigits(s) && AllDigits(t) && |s| == |t| && Value(s) == Value(t)
    ensures s == t
  {
    if s != [] {
      var n := |s| - 1;
      SameParts(Value(s[..n]), DigitOf(s[n]), Value(t[..n]), DigitOf(t[n]));
      SameLengthSameValue(s[..n], t[..n]);
      assert s == s[..n] + [s[n]] && t == t[..n] + [t[n]];
    }
  }

  lemma SameParts(x: nat, a: nat, y: nat, b: nat)
    requires a < 10 && b < 10 && 10 * x + a == 10 * y + b
    ensures x == y && a == b
  {
  }

  /** The digits a string starts with. */
  function Run(s: string): (r: string)
    ensures AllDigits(r) && r <= s && (|r| < |s| ==> !IsDigit(s[|r|]))
  {
    if s == [] || !IsDigit(s[0]) then [] else [s[0]] + Run(s[1..])
  }

  lemma {:induction false} RunOf(d: string, tail: string)
    requires AllDigits(d) && (tail == [] || !IsDigit(tail[0]))
    ensures Run(d + tail) == d
  {
    if d == [] {
      assert d + tail == tail;
    } else {
      RunOf(d[1..], tail);
      assert (d + tail)[1..] == d[1..] + tail;
    }
  }

  /** std::stoi on a string that starts with a digit: the whole run of digits counts, and may overflow. */
  function Stoi(s: string): Option<nat> {
    if Value(Run(s)) > INT_MAX then None else Some(Value(Run(s)))
  }

  // ---------------------------------------------------------------- the language

  function Join(ns: seq<nat>): string
    requires ns != []
  {
    if |ns| == 1 then Digits(ns[0]) else Digits(ns[0]) + "," + Join(ns[1..])
  }

  /** The text is these processor numbers, in canonical decimal, separated by single commas. */
  predicate Denotes(s: string, ns: seq<nat>) {
    && ns != []
    && (forall i :: 0 <= i < |ns| ==> ns[i] < CPU_SETSIZE)
    && s == Join(ns)
  }

  /** Plain decimals with commas between them; no leading zero, space, trailing comma or number from 1024 on. */
  lemma Examples()
    ensures Denotes("3,10,1023", [3, 10, 1023])
    ensures forall ns :: !Denotes("", ns) && !Denotes("1,", ns) && !Denotes("1 ,2", ns) && !Denotes("01", ns)
    ensures forall ns :: !Denotes("1024", ns)
  {
    TwoDigits();
    assert Join([1023]) == "1023" && Join([10, 1023]) == "10" + "," + "1023" == "10,1023";
    assert Join([3, 10, 1023]) == "3" + "," + "10,1023";
    forall ns ensures !Denotes("", ns) && !Denotes("1,", ns) && !Denotes("1 ,2", ns) && !Denotes("01", ns) && !Denotes("1024", ns) {
      NotDenoted(ns);
    }
  }

  lemma TwoDigits()
    ensures Digits(1) == "1" && Digits(3) == "3" && Digits(0) == "0"
    ensures Digits(10) == "10" && Digits(102) == "102" && Digits(1023) == "1023"
  {
  }

  lemma NotDenoted(ns: seq<nat>)
    ensures !Denotes("", ns) && !Denotes("1,", ns) && !Denotes("1 ,2", ns) && !Denotes("01", ns) && !Denotes("1024", ns)
  {
    if Denotes("", ns) {
      DenotesHead("", ns);
    }
    if Denotes("1,", ns) {
      DenotesHead("1,", ns);
    }
    if Denotes("1 ,2", ns) {
      DenotesHead("1 ,2", ns);
    }
    if Denotes("01", ns) {
      DenotesHead("01", ns);
    }
    if Denotes("1024", ns) {
      DenotesHead("1024", ns);
    }
  }

  function SetOf(ns: seq<nat>): set<nat> { set i | 0 <= i < |ns| :: ns[i] }

  /** What a text that denotes something starts with, and what comes after it. */
  lemma DenotesHead(s: string, ns: seq<nat>)
    requires Denotes(s, ns)
    ensures Run(s) == Digits(ns[0])
    ensures |ns| == 1 ==> s == Digits(ns[0])
    ensures |ns| > 1 ==> s == Digits(ns[0]) + "," + Join(ns[1..]) && Denotes(Join(ns[1..]), ns[1..])
  {
    if |ns| == 1 {
      RunOf(s, []);
      assert s + [] == s;
    } else {
      RunOf(Digits(ns[0]), "," + Join(ns[1..]));
      assert s == Digits(ns[0]) + ("," + Join(ns[1..]));
    }
  }

  /** No text denotes two lists. */
  lemma {:induction false} DenotesOnce(s: string, ns: seq<nat>, ms: seq<nat>)
    requires Denotes(s, ns) && Denotes(s, ms)
    ensures ns == ms
    decreases |ns|
  {
    DenotesHead(s, ns);
    DenotesHead(s, ms);
    assert ns[0] == ms[0];
    if |ns| > 1 && |ms| > 1 {
      var k := |Digits(ns[0])| + 1;
      assert s[k..] == Join(ns[1..]) && s[k..] == Join(ms[1..]);
      DenotesOnce(s[k..], ns[1..], ms[1..]);
      assert ns == [ns[0]] + ns[1..] && ms == [ms[0]] + ms[1..];
    }
  }

  // ---------------------------------------------------------------- the parser

  /** Stepping over as many characters as the number printed has only works if that is how it was written. */
  lemma RunIsCanonical(s: string)
    requires s != [] && IsDigit(s[0])
    ensures var k := |Digits(Value(Run(s)))|;
      k <= |s| && ((k == |s| || s[k] == ',') ==> Run(s) == Digits(Value(Run(s))))
  {
    var run := Run(s);
    assert run != [];
    DigitsAreShortest(run);
    var k := |Digits(Value(run))|;
    if k == |s| || s[k] == ',' {
      assert |run| == k;
      SameLengthSameValue(run, Digits(Value(run)));
    }
  }

  lemma NeverEmpty(ns: seq<nat>)
    requires ns != []
    ensures Join(ns) != []
  {
  }

  ghost predicate Meaningless(s: string) { forall ms :: !Denotes(s, ms) }

  lemma EmptyIsMeaningless()
    ensures Meaningless([])
  {
    forall ms ensures !Denotes([], ms) {
      if Denotes([], ms) {
        NeverEmpty(ms);
      }
    }
  }

  /** What anything that denotes a list looks like at its start. */
  lemma StartsWell(s: string, ms: seq<nat>)
    requires Denotes(s, ms)
    ensures s != [] && IsDigit(s[0]) && Value(Run(s)) == ms[0] < CPU_SETSIZE
    ensures var k := |Digits(Value(Run(s)))|; k <= |s| && (k == |s| || (k + 1 < |s| && s[k] == ','))
  {
    DenotesHead(s, ms);
    var d := Digits(ms[0]);
    assert s[0] == d[0];
    if |ms| > 1 {
      NeverEmpty(ms[1..]);
      assert s[|d|] == ',';
    }
  }

  /** One entry at `index`, its length as it would be printed, and the checks on what follows it. */
  method NextEntry(s: string, index: nat) returns (entry: Option<nat>, length: nat)
    requires index < |s|
    ensures entry.None? ==> Meaningless(s[index..])
    ensures entry.Some? ==> entry.value < CPU_SETSIZE && index + length <= |s|
    ensures entry.Some? ==> s[index..index + length] == Digits(entry.value)
    ensures entry.Some? && index + length < |s| ==> s[index + length] == ',' && index + length + 1 < |s|
  {
    ghost var now := s[index..];
    if !IsDigit(s[index]) {
      NoStart(now);
      return None, 0;
    }
    var processor := Stoi(s[index..]);
    if processor.None? || processor.value >= CPU_SETSIZE {
      NoStart(now);
      return None, 0;
    }
    RunIsCanonical(now);
    length := |Digits(processor.value)|;
    if index + length == |s| {
      assert now[..length] == s[index..index + length];
      return processor, length;
    }
    if s[index + length] != ',' || index + length + 1 >= |s| {
      NoStart(now);
      return None, 0;
    }
    assert now[..length] == s[index..index + length];
    return processor, length;
  }

  lemma NoStart(s: string)
    requires s != []
    requires !IsDigit(s[0]) || Value(Run(s)) >= CPU_SETSIZE
          || var k := |Digits(Value(Run(s)))|; k < |s| && (s[k] != ',' || k + 1 >= |s|)
    ensures Meaningless(s)
  {
    forall ms ensures !Denotes(s, ms) {
      if Denotes(s, ms) {
        StartsWell(s, ms);
      }
    }
  }

  /** Entries already read, each with the comma after it. */
  function Prefix(ns: seq<nat>): string {
    if ns == [] then [] else Prefix(ns[..|ns| - 1]) + (Digits(ns[|ns| - 1]) + ",")
  }

  lemma AfterComma(d: string, rest: string, t: string)
    requires d + ("," + rest) == d + "," + t
    ensures rest == t
  {
    assert (d + ("," + rest))[|d| + 1..] == rest;
    assert (d + "," + t)[|d| + 1..] == t;
  }

  lemma DenotesUncons(s: string, cpu: nat, rest: string, ms: seq<nat>)
    requires s == Digits(cpu) + ("," + rest) && Denotes(s, ms)
    ensures |ms| > 1 && ms[0] == cpu && Denotes(rest, ms[1..])
  {
    DenotesHead(s, ms);
    RunOf(Digits(cpu), "," + rest);
    assert ms[0] == cpu by {
      assert Value(Digits(ms[0])) == Value(Digits(cpu));
    }
    if |ms| > 1 {
      AfterComma(Digits(cpu), rest, Join(ms[1..]));
    }
  }

  /** The entries behind us are the first of whatever the text denotes. */
  lemma {:induction false} StripPrefix(ns: seq<nat>, tail: string, ms: seq<nat>)
    requires Denotes(Prefix(ns) + tail, ms)
    ensures |ms| >= |ns| && ms[..|ns|] == ns
    ensures |ms| > |ns| && Denotes(tail, ms[|ns|..])
    decreases |ns|
  {
    if ns == [] {
      assert Prefix(ns) + tail == tail && ms[0..] == ms;
    } else {
      var n := |ns| - 1;
      var more := Digits(ns[n]) + ("," + tail);
      PrefixSplit(ns, tail);
      StripPrefix(ns[..n], more, ms);
      DenotesUncons(more, ns[n], tail, ms[n..]);
      assert ms[n..][1..] == ms[n + 1..];
    }
  }

  lemma DenotesCons(cpu: nat, tail: string, ks: seq<nat>)
    requires cpu < CPU_SETSIZE && Denotes(tail, ks)
    ensures Denotes(Digits(cpu) + ("," + tail), [cpu] + ks)
  {
    assert ([cpu] + ks)[1..] == ks;
    assert Digits(cpu) + "," + tail == Digits(cpu) + ("," + tail);
  }

  lemma {:induction false} PrefixSplit(ns: seq<nat>, tail: string)
    requires ns != []
    ensures var n := |ns| - 1; Prefix(ns) + tail == Prefix(ns[..n]) + (Digits(ns[n]) + ("," + tail))
  {
    var n := |ns| - 1;
    Commas(Prefix(ns[..n]), Digits(ns[n]), tail);
  }

  lemma Commas(a: string, b: string, c: string)
    ensures a + b + "," + c == a + (b + ("," + c))
  {
  }

  lemma MoveLast(ns: seq<nat>, ks: seq<nat>)
    requires ns != []
    ensures ns[..|ns| - 1] + ([ns[|ns| - 1]] + ks) == ns + ks
  {
  }

  lemma {:induction false} AddPrefix(ns: seq<nat>, tail: string, ks: seq<nat>)
    requires Denotes(tail, ks) && forall i :: 0 <= i < |ns| ==> ns[i] < CPU_SETSIZE
    ensures Denotes(Prefix(ns) + tail, ns + ks)
    decreases |ns|
  {
    if ns == [] {
      assert Prefix(ns) + tail == tail && ns + ks == ks;
    } else {
      var n := |ns| - 1;
      DenotesCons(ns[n], tail, ks);
      var more, ms := Digits(ns[n]) + ("," + tail), [ns[n]] + ks;
      AddPrefix(ns[..n], more, ms);
      PrefixSplit(ns, tail);
      MoveLast(ns, ks);
    }
  }

  lemma MeaninglessTail(s: string, ns: seq<nat>, index: nat)
    requires index <= |s| && s[..index] == Prefix(ns) && Meaningless(s[index..])
    ensures Meaningless(s)
  {
    assert s == s[..index] + s[index..];
    forall ms ensures !Denotes(s, ms) {
      if Denotes(s, ms) {
        StripPrefix(ns, s[index..], ms);
      }
    }
  }

  lemma PrefixGrows(s: string, ns: seq<nat>, index: nat, cpu: nat, length: nat)
    requires index + length < |s| && s[..index] == Prefix(ns)
    requires s[index..index + length] == Digits(cpu) && s[index + length] == ','
    ensures s[..index + length + 1] == Prefix(ns + [cpu])
  {
    assert (ns + [cpu])[..|ns|] == ns;
    assert s[..index + length + 1] == s[..index] + (s[index..index + length] + ",");
  }

  /** Accepts exactly the lists with the right number of entries, and returns the set of them. */
  method ProcListToCpuSet(procList: string, requiredCount: nat)
    returns (ok: bool, cpuSet: set<nat>, ghost ns: seq<nat>)
    ensures ok ==> Denotes(procList, ns) && |ns| == requiredCount && cpuSet == SetOf(ns)
    ensures !ok ==> forall ms :: Denotes(procList, ms) ==> |ms| != requiredCount
  {
    cpuSet, ns := {}, [];
    if |procList| == 0 {
      EmptyIsMeaningless();
      return false, cpuSet, ns;
    }
    var index, count := 0, 0;
    while true
      invariant 0 <= index < |procList| && count == |ns|
      invariant procList[..index] == Prefix(ns)
      invariant forall i :: 0 <= i < |ns| ==> ns[i] < CPU_SETSIZE
      invariant cpuSet == SetOf(ns)
      decreases |procList| - index
    {
      var entry, length := NextEntry(procList, index);
      if entry.None? {
        MeaninglessTail(procList, ns, index);
        return false, cpuSet, ns;
      }
      cpuSet := cpuSet + {entry.value};
      SetOfSnoc(ns, entry.value);
      count := count + 1;
      if index + length == |procList| {
        LastEntry(procList, ns, index, entry.value);
        ns := ns + [entry.value];
        break;
      }
      PrefixGrows(procList, ns, index, entry.value, length);
      ns := ns + [entry.value];
      index := index + length + 1;
    }
    ok := count == requiredCount;
    forall ms | Denotes(procList, ms) ensures ms == ns {
      DenotesOnce(procList, ms, ns);
    }
  }

  lemma LastEntry(s: string, ns: seq<nat>, index: nat, cpu: nat)
    requires index <= |s| && s[..index] == Prefix(ns) && s[index..] == Digits(cpu) && cpu < CPU_SETSIZE
    requires forall i :: 0 <= i < |ns| ==> ns[i] < CPU_SETSIZE
    ensures Denotes(s, ns + [cpu])
  {
    AddPrefix(ns, s[index..], [cpu]);
    assert s == s[..index] + s[index..];
  }

  lemma SetOfSnoc(ns: seq<nat>, n: nat)
    ensures SetOf(ns + [n]) == SetOf(ns) + {n}
  {
    var all := ns + [n];
    assert forall i :: 0 <= i < |ns| ==> all[i] == ns[i];
    assert all[|ns|] == n;
    forall x | x in SetOf(ns) + {n} ensures x in SetOf(all) {
      if x in SetOf(ns) {
        var i :| 0 <= i < |ns| && ns[i] == x;
        assert all[i] == x;
      }
    }
  }

  // ---------------------------------------------------------------- the printer

  /** The members of a set below n, in order. */
  function Ascending(cpuSet: set<nat>, n: nat): seq<nat> {
    if n == 0 then []
    else Ascending(cpuSet, n - 1) + (if n - 1 in cpuSet then [n - 1] else [])
  }

  function Text(ns: seq<nat>): string { if ns == [] then [] else Join(ns) }

  lemma {:induction false} TextSnoc(ns: seq<nat>, n: nat)
    ensures Text(ns + [n]) == Text(ns) + (if ns == [] then [] else ",") + Digits(n)
  {
    if ns == [] {
      assert ns + [n] == [n];
    } else {
      TextSnoc(ns[1..], n);
      assert (ns + [n])[1..] == ns[1..] + [n];
      if |ns| > 1 {
        assert Digits(ns[0]) + "," + (Join(ns[1..]) + "," + Digits(n))
            == Digits(ns[0]) + "," + Join(ns[1..]) + "," + Digits(n);
      } else {
        assert ns[1..] + [n] == [n];
      }
    }
  }

  method CpuSetToProcList(cpuSet: set<nat>) returns (ret: string)
    ensures ret == Text(Ascending(cpuSet, CPU_SETSIZE))
  {
    ret := [];
    for i := 0 to CPU_SETSIZE
      invariant ret == Text(Ascending(cpuSet, i))
    {
      if i in cpuSet {
        TextSnoc(Ascending(cpuSet, i), i);
        if Ascending(cpuSet, i) != [] {
          NeverEmpty(Ascending(cpuSet, i));
        }
        if ret != [] {
          ret := ret + ",";
        }
        ret := ret + Digits(i);
      } else {
        assert Ascending(cpuSet, i) + [] == Ascending(cpuSet, i);
      }
    }
  }

  ghost predicate IsCpuSet(cpuSet: set<nat>) { forall c :: c in cpuSet ==> c < CPU_SETSIZE }

  lemma {:induction false} AscendingIs(cpuSet: set<nat>, n: nat)
    ensures forall c :: c in SetOf(Ascending(cpuSet, n)) <==> c in cpuSet && c < n
    ensures |SetOf(Ascending(cpuSet, n))| == |Ascending(cpuSet, n)|
    ensures forall i :: 0 <= i < |Ascending(cpuSet, n)| ==> Ascending(cpuSet, n)[i] < n
  {
    if n > 0 {
      AscendingIs(cpuSet, n - 1);
      if n - 1 in cpuSet {
        SetOfSnoc(Ascending(cpuSet, n - 1), n - 1);
      } else {
        assert Ascending(cpuSet, n - 1) + [] == Ascending(cpuSet, n - 1);
      }
    }
  }

  /** What is printed for a set denotes it, each member once; only the empty set denotes nothing. */
  lemma PrintedDenotes(cpuSet: set<nat>)
    requires IsCpuSet(cpuSet)
    ensures var ns := Ascending(cpuSet, CPU_SETSIZE);
      && SetOf(ns) == cpuSet && |ns| == |cpuSet|
      && (Denotes(Text(ns), ns) <==> cpuSet != {})
  {
    AscendingIs(cpuSet, CPU_SETSIZE);
    var ns := Ascending(cpuSet, CPU_SETSIZE);
    assert SetOf(ns) == cpuSet;
  }

  /** The parser inverts the printer on every set but the empty one. */
  method PrintAndParse(cpuSet: set<nat>) returns (ok: bool, parsed: set<nat>)
    requires IsCpuSet(cpuSet)
    ensures ok <==> cpuSet != {}
    ensures ok ==> parsed == cpuSet
  {
    var text := CpuSetToProcList(cpuSet);
    ghost var ns;
    ok, parsed, ns := ProcListToCpuSet(text, |cpuSet|);
    PrintedDenotes(cpuSet);
    Same(text, ok, ns, Ascending(cpuSet, CPU_SETSIZE));
  }

  lemma Same(text: string, ok: bool, ns: seq<nat>, expected: seq<nat>)
    requires text == Text(expected) && (ok ==> Denotes(text, ns))
    ensures ok && Denotes(text, expected) ==> ns == expected
    ensures ok ==> expected != []
  {
    if ok {
      NeverEmpty(ns);
      if Denotes(text, expected) {
        DenotesOnce(text, ns, expected);
      }
    }
  }

  // ---------------------------------------------------------------- ExecutionLimits

  lemma NoDuplicatesSnoc(ns: seq<nat>, n: nat)
    ensures NoDuplicates(ns + [n]) <==> NoDuplicates(ns) && n !in SetOf(ns)
  {
    var all := ns + [n];
    assert forall i :: 0 <= i < |ns| ==> all[i] == ns[i];
    if n in SetOf(ns) {
      var i :| 0 <= i < |ns| && ns[i] == n;
      assert all[i] == all[|ns|];
    }
  }

  lemma {:induction false} SetOfSize(ns: seq<nat>)
    ensures |SetOf(ns)| <= |ns|
    ensures |SetOf(ns)| == |ns| <==> NoDuplicates(ns)
  {
    if ns != [] {
      var n := |ns| - 1;
      SetOfSize(ns[..n]);
      SetOfSnoc(ns[..n], ns[n]);
      NoDuplicatesSnoc(ns[..n], ns[n]);
      assert ns == ns[..n] + [ns[n]];
      if ns[n] in SetOf(ns[..n]) {
        assert SetOf(ns[..n]) + {ns[n]} == SetOf(ns[..n]);
      }
    }
  }

  predicate NoDuplicates(ns: seq<nat>) { forall i, j :: 0 <= i < j < |ns| ==> ns[i] != ns[j] }

  /** Unsigned 32-bit product. */
  function Mul32(a: u32, b: u32): u32 { Low32(a * b) }

  /** The lists a configuration gives, and whether they fit the limits. */
  ghost predicate Fits(maxCores: u32, threadsPerCore: u32, cpus: seq<nat>, threads: seq<nat>) {
    && |cpus| == maxCores
    && (threadsPerCore > 1 ==>
          |threads| == Mul32(maxCores, threadsPerCore - 1) && SetOf(cpus) !! SetOf(threads))
  }

  /** The two texts denote lists that fit; the second is not looked at without hyperthreading. */
  ghost predicate Described(maxCores: u32, threadsPerCore: u32, cpus: string, hyperthreadCpus: string,
                            ms: seq<nat>, ts: seq<nat>) {
    && Denotes(cpus, ms) && (threadsPerCore > 1 ==> Denotes(hyperthreadCpus, ts))
    && Fits(maxCores, threadsPerCore, ms, ts)
  }

  class ExecutionLimits {
    var maxCores: u32
    var threadsPerCore: u32
    var useAffinity: bool
    var cpuSet: set<nat>

    constructor (maxCores: u32, threadsPerCore: u32)
      ensures this.maxCores == maxCores && this.threadsPerCore == threadsPerCore && !useAffinity
    {
      this.maxCores, this.threadsPerCore := maxCores, threadsPerCore;
      useAffinity, cpuSet := false, {};
    }

    /** All or nothing: the union of two disjoint sets of the right sizes, or no change. */
    method EnableAffinity(cpus: string, hyperthreadCpus: string)
      returns (ok: bool, ghost ns: seq<nat>, ghost hs: seq<nat>)
      modifies this`useAffinity, this`cpuSet
      ensures !ok ==> useAffinity == old(useAffinity) && cpuSet == old(cpuSet)
      ensures ok ==>
                && useAffinity && Described(maxCores, threadsPerCore, cpus, hyperthreadCpus, ns, hs)
                && cpuSet == SetOf(ns) + (if threadsPerCore > 1 then SetOf(hs) else {})
      ensures !ok ==> forall ms, ts :: !Described(maxCores, threadsPerCore, cpus, hyperthreadCpus, ms, ts)
    {
      var cores;
      ok, cores, ns := ProcListToCpuSet(cpus, maxCores);
      hs := [];
      if !ok {
        return;
      }
      if threadsPerCore > 1 {
        var threads;
        ok, threads, hs := ProcListToCpuSet(hyperthreadCpus, Mul32(maxCores, threadsPerCore - 1));
        if !ok {
          return;
        }
        if cores * threads != {} {
          Overlap(maxCores, threadsPerCore, cpus, hyperthreadCpus, ns, hs);
          return false, ns, hs;
        }
        assert SetOf(ns) !! SetOf(hs) by {
          assert forall c :: c in SetOf(ns) && c in SetOf(hs) ==> c in cores * threads;
        }
        cores := cores + threads;
      } else {
        assert cores + {} == cores;
      }
      useAffinity, cpuSet := true, cores;
    }
  }

  lemma Overlap(maxCores: u32, threadsPerCore: u32, cpus: string, hyperthreadCpus: string,
                ns: seq<nat>, hs: seq<nat>)
    requires threadsPerCore > 1
    requires Denotes(cpus, ns) && Denotes(hyperthreadCpus, hs) && SetOf(ns) * SetOf(hs) != {}
    ensures forall ms, ts :: !Described(maxCores, threadsPerCore, cpus, hyperthreadCpus, ms, ts)
  {
    forall ms, ts ensures !Described(maxCores, threadsPerCore, cpus, hyperthreadCpus, ms, ts) {
      if Denotes(cpus, ms) && Denotes(hyperthreadCpus, ts) {
        DenotesOnce(cpus, ms, ns);
        DenotesOnce(hyperthreadCpus, ts, hs);
      }
    }
  }

  /** The cpus that end up in use. */
  ghost function Used(threadsPerCore: u32, ns: seq<nat>, hs: seq<nat>): set<nat> {
    SetOf(ns) + (if threadsPerCore > 1 then SetOf(hs) else {})
  }

  /**
   The cpus used do not exceed cores times threads, unless there are cpus but no threads per core; they are
   that many exactly if nothing repeats or wraps, too.
   */
  lemma AffinitySize(maxCores: u32, threadsPerCore: u32, ns: seq<nat>, hs: seq<nat>)
    requires Fits(maxCores, threadsPerCore, ns, hs)
    ensures var used := Used(threadsPerCore, ns, hs);
      && (|used| <= maxCores * threadsPerCore <==> threadsPerCore > 0 || used == {})
      && (|used| == maxCores * threadsPerCore <==>
            && NoDuplicates(ns) && (threadsPerCore == 0 ==> used == {})
            && (threadsPerCore > 1 ==> NoDuplicates(hs) && maxCores * (threadsPerCore - 1) < TWO_32))
  {
    SetOfSize(ns);
    SetOfSize(hs);
    assert SetOf(ns) + {} == SetOf(ns);
    if threadsPerCore > 1 {
      var p := maxCores * (threadsPerCore - 1);
      assert |SetOf(ns) + SetOf(hs)| == |SetOf(ns)| + |SetOf(hs)|;
      Distribute(maxCores, threadsPerCore);
      SumOfParts(|SetOf(ns)|, |SetOf(hs)|, maxCores, Low32(p), p);
    } else if threadsPerCore == 0 {
      assert maxCores * 0 == 0;
      NothingListed(ns);
    }
  }

  lemma NothingListed(ns: seq<nat>)
    ensures SetOf(ns) == {} <==> ns == []
  {
    if ns != [] {
      assert ns[0] in SetOf(ns);
    }
  }

  /** One core without threads gets a cpu. */
  lemma NoThreads()
    ensures Fits(1, 0, [0], []) && |Used(0, [0], [])| == 1
  {
    SetOfSize([0]);
    assert SetOf([0]) + {} == SetOf([0]);
  }

  /** Three cores with 1431655767 threads each ask for 2 hyperthread cpus. */
  lemma ThreadsWrap()
    ensures Fits(3, 1431655767, [0, 1, 2], [3, 4]) && |Used(1431655767, [0, 1, 2], [3, 4])| == 5
  {
    assert 3 * 1431655766 == TWO_32 + 2;
    SetOfSize([0, 1, 2]);
    SetOfSize([3, 4]);
    assert |SetOf([0, 1, 2]) + SetOf([3, 4])| == |SetOf([0, 1, 2])| + |SetOf([3, 4])|;
  }

  lemma Distribute(a: nat, b: nat)
    requires b > 0
    ensures a * b == a + a * (b - 1)
  {
  }

  lemma SumOfParts(x: nat, y: nat, c: nat, r: nat, p: nat)
    requires x <= c && y <= r <= p
    ensures x + y <= c + p && (x + y == c + p <==> x == c && y == r && r == p)
  {
  }
}
