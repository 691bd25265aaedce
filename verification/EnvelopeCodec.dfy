/** The message header on the wire: encoding, decoding with room for extensions, and their round trips. */
module EnvelopeCodec {
  import opened Bytes
  import opened Envelopes

  const MAJOR_VERSION := 4
  const MINOR_VERSION := 0
  const PROTOCOL_VERSION: u16 := 256 * MAJOR_VERSION + MINOR_VERSION
  const FIXED_SIZE := 42
  const ADDRESS_SIZE := 48

  /** What a decoder returns: the value and the bytes it left, or the error it throws. */
  datatype Read<T> = Got(value: T, rest: seq<byte>) | Bad(error: string)

  const END := "Attempt to read beyond end of message data"

  /** The header fields before the routing name. */
  datatype Fixed = Fixed(
    addrOffset: u32,
    version: u16,
    flags: u16,
    instanceId: UUID,
    sourceId: UUID,
    nameLen: u16)

  /** Everything in front of the content. */
  datatype Head = Head(meta: Metadata, to: seq<Address>, classId: UUID, version: u32)

  // ---------------------------------------------------------------- the fixed part

  function EncodeFixed(f: Fixed): (b: seq<byte>)
    ensures |b| == FIXED_SIZE
  {
    Encode32(f.addrOffset) + Encode16(f.version) + Encode16(f.flags)
    + f.instanceId + f.sourceId + Encode16(f.nameLen)
  }

  function FixedOf(b: seq<byte>): Fixed
    requires |b| == FIXED_SIZE
  {
    Fixed(Decode32(b[..4]), Decode16(b[4..6]), Decode16(b[6..8]), b[8..24], b[24..40], Decode16(b[40..42]))
  }

  /** Any minor version will do. */
  function DecodeFixed(b: seq<byte>): Read<Fixed> {
    if |b| < 8 then Bad(END)
    else if Decode16(b[4..6]) / 256 != MAJOR_VERSION then Bad("Incorrect messaging protocol major version")
    else if |b| < FIXED_SIZE then Bad(END)
    else Got(FixedOf(b[..FIXED_SIZE]), b[FIXED_SIZE..])
  }

  lemma FixedRoundTrip(f: Fixed)
    ensures FixedOf(EncodeFixed(f)) == f
  {
    var b := EncodeFixed(f);
    var words := Encode32(f.addrOffset) + Encode16(f.version) + Encode16(f.flags);
    var front := words + f.instanceId + f.sourceId;
    assert |words| == 8 && |front| == 40 && b == front + Encode16(f.nameLen);
    assert words[..4] == Encode32(f.addrOffset) && words[4..6] == Encode16(f.version) && words[6..8] == Encode16(f.flags);
    assert b[..4] == words[..4] && b[4..6] == words[4..6] && b[6..8] == words[6..8];
    assert b[8..24] == f.instanceId && b[24..40] == f.sourceId;
    assert b[40..42] == Encode16(f.nameLen);
  }

  lemma FixedReencode(b: seq<byte>)
    requires |b| == FIXED_SIZE
    ensures EncodeFixed(FixedOf(b)) == b
  {
    Reencode32(b[..4]);
    Reencode16(b[4..6]);
    Reencode16(b[6..8]);
    Reencode16(b[40..42]);
  }

  lemma DecodeFixedOf(f: Fixed, tail: seq<byte>)
    requires f.version / 256 == MAJOR_VERSION
    ensures DecodeFixed(EncodeFixed(f) + tail) == Got(f, tail)
  {
    FixedRoundTrip(f);
    var b := EncodeFixed(f) + tail;
    assert b[..FIXED_SIZE] == EncodeFixed(f) && b[FIXED_SIZE..] == tail;
    assert b[4..6] == EncodeFixed(f)[4..6];
  }

  // ---------------------------------------------------------------- name and extensions

  /** The name, and then whatever a later minor version put before the addresses is skipped. */
  function DecodeName(b: seq<byte>, f: Fixed): Read<seq<byte>> {
    if |b| < f.nameLen then Bad(END)
    else if FIXED_SIZE + f.nameLen > f.addrOffset then Bad("Header length is too short")
    else if |b| < f.addrOffset - FIXED_SIZE then Bad(END)
    else Got(b[..f.nameLen], b[f.addrOffset - FIXED_SIZE..])
  }

  lemma DecodeNameOf(f: Fixed, name: seq<byte>, extension: seq<byte>, tail: seq<byte>)
    requires |name| == f.nameLen && f.addrOffset == FIXED_SIZE + |name| + |extension|
    ensures DecodeName(name + extension + tail, f) == Got(name, tail)
  {
    var b := name + extension + tail;
    assert b[..f.nameLen] == name && b[f.addrOffset - FIXED_SIZE..] == tail;
  }

  // ---------------------------------------------------------------- addresses

  function EncodeAddress(a: Address): (b: seq<byte>)
    ensures |b| == ADDRESS_SIZE
  {
    a.session + a.node + a.computation
  }

  function AddressOf(b: seq<byte>): Address
    requires |b| == ADDRESS_SIZE
  {
    Address(b[..16], b[16..32], b[32..])
  }

  lemma AddressRoundTrip(a: Address)
    ensures AddressOf(EncodeAddress(a)) == a
  {
    var b := EncodeAddress(a);
    assert b[..16] == a.session && b[16..32] == a.node && b[32..] == a.computation;
  }

  function EncodeAddresses(addrs: seq<Address>): (b: seq<byte>)
    ensures |b| == ADDRESS_SIZE * |addrs|
  {
    if addrs == [] then [] else EncodeAddress(addrs[0]) + EncodeAddresses(addrs[1..])
  }

  function TakeAddresses(b: seq<byte>, n: nat): Read<seq<Address>>
    decreases n
  {
    if n == 0 then Got([], b)
    else if |b| < ADDRESS_SIZE then Bad(END)
    else
      match TakeAddresses(b[ADDRESS_SIZE..], n - 1)
      case Bad(m) => Bad(m)
      case Got(more, rest) => Got([AddressOf(b[..ADDRESS_SIZE])] + more, rest)
  }

  lemma {:induction false} TakeAddressesOf(addrs: seq<Address>, tail: seq<byte>)
    ensures TakeAddresses(EncodeAddresses(addrs) + tail, |addrs|) == Got(addrs, tail)
  {
    var b := EncodeAddresses(addrs) + tail;
    if addrs == [] {
      assert b == tail;
    } else {
      TakeAddressesOf(addrs[1..], tail);
      AddressRoundTrip(addrs[0]);
      assert b[..ADDRESS_SIZE] == EncodeAddress(addrs[0]);
      assert b[ADDRESS_SIZE..] == EncodeAddresses(addrs[1..]) + tail;
      assert addrs == [addrs[0]] + addrs[1..];
    }
  }

  lemma {:induction false} TakeAddressesReencode(b: seq<byte>, n: nat)
    requires TakeAddresses(b, n).Got?
    ensures |TakeAddresses(b, n).value| == n
    ensures EncodeAddresses(TakeAddresses(b, n).value) + TakeAddresses(b, n).rest == b
    decreases n
  {
    if n > 0 {
      TakeAddressesReencode(b[ADDRESS_SIZE..], n - 1);
      var more, rest := TakeAddresses(b[ADDRESS_SIZE..], n - 1).value, TakeAddresses(b, n).rest;
      var a := AddressOf(b[..ADDRESS_SIZE]);
      assert EncodeAddress(a) == b[..ADDRESS_SIZE];
      assert ([a] + more)[1..] == more;
      assert EncodeAddress(a) + EncodeAddresses(more) + rest == EncodeAddress(a) + (EncodeAddresses(more) + rest);
    }
  }

  /** The sender's address comes first and has to be there. */
  function DecodeAddresses(b: seq<byte>): (r: Read<seq<Address>>)
    ensures r.Got? ==> r.value != []
  {
    if |b| < 4 then Bad(END)
    else if Decode32(b[..4]) == 0 then Bad("Message must contain 'from' address")
    else
      var n := Decode32(b[..4]);
      var r := TakeAddresses(b[4..], n);
      if r.Got? then TakeAddressesReencode(b[4..], n); r else r
  }

  lemma DecodeCounted(n: u32, b: seq<byte>)
    requires n > 0
    ensures DecodeAddresses(Encode32(n) + b) == TakeAddresses(b, n)
  {
    var all := Encode32(n) + b;
    assert all[..4] == Encode32(n) && all[4..] == b;
  }

  lemma DecodeAddressesOf(addrs: seq<Address>, tail: seq<byte>)
    requires 0 < |addrs| < TWO_32
    ensures DecodeAddresses(Encode32(|addrs|) + EncodeAddresses(addrs) + tail) == Got(addrs, tail)
  {
    TakeAddressesOf(addrs, tail);
    DecodeCounted(|addrs|, EncodeAddresses(addrs) + tail);
    Associative(Encode32(|addrs|), EncodeAddresses(addrs), tail);
  }

  lemma DecodeAddressesReencode(b: seq<byte>)
    requires DecodeAddresses(b).Got?
    ensures var r := DecodeAddresses(b);
      0 < |r.value| < TWO_32 && Encode32(|r.value|) + EncodeAddresses(r.value) + r.rest == b
  {
    var r := DecodeAddresses(b);
    TakeAddressesReencode(b[4..], Decode32(b[..4]));
    Reencode32(b[..4]);
    assert b == b[..4] + b[4..];
    assert Encode32(|r.value|) + (EncodeAddresses(r.value) + r.rest)
        == Encode32(|r.value|) + EncodeAddresses(r.value) + r.rest;
  }

  // ---------------------------------------------------------------- the whole head

  function EncodeClass(classId: UUID, version: u32): (b: seq<byte>)
    ensures |b| == 20
  {
    classId + Encode32(version)
  }

  function DecodeHead(b: seq<byte>): Read<Head> {
    match DecodeFixed(b)
    case Bad(m) => Bad(m)
    case Got(f, b1) =>
      match DecodeName(b1, f)
      case Bad(m) => Bad(m)
      case Got(name, b2) =>
        match DecodeAddresses(b2)
        case Bad(m) => Bad(m)
        case Got(addrs, b3) => WithClass(f, name, addrs, b3)
  }

  /** The content's class and version come last. */
  function WithClass(f: Fixed, name: seq<byte>, addrs: seq<Address>, b: seq<byte>): Read<Head>
    requires addrs != []
  {
    if |b| < 20 then Bad(END)
    else Got(HeadOf(f, name, addrs, b[..16], Decode32(b[16..20])), b[20..])
  }

  function HeadOf(f: Fixed, name: seq<byte>, addrs: seq<Address>, classId: UUID, version: u32): Head
    requires addrs != []
  {
    Head(Metadata(f.instanceId, f.sourceId, addrs[0], name, f.flags % 2 == 1), addrs[1..], classId, version)
  }

  /** The fixed part the writer produces for a head, with k bytes of extensions behind the name. */
  function FixedFor(h: Head, nameLen: u16, k: nat): Fixed
    requires FIXED_SIZE + nameLen + k < TWO_32
  {
    Fixed(FIXED_SIZE + nameLen + k, PROTOCOL_VERSION, if h.meta.trace then 1 else 0,
          h.meta.instanceId, h.meta.sourceId, nameLen)
  }

  /** A head with extensions, for a name and a destination list whose lengths fit their fields. */
  function EncodeExtended(h: Head, extension: seq<byte>): seq<byte>
    requires Fits(h) && FIXED_SIZE + |h.meta.routingName| + |extension| < TWO_32
  {
    EncodeFixed(FixedFor(h, |h.meta.routingName|, |extension|))
    + (h.meta.routingName + extension
       + (Encode32(|h.to| + 1) + EncodeAddresses([h.meta.from] + h.to)
          + EncodeClass(h.classId, h.version)))
  }

  predicate Fits(h: Head) { 0 < |h.meta.routingName| < TWO_16 && |h.to| + 1 < TWO_32 }

  function Assemble(h: Head, nameLen: u16, count: u32): seq<byte>
    requires nameLen <= |h.meta.routingName|
  {
    EncodeFixed(FixedFor(h, nameLen, 0))
    + (h.meta.routingName[..nameLen]
       + (Encode32(count) + EncodeAddresses([h.meta.from] + h.to)
          + EncodeClass(h.classId, h.version)))
  }

  /** What serialize writes: both lengths are truncated to their fields, and an empty name throws. */
  function EncodeHead(h: Head): Result<seq<byte>> {
    if Low16(|h.meta.routingName|) == 0 then Err("Routing name has zero length")
    else Ok(Assemble(h, Low16(|h.meta.routingName|), Low32(|h.to| + 1)))
  }

  lemma EncodeIs(h: Head)
    requires Fits(h)
    ensures EncodeHead(h) == Ok(Assemble(h, |h.meta.routingName|, |h.to| + 1))
  {
  }

  /** Extensions of a later minor version do not disturb this one. */
  lemma DecodeExtended(h: Head, extension: seq<byte>, tail: seq<byte>)
    requires Fits(h) && FIXED_SIZE + |h.meta.routingName| + |extension| < TWO_32
    ensures DecodeHead(EncodeExtended(h, extension) + tail) == Got(h, tail)
  {
    var name, addrs := h.meta.routingName, [h.meta.from] + h.to;
    var f := FixedFor(h, |name|, |extension|);
    var c := EncodeClass(h.classId, h.version);
    var b2 := Encode32(|addrs|) + EncodeAddresses(addrs) + (c + tail);
    var b1 := name + extension + b2;
    assert EncodeExtended(h, extension) + tail == EncodeFixed(f) + b1;
    DecodeFixedOf(f, b1);
    DecodeNameOf(f, name, extension, b2);
    DecodeAddressesOf(addrs, c + tail);
    var b3 := c + tail;
    assert b3[..16] == h.classId && b3[16..20] == Encode32(h.version) && b3[20..] == tail;
    assert addrs[0] == h.meta.from && addrs[1..] == h.to;
  }

  lemma EncodeFits(h: Head)
    requires Fits(h)
    ensures EncodeHead(h) == Ok(EncodeExtended(h, []))
  {
    EncodeIs(h);
    var name := h.meta.routingName;
    assert name + [] == name && name[..|name|] == name;
  }

  lemma EncodedLength(h: Head)
    requires EncodeHead(h).Ok?
    ensures |EncodeHead(h).value| == 66 + Low16(|h.meta.routingName|) + ADDRESS_SIZE * (|h.to| + 1)
  {
  }

  lemma {:induction false} DecodedFits(b: seq<byte>)
    requires DecodeHead(b).Got?
    ensures var h := DecodeHead(b).value; |h.meta.routingName| < TWO_16 && |h.to| + 1 < TWO_32
  {
    var f, b1 := DecodeFixed(b).value, DecodeFixed(b).rest;
    DecodeAddressesReencode(DecodeName(b1, f).rest);
  }

  /** Every field comes back and nothing else is consumed, exactly when both lengths fit their fields. */
  lemma HeadRoundTripIff(h: Head, tail: seq<byte>)
    requires EncodeHead(h).Ok?
    ensures DecodeHead(EncodeHead(h).value + tail) == Got(h, tail) <==> Fits(h)
  {
    if Fits(h) {
      EncodeFits(h);
      DecodeExtended(h, [], tail);
    } else if DecodeHead(EncodeHead(h).value + tail) == Got(h, tail) {
      DecodedFits(EncodeHead(h).value + tail);
    }
  }

  /** A name that is too long arrives as its first |name| mod 65536 bytes. */
  function Truncate(h: Head): (t: Head)
    ensures |t.meta.routingName| == Low16(|h.meta.routingName|)
  {
    h.(meta := h.meta.(routingName := h.meta.routingName[..Low16(|h.meta.routingName|)]))
  }

  lemma TruncateEncodesSame(h: Head)
    ensures EncodeHead(Truncate(h)) == EncodeHead(h)
  {
    var t := Truncate(h);
    var n := |t.meta.routingName|;
    assert n > 0 ==> Assemble(t, n, Low32(|h.to| + 1)) == Assemble(h, n, Low32(|h.to| + 1)) by {
      assert t.meta.routingName[..n] == h.meta.routingName[..n];
    }
  }

  lemma LongNames(h: Head, tail: seq<byte>)
    requires EncodeHead(h).Ok? && |h.to| + 1 < TWO_32
    ensures DecodeHead(EncodeHead(h).value + tail) == Got(Truncate(h), tail)
  {
    TruncateEncodesSame(h);
    var t := Truncate(h);
    assert Fits(t);
    HeadRoundTripIff(t, tail);
  }

  // ---------------------------------------------------------------- forwarding

  /** Read a frame without looking at its content, and write it out again. */
  function Rewrite(b: seq<byte>): Result<seq<byte>> {
    match DecodeHead(b)
    case Bad(m) => Err(m)
    case Got(h, body) =>
      match EncodeHead(h)
      case Err(m) => Err(m)
      case Ok(head) => Ok(head + body)
  }

  /** The fixed part is one this version writes. */
  predicate Canonical(b: seq<byte>) {
    && |b| >= FIXED_SIZE
    && var f := FixedOf(b[..FIXED_SIZE]);
       f.addrOffset == FIXED_SIZE + f.nameLen && f.version == PROTOCOL_VERSION && f.flags < 2 && f.nameLen > 0
  }

  lemma NameReencode(b: seq<byte>, f: Fixed)
    requires DecodeName(b, f).Got? && f.addrOffset == FIXED_SIZE + f.nameLen
    ensures DecodeName(b, f).value + DecodeName(b, f).rest == b
  {
  }

  lemma FixedPartReencode(b: seq<byte>)
    requires DecodeFixed(b).Got?
    ensures EncodeFixed(DecodeFixed(b).value) + DecodeFixed(b).rest == b
  {
    FixedReencode(b[..FIXED_SIZE]);
  }

  /** Decoding takes the frame apart at the places where encoding puts it together. */
  lemma Reassemble(b: seq<byte>)
    requires DecodeHead(b).Got? && Canonical(b)
    ensures var h := DecodeHead(b).value;
      && Fits(h)
      && b == EncodeFixed(FixedFor(h, |h.meta.routingName|, 0))
              + (h.meta.routingName
              + (Encode32(|h.to| + 1) + EncodeAddresses([h.meta.from] + h.to)
                 + (EncodeClass(h.classId, h.version) + DecodeHead(b).rest)))
  {
    var f, b1 := DecodeFixed(b).value, DecodeFixed(b).rest;
    FixedPartReencode(b);
    NameReencode(b1, f);
    var b2 := DecodeName(b1, f).rest;
    DecodeAddressesReencode(b2);
    ClassReencode(DecodeAddresses(b2).rest);
    var h := DecodeHead(b).value;
    assert [h.meta.from] + h.to == DecodeAddresses(b2).value;
    SameFixed(f, h);
  }

  lemma SameFixed(f: Fixed, h: Head)
    requires f.addrOffset == FIXED_SIZE + f.nameLen && f.version == PROTOCOL_VERSION && f.flags < 2
    requires h.meta.instanceId == f.instanceId && h.meta.sourceId == f.sourceId
    requires |h.meta.routingName| == f.nameLen && h.meta.trace == (f.flags % 2 == 1)
    ensures FixedFor(h, |h.meta.routingName|, 0) == f
  {
  }

  lemma ClassReencode(b: seq<byte>)
    requires |b| >= 20
    ensures EncodeClass(b[..16], Decode32(b[16..20])) + b[20..] == b
  {
    Reencode32(b[16..20]);
  }

  lemma RewriteCanonical(b: seq<byte>)
    requires DecodeHead(b).Got? && Canonical(b)
    ensures Rewrite(b) == Ok(b)
  {
    Reassemble(b);
    var h, body := DecodeHead(b).value, DecodeHead(b).rest;
    EncodeIs(h);
    var name := h.meta.routingName;
    assert name[..|name|] == name;
    Regroup(EncodeFixed(FixedFor(h, |name|, 0)), name, Encode32(|h.to| + 1) + EncodeAddresses([h.meta.from] + h.to),
            EncodeClass(h.classId, h.version), body);
  }

  lemma Regroup(f: seq<byte>, name: seq<byte>, addrs: seq<byte>, c: seq<byte>, body: seq<byte>)
    ensures f + (name + (addrs + c)) + body == f + (name + (addrs + (c + body)))
  {
  }

  lemma RewrittenIsCanonical(b: seq<byte>)
    requires Rewrite(b) == Ok(b)
    ensures Canonical(b)
  {
    var h := DecodeHead(b).value;
    var f := FixedFor(h, Low16(|h.meta.routingName|), 0);
    FixedRoundTrip(f);
    assert b[..FIXED_SIZE] == EncodeFixed(f);
  }

  /** Forwarding reproduces a readable frame byte for byte exactly when its fixed part is canonical. */
  lemma RewriteIff(b: seq<byte>)
    requires DecodeHead(b).Got?
    ensures Rewrite(b) == Ok(b) <==> Canonical(b)
  {
    if Canonical(b) {
      RewriteCanonical(b);
    } else if Rewrite(b) == Ok(b) {
      RewrittenIsCanonical(b);
    }
  }

  /** What a later minor version adds to the header does not survive forwarding. */
  lemma ExtensionIsDropped(h: Head, extension: seq<byte>, body: seq<byte>)
    requires Fits(h) && FIXED_SIZE + |h.meta.routingName| + |extension| < TWO_32
    ensures Rewrite(EncodeExtended(h, extension) + body) == Ok(EncodeExtended(h, []) + body)
  {
    DecodeExtended(h, extension, body);
    EncodeFits(h);
  }

  /** So it does for every frame this writer gets out, which is always shorter than 2^32 bytes. */
  lemma ForwardIsIdentity(h: Head, body: seq<byte>)
    requires EncodeHead(h).Ok? && |EncodeHead(h).value + body| < TWO_32
    ensures Rewrite(EncodeHead(h).value + body) == Ok(EncodeHead(h).value + body)
  {
    EncodedLength(h);
    LongNames(h, body);
    TruncateEncodesSame(h);
  }
}
