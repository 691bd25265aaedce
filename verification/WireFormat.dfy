/** Which byte of a frame holds what, by offset: what another implementation has to know. */
module WireFormat {
  import opened Bytes
  import opened Envelopes
  import opened Framing
  import opened EnvelopeCodec
  import opened ChunkCodec
  import opened MessageIO

  /** A number, low byte first. */
  predicate Holds16(b: seq<byte>, at: nat, n: int) { at + 2 <= |b| && n == b[at] as int + 0x100 * b[at + 1] as int }

  predicate Holds32(b: seq<byte>, at: nat, n: int) {
    && at + 4 <= |b|
    && n == b[at] as int + 0x100 * b[at + 1] as int + 0x1_0000 * b[at + 2] as int + 0x100_0000 * b[at + 3] as int
  }

  predicate Holds64(b: seq<byte>, at: nat, n: int) {
    && at + 8 <= |b|
    && n == b[at] as int + 0x100 * b[at + 1] as int + 0x1_0000 * b[at + 2] as int + 0x100_0000 * b[at + 3] as int
            + 0x1_0000_0000 * (b[at + 4] as int + 0x100 * b[at + 5] as int
                               + 0x1_0000 * b[at + 6] as int + 0x100_0000 * b[at + 7] as int)
  }

  predicate HoldsBytes(b: seq<byte>, at: nat, x: seq<byte>) { at + |x| <= |b| && b[at..at + |x|] == x }

  lemma Decoded16(b: seq<byte>, at: nat)
    requires at + 2 <= |b|
    ensures Holds16(b, at, Decode16(b[at..at + 2]))
  {
  }

  lemma Decoded32(b: seq<byte>, at: nat)
    requires at + 4 <= |b|
    ensures Holds32(b, at, Decode32(b[at..at + 4]))
  {
    var w := b[at..at + 4];
    assert w[..2] == [b[at], b[at + 1]] && w[2..] == [b[at + 2], b[at + 3]];
  }

  lemma Decoded64(b: seq<byte>, at: nat)
    requires at + 8 <= |b|
    ensures Holds64(b, at, Decode64(b[at..at + 8]))
  {
    var w := b[at..at + 8];
    assert w[..4] == b[at..at + 4] && w[4..] == b[at + 4..at + 8];
    Decoded32(b, at);
    Decoded32(b, at + 4);
  }

  lemma Placed(pre: seq<byte>, x: seq<byte>, post: seq<byte>)
    ensures HoldsBytes(pre + x + post, |pre|, x)
  {
  }

  lemma PlacedWord(pre: seq<byte>, n: u32, post: seq<byte>)
    ensures Holds32(pre + Encode32(n) + post, |pre|, n)
  {
    var b := pre + Encode32(n) + post;
    assert b[|pre|..|pre| + 4] == Encode32(n);
    Decoded32(b, |pre|);
  }

  // ---------------------------------------------------------------- frames

  /** Type 0, the length, and two words reserved. */
  lemma HeaderLayout(length: u32)
    ensures var b := Header(length);
      && |b| == 16 && Holds32(b, 0, 0) && Holds32(b, 4, length) && Holds32(b, 8, 0) && Holds32(b, 12, 0)
  {
    var b := Header(length);
    assert b[0..4] == Encode32(0) && b[4..8] == Encode32(length) && b[8..12] == Encode32(0) && b[12..16] == Encode32(0);
    Decoded32(b, 0);
    Decoded32(b, 4);
    Decoded32(b, 8);
    Decoded32(b, 12);
  }

  // ---------------------------------------------------------------- the message head

  /** Three ids. */
  predicate HoldsAddress(b: seq<byte>, at: nat, a: Address) {
    HoldsBytes(b, at, a.session) && HoldsBytes(b, at + 16, a.node) && HoldsBytes(b, at + 32, a.computation)
  }

  /** The first 42 bytes, and what their numbers are. */
  predicate FixedLayout(b: seq<byte>, offset: int, version: int, flags: int, instanceId: UUID, sourceId: UUID, nameLen: int) {
    && Holds32(b, 0, offset) && Holds16(b, 4, version) && Holds16(b, 6, flags)
    && HoldsBytes(b, 8, instanceId) && HoldsBytes(b, 24, sourceId) && Holds16(b, 40, nameLen)
  }

  lemma EncodedFixed(f: Fixed, rest: seq<byte>)
    ensures FixedLayout(EncodeFixed(f) + rest, f.addrOffset, f.version, f.flags, f.instanceId, f.sourceId, f.nameLen)
  {
    FixedRoundTrip(f);
    DecodedFixed(EncodeFixed(f) + rest);
    assert (EncodeFixed(f) + rest)[..42] == EncodeFixed(f);
  }

  lemma DecodedFixed(b: seq<byte>)
    requires |b| >= 42
    ensures var f := FixedOf(b[..42]);
      FixedLayout(b, f.addrOffset, f.version, f.flags, f.instanceId, f.sourceId, f.nameLen)
  {
    var c := b[..42];
    assert c[..4] == b[0..4] && c[4..6] == b[4..6] && c[6..8] == b[6..8] && c[40..42] == b[40..42];
    assert c[8..24] == b[8..24] && c[24..40] == b[24..40];
    Decoded32(b, 0);
    Decoded16(b, 4);
    Decoded16(b, 6);
    Decoded16(b, 40);
  }

  /** Where everything behind the fixed part starts: at 42, 42 + n, 46 + n and behind the addresses. */
  predicate TailLayout(b: seq<byte>, name: seq<byte>, addresses: int, count: int, addrs: seq<Address>, classId: UUID, version: int) {
    var behind := addresses + 4 + 48 * |addrs|;
    && 42 + |name| <= addresses
    && HoldsBytes(b, 42, name) && Holds32(b, addresses, count)
    && (forall k :: 0 <= k < |addrs| ==> HoldsAddress(b, addresses + 4 + 48 * k, addrs[k]))
    && HoldsBytes(b, behind, classId) && Holds32(b, behind + 16, version)
  }

  lemma AddressTaken(b: seq<byte>, at: nat)
    requires at + 48 <= |b|
    ensures HoldsAddress(b, at, AddressOf(b[at..at + 48]))
  {
    var a := b[at..at + 48];
    SubSlice(b, at, at + 48, 0, 16);
    SubSlice(b, at, at + 48, 16, 32);
    SubSlice(b, at, at + 48, 32, 48);
    assert a[..16] == a[0..16] && a[32..] == a[32..48];
  }

  lemma SubSlice(b: seq<byte>, lo: nat, hi: nat, i: nat, j: nat)
    requires lo <= hi <= |b| && i <= j <= hi - lo
    ensures b[lo..hi][i..j] == b[lo + i..lo + j]
  {
    var x, y := b[lo..hi][i..j], b[lo + i..lo + j];
    assert |x| == |y| && forall k :: 0 <= k < |x| ==> x[k] == y[k];
  }

  lemma {:induction false} TakenLayout(b: seq<byte>, at: nat, n: nat)
    requires at <= |b| && TakeAddresses(b[at..], n).Got?
    ensures var r := TakeAddresses(b[at..], n);
      && |r.value| == n && at + 48 * n <= |b| && r.rest == b[at + 48 * n..]
      && forall k :: 0 <= k < n ==> HoldsAddress(b, at + 48 * k, r.value[k])
    decreases n
  {
    if n > 0 {
      TakenLayout(b, at + 48, n - 1);
      TakenFirst(b, at, n);
      AddressTaken(b, at);
      var r, more := TakeAddresses(b[at..], n).value, TakeAddresses(b[at + 48..], n - 1).value;
      forall k | 0 <= k < n ensures HoldsAddress(b, at + 48 * k, r[k]) {
        if k > 0 {
          assert r[k] == more[k - 1] && HoldsAddress(b, at + 48 + 48 * (k - 1), more[k - 1]);
        }
      }
    }
  }

  lemma TakenFirst(b: seq<byte>, at: nat, n: nat)
    requires at <= |b| && TakeAddresses(b[at..], n).Got? && n > 0
    ensures at + 48 <= |b| && TakeAddresses(b[at + 48..], n - 1).Got?
    ensures var r, more := TakeAddresses(b[at..], n), TakeAddresses(b[at + 48..], n - 1);
      r.value == [AddressOf(b[at..at + 48])] + more.value && r.rest == more.rest
  {
    assert b[at..][48..] == b[at + 48..];
    assert b[at..][..48] == b[at..at + 48];
  }

  lemma {:induction false} EnoughForAddresses(b: seq<byte>, n: nat)
    ensures TakeAddresses(b, n).Got? <==> 48 * n <= |b|
    decreases n
  {
    if n > 0 && |b| >= 48 {
      EnoughForAddresses(b[48..], n - 1);
    }
  }

  /** The addresses, the class and its version, read from `at` on. */
  lemma ReadTail(b: seq<byte>, at: nat)
    requires at <= |b| && DecodeAddresses(b[at..]).Got? && |DecodeAddresses(b[at..]).rest| >= 20
    ensures var addrs, b3 := DecodeAddresses(b[at..]).value, DecodeAddresses(b[at..]).rest;
      var behind := at + 4 + 48 * |addrs|;
      && Holds32(b, at, |addrs|) && behind + 20 <= |b|
      && (forall k :: 0 <= k < |addrs| ==> HoldsAddress(b, at + 4 + 48 * k, addrs[k]))
      && HoldsBytes(b, behind, b3[..16]) && Holds32(b, behind + 16, Decode32(b3[16..20]))
      && b3[20..] == b[behind + 20..]
  {
    ReadAddresses(b, at);
    ClassIsRead(b, at + 4 + 48 * |DecodeAddresses(b[at..]).value|);
  }

  lemma ReadAddresses(b: seq<byte>, at: nat)
    requires at <= |b| && DecodeAddresses(b[at..]).Got?
    ensures var addrs, b3 := DecodeAddresses(b[at..]).value, DecodeAddresses(b[at..]).rest;
      var behind := at + 4 + 48 * |addrs|;
      && Holds32(b, at, |addrs|) && behind <= |b| && b3 == b[behind..]
      && (forall k :: 0 <= k < |addrs| ==> HoldsAddress(b, at + 4 + 48 * k, addrs[k]))
  {
    var b2 := b[at..];
    assert b2[..4] == b[at..at + 4] && b2[4..] == b[at + 4..];
    Decoded32(b, at);
    TakenLayout(b, at + 4, Decode32(b2[..4]));
  }

  lemma ClassIsRead(b: seq<byte>, at: nat)
    requires at + 20 <= |b|
    ensures var c := b[at..];
      HoldsBytes(b, at, c[..16]) && Holds32(b, at + 16, Decode32(c[16..20])) && c[20..] == b[at + 20..]
  {
    var c := b[at..];
    assert c[..16] == b[at..at + 16];
    assert c[16..20] == b[at + 16..at + 20];
    assert c[20..] == b[at + 20..];
    Decoded32(b, at + 16);
  }

  /** What the reader takes from where, whatever a later minor version put between the name and the addresses. */
  lemma ReadLayout(b: seq<byte>) returns (offset: int, version: int, flags: int)
    requires DecodeHead(b).Got?
    ensures var h := DecodeHead(b).value; var addrs := [h.meta.from] + h.to;
      && FixedLayout(b, offset, version, flags, h.meta.instanceId, h.meta.sourceId, |h.meta.routingName|)
      && 0x0400 <= version < 0x0500 && (h.meta.trace <==> flags % 2 == 1)
      && TailLayout(b, h.meta.routingName, offset, |addrs|, addrs, h.classId, h.version)
      && offset + 24 + 48 * |addrs| <= |b|
      && DecodeHead(b).rest == b[offset + 24 + 48 * |addrs|..]
  {
    HeadParts(b);
    var f := FixedOf(b[..42]);
    DecodedFixed(b);
    offset, version, flags := f.addrOffset, f.version, f.flags;
    TailIsRead(b, offset, b[42..42 + f.nameLen]);
    var addrs := DecodeAddresses(b[offset..]).value;
    assert addrs == [addrs[0]] + addrs[1..];
  }

  lemma TailIsRead(b: seq<byte>, at: nat, name: seq<byte>)
    requires at <= |b| && DecodeAddresses(b[at..]).Got? && |DecodeAddresses(b[at..]).rest| >= 20
    requires 42 + |name| <= at && name == b[42..42 + |name|]
    ensures var addrs, b3 := DecodeAddresses(b[at..]).value, DecodeAddresses(b[at..]).rest;
      && TailLayout(b, name, at, |addrs|, addrs, b3[..16], Decode32(b3[16..20]))
      && at + 24 + 48 * |addrs| <= |b| && b3[20..] == b[at + 24 + 48 * |addrs|..]
  {
    ReadTail(b, at);
  }

  /** The parts a head is read from. */
  lemma HeadParts(b: seq<byte>)
    requires DecodeHead(b).Got?
    ensures |b| >= 42
    ensures var f := FixedOf(b[..42]);
      && f.version / 256 == 4 && 42 + f.nameLen <= f.addrOffset <= |b|
      && var r := DecodeAddresses(b[f.addrOffset..]);
         && r.Got? && |r.rest| >= 20
         && DecodeHead(b) == Got(HeadOf(f, b[42..42 + f.nameLen], r.value, r.rest[..16], Decode32(r.rest[16..20])), r.rest[20..])
  {
    var f, b1 := FixedOf(b[..42]), b[42..];
    assert b[..42][4..6] == b[4..6];
    assert b1[f.addrOffset - 42..] == b[f.addrOffset..] && b1[..f.nameLen] == b[42..42 + f.nameLen];
  }

  /** Major version 4, an offset not before the end of the name, a sender, and nothing missing. */
  ghost predicate Complete(b: seq<byte>, offset: u32, nameLen: u16, count: u32) {
    && |b| >= 42 && b[5] == 4
    && Holds32(b, 0, offset) && Holds16(b, 40, nameLen) && 42 + nameLen <= offset <= |b|
    && Holds32(b, offset, count) && count > 0
    && offset + 24 + 48 * count <= |b|
  }

  lemma CompleteIsReadable(b: seq<byte>, offset: u32, nameLen: u16, count: u32)
    requires Complete(b, offset, nameLen, count)
    ensures DecodeHead(b).Got?
  {
    DecodedFixed(b);
    assert b[..42][4..6] == b[4..6];
    var b2 := b[42..][offset - 42..];
    assert b2 == b[offset..] && b2[..4] == b[offset..offset + 4] && b2[4..] == b[offset + 4..];
    Decoded32(b, offset);
    EnoughForAddresses(b[offset + 4..], count);
    TakenLayout(b, offset + 4, count);
  }

  /** What is readable. */
  lemma ReadableIff(b: seq<byte>)
    ensures DecodeHead(b).Got? <==> exists offset: u32, nameLen: u16, count: u32 :: Complete(b, offset, nameLen, count)
  {
    if DecodeHead(b).Got? {
      HeadParts(b);
      var f := FixedOf(b[..42]);
      DecodedFixed(b);
      assert b[..42][4..6] == b[4..6];
      ReadAddresses(b, f.addrOffset);
      assert Complete(b, f.addrOffset, f.nameLen, |DecodeAddresses(b[f.addrOffset..]).value|);
    }
    if offset: u32, nameLen: u16, count: u32 :| Complete(b, offset, nameLen, count) {
      CompleteIsReadable(b, offset, nameLen, count);
    }
  }

  // ---------------------------------------------------------------- chunks

  /** Version 0 and method 0, count and index, offset and total, class, name, instance and origin, version, payload. */
  predicate ChunkLayout(b: seq<byte>, c: MessageChunk) {
    var n := |c.internalRoutingName|;
    && |b| == 84 + n + |c.payload|
    && Holds16(b, 0, 0) && Holds16(b, 2, 0)
    && Holds16(b, 4, c.numberOfChunks) && Holds16(b, 6, c.chunkIndex)
    && Holds64(b, 8, c.offset) && Holds64(b, 16, c.unchunkedSize)
    && HoldsBytes(b, 24, c.internalId)
    && Holds32(b, 40, n) && HoldsBytes(b, 44, c.internalRoutingName)
    && HoldsBytes(b, 44 + n, c.internalInstanceId) && HoldsBytes(b, 60 + n, c.internalOriginId)
    && Holds32(b, 76 + n, c.internalClassVersion)
    && Holds32(b, 80 + n, |c.payload|) && HoldsBytes(b, 84 + n, c.payload)
  }

  lemma ChunkGrouped(f: seq<byte>, l: seq<byte>, n: seq<byte>, i: seq<byte>, o: seq<byte>, v: seq<byte>,
                     k: seq<byte>, p: seq<byte>)
    ensures var b := f + (l + n + (i + o + v + (k + p)));
      && b == f + l + (n + (i + o + v + (k + p))) && b == f + l + n + (i + o + v + (k + p))
      && b == f + l + n + i + (o + v + (k + p)) && b == f + l + n + i + o + (v + (k + p))
      && b == f + l + n + i + o + v + (k + p) && b == f + l + n + i + o + v + k + p
      && b == f + l + n + i + o + v + k + p + []
  {
  }

  lemma ChunkIsLaidOut(c: MessageChunk)
    requires InFields(c) && |c.internalRoutingName| < TWO_32
    ensures ChunkLayout(EncodeChunk(c), c)
  {
    var name, p := c.internalRoutingName, c.payload;
    var f, l, k, v := EncodeFront(c), Encode32(|name|), Encode32(|p|), Encode32(c.internalClassVersion);
    var i: seq<byte>, o: seq<byte> := c.internalInstanceId, c.internalOriginId;
    assert name[..|name|] == name && p[..|p|] == p;
    ChunkGrouped(f, l, name, i, o, v, k, p);
    FrontHolds(c);
    FrontIs(EncodeChunk(c), f);
    PlacedWord(f, |name|, name + (i + o + v + (k + p)));
    Placed(f + l, name, i + o + v + (k + p));
    Placed(f + l + name, i, o + v + (k + p));
    Placed(f + l + name + i, o, v + (k + p));
    PlacedWord(f + l + name + i + o, c.internalClassVersion, k + p);
    PlacedWord(f + l + name + i + o + v, |p|, p);
    Placed(f + l + name + i + o + v + k, p, []);
  }

  lemma FrontHolds(c: MessageChunk)
    requires InFields(c)
    ensures var f := EncodeFront(c);
      && Decode16(f[0..2]) == 0 && Decode16(f[2..4]) == 0
      && Decode16(f[4..6]) == c.numberOfChunks && Decode16(f[6..8]) == c.chunkIndex
      && Decode64(f[8..16]) == c.offset && Decode64(f[16..24]) == c.unchunkedSize && f[24..40] == c.internalId
  {
    PartsOfChunk(c, c.internalRoutingName);
    var f := EncodeFront(c);
    assert f[0..2] == Encode16(0) && f[2..4] == Encode16(0);
  }

  lemma FrontIs(b: seq<byte>, f: seq<byte>)
    requires |f| == 40 && |b| >= 40 && b[..40] == f
    ensures Holds16(b, 0, Decode16(f[0..2])) && Holds16(b, 2, Decode16(f[2..4]))
    ensures Holds16(b, 4, Decode16(f[4..6])) && Holds16(b, 6, Decode16(f[6..8]))
    ensures Holds64(b, 8, Decode64(f[8..16])) && Holds64(b, 16, Decode64(f[16..24])) && HoldsBytes(b, 24, f[24..40])
  {
    assert f[0..2] == b[0..2] && f[2..4] == b[2..4] && f[4..6] == b[4..6] && f[6..8] == b[6..8];
    assert f[8..16] == b[8..16] && f[16..24] == b[16..24] && f[24..40] == b[24..40];
    Decoded16(b, 0);
    Decoded16(b, 2);
    Decoded16(b, 4);
    Decoded16(b, 6);
    Decoded64(b, 8);
    Decoded64(b, 16);
  }

  lemma StringIsRead(b: seq<byte>, at: nat, x: seq<byte>)
    requires at <= |b| && Holds32(b, at, |x|) && HoldsBytes(b, at + 4, x)
    ensures DecodeString(b[at..]) == Got(x, b[at + 4 + |x|..])
  {
    var w := b[at..];
    Decoded32(b, at);
    assert w[..4] == b[at..at + 4] && w[4..4 + |x|] == b[at + 4..at + 4 + |x|] && w[4 + |x|..] == b[at + 4 + |x|..];
  }

  /** Bytes laid out like that are read as that chunk, whoever wrote them. */
  lemma ChunkIsRead(b: seq<byte>, c: MessageChunk)
    requires ChunkLayout(b, c) && InFields(c) && |c.internalRoutingName| < TWO_32
    ensures DecodeChunk(b) == Got(c, [])
  {
    var n := |c.internalRoutingName|;
    FrontIsRead(b, c);
    StringIsRead(b, 40, c.internalRoutingName);
    StringIsRead(b, 80 + n, c.payload);
    MiddleIsRead(b, 44 + n, c);
    assert b[44 + n..][36..] == b[80 + n..] && b[84 + n + |c.payload|..] == [];
  }

  lemma FrontIsRead(b: seq<byte>, c: MessageChunk)
    requires ChunkLayout(b, c)
    ensures var f := b[..40];
      && Decode16(b[..2]) == 0 && Decode16(f[4..6]) == c.numberOfChunks && Decode16(f[6..8]) == c.chunkIndex
      && Decode64(f[8..16]) == c.offset && Decode64(f[16..24]) == c.unchunkedSize && f[24..40] == c.internalId
  {
    FrontIs(b, b[..40]);
    assert b[..2] == b[..40][0..2] && b[..40][24..40] == b[24..40];
  }

  lemma MiddleIsRead(b: seq<byte>, at: nat, c: MessageChunk)
    requires HoldsBytes(b, at, c.internalInstanceId) && HoldsBytes(b, at + 16, c.internalOriginId)
    requires Holds32(b, at + 32, c.internalClassVersion)
    ensures var m := b[at..][..36];
      m[..16] == c.internalInstanceId && m[16..32] == c.internalOriginId && Decode32(m[32..36]) == c.internalClassVersion
  {
    var m := b[at..][..36];
    assert m[..16] == b[at..at + 16] && m[16..32] == b[at + 16..at + 32] && m[32..36] == b[at + 32..at + 36];
    Decoded32(b, at + 32);
  }

  // ---------------------------------------------------------------- messages

  /** A content's class, version and bytes, up to the end. */
  predicate ContentLayout(b: seq<byte>, at: nat, content: Content) {
    && at + 20 <= |b|
    && match content
       case Object(id, v, body) => b[at..at + 16] == id && Holds32(b, at + 16, v) && b[at + 20..] == body
       case Opaque(id, v, data) => b[at..at + 16] == id && Holds32(b, at + 16, v) && b[at + 20..] == data
       case Chunk(c) => b[at..at + 16] == CHUNK_ID && Holds32(b, at + 16, 0) && ChunkLayout(b[at + 20..], c)
  }

  lemma ContentIs(b: seq<byte>, at: nat, content: Content)
    requires Serializable(content) && (content.Chunk? ==> |content.chunk.internalRoutingName| < TWO_32)
    requires HoldsBytes(b, at, ClassOf(content)) && Holds32(b, at + 16, VersionOf(content))
    requires b[at + 20..] == BodyOf(content)
    ensures ContentLayout(b, at, content)
  {
    if content.Chunk? {
      ChunkIsLaidOut(content.chunk);
    }
  }

  /** What the writer puts where: version 4.0, bit 0 of the flags for tracing, the sender first among the addresses. */
  lemma HeadLayout(h: Head, body: seq<byte>)
    requires EncodeHead(h).Ok? && |h.to| + 1 < TWO_32
    ensures var b, n, count := EncodeHead(h).value + body, |h.meta.routingName| % 0x1_0000, |h.to| + 1;
      && FixedLayout(b, 42 + n, 0x0400, if h.meta.trace then 1 else 0, h.meta.instanceId, h.meta.sourceId, n)
      && TailLayout(b, h.meta.routingName[..n], 42 + n, count, [h.meta.from] + h.to, h.classId, h.version)
      && 66 + n + 48 * count <= |b| && b[66 + n + 48 * count..] == body
  {
    var offset := TailWritten(h, body);
    FixedWritten(h, body);
    SameNumber(EncodeHead(h).value + body, 0, offset, 42 + |h.meta.routingName| % 0x1_0000);
  }

  lemma SameNumber(b: seq<byte>, at: nat, m: int, n: int)
    requires Holds32(b, at, m) && Holds32(b, at, n)
    ensures m == n
  {
  }

  lemma TailWritten(h: Head, body: seq<byte>) returns (offset: int)
    requires EncodeHead(h).Ok? && |h.to| + 1 < TWO_32
    ensures var b, n, count := EncodeHead(h).value + body, |h.meta.routingName| % 0x1_0000, |h.to| + 1;
      && Holds32(b, 0, offset)
      && TailLayout(b, h.meta.routingName[..n], offset, count, [h.meta.from] + h.to, h.classId, h.version)
      && offset + 24 + 48 * count <= |b| && b[offset + 24 + 48 * count..] == body
  {
    LongNames(h, body);
    var version, flags;
    offset, version, flags := ReadLayout(EncodeHead(h).value + body);
  }

  lemma FixedWritten(h: Head, body: seq<byte>)
    requires EncodeHead(h).Ok?
    ensures var n := |h.meta.routingName| % 0x1_0000;
      FixedLayout(EncodeHead(h).value + body, 42 + n, 0x0400, if h.meta.trace then 1 else 0,
                  h.meta.instanceId, h.meta.sourceId, n)
  {
    var n := Low16(|h.meta.routingName|);
    var fixed := EncodeFixed(FixedFor(h, n, 0));
    var rest := h.meta.routingName[..n]
                + (Encode32(Low32(|h.to| + 1)) + EncodeAddresses([h.meta.from] + h.to) + EncodeClass(h.classId, h.version));
    EncodedFixed(FixedFor(h, n, 0), rest + body);
    Associative(fixed, rest, body);
  }

  /** The sender comes first, the destinations follow. */
  lemma TailSays(b: seq<byte>, name: seq<byte>, count: int, from: Address, to: seq<Address>, id: UUID, v: int)
    requires TailLayout(b, name, 42 + |name|, count, [from] + to, id, v)
    ensures HoldsAddress(b, 46 + |name|, from)
    ensures forall k :: 0 <= k < |to| ==> HoldsAddress(b, 94 + |name| + 48 * k, to[k])
  {
    var addrs := [from] + to;
    assert HoldsAddress(b, 46 + |name| + 48 * 0, addrs[0]);
    forall k | 0 <= k < |to| ensures HoldsAddress(b, 94 + |name| + 48 * k, to[k]) {
      assert HoldsAddress(b, 46 + |name| + 48 * (k + 1), addrs[k + 1]);
    }
  }

  /** A message's metadata, sender and destinations, each where it belongs. */
  predicate EnvelopeLayout(b: seq<byte>, e: Envelope) {
    var m, n := e.meta, |e.meta.routingName|;
    && FixedLayout(b, 42 + n, 0x0400, if m.trace then 1 else 0, m.instanceId, m.sourceId, n)
    && HoldsBytes(b, 42, m.routingName) && Holds32(b, 42 + n, |e.to| + 1) && HoldsAddress(b, 46 + n, m.from)
    && (forall k :: 0 <= k < |e.to| ==> HoldsAddress(b, 94 + n + 48 * k, e.to[k]))
  }

  lemma FrameLayout(e: Envelope)
    requires Wireable(e)
    ensures FrameOf(e).Ok?
    ensures var b, m, n := FrameOf(e).value, e.meta, |e.meta.routingName|;
      && FixedLayout(b, 42 + n, 0x0400, if m.trace then 1 else 0, m.instanceId, m.sourceId, n)
      && TailLayout(b, m.routingName, 42 + n, |e.to| + 1, [m.from] + e.to, ClassOf(e.content), VersionOf(e.content))
      && 66 + n + 48 * (|e.to| + 1) <= |b| && b[66 + n + 48 * (|e.to| + 1)..] == BodyOf(e.content)
  {
    FrameIs(e);
    ShortNameLayout(HeadFor(e), BodyOf(e.content));
  }

  lemma FrameIs(e: Envelope)
    requires Wireable(e)
    ensures EncodeHead(HeadFor(e)).Ok? && FrameOf(e) == Ok(EncodeHead(HeadFor(e)).value + BodyOf(e.content))
  {
    EncodeIs(HeadFor(e));
  }

  lemma ShortNameLayout(h: Head, body: seq<byte>)
    requires Fits(h) && EncodeHead(h).Ok?
    ensures var b, n, count := EncodeHead(h).value + body, |h.meta.routingName|, |h.to| + 1;
      && FixedLayout(b, 42 + n, 0x0400, if h.meta.trace then 1 else 0, h.meta.instanceId, h.meta.sourceId, n)
      && TailLayout(b, h.meta.routingName, 42 + n, count, [h.meta.from] + h.to, h.classId, h.version)
      && 66 + n + 48 * count <= |b| && b[66 + n + 48 * count..] == body
  {
    WholeName(h.meta.routingName);
    HeadLayout(h, body);
  }

  lemma WholeName(name: seq<byte>)
    requires |name| < 0x1_0000
    ensures |name| % 0x1_0000 == |name| && name[..|name| % 0x1_0000] == name
  {
  }

  /** A whole message: its envelope, and behind that its content. */
  lemma MessageLayout(e: Envelope)
    requires Wireable(e)
    ensures FrameOf(e).Ok? && EnvelopeLayout(FrameOf(e).value, e)
    ensures ContentLayout(FrameOf(e).value, 46 + |e.meta.routingName| + 48 * (|e.to| + 1), e.content)
  {
    FrameLayout(e);
    TailSays(FrameOf(e).value, e.meta.routingName, |e.to| + 1, e.meta.from, e.to, ClassOf(e.content), VersionOf(e.content));
    ContentIs(FrameOf(e).value, 46 + |e.meta.routingName| + 48 * (|e.to| + 1), e.content);
  }
}
