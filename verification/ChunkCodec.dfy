/** A chunk's own encoding, inside the message that carries it. */
module ChunkCodec {
  import opened Bytes
  import opened Envelopes
  import opened EnvelopeCodec

  const CHUNK_ID: UUID :=
    [0x16, 0x4a, 0x86, 0x01, 0xdb, 0xf7, 0x42, 0xe5, 0xb4, 0x69, 0x3a, 0xd1, 0xc5, 0x8d, 0xbe, 0x83]
  const CHUNK_VERSION: u32 := 0

  /** Whatever its fields can hold; only the name can be longer than its length field says. */
  predicate InFields(c: MessageChunk) {
    && c.numberOfChunks < TWO_16 && c.chunkIndex < TWO_16
    && c.offset < TWO_64 && c.unchunkedSize < TWO_64
    && |c.payload| < TWO_32
  }

  // ---------------------------------------------------------------- length-prefixed bytes

  /** A 32-bit length and that many bytes; a longer string is cut, as its length is. */
  function EncodeString(s: seq<byte>): seq<byte> { Encode32(Low32(|s|)) + s[..Low32(|s|)] }

  function DecodeString(b: seq<byte>): Read<seq<byte>> {
    if |b| < 4 then Bad(END)
    else
      var n := Decode32(b[..4]);
      if |b| < 4 + n then Bad(END) else Got(b[4..4 + n], b[4 + n..])
  }

  lemma DecodeStringOf(s: seq<byte>, tail: seq<byte>)
    ensures DecodeString(EncodeString(s) + tail) == Got(s[..Low32(|s|)], tail)
  {
    var b := EncodeString(s) + tail;
    assert b[..4] == Encode32(Low32(|s|));
  }

  lemma StringFits(s: seq<byte>)
    ensures s[..Low32(|s|)] == s <==> |s| < TWO_32
  {
    if |s| < TWO_32 {
      }
  }

  // ---------------------------------------------------------------- the parts around them

  /** Protocol version and chunking method, both 0, then the numbers and the class. */
  function EncodeFront(c: MessageChunk): (b: seq<byte>)
    requires InFields(c)
    ensures |b| == 40
  {
    Encode16(0) + Encode16(0) + Encode16(c.numberOfChunks) + Encode16(c.chunkIndex)
    + Encode64(c.offset) + Encode64(c.unchunkedSize) + c.internalId
  }

  function EncodeMiddle(c: MessageChunk): (b: seq<byte>)
    ensures |b| == 36
  {
    c.internalInstanceId + c.internalOriginId + Encode32(c.internalClassVersion)
  }

  function EncodeChunk(c: MessageChunk): seq<byte>
    requires InFields(c)
  {
    EncodeFront(c) + (EncodeString(c.internalRoutingName) + (EncodeMiddle(c) + EncodeString(c.payload)))
  }

  function ChunkOfParts(front: seq<byte>, name: seq<byte>, middle: seq<byte>, payload: seq<byte>): MessageChunk
    requires |front| == 40 && |middle| == 36
  {
    MessageChunk(
      Decode16(front[4..6]), Decode16(front[6..8]), Decode64(front[8..16]), Decode64(front[16..24]),
      front[24..40], name, middle[..16], middle[16..32], Decode32(middle[32..36]), payload)
  }

  /** Only protocol version 0 is known. */
  function DecodeChunk(b: seq<byte>): Read<MessageChunk> {
    if |b| < 2 then Bad(END)
    else if Decode16(b[..2]) != 0 then Bad("Unknown chunking protocol version")
    else if |b| < 40 then Bad(END)
    else
      match DecodeString(b[40..])
      case Bad(m) => Bad(m)
      case Got(name, b1) =>
        if |b1| < 36 then Bad(END)
        else
          match DecodeString(b1[36..])
          case Bad(m) => Bad(m)
          case Got(payload, rest) => Got(ChunkOfParts(b[..40], name, b1[..36], payload), rest)
  }

  lemma PartsOfChunk(c: MessageChunk, name: seq<byte>)
    requires InFields(c)
    ensures ChunkOfParts(EncodeFront(c), name, EncodeMiddle(c), c.payload) == c.(internalRoutingName := name)
    ensures EncodeFront(c)[..2] == Encode16(0)
  {
    var f, m := EncodeFront(c), EncodeMiddle(c);
    assert f[..2] == Encode16(0);
    assert f[4..6] == Encode16(c.numberOfChunks) && f[6..8] == Encode16(c.chunkIndex);
    assert f[8..16] == Encode64(c.offset) && f[16..24] == Encode64(c.unchunkedSize);
    assert f[24..40] == c.internalId;
    assert m[..16] == c.internalInstanceId && m[16..32] == c.internalOriginId;
    assert m[32..36] == Encode32(c.internalClassVersion);
  }

  lemma DecodeChunkOf(c: MessageChunk, tail: seq<byte>)
    requires InFields(c)
    ensures var name := c.internalRoutingName;
      DecodeChunk(EncodeChunk(c) + tail) == Got(c.(internalRoutingName := name[..Low32(|name|)]), tail)
  {
    var name := c.internalRoutingName[..Low32(|c.internalRoutingName|)];
    var f, m := EncodeFront(c), EncodeMiddle(c);
    var b1 := m + (EncodeString(c.payload) + tail);
    var b := f + (EncodeString(c.internalRoutingName) + b1);
    assert EncodeChunk(c) + tail == b;
    DecodeStringOf(c.internalRoutingName, b1);
    DecodeStringOf(c.payload, tail);
    StringFits(c.payload);
    PartsOfChunk(c, name);
    assert b[..40] == f && b[40..] == EncodeString(c.internalRoutingName) + b1;
    assert b[..2] == f[..2];
    assert b1[..36] == m && b1[36..] == EncodeString(c.payload) + tail;
  }

  /** A chunk comes back unchanged exactly when its name's length fits the field. */
  lemma ChunkRoundTripIff(c: MessageChunk, tail: seq<byte>)
    requires InFields(c)
    ensures DecodeChunk(EncodeChunk(c) + tail) == Got(c, tail) <==> |c.internalRoutingName| < TWO_32
  {
    DecodeChunkOf(c, tail);
    StringFits(c.internalRoutingName);
  }
}
