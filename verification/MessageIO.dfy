/** Messages to frames and back: MessageWriter over a buffered sink, MessageReader over a buffered source. */
module MessageIO {
  import opened Bytes
  import opened Envelopes
  import opened EnvelopeCodec
  import opened ChunkCodec
  import opened Framing
  import opened FrameReceiving
  import opened FrameTransport

  // ---------------------------------------------------------------- what a message is as bytes

  function ClassOf(c: Content): UUID {
    match c case Object(id, _, _) => id case Opaque(id, _, _) => id case Chunk(_) => CHUNK_ID
  }

  function VersionOf(c: Content): u32 {
    match c case Object(_, v, _) => v case Opaque(_, v, _) => v case Chunk(_) => CHUNK_VERSION
  }

  predicate Serializable(c: Content) { c.Chunk? ==> InFields(c.chunk) }

  function BodyOf(c: Content): seq<byte>
    requires Serializable(c)
  {
    match c case Object(_, _, body) => body case Opaque(_, _, data) => data case Chunk(k) => EncodeChunk(k)
  }

  function HeadFor(e: Envelope): Head { Head(e.meta, e.to, ClassOf(e.content), VersionOf(e.content)) }

  function FrameOf(e: Envelope): Result<seq<byte>>
    requires Serializable(e.content)
  {
    match EncodeHead(HeadFor(e))
    case Err(m) => Err(m)
    case Ok(head) => Ok(head + BodyOf(e.content))
  }

  /** The content classes the registry can instantiate; empty for a reader that does not use it. */
  type Registry = set<(UUID, u32)>

  function ContentOf(classId: UUID, version: u32, body: seq<byte>, known: Registry): Result<Content> {
    if (classId, version) !in known then Ok(Opaque(classId, version, body))
    else if classId != CHUNK_ID then Ok(Object(classId, version, body))
    else
      match DecodeChunk(body)
      case Bad(m) => Err(m)
      case Got(c, _) => Ok(Chunk(c))
  }

  function MessageOf(frame: seq<byte>, known: Registry): Result<Envelope> {
    match DecodeHead(frame)
    case Bad(m) => Err(m)
    case Got(h, body) =>
      match ContentOf(h.classId, h.version, body, known)
      case Err(m) => Err(m)
      case Ok(content) => Ok(Envelope(h.meta, h.to, content))
  }

  /** What a reader makes of content: an object it cannot instantiate stays opaque, and may be known here. */
  function AsRead(c: Content, known: Registry): Content
    requires Serializable(c)
  {
    if (ClassOf(c), VersionOf(c)) !in known then Opaque(ClassOf(c), VersionOf(c), BodyOf(c))
    else if c.Opaque? then Object(c.opaqueId, c.opaqueVersion, c.data)
    else c
  }

  /** Envelopes whose lengths fit their fields; only chunks are of the chunk class. */
  predicate Wireable(e: Envelope) {
    && 0 < |e.meta.routingName| < TWO_16 && |e.to| + 1 < TWO_32
    && Serializable(e.content)
    && (e.content.Chunk? ==> |e.content.chunk.internalRoutingName| < TWO_32)
    && (!e.content.Chunk? ==> ClassOf(e.content) != CHUNK_ID)
  }

  /** In plain words: what the reader knows becomes an object or a chunk, and the rest stays opaque, byte for byte. */
  lemma ReadBack(e: Envelope, known: Registry)
    requires Wireable(e)
    ensures FrameOf(e).Ok?
    ensures MessageOf(FrameOf(e).value, known) == Ok(
              match e.content
              case Object(id, v, body) => if (id, v) in known then e else e.(content := Opaque(id, v, body))
              case Opaque(id, v, data) => if (id, v) in known then e.(content := Object(id, v, data)) else e
              case Chunk(c) =>
                if (CHUNK_ID, CHUNK_VERSION) in known then e
                else e.(content := Opaque(CHUNK_ID, CHUNK_VERSION, EncodeChunk(c))))
  {
    MessageRoundTrip(e, known);
  }

  /** Reading a frame without the registry and writing it out again is the rewriting of its head: nothing else
      changes, and nothing at all exactly when the fixed part is canonical. */
  lemma ForwardIff(b: seq<byte>)
    requires DecodeHead(b).Got?
    ensures MessageOf(b, {}).Ok? && Serializable(MessageOf(b, {}).value.content)
    ensures FrameOf(MessageOf(b, {}).value) == Rewrite(b)
    ensures FrameOf(MessageOf(b, {}).value) == Ok(b) <==> Canonical(b)
  {
    RewriteIff(b);
  }

  /** Whoever reads it gets the message back: metadata, destinations, class, version and content bytes. */
  lemma MessageRoundTrip(e: Envelope, known: Registry)
    requires Wireable(e)
    ensures FrameOf(e).Ok?
    ensures MessageOf(FrameOf(e).value, known) == Ok(e.(content := AsRead(e.content, known)))
  {
    var h := HeadFor(e);
    assert Fits(h);
    EncodeIs(h);
    HeadRoundTripIff(h, BodyOf(e.content));
    if e.content.Chunk? {
      var c := e.content.chunk;
      ChunkRoundTripIff(c, []);
      assert EncodeChunk(c) + [] == EncodeChunk(c);
    }
  }

  // ---------------------------------------------------------------- writing

  /** OutStream: everything goes to the sink's buffers in the order written. */
  class MessageWriter {
    const sink: BufferedSink

    constructor (sink: BufferedSink)
      ensures this.sink == sink
    {
      this.sink := sink;
    }

    method WriteAddresses(addrs: seq<Address>)
      requires sink.Valid()
      modifies sink.multi
      ensures sink.Valid() && sink.multi.Contents() == old(sink.multi.Contents()) + EncodeAddresses(addrs)
    {
      ghost var before := sink.multi.Contents();
      assert before + [] == before && addrs[..0] == [];
      for i := 0 to |addrs|
        invariant sink.Valid() && sink.multi.Contents() == before + EncodeAddresses(addrs[..i])
      {
        sink.Write(EncodeAddress(addrs[i]));
        EncodeAddressesSnoc(addrs[..i], addrs[i]);
        assert addrs[..i] + [addrs[i]] == addrs[..i + 1];
        Associative(before, EncodeAddresses(addrs[..i]), EncodeAddress(addrs[i]));
      }
      assert addrs[..|addrs|] == addrs;
    }

    method WriteFixed(f: Fixed)
      requires sink.Valid()
      modifies sink.multi
      ensures sink.Valid() && sink.multi.Contents() == old(sink.multi.Contents()) + EncodeFixed(f)
    {
      sink.Write(Encode32(f.addrOffset) + Encode16(f.version) + Encode16(f.flags));
      sink.Write(f.instanceId + f.sourceId + Encode16(f.nameLen));
    }

    method WriteName(name: seq<byte>, n: nat)
      requires sink.Valid() && n <= |name|
      modifies sink.multi
      ensures sink.Valid() && sink.multi.Contents() == old(sink.multi.Contents()) + name[..n]
    {
      if n > 0 {
        sink.Write(name[..n]);
      } else {
        assert sink.multi.Contents() + name[..n] == sink.multi.Contents();
      }
    }

    method WriteTail(h: Head, count: u32)
      requires sink.Valid()
      modifies sink.multi
      ensures sink.Valid()
      ensures sink.multi.Contents()
              == old(sink.multi.Contents()) + (Encode32(count) + EncodeAddress(h.meta.from))
                 + EncodeAddresses(h.to) + EncodeClass(h.classId, h.version)
    {
      sink.Write(Encode32(count) + EncodeAddress(h.meta.from));
      WriteAddresses(h.to);
      sink.Write(EncodeClass(h.classId, h.version));
    }

    /** Metadata, destinations, class and version. */
    method Serialize(h: Head) returns (ok: bool)
      requires sink.Valid() && sink.multi.Contents() == []
      modifies sink.multi
      ensures sink.Valid() && ok == EncodeHead(h).Ok?
      ensures ok ==> sink.multi.Contents() == EncodeHead(h).value
    {
      var nameLen := Low16(|h.meta.routingName|);
      if nameLen == 0 {
        return false;
      }
      WriteParts(h, nameLen, Low32(|h.to| + 1));
      return true;
    }

    method WriteParts(h: Head, nameLen: u16, count: u32)
      requires sink.Valid() && sink.multi.Contents() == [] && nameLen <= |h.meta.routingName|
      modifies sink.multi
      ensures sink.Valid() && sink.multi.Contents() == Assemble(h, nameLen, count)
    {
      var f := FixedFor(h, nameLen, 0);
      WriteFixed(f);
      assert [] + EncodeFixed(f) == EncodeFixed(f);
      WriteName(h.meta.routingName, nameLen);
      WriteTail(h, count);
      SerializedParts(h, nameLen, count);
    }

    /** One message, one frame. Content that is already serialized is attached, not copied. */
    method Write(e: Envelope) returns (r: Result<Status>)
      requires sink.Valid() && Serializable(e.content)
      modifies sink, sink.multi, sink.sink, sink.sink.peer
      ensures sink.Valid() && (r.Err? <==> FrameOf(e).Err?)
      ensures r.Err? ==> sink.sink.peer.stream == old(sink.sink.peer.stream)
      ensures r.Ok? ==> SentOne(old(sink.sink.peer.stream), FrameOf(e).value, r.value, sink.sink.peer.stream)
    {
      var ok := Compose(e);
      if !ok {
        return Err("Routing name has zero length");
      }
      var status := sink.CloseFrame();
      return Ok(status);
    }

    method Compose(e: Envelope) returns (ok: bool)
      requires sink.Valid() && Serializable(e.content)
      modifies sink, sink.multi
      ensures sink.Valid() && ok == FrameOf(e).Ok?
      ensures ok ==> sink.Frame() == FrameOf(e).value
    {
      sink.OpenFrame();
      ok := Serialize(HeadFor(e));
      if !ok {
        return;
      }
      ghost var head, body := EncodeHead(HeadFor(e)).value, BodyOf(e.content);
      if e.content.Opaque? {
        sink.AppendBuffer(e.content.data);
        assert [] + body == body;
      } else {
        sink.Write(BodyOf(e.content));
        assert head + body + [] == head + body;
      }
    }
  }

  lemma {:induction false} EncodeAddressesSnoc(addrs: seq<Address>, a: Address)
    ensures EncodeAddresses(addrs + [a]) == EncodeAddresses(addrs) + EncodeAddress(a)
  {
    if addrs == [] {
      assert addrs + [a] == [a];
    } else {
      EncodeAddressesSnoc(addrs[1..], a);
      assert (addrs + [a])[1..] == addrs[1..] + [a];
      Associative(EncodeAddress(addrs[0]), EncodeAddresses(addrs[1..]), EncodeAddress(a));
    }
  }

  /** The writes, in the order serialize makes them, are the encoded head. */
  lemma SerializedParts(h: Head, nameLen: u16, count: u32)
    requires nameLen <= |h.meta.routingName|
    ensures EncodeFixed(FixedFor(h, nameLen, 0)) + h.meta.routingName[..nameLen]
            + (Encode32(count) + EncodeAddress(h.meta.from)) + EncodeAddresses(h.to)
            + EncodeClass(h.classId, h.version) == Assemble(h, nameLen, count)
  {
    var addrs := [h.meta.from] + h.to;
    assert addrs[0] == h.meta.from && addrs[1..] == h.to;
    assert EncodeAddresses(addrs) == EncodeAddress(h.meta.from) + EncodeAddresses(h.to);
    RegroupWrites(EncodeFixed(FixedFor(h, nameLen, 0)), h.meta.routingName[..nameLen], Encode32(count),
                  EncodeAddress(h.meta.from), EncodeAddresses(h.to), EncodeClass(h.classId, h.version));
  }

  lemma RegroupWrites(f: seq<byte>, n: seq<byte>, k: seq<byte>, a: seq<byte>, t: seq<byte>, c: seq<byte>)
    ensures f + n + (k + a) + t + c == f + (n + (k + (a + t) + c))
  {
  }

  // ---------------------------------------------------------------- reading

  /** A reading method did what its decoding function says, and `left` is still unread. */
  predicate Agrees<T(==)>(spec: Read<T>, r: Result<T>, left: seq<byte>) {
    match r
    case Ok(v) => spec == Got(v, left)
    case Err(m) => spec == Bad(m)
  }

  class MessageReader {
    const source: BufferedSource

    ghost predicate InFrame()
      reads this, source, source.buffer
    {
      source.Valid() && source.buffer != null
    }

    ghost function Unread(): seq<byte>
      requires InFrame()
      reads this, source, source.buffer, if source.buffer == null then {} else {source.buffer.data}
    {
      source.Unread()
    }

    constructor (source: BufferedSource)
      ensures this.source == source
    {
      this.source := source;
    }

    method Take(n: nat) returns (r: Result<seq<byte>>)
      requires InFrame()
      modifies source.buffer
      ensures InFrame()
      ensures r == if n <= |old(Unread())| then Ok(old(Unread())[..n]) else Err(END)
      ensures r.Ok? ==> Unread() == old(Unread())[n..] && source.buffer.start == old(source.buffer.start) + n
    {
      var status, out := source.Read(n);
      return if status.Good? then Ok(out) else Err(END);
    }

    method ReadFixed() returns (r: Result<Fixed>)
      requires InFrame()
      modifies source.buffer
      ensures InFrame() && Agrees(DecodeFixed(old(Unread())), r, Unread())
      ensures r.Ok? ==> source.buffer.start == old(source.buffer.start) + FIXED_SIZE
    {
      ghost var all := Unread();
      var first := Take(8);
      if first.Err? {
        return Err(first.error);
      }
      assert first.value[4..6] == all[4..6];
      if Decode16(first.value[4..6]) / 256 != MAJOR_VERSION {
        return Err("Incorrect messaging protocol major version");
      }
      var more := Take(FIXED_SIZE - 8);
      if more.Err? {
        return Err(more.error);
      }
      assert first.value + more.value == all[..FIXED_SIZE];
      return Ok(FixedOf(first.value + more.value));
    }

    /** The name, then skip forward to where the addresses start. */
    method ReadName(f: Fixed, bytesRead: nat) returns (r: Result<seq<byte>>)
      requires InFrame() && bytesRead == FIXED_SIZE
      modifies source.buffer
      ensures InFrame() && Agrees(DecodeName(old(Unread()), f), r, Unread())
    {
      ghost var all := Unread();
      var name := Take(f.nameLen);
      if name.Err? {
        return name;
      }
      if bytesRead + f.nameLen > f.addrOffset {
        return Err("Header length is too short");
      }
      var skip := f.addrOffset - (bytesRead + f.nameLen);
      if skip > 0 {
        var status := source.Skip(skip);
        if !status.Good? {
          return Err(END);
        }
        assert all[f.nameLen..][skip..] == all[f.addrOffset - FIXED_SIZE..];
      }
      return name;
    }

    method ReadAddresses() returns (r: Result<seq<Address>>)
      requires InFrame()
      modifies source.buffer
      ensures InFrame() && Agrees(DecodeAddresses(old(Unread())), r, Unread())
    {
      var count := Take(4);
      if count.Err? {
        return Err(count.error);
      }
      var n := Decode32(count.value);
      if n == 0 {
        return Err("Message must contain 'from' address");
      }
      ghost var all := Unread();
      var addrs := [];
      AfterNothing(TakeAddresses(all, n));
      for i := 0 to n
        invariant InFrame() && |addrs| == i
        invariant TakeAddresses(all, n) == After(addrs, TakeAddresses(Unread(), n - i))
      {
        AfterOne(addrs, Unread(), n - i);
        var b := Take(ADDRESS_SIZE);
        if b.Err? {
          return Err(b.error);
        }
        addrs := addrs + [AddressOf(b.value)];
      }
      assert addrs + [] == addrs;
      return Ok(addrs);
    }

    method ReadClass(f: Fixed, name: seq<byte>, addrs: seq<Address>) returns (r: Result<Head>)
      requires InFrame() && addrs != []
      modifies source.buffer
      ensures InFrame() && Agrees(WithClass(f, name, addrs, old(Unread())), r, Unread())
    {
      ghost var all := Unread();
      var c := Take(20);
      if c.Err? {
        return Err(c.error);
      }
      assert c.value[..16] == all[..16] && c.value[16..20] == all[16..20];
      return Ok(HeadOf(f, name, addrs, c.value[..16], Decode32(c.value[16..20])));
    }

    method Deserialize() returns (r: Result<Head>)
      requires InFrame()
      modifies source.buffer
      ensures InFrame() && Agrees(DecodeHead(old(Unread())), r, Unread())
    {
      ghost var all := Unread();
      var f := ReadFixed();
      if f.Err? {
        return Err(f.error);
      }
      var name := ReadName(f.value, FIXED_SIZE);
      if name.Err? {
        return Err(name.error);
      }
      var addrs := ReadAddresses();
      if addrs.Err? {
        return Err(addrs.error);
      }
      r := ReadClass(f.value, name.value, addrs.value);
    }

    method ReadString() returns (r: Result<seq<byte>>)
      requires InFrame()
      modifies source.buffer
      ensures InFrame() && Agrees(DecodeString(old(Unread())), r, Unread())
    {
      ghost var all := Unread();
      var n := Take(4);
      if n.Err? {
        return n;
      }
      r := Take(Decode32(n.value));
      assert |all| >= 4 + Decode32(all[..4]) ==> all[4..][..Decode32(all[..4])] == all[4..4 + Decode32(all[..4])];
    }

    /** MessageChunk's own deserialize. */
    method ReadChunk() returns (r: Result<MessageChunk>)
      requires InFrame()
      modifies source.buffer
      ensures InFrame() && Agrees(DecodeChunk(old(Unread())), r, Unread())
    {
      ghost var all := Unread();
      var version := Take(2);
      if version.Err? {
        return Err(version.error);
      }
      if Decode16(version.value) != 0 {
        return Err("Unknown chunking protocol version");
      }
      var numbers := Take(38);
      if numbers.Err? {
        return Err(numbers.error);
      }
      assert version.value + numbers.value == all[..40];
      var name := ReadString();
      if name.Err? {
        return Err(name.error);
      }
      var ids := Take(36);
      if ids.Err? {
        return Err(ids.error);
      }
      var payload := ReadString();
      if payload.Err? {
        return Err(payload.error);
      }
      return Ok(ChunkOfParts(version.value + numbers.value, name.value, ids.value, payload.value));
    }

    /** Content of a known class is deserialized; any other keeps the buffer, read position and all. */
    method ReadContent(classId: UUID, version: u32, known: Registry) returns (r: Result<Content>)
      requires InFrame()
      modifies source`buffer, source.buffer
      ensures source.Valid() && (source.buffer == null || source.buffer == old(source.buffer))
      ensures r == ContentOf(classId, version, old(Unread()), known)
    {
      if (classId, version) !in known {
        var b := source.TakeBuffer();
        return Ok(Opaque(classId, version, b.data[b.start..b.end]));
      }
      if classId == CHUNK_ID {
        var c := ReadChunk();
        return if c.Ok? then Ok(Chunk(c.value)) else Err(c.error);
      }
      ghost var all := Unread();
      var body := Take(source.buffer.Remaining());
      assert all[..|all|] == all;
      return Ok(Object(classId, version, body.value));
    }

    /** The frame at hand as a message. */
    method ReadFrame(known: Registry) returns (r: Result<Envelope>)
      requires InFrame()
      modifies source`buffer, source`isInFrame, source.buffer
      ensures source.Valid() && (source.buffer == null || source.buffer == old(source.buffer))
      ensures r == MessageOf(old(Unread()), known)
    {
      var h := Deserialize();
      if h.Err? {
        return Err(h.error);
      }
      var content := ReadContent(h.value.classId, h.value.version, known);
      if content.Err? {
        return Err(content.error);
      }
      source.EndFrame();
      return Ok(Envelope(h.value.meta, h.value.to, content.value));
    }

    /** The next message; an empty frame is taken for a timeout. */
    method Read(known: Registry) returns (r: Reading)
      requires source.Valid()
      modifies source, source.buffer, if source.buffer == null then {} else {source.buffer.data}
      modifies source.source, source.source.peer
      ensures source.Valid()
      ensures source.buffer == null || source.buffer == old(source.buffer)
              || (fresh(source.buffer) && fresh(source.buffer.data))
      ensures r == Disconnect || Reads(old(source.source.peer.pending), known, r, source.source.peer.pending)
      ensures source.source.peer.reliable ==> (r == Disconnect <==> !HasFrame(old(source.source.peer.pending)))
    {
      var status, size := source.NextFrame();
      if !status.Good? {
        return Disconnect;
      }
      if size == 0 {
        return Timeout;
      }
      var m := ReadFrame(known);
      return if m.Ok? then Message(m.value) else Failed(m.error);
    }
  }

  datatype Reading = Disconnect | Timeout | Failed(error: string) | Message(envelope: Envelope)

  /** One frame was taken off the stream and read. */
  predicate Reads(pending: seq<byte>, known: Registry, r: Reading, left: seq<byte>) {
    && HasFrame(pending)
    && var n := HeaderLength(pending[..HEADER_SIZE]);
    && left == pending[HEADER_SIZE + n..]
    && r == (if n == 0 then Timeout
             else match MessageOf(pending[HEADER_SIZE..HEADER_SIZE + n], known)
                  case Ok(e) => Message(e)
                  case Err(m) => Failed(m))
  }

  function After(front: seq<Address>, r: Read<seq<Address>>): Read<seq<Address>> {
    match r
    case Bad(m) => Bad(m)
    case Got(more, rest) => Got(front + more, rest)
  }

  lemma AfterNothing(r: Read<seq<Address>>)
    ensures After([], r) == r
  {
    if r.Got? {
      assert [] + r.value == r.value;
    }
  }

  lemma AfterOne(front: seq<Address>, b: seq<byte>, n: nat)
    requires n > 0
    ensures After(front, TakeAddresses(b, n))
            == if |b| < ADDRESS_SIZE then Bad(END)
               else After(front + [AddressOf(b[..ADDRESS_SIZE])], TakeAddresses(b[ADDRESS_SIZE..], n - 1))
  {
    if |b| >= ADDRESS_SIZE && TakeAddresses(b[ADDRESS_SIZE..], n - 1).Got? {
      var a, more := AddressOf(b[..ADDRESS_SIZE]), TakeAddresses(b[ADDRESS_SIZE..], n - 1).value;
      assert front + ([a] + more) == front + [a] + more;
    }
  }
}
