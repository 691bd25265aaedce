/** The sending and the receiving objects, connected: a message goes in at one end and comes out at the other. */
module EndToEnd {
  import opened Bytes
  import opened Envelopes
  import opened ChunkCodec
  import opened Framing
  import opened FrameReceiving
  import opened FrameTransport
  import opened MessageIO
  import opened Chunking
  import opened Unchunking
  import opened ChunkRoundTrip
  import opened WireStack

  /** Write the envelopes one after the other, until the connection fails. */
  method WriteAll(writer: MessageWriter, es: seq<Envelope>) returns (ok: bool)
    requires writer.sink.Valid() && writer.sink.sink.peer.stream == [] && AllCarried(es)
    modifies writer.sink, writer.sink.multi, writer.sink.sink, writer.sink.sink.peer
    ensures ok ==> writer.sink.sink.peer.stream == Stream(es)
  {
    ghost var fs := FramesOf(es);
    assert fs[..0] == [];
    for i := 0 to |es|
      invariant writer.sink.Valid()
      invariant writer.sink.sink.peer.stream == EncodeFrames(fs[..i])
    {
      assert Carried(es[i]);
      var r := writer.Write(es[i]);
      if r.Err? || !r.value.Good? {
        return false;
      }
      SentFrame(fs, i, r.value, writer.sink.sink.peer.stream);
    }
    assert fs[..|es|] == fs;
    return true;
  }

  lemma SentFrame(fs: seq<seq<byte>>, i: nat, r: Status, stream: seq<byte>)
    requires Framable(fs) && i < |fs| && r.Good? && SentOne(EncodeFrames(fs[..i]), fs[i], r, stream)
    ensures stream == EncodeFrames(fs[..i + 1])
  {
    EncodeFramesSnoc(fs[..i], fs[i]);
    assert fs[..i] + [fs[i]] == fs[..i + 1];
  }

  function After(es: seq<Envelope>, r: Result<seq<Envelope>>): Result<seq<Envelope>> {
    match r
    case Err(m) => Err(m)
    case Ok(more) => Ok(es + more)
  }

  /** What one reading takes off a stream, seen from all that is to be received. */
  lemma ReceivedStep(b: seq<byte>, known: Registry, r: Reading, left: seq<byte>)
    requires Reads(b, known, r, left)
    ensures r.Timeout? ==> Received(b, known) == Received(left, known)
    ensures r.Failed? ==> Received(b, known).Err?
    ensures r.Message? ==> Received(b, known) == After([r.envelope], Received(left, known))
  {
    var n := HeaderLength(b[..HEADER_SIZE]);
    var rest := DecodeFrames(left).0;
    if n > 0 {
      var f := b[HEADER_SIZE..HEADER_SIZE + n];
      assert DecodeFrames(b).0 == [f] + rest;
      ReadFirst(Reader(known), f, rest);
    }
  }

  lemma ReadFirst(read: seq<byte> -> Result<Envelope>, f: seq<byte>, rest: seq<seq<byte>>)
    ensures ReadEach(read, [f] + rest)
            == if read(f).Err? then Err(read(f).error) else After([read(f).value], ReadEach(read, rest))
  {
    assert ([f] + rest)[1..] == rest;
  }

  lemma ReceivedNothing(b: seq<byte>, known: Registry)
    requires !HasFrame(b)
    ensures Received(b, known) == Ok([])
  {
  }

  lemma AfterTwice(es: seq<Envelope>, e: Envelope, r: Result<seq<Envelope>>)
    ensures After(es, After([e], r)) == After(es + [e], r)
  {
    if r.Ok? {
      assert es + ([e] + r.value) == es + [e] + r.value;
    }
  }

  lemma AfterEmpty(es: seq<Envelope>, r: Result<seq<Envelope>>)
    ensures After([], r) == r && After(es, Ok([])) == Ok(es)
  {
    assert es + [] == es;
    if r.Ok? {
      assert [] + r.value == r.value;
    }
  }

  /** Read messages until the connection is gone or one cannot be read. */
  method ReadAll(reader: MessageReader, known: Registry) returns (r: Result<seq<Envelope>>)
    requires reader.source.Valid() && reader.source.buffer == null && reader.source.source.peer.reliable
    modifies reader.source, reader.source.source, reader.source.source.peer
    ensures var expected := Received(old(reader.source.source.peer.pending), known);
      r.Ok? == expected.Ok? && (r.Ok? ==> r == expected)
  {
    ghost var peer, all := reader.source.source.peer, reader.source.source.peer.pending;
    var es := [];
    AfterEmpty([], Received(all, known));
    while true
      invariant reader.source.Valid()
      invariant reader.source.buffer != null ==> fresh(reader.source.buffer) && fresh(reader.source.buffer.data)
      invariant Received(all, known) == After(es, Received(peer.pending, known))
      decreases |peer.pending|
    {
      ghost var before := peer.pending;
      var m := reader.Read(known);
      if m.Disconnect? {
        ReceivedNothing(before, known);
        AfterEmpty(es, Ok([]));
        return Ok(es);
      }
      ReceivedStep(before, known, m, peer.pending);
      if m.Failed? {
        return Err(m.error);
      }
      if m.Message? {
        AfterTwice(es, m.envelope, Received(peer.pending, known));
        es := es + [m.envelope];
      }
    }
  }

  /** Hand the envelopes to the endpoint one by one and collect what it delivers. */
  method FeedEndpoint(es: seq<Envelope>, known: Registry) returns (out: Result<seq<Envelope>>, left: Unchunkers)
    ensures Tidy(left) && (left, out) == FeedAll(map[], es, known)
  {
    var endpoint := new ChunkingMessageEndpoint();
    var delivered := [];
    for i := 0 to |es|
      invariant Tidy(endpoint.unchunkers)
      invariant FeedAll(map[], es[..i], known) == (endpoint.unchunkers, Ok(delivered))
    {
      ghost var before := endpoint.unchunkers;
      var r := endpoint.TakeEnvelope(es[i], known);
      FeedNext(es, i, known, before, delivered, endpoint.unchunkers, r);
      if r.Err? {
        return Err(r.error), endpoint.unchunkers;
      }
      delivered := Listed(delivered, r.value);
    }
    assert es[..|es|] == es;
    return Ok(delivered), endpoint.unchunkers;
  }

  function Listed(es: seq<Envelope>, e: Option<Envelope>): seq<Envelope> {
    es + (if e.None? then [] else [e.value])
  }

  lemma FeedNext(es: seq<Envelope>, i: nat, known: Registry, us: Unchunkers, out: seq<Envelope>,
                 us': Unchunkers, r: Result<Option<Envelope>>)
    requires i < |es| && Tidy(us)
    requires FeedAll(map[], es[..i], known) == (us, Ok(out)) && Feed(us, es[i], known) == (us', r)
    ensures r.Err? ==> FeedAll(map[], es, known) == (us', Err(r.error))
    ensures r.Ok? ==> FeedAll(map[], es[..i + 1], known) == (us', Ok(Listed(out, r.value)))
  {
    FeedAllSnoc(map[], es[..i], es[i], known);
    assert es[..i] + [es[i]] == es[..i + 1];
    if r.Err? {
      FailsForGood(map[], es, i + 1, known);
    }
  }

  /**
   * putEnvelope, the writer, the socket with its short writes and reads, the reader and getEnvelope:
   * putEnvelope throws exactly if there are too many chunks; if the connection holds, the message arrives,
   * once and unchanged but for what the receiver does not know, exactly if it passes.
   */
  method Deliver(cfg: Config, e: Envelope, size: nat, writes: seq<seq<byte>>, known: Registry)
    returns (thrown: bool, sent: bool, delivered: Result<seq<Envelope>>, left: Unchunkers)
    requires Ends(cfg, e, size) && Sendable(cfg, e, size) && (CHUNK_ID, CHUNK_VERSION) in known
    requires e.content.Object? ==> Join(writes) == e.content.body
    ensures thrown <==> NeedsChunking(cfg, e, size) && |e.content.body| > MAX_CHUNKS * cfg.chunkSize
    ensures thrown ==> !sent
    ensures sent ==> (delivered == Ok([ReadAs(e, known)]) && left == map[] <==> Passes(cfg, e, size, known))
  {
    thrown, sent, delivered, left := false, false, Ok([]), map[];
    DeliveredIff(cfg, e, size, known);
    var parts := PutEnvelope(cfg, e, size, writes);
    if parts.Err? {
      thrown := true;
      return;
    }
    var wire := new SendSocket();
    var framing := new BasicFramingSink(wire);
    var sink := new BufferedSink(framing);
    var writer := new MessageWriter(sink);
    sent := WriteAll(writer, parts.value);
    if !sent {
      return;
    }
    var arriving := new ReceiveSocket(wire.stream, true);
    var framed := new BasicFramingSource(arriving);
    var source := new BufferedSource(framed);
    var reader := new MessageReader(source);
    var received := ReadAll(reader, known);
    delivered, left := FeedEndpoint(received.value, known);
  }
}
