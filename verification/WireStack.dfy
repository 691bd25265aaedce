/** All layers at once: envelopes into chunks into frames into bytes, and back. */
module WireStack {
  import opened Bytes
  import opened Envelopes
  import opened EnvelopeCodec
  import opened ChunkCodec
  import opened Framing
  import opened MessageIO
  import opened Chunking
  import opened Unchunking
  import opened ChunkRoundTrip

  /** The envelope makes a frame that the framing layer accepts. */
  predicate Carried(e: Envelope) { Wireable(e) && FrameOf(e).Ok? && |FrameOf(e).value| < TWO_32 }

  predicate AllCarried(es: seq<Envelope>) { forall i :: 0 <= i < |es| ==> Carried(es[i]) }

  function FramesOf(es: seq<Envelope>): (fs: seq<seq<byte>>)
    requires AllCarried(es)
    ensures |fs| == |es| && Framable(fs) && forall i :: 0 <= i < |es| ==> fs[i] == FrameOf(es[i]).value
  {
    if es == [] then [] else [FrameOf(es[0]).value] + FramesOf(es[1..])
  }

  /** The bytes a writer puts on the stream for these envelopes, one frame each. */
  function Stream(es: seq<Envelope>): seq<byte>
    requires AllCarried(es)
  {
    EncodeFrames(FramesOf(es))
  }

  /** What a reader makes of an envelope: content of a class it does not know stays opaque. */
  function ReadAs(e: Envelope, known: Registry): Envelope
    requires Serializable(e.content)
  {
    e.(content := AsRead(e.content, known))
  }

  function AllReadAs(es: seq<Envelope>, known: Registry): (r: seq<Envelope>)
    requires AllCarried(es)
    ensures |r| == |es| && forall i :: 0 <= i < |es| ==> r[i] == ReadAs(es[i], known)
  {
    seq(|es|, i requires 0 <= i < |es| => ReadAs(es[i], known))
  }

  /** Read frame after frame, up to the first that cannot be read. */
  function ReadEach(read: seq<byte> -> Result<Envelope>, fs: seq<seq<byte>>): Result<seq<Envelope>> {
    if fs == [] then Ok([])
    else if read(fs[0]).Err? then Err(read(fs[0]).error)
    else
      var more := ReadEach(read, fs[1..]);
      if more.Err? then more else Ok([read(fs[0]).value] + more.value)
  }

  lemma {:induction false} AllRead(read: seq<byte> -> Result<Envelope>, fs: seq<seq<byte>>, es: seq<Envelope>)
    requires |es| == |fs| && forall i :: 0 <= i < |es| ==> read(fs[i]) == Ok(es[i])
    ensures ReadEach(read, fs) == Ok(es)
  {
    if es != [] {
      AllRead(read, fs[1..], es[1..]);
      assert [es[0]] + es[1..] == es;
    }
  }

  function Reader(known: Registry): seq<byte> -> Result<Envelope> { f => MessageOf(f, known) }

  /** The envelopes a reader takes off a stream. */
  function Received(b: seq<byte>, known: Registry): Result<seq<Envelope>> {
    ReadEach(Reader(known), DecodeFrames(b).0)
  }

  lemma CarriedIsRead(e: Envelope, known: Registry)
    requires Carried(e)
    ensures FrameOf(e).value != [] && MessageOf(FrameOf(e).value, known) == Ok(ReadAs(e, known))
  {
    MessageRoundTrip(e, known);
    EncodedLength(HeadFor(e));
  }

  /** Framing and encoding are transparent to the layer above, but for what the reader does not know. */
  lemma StreamIsTransparent(es: seq<Envelope>, known: Registry)
    requires AllCarried(es)
    ensures Received(Stream(es), known) == Ok(AllReadAs(es, known))
  {
    var fs, rs := FramesOf(es), AllReadAs(es, known);
    forall i | 0 <= i < |es| ensures fs[i] != [] && Reader(known)(fs[i]) == Ok(rs[i]) {
      CarriedIsRead(es[i], known);
    }
    FramesRoundTripIff(fs);
    AllRead(Reader(known), fs, rs);
  }

  /** Chunks are read as what they are, and nothing else is read as a chunk. */
  lemma ChunksAreRead(e: Envelope, known: Registry)
    requires Carried(e) && (CHUNK_ID, CHUNK_VERSION) in known
    ensures e.content.Chunk? ==> ReadAs(e, known) == e
    ensures !e.content.Chunk? ==> !ReadAs(e, known).content.Chunk?
  {
  }

  lemma {:induction false} SameSeen(es: seq<Envelope>, rs: seq<Envelope>, id: UUID)
    requires |rs| == |es|
    requires forall i :: 0 <= i < |es| ==> if es[i].content.Chunk? then rs[i] == es[i] else !rs[i].content.Chunk?
    ensures Seen(rs, id) == Seen(es, id)
  {
    if es != [] {
      SameSeen(es[..|es| - 1], rs[..|es| - 1], id);
    }
  }

  lemma SameChunks(b: Batch, es: seq<Envelope>, rs: seq<Envelope>)
    requires Proper(b) && Chunks(b, es) && Complete(b, es) && |rs| == |es|
    requires forall i :: 0 <= i < |es| ==> if es[i].content.Chunk? then rs[i] == es[i] else !rs[i].content.Chunk?
    ensures Chunks(b, rs) && Complete(b, rs)
  {
    forall id | id in b.msgs ensures Seen(rs, id) == Below(Count(b, id)) {
      SameSeen(es, rs, id);
    }
  }

  /**
   * The whole stack: chunks of several large messages in any interleaving, mixed with other traffic,
   * as bytes on the stream; the receiving endpoint delivers every message, once and whole, exactly if
   * it can deliver each of them.
   */
  lemma StackRoundTripIff(b: Batch, es: seq<Envelope>)
    requires Proper(b) && Chunks(b, es) && Complete(b, es) && AllCarried(es) && (CHUNK_ID, CHUNK_VERSION) in b.known
    ensures var rs := AllReadAs(es, b.known);
      && Received(Stream(es), b.known) == Ok(rs) && Chunks(b, rs)
      && (FeedAll(map[], rs, b.known) == (map[], Ok(Given(Due(b, rs))))
          <==> forall id :: id in b.msgs ==> Deliverable(b, id))
  {
    var rs := AllReadAs(es, b.known);
    StreamIsTransparent(es, b.known);
    forall i | 0 <= i < |es| ensures if es[i].content.Chunk? then rs[i] == es[i] else !rs[i].content.Chunk? {
      ChunksAreRead(es[i], b.known);
    }
    SameChunks(b, es, rs);
    RoundTripIff(b, rs);
  }

  // ---------------------------------------------------------------- one message, from its own size alone

  /** Room for the head of a chunk message: the message's own, with a chunk's fields in place of the body. */
  function Overhead(e: Envelope): nat {
    66 + |e.meta.routingName| + ADDRESS_SIZE * (|e.to| + 1) + 84 + |e.meta.routingName|
  }

  /** The message, or each of its chunks, fits into a frame; `size` is what its content says its length is. */
  predicate Sendable(cfg: Config, e: Envelope, size: nat) {
    && 0 < |e.meta.routingName| < TWO_16
    && !e.content.Chunk? && ClassOf(e.content) != CHUNK_ID
    && |BodyOf(e.content)| < TWO_64 && size < TWO_64
    && (if NeedsChunking(cfg, e, size) then Overhead(e) + Min(cfg.chunkSize, |e.content.body|) < TWO_32
        else Overhead(e) + |BodyOf(e.content)| < TWO_32)
  }

  lemma EncodedChunkLength(c: MessageChunk)
    requires InFields(c) && |c.internalRoutingName| < TWO_32
    ensures |EncodeChunk(c)| == 84 + |c.internalRoutingName| + |c.payload|
  {
  }

  lemma FrameLength(e: Envelope)
    requires Wireable(e)
    ensures FrameOf(e).Ok?
    ensures |FrameOf(e).value| == 66 + |e.meta.routingName| + ADDRESS_SIZE * (|e.to| + 1) + |BodyOf(e.content)|
  {
    EncodeIs(HeadFor(e));
    EncodedLength(HeadFor(e));
  }

  lemma ChunkIsCarried(cfg: Config, e: Envelope, size: nat, i: nat)
    requires Ends(cfg, e, size) && Sendable(cfg, e, size) && NeedsChunking(cfg, e, size) && Put(cfg, e, size).Ok?
    requires i < |Cut(e.content.body, cfg.chunkSize)|
    ensures Carried(ChunkOf(e, size, cfg.chunkSize, i))
  {
    var k, body := cfg.chunkSize, e.content.body;
    var x := ChunkOf(e, size, k, i);
    var c := x.content.chunk;
    CutCount(body, k, MAX_CHUNKS);
    CutOffsets(body, k, i);
    PieceFits(body, k, i);
    assert |c.payload| <= Min(k, |body|);
    assert InFields(c);
    EncodedChunkLength(c);
    FrameLength(x);
  }

  lemma PutIsCarried(cfg: Config, e: Envelope, size: nat)
    requires Ends(cfg, e, size) && Sendable(cfg, e, size) && Put(cfg, e, size).Ok?
    ensures AllCarried(Put(cfg, e, size).value)
  {
    var sent := Put(cfg, e, size).value;
    if NeedsChunking(cfg, e, size) {
      forall i | 0 <= i < |sent| ensures Carried(sent[i]) {
        ChunkIsCarried(cfg, e, size, i);
      }
    } else {
      FrameLength(e);
    }
  }

  lemma ChunkedPasses(cfg: Config, e: Envelope, size: nat, known: Registry)
    requires Ends(cfg, e, size) && Sendable(cfg, e, size) && (CHUNK_ID, CHUNK_VERSION) in known && Put(cfg, e, size).Ok?
    requires NeedsChunking(cfg, e, size)
    ensures AllCarried(Put(cfg, e, size).value) && AllReadAs(Put(cfg, e, size).value, known) == Put(cfg, e, size).value
  {
    PutIsCarried(cfg, e, size);
    var sent := Put(cfg, e, size).value;
    forall i | 0 <= i < |sent| ensures ReadAs(sent[i], known) == sent[i] {
      ChunksAreRead(sent[i], known);
    }
  }

  lemma UnchunkedPasses(e: Envelope, known: Registry)
    requires !e.content.Chunk?
    ensures FeedAll(map[], [e], known) == (map[], Ok([e]))
  {
    assert [e][..0] == [] && [] + [e] == [e];
  }

  /** What was put on the stream and read again gets through exactly if it does as it is. */
  lemma ReadPasses(cfg: Config, e: Envelope, size: nat, known: Registry)
    requires Ends(cfg, e, size) && Sendable(cfg, e, size) && (CHUNK_ID, CHUNK_VERSION) in known && Put(cfg, e, size).Ok?
    ensures AllCarried(Put(cfg, e, size).value)
    ensures FeedAll(map[], AllReadAs(Put(cfg, e, size).value, known), known) == (map[], Ok([ReadAs(e, known)]))
       <==> Passes(cfg, e, size, known)
  {
    PutIsCarried(cfg, e, size);
    if NeedsChunking(cfg, e, size) {
      ChunkedPasses(cfg, e, size, known);
      if Passes(cfg, e, size, known) {
        SplitArrivesIff(cfg, e, size, known);
      } else {
        NotAnyEnvelope(cfg, e, size, known);
      }
    } else {
      assert AllReadAs([e], known) == [ReadAs(e, known)];
      UnchunkedPasses(ReadAs(e, known), known);
    }
  }

  /** A chunked message that does not get through does not come out as anything. */
  lemma NotAnyEnvelope(cfg: Config, e: Envelope, size: nat, known: Registry)
    requires Ends(cfg, e, size) && Sendable(cfg, e, size) && Put(cfg, e, size).Ok?
    requires NeedsChunking(cfg, e, size) && !Passes(cfg, e, size, known)
    ensures var r := FeedAll(map[], Put(cfg, e, size).value, known).1; r.Err? || r == Ok([])
  {
    if e.content.body != [] {
      ChunkedFails(cfg, e, size, known);
    }
  }

  /**
   * One message handed to the sending endpoint, whatever its size: the bytes on the stream bring it
   * out at the receiving endpoint, as far as that knows its class, exactly if it passes.
   */
  lemma DeliveredIff(cfg: Config, e: Envelope, size: nat, known: Registry)
    requires Ends(cfg, e, size) && Sendable(cfg, e, size) && (CHUNK_ID, CHUNK_VERSION) in known
    ensures var sent := Put(cfg, e, size);
      && (sent.Ok? ==>
          && AllCarried(sent.value)
          && Received(Stream(sent.value), known) == Ok(AllReadAs(sent.value, known)))
      && (sent.Ok? && FeedAll(map[], AllReadAs(sent.value, known), known) == (map[], Ok([ReadAs(e, known)]))
          <==> Passes(cfg, e, size, known))
  {
    if Put(cfg, e, size).Ok? {
      ReadPasses(cfg, e, size, known);
      StreamIsTransparent(Put(cfg, e, size).value, known);
    }
  }
}
