/** Large contents are split into chunks on the way out and put together again on the way in. */
module Chunking {
  import opened Bytes
  import opened Buffers
  import opened Envelopes

  // ---------------------------------------------------------------- splitting a byte sequence

  /** The bytes cut every k: all pieces are k long except perhaps the last. */
  function Cut(data: seq<byte>, k: nat): seq<seq<byte>>
    requires k > 0 || data == []
    decreases |data|
  {
    if data == [] then []
    else if |data| <= k then [data]
    else [data[..k]] + Cut(data[k..], k)
  }

  function Join(pieces: seq<seq<byte>>): seq<byte> {
    if pieces == [] then [] else pieces[0] + Join(pieces[1..])
  }

  function CeilDiv(n: nat, k: nat): nat
    requires k > 0
  {
    (n + k - 1) / k
  }

  lemma MulKeepsOrder(a: nat, b: nat, k: nat)
    requires a <= b
    ensures a * k <= b * k
  {
  }

  lemma DivIs(n: nat, k: nat, q: nat)
    requires k > 0 && q * k <= n < q * k + k
    ensures n / k == q
  {
    var d := n / k;
    assert d * k <= n < d * k + k;
    if d < q {
      MulKeepsOrder(d + 1, q, k);
    } else if q < d {
      MulKeepsOrder(q + 1, d, k);
    }
  }

  lemma DivStep(n: nat, k: nat)
    requires 0 < k <= n
    ensures (n - k) / k == n / k - 1
  {
    var q := n / k;
    assert q * k <= n < q * k + k;
    assert q > 0;
    assert (q - 1) * k == q * k - k;
    DivIs(n - k, k, q - 1);
  }

  /** ceil(len/k) pieces, each at its multiple of k, which is also the length of what precedes it. */
  lemma {:induction false} CutShape(data: seq<byte>, k: nat)
    requires k > 0
    ensures |Cut(data, k)| == CeilDiv(|data|, k)
    ensures Join(Cut(data, k)) == data
    ensures forall i :: 0 <= i < |Cut(data, k)| ==>
              && |Cut(data, k)[i]| > 0
              && (i < |Cut(data, k)| - 1 ==> |Cut(data, k)[i]| == k)
              && |Cut(data, k)[i]| <= k
    decreases |data|
  {
    if |data| > k {
      CutShape(data[k..], k);
      DivStep(|data| + k - 1, k);
      assert Cut(data, k)[1..] == Cut(data[k..], k);
    } else if data != [] {
      DivIs(|data| + k - 1, k, 1);
      assert [data][1..] == [];
    }
  }

  /** Too many pieces, without a division. */
  lemma {:induction false} CutCount(data: seq<byte>, k: nat, max: nat)
    requires k > 0 || data == []
    ensures |Cut(data, k)| > max <==> |data| > max * k
    decreases |data|
  {
    if |data| > k {
      if max > 0 {
        CutCount(data[k..], k, max - 1);
        assert max * k == (max - 1) * k + k;
      }
    } else if data != [] && max > 0 {
      MulKeepsOrder(1, max, k);
    }
  }

  lemma {:induction false} CutOffsets(data: seq<byte>, k: nat, i: nat)
    requires k > 0 && i < |Cut(data, k)|
    ensures |Join(Cut(data, k)[..i])| == i * k
    ensures i * k <= |data| && Join(Cut(data, k)[..i]) == data[..i * k]
    decreases |data|
  {
    if i > 0 {
      var rest := Cut(data[k..], k);
      CutOffsets(data[k..], k, i - 1);
      assert Cut(data, k)[..i] == [data[..k]] + rest[..i - 1];
      assert ([data[..k]] + rest[..i - 1])[1..] == rest[..i - 1];
      assert i * k == k + (i - 1) * k;
      assert data[..k] + data[k..][..(i - 1) * k] == data[..i * k];
    }
  }

  lemma {:induction false} JoinSnoc(pieces: seq<seq<byte>>, p: seq<byte>)
    ensures Join(pieces + [p]) == Join(pieces) + p
  {
    if pieces != [] {
      JoinSnoc(pieces[1..], p);
      assert (pieces + [p])[1..] == pieces[1..] + [p];
    } else {
      assert ([] + [p])[1..] == [];
    }
  }

  /** Piece i is where its offset says, and reaches to where the next one starts or the data end. */
  lemma CutPlaces(data: seq<byte>, k: nat, i: nat)
    requires k > 0 && i < |Cut(data, k)|
    ensures var p := Cut(data, k)[i]; var end := i * k + |p|;
      && end <= |data| && p == data[i * k..end]
      && end == (if i + 1 < |Cut(data, k)| then (i + 1) * k else |data|)
  {
    var pieces := Cut(data, k);
    CutShape(data, k);
    CutOffsets(data, k, i);
    JoinSnoc(pieces[..i], pieces[i]);
    assert pieces[..i] + [pieces[i]] == pieces[..i + 1];
    if i + 1 < |pieces| {
      CutOffsets(data, k, i + 1);
      assert data[..(i + 1) * k] == data[..i * k] + pieces[i];
    } else {
      assert pieces[..i + 1] == pieces;
      assert data == data[..i * k] + pieces[i];
    }
  }

  // ---------------------------------------------------------------- a chunked MultiBuffer is a cut

  function Pieces(vs: seq<Span>): seq<seq<byte>> {
    if vs == [] then [] else [vs[0].written] + Pieces(vs[1..])
  }

  lemma {:induction false} PiecesShape(vs: seq<Span>)
    ensures |Pieces(vs)| == |vs| && forall i :: 0 <= i < |vs| ==> Pieces(vs)[i] == vs[i].written
  {
    if vs != [] {
      PiecesShape(vs[1..]);
    }
  }

  lemma {:induction false} FlatCons(vs: seq<Span>)
    requires vs != []
    ensures Flat(vs) == vs[0].written + Flat(vs[1..])
    decreases |vs|
  {
    if |vs| > 1 {
      var init := vs[..|vs| - 1];
      FlatCons(init);
      assert init[1..] == vs[1..][..|vs| - 2];
    }
  }

  /** Buffers of one size, full but for the last, hold exactly the cut of what was written. */
  lemma {:induction false} ChunkedIsCut(vs: seq<Span>, k: nat)
    requires k > 0
    requires forall i :: 0 <= i < |vs| - 1 ==> |vs[i].written| == k
    requires vs != [] ==> 0 < |vs[|vs| - 1].written| <= k
    ensures Pieces(vs) == Cut(Flat(vs), k)
    decreases |vs|
  {
    if vs != [] {
      FlatCons(vs);
      if |vs| > 1 {
        ChunkedIsCut(vs[1..], k);
        FlatCons(vs[1..]);
        assert Flat(vs)[..k] == vs[0].written && Flat(vs)[k..] == Flat(vs[1..]);
      } else {
        assert vs[1..] == [] && Flat(vs) == vs[0].written;
        assert Pieces(vs) == [vs[0].written];
      }
    }
  }

  // ---------------------------------------------------------------- sending

  datatype Config = Config(enabled: bool, minChunkingSize: nat, chunkSize: nat)

  const MAX_CHUNKS := 65535

  /** Chunk i of an envelope whose body is cut every k bytes. */
  function ChunkOf(env: Envelope, size: nat, k: nat, i: nat): Envelope
    requires env.content.Object? && (k > 0 || env.content.body == []) && i < |Cut(env.content.body, k)|
  {
    var pieces := Cut(env.content.body, k);
    env.(content := Chunk(MessageChunk(
      |pieces|, i, i * k, size,
      env.content.classId, env.meta.routingName, env.meta.instanceId, env.meta.sourceId, env.content.version,
      pieces[i][..Low32(|pieces[i]|)])))
  }

  predicate NeedsChunking(cfg: Config, env: Envelope, size: nat) {
    cfg.enabled && env.content.Object? && size >= cfg.minChunkingSize
  }

  /** It gets as far as sending: anything but a body to be cut every 0 bytes, which is never done. */
  predicate Ends(cfg: Config, env: Envelope, size: nat) {
    NeedsChunking(cfg, env, size) ==> cfg.chunkSize > 0 || env.content.body == []
  }

  /** The envelopes a message makes, in order. */
  function Split(cfg: Config, env: Envelope, size: nat): seq<Envelope>
    requires Ends(cfg, env, size)
  {
    if NeedsChunking(cfg, env, size)
    then seq(|Cut(env.content.body, cfg.chunkSize)|,
             i requires 0 <= i < |Cut(env.content.body, cfg.chunkSize)| => ChunkOf(env, size, cfg.chunkSize, i))
    else [env]
  }

  /** What putEnvelope does: pass these on, or throw for more chunks than a chunk can count. */
  function Put(cfg: Config, env: Envelope, size: nat): Result<seq<Envelope>>
    requires Ends(cfg, env, size)
  {
    if NeedsChunking(cfg, env, size) && |env.content.body| > MAX_CHUNKS * cfg.chunkSize
    then Err("Message is too large for chunking")
    else Ok(Split(cfg, env, size))
  }

  /** What a chunk says: its place in the sequence, its offset and its payload. */
  predicate Says(c: MessageChunk, index: nat, count: nat, size: nat, offset: nat, payload: seq<byte>) {
    && c.chunkIndex == index && c.numberOfChunks == count && c.unchunkedSize == size
    && c.offset == offset && c.payload == payload
  }

  /** And whose it is: class, version, name, instance and source are the message's. */
  predicate Of(c: MessageChunk, env: Envelope)
    requires env.content.Object?
  {
    && c.internalId == env.content.classId && c.internalClassVersion == env.content.version
    && c.internalRoutingName == env.meta.routingName
    && c.internalInstanceId == env.meta.instanceId && c.internalOriginId == env.meta.sourceId
  }

  lemma ChunkSays(env: Envelope, k: nat, i: nat)
    requires env.content.Object? && 0 < k < TWO_32 && i < |Cut(env.content.body, k)|
    ensures var pieces := Cut(env.content.body, k);
      Says(ChunkOf(env, |env.content.body|, k, i).content.chunk, i, |pieces|, |env.content.body|, i * k, pieces[i])
  {
    CutShape(env.content.body, k);
    var p := Cut(env.content.body, k)[i];
    assert p[..|p|] == p;
  }

  /** Chunk i says where it belongs, and it does: its payload is the body's bytes from i * k on, k of them or the rest. */
  predicate Tells(x: Envelope, env: Envelope, k: nat, i: nat, count: nat)
    requires env.content.Object?
  {
    var body := env.content.body;
    var end := if i + 1 < count then (i + 1) * k else |body|;
    && x.meta == env.meta && x.to == env.to && x.content.Chunk?
    && Of(x.content.chunk, env)
    && i * k <= end <= |body| && Says(x.content.chunk, i, count, |body|, i * k, body[i * k..end])
  }

  lemma ChunkTells(env: Envelope, k: nat, i: nat)
    requires env.content.Object? && 0 < k < TWO_32 && i < |Cut(env.content.body, k)|
    ensures Tells(ChunkOf(env, |env.content.body|, k, i), env, k, i, |Cut(env.content.body, k)|)
  {
    ChunkSays(env, k, i);
    CutPlaces(env.content.body, k, i);
  }

  /** What putEnvelope passes on for a message above the minimum: ceil(length / k) chunks that tell the truth. */
  lemma ChunksTellTheTruth(cfg: Config, env: Envelope)
    requires cfg.enabled && env.content.Object? && cfg.minChunkingSize <= |env.content.body|
    requires 0 < cfg.chunkSize < TWO_32
    ensures var k, body, r := cfg.chunkSize, env.content.body, Put(cfg, env, |env.content.body|);
      && (r.Ok? <==> |body| <= 65535 * k)
      && (r.Ok? ==>
          && ((|r.value| - 1) * k < |body| || (body == [] && r.value == []))
          && |body| <= |r.value| * k
          && forall i :: 0 <= i < |r.value| ==> Tells(r.value[i], env, k, i, |r.value|))
  {
    var k, body, r := cfg.chunkSize, env.content.body, Put(cfg, env, |env.content.body|);
    if r.Ok? {
      var n := |r.value|;
      forall i | 0 <= i < n ensures Tells(r.value[i], env, k, i, n) {
        ChunkTells(env, k, i);
      }
      CutCount(body, k, n);
      if n > 0 {
        CutCount(body, k, n - 1);
      }
    }
  }

  /** takeBuffer on each buffer in turn. */
  method TakeBuffers(vs: seq<Span>) returns (pieces: seq<seq<byte>>)
    ensures pieces == Pieces(vs)
  {
    PiecesShape(vs);
    pieces := [];
    for i := 0 to |vs|
      invariant pieces == Pieces(vs)[..i]
    {
      pieces := pieces + [vs[i].written];
    }
  }

  lemma JoinNext(done: seq<byte>, writes: seq<seq<byte>>, i: nat)
    requires i < |writes|
    ensures done + Join(writes[i..]) == done + writes[i] + Join(writes[i + 1..])
  {
    assert writes[i..][0] == writes[i] && writes[i..][1..] == writes[i + 1..];
    assert done + (writes[i] + Join(writes[i + 1..])) == done + writes[i] + Join(writes[i + 1..]);
  }

  /** Serializing into a MultiBuffer whose buffers are all k long cuts the body every k bytes. */
  method CutIntoBuffers(writes: seq<seq<byte>>, k: nat) returns (pieces: seq<seq<byte>>)
    requires k > 0 || Join(writes) == []
    ensures pieces == Cut(Join(writes), k)
  {
    var mb := new MultiBuffer(k, k);
    for i := 0 to |writes|
      invariant fresh(mb) && mb.Valid() && mb.initialSize == mb.linearSize == k
      invariant if k > 0 then mb.Chunked() else mb.buffers == []
      invariant mb.Contents() + Join(writes[i..]) == Join(writes)
    {
      JoinNext(mb.Contents(), writes, i);
      mb.Write(writes[i]);
    }
    assert writes[|writes|..] == [] && mb.buffers[..mb.used] == mb.buffers && mb.Contents() == Join(writes);
    if k > 0 {
      ChunkedIsCut(mb.buffers, k);
    }
    pieces := TakeBuffers(mb.buffers);
  }

  /** Cut every 0 bytes, a body with any bytes keeps the write loop turning: nothing is written, and there is never room. */
  method NeverWritten(src: seq<byte>, turns: nat) returns (n: nat)
    requires src != []
    ensures n == 0
  {
    var mb := new MultiBuffer(0, 0);
    n := 0;
    for t := 0 to turns
      invariant fresh(mb) && mb.Valid() && !mb.CanTake(1) && n == 0
    {
      n := mb.WriteSome(src[n..]);
    }
  }

  /** `size` is the content's serializedLength(); `writes` is how its serialize() happens to write the body. */
  method PutEnvelope(cfg: Config, env: Envelope, size: nat, writes: seq<seq<byte>>) returns (r: Result<seq<Envelope>>)
    requires cfg.enabled && env.content.Object? && size >= cfg.minChunkingSize ==>
               cfg.chunkSize > 0 || env.content.body == []
    requires env.content.Object? ==> Join(writes) == env.content.body
    ensures Ends(cfg, env, size) && r == Put(cfg, env, size)
    ensures r == Ok([env]) <==> !cfg.enabled || !env.content.Object? || size < cfg.minChunkingSize
    ensures r.Err? <==> r != Ok([env]) && |env.content.body| > 65535 * cfg.chunkSize
    ensures r.Ok? && r.value != [env] ==> forall i :: 0 <= i < |r.value| ==> r.value[i].content.Chunk?
  {
    if !cfg.enabled {
      return Ok([env]);
    }
    if !env.content.Object? {
      return Ok([env]);
    }
    if size < cfg.minChunkingSize {
      return Ok([env]);
    }
    var k := cfg.chunkSize;
    var pieces := CutIntoBuffers(writes, k);
    CutCount(env.content.body, k, MAX_CHUNKS);
    if |pieces| > MAX_CHUNKS {
      return Err("Message is too large for chunking");
    }
    var out := MakeChunks(env, size, k, pieces);
    assert out == Split(cfg, env, size) && forall i :: 0 <= i < |out| ==> out[i].content.Chunk?;
    assert out != [env] by {
      assert out != [] ==> out[0] != env;
    }
    return Ok(out);
  }

  /** A chunk per buffer, each with the message's metadata and destinations. */
  method MakeChunks(env: Envelope, size: nat, k: nat, pieces: seq<seq<byte>>) returns (out: seq<Envelope>)
    requires env.content.Object? && (k > 0 || env.content.body == []) && pieces == Cut(env.content.body, k)
    ensures |out| == |pieces| && forall i :: 0 <= i < |out| ==> out[i] == ChunkOf(env, size, k, i)
  {
    out := [];
    for i := 0 to |pieces|
      invariant |out| == i && forall j :: 0 <= j < i ==> out[j] == ChunkOf(env, size, k, j)
    {
      var chunk := MessageChunk(
        |pieces|, i, i * k, size,
        env.content.classId, env.meta.routingName, env.meta.instanceId, env.meta.sourceId, env.content.version,
        pieces[i][..Low32(|pieces[i]|)]);
      out := out + [env.(content := Chunk(chunk))];
    }
  }
}
