/** Chunks of several messages, arriving in any order and mixed with other traffic, become messages again. */
module Unchunking {
  import opened Bytes
  import opened Buffers
  import opened Envelopes

  // ---------------------------------------------------------------- MessageUnchunker

  /** A message being collected. */
  datatype Unchunker = Unchunker(
    numChunks: nat,
    instanceId: UUID,
    count: nat,
    slots: seq<Option<MessageChunk>>)

  /** Takes a chunk that belongs here and was not seen before; anything else throws, but for an index too big. */
  function AddChunk(u: Unchunker, c: MessageChunk): Result<Unchunker>
    requires |u.slots| == u.numChunks
  {
    if c.numberOfChunks != u.numChunks || c.internalInstanceId != u.instanceId then Err("Chunk data mismatch")
    else if c.chunkIndex >= u.numChunks then Err(OUT_OF_RANGE)
    else if u.slots[c.chunkIndex].Some? then Err("Duplicate chunk received")
    else Ok(u.(slots := u.slots[c.chunkIndex := Some(c)], count := u.count + 1))
  }

  /** A collector refuses the chunks of other messages. */
  lemma StrangerIsRefused(u: Unchunker, c: MessageChunk)
    requires |u.slots| == u.numChunks && c.internalInstanceId != u.instanceId
    ensures AddChunk(u, c) == Err("Chunk data mismatch")
  {
  }

  function Vacant(n: nat): seq<Option<MessageChunk>> { seq(n, _ => None) }

  /** The first chunk of a message. */
  function NewUnchunker(c: MessageChunk): Result<Unchunker> {
    if c.numberOfChunks < 1 then Err("Chunk count is less than 1")
    else AddChunk(Unchunker(c.numberOfChunks, c.internalInstanceId, 0, Vacant(c.numberOfChunks)), c)
  }

  /** The payloads joined in index order, if every slot is filled. */
  function Payload(slots: seq<Option<MessageChunk>>): Option<seq<byte>> {
    if slots == [] then Some([])
    else
      var init := Payload(slots[..|slots| - 1]);
      var last := slots[|slots| - 1];
      if init.None? || last.None? then None else Some(init.value + last.value.payload)
  }

  /** None while chunks are missing, else the content; every way it can be inconsistent throws. */
  function Unchunked(u: Unchunker, known: set<(UUID, u32)>): Result<Option<Content>>
    requires |u.slots| == u.numChunks > 0
  {
    if u.count < u.numChunks then Ok(None)
    else if Payload(u.slots).None? then Err("Missing chunk")
    else
      var body, first := Payload(u.slots).value, FirstChunk(u.slots);
      if |body| != first.unchunkedSize then Err("Chunk size mismatch")
      else if (first.internalId, first.internalClassVersion) !in known then Err("Failed to instantiate message class")
      else Ok(Some(Object(first.internalId, first.internalClassVersion, body)))
  }

  function FirstChunk(slots: seq<Option<MessageChunk>>): MessageChunk
    requires slots != [] && Payload(slots).Some?
  {
    FirstFilled(slots);
    slots[0].value
  }

  lemma {:induction false} FirstFilled(slots: seq<Option<MessageChunk>>)
    requires Payload(slots).Some?
    ensures forall i :: 0 <= i < |slots| ==> slots[i].Some?
  {
    if slots != [] {
      FirstFilled(slots[..|slots| - 1]);
    }
  }

  lemma {:induction false} FilledIsPayload(slots: seq<Option<MessageChunk>>)
    requires forall i :: 0 <= i < |slots| ==> slots[i].Some?
    ensures Payload(slots).Some?
  {
    if slots != [] {
      FilledIsPayload(slots[..|slots| - 1]);
    }
  }

  /** getUnchunked's summing loop. */
  method SumPayloads(u: Unchunker) returns (r: Result<nat>)
    ensures r.Ok? <==> Payload(u.slots).Some?
    ensures r.Ok? ==> r.value == |Payload(u.slots).value|
    ensures r.Err? ==> r.error == "Missing chunk"
  {
    var sum := 0;
    for i := 0 to |u.slots|
      invariant Payload(u.slots[..i]).Some? && sum == |Payload(u.slots[..i]).value|
    {
      assert u.slots[..i + 1][..i] == u.slots[..i];
      if u.slots[i].None? {
        if Payload(u.slots).Some? {
          FirstFilled(u.slots);
        }
        return Err("Missing chunk");
      }
      sum := sum + |u.slots[i].value.payload|;
    }
    assert u.slots[..|u.slots|] == u.slots;
    return Ok(sum);
  }

  /** getUnchunked: check the total, then read the content back from a MultiBuffer of the payloads. */
  method GetUnchunked(u: Unchunker, known: set<(UUID, u32)>) returns (r: Result<Option<Content>>)
    requires |u.slots| == u.numChunks > 0
    ensures r == Unchunked(u, known)
  {
    if u.count < u.numChunks {
      return Ok(None);
    }
    var sum := SumPayloads(u);
    if sum.Err? {
      return Err(sum.error);
    }
    FirstFilled(u.slots);
    var first := u.slots[0].value;
    if sum.value != first.unchunkedSize {
      return Err("Chunk size mismatch");
    }
    if (first.internalId, first.internalClassVersion) !in known {
      return Err("Failed to instantiate message class");
    }
    var mb := new MultiBuffer(1024 * 1024, 1024 * 1024 * 1024);
    for i := 0 to |u.slots|
      invariant fresh(mb) && mb.Valid() && mb.used == |mb.buffers|
      invariant Some(mb.Unread()) == Payload(u.slots[..i])
    {
      assert u.slots[..i + 1][..i] == u.slots[..i];
      var p := u.slots[i].value.payload;
      var _ := mb.AddBuffer(Span(p, 0, |p|));
    }
    assert u.slots[..|u.slots|] == u.slots;
    ghost var all := mb.Unread();
    var body := mb.Read(sum.value);
    assert all[..sum.value] == all;
    return Ok(Some(Object(first.internalId, first.internalClassVersion, body.value)));
  }

  // ---------------------------------------------------------------- ChunkingMessageEndpoint::getEnvelope

  type Unchunkers = map<UUID, Unchunker>

  predicate Tidy(us: Unchunkers) {
    forall id :: id in us ==> |us[id].slots| == us[id].numChunks > 0 && us[id].instanceId == id
  }

  /** One envelope from below: kept, delivered, or thrown over. */
  function Feed(us: Unchunkers, e: Envelope, known: set<(UUID, u32)>): (r: (Unchunkers, Result<Option<Envelope>>))
    requires Tidy(us)
    ensures Tidy(r.0)
  {
    if !e.content.Chunk? then (us, Ok(Some(e)))
    else
      var c := e.content.chunk;
      var id := c.internalInstanceId;
      var u := if id in us then AddChunk(us[id], c) else NewUnchunker(c);
      if u.Err? then (us, Err(u.error))
      else
        var us1 := us[id := u.value];
        match Unchunked(u.value, known)
        case Err(m) => (us1, Err(m))
        case Ok(None) => (us1, Ok(None))
        case Ok(Some(content)) => (us1 - {id}, Ok(Some(e.(content := content))))
  }

  /** The slot a chunk is for is taken already. */
  predicate Repeats(us: Unchunkers, c: MessageChunk)
    requires Tidy(us)
  {
    var id := c.internalInstanceId;
    id in us && c.chunkIndex < us[id].numChunks && us[id].slots[c.chunkIndex].Some?
  }

  /** The chunk's count is not that of the chunks of its message that came before. */
  predicate Miscounts(us: Unchunkers, c: MessageChunk) {
    c.internalInstanceId in us && us[c.internalInstanceId].numChunks != c.numberOfChunks
  }

  /** The vector of chunks is left exactly by an index at or above a count that nothing else objects to. */
  lemma OutOfRangeIff(us: Unchunkers, e: Envelope, known: set<(UUID, u32)>)
    requires Tidy(us)
    ensures Feed(us, e, known).1 == Err(OUT_OF_RANGE) <==>
              && e.content.Chunk? && e.content.chunk.chunkIndex >= e.content.chunk.numberOfChunks > 0
              && !Miscounts(us, e.content.chunk)
  {
    DistinctErrors();
  }

  /**
   Which chunks are refused, exactly, and a refused chunk changes nothing: one counted differently from those
   before it, one counted as one of none, and one that is there already.
   */
  lemma RefusedIff(us: Unchunkers, e: Envelope, known: set<(UUID, u32)>)
    requires Tidy(us)
    ensures Feed(us, e, known).1 == Err("Chunk data mismatch") <==> e.content.Chunk? && Miscounts(us, e.content.chunk)
    ensures Feed(us, e, known).1 == Err("Chunk count is less than 1") <==>
              e.content.Chunk? && e.content.chunk.internalInstanceId !in us && e.content.chunk.numberOfChunks == 0
    ensures Feed(us, e, known).1 == Err("Duplicate chunk received") <==>
              e.content.Chunk? && !Miscounts(us, e.content.chunk) && Repeats(us, e.content.chunk)
    ensures e.content.Chunk? && Miscounts(us, e.content.chunk) ==> Feed(us, e, known).0 == us
    ensures e.content.Chunk? && Repeats(us, e.content.chunk) ==> Feed(us, e, known).0 == us
    ensures e.content.Chunk? && e.content.chunk.numberOfChunks == 0 ==> Feed(us, e, known).0 == us
  {
    DistinctErrors();
  }

  /** A chunk that is accepted goes into its slot and is counted; the other slots and messages stay as they are. */
  lemma AcceptedIs(us: Unchunkers, e: Envelope, known: set<(UUID, u32)>)
    requires Tidy(us) && e.content.Chunk? && Feed(us, e, known).1 == Ok(None)
    ensures var c := e.content.chunk; var id := c.internalInstanceId; var now := Feed(us, e, known).0;
      && c.chunkIndex < c.numberOfChunks && now.Keys == us.Keys + {id}
      && (forall x :: x in us && x != id ==> now[x] == us[x])
      && now[id].numChunks == |now[id].slots| == c.numberOfChunks && now[id].slots[c.chunkIndex] == Some(c)
      && now[id].count == (if id in us then us[id].count else 0) + 1
      && (forall i :: 0 <= i < c.numberOfChunks && i != c.chunkIndex ==>
            now[id].slots[i] == if id in us then us[id].slots[i] else None)
  {
  }

  /** The first chunk of a message, numbered one too high. */
  lemma OneTooHigh(e: Envelope, known: set<(UUID, u32)>)
    requires e.content.Chunk? && e.content.chunk.chunkIndex == e.content.chunk.numberOfChunks > 0
    ensures Feed(map[], e, known).1 == Err(OUT_OF_RANGE)
  {
    OutOfRangeIff(map[], e, known);
  }

  lemma DistinctErrors()
    ensures OUT_OF_RANGE != "Chunk data mismatch" && OUT_OF_RANGE != "Duplicate chunk received"
    ensures OUT_OF_RANGE != "Chunk count is less than 1" && OUT_OF_RANGE != "Missing chunk"
    ensures OUT_OF_RANGE != "Chunk size mismatch" && OUT_OF_RANGE != "Failed to instantiate message class"
  {
  }

  /** Everything that comes out when the envelopes arrive in this order. */
  function FeedAll(us: Unchunkers, es: seq<Envelope>, known: set<(UUID, u32)>): (r: (Unchunkers, Result<seq<Envelope>>))
    requires Tidy(us)
    ensures Tidy(r.0)
  {
    if es == [] then (us, Ok([]))
    else
      var (us1, out) := FeedAll(us, es[..|es| - 1], known);
      if out.Err? then (us1, out)
      else
        var (us2, more) := Feed(us1, es[|es| - 1], known);
        (us2, match more
              case Err(m) => Err(m)
              case Ok(None) => out
              case Ok(Some(e)) => Ok(out.value + [e]))
  }

  lemma FeedAllSnoc(us: Unchunkers, es: seq<Envelope>, e: Envelope, known: set<(UUID, u32)>)
    requires Tidy(us) && FeedAll(us, es, known).1.Ok?
    ensures var (us1, out) := FeedAll(us, es, known); var (us2, more) := Feed(us1, e, known);
      FeedAll(us, es + [e], known)
      == (us2, if more.Err? then Err(more.error)
               else Ok(out.value + (if more.value.None? then [] else [more.value.value])))
  {
    assert (es + [e])[..|es|] == es;
    assert FeedAll(us, es, known).1.value + [] == FeedAll(us, es, known).1.value;
  }

  /** While nothing has come out yet, the next outcome is the outcome. */
  lemma FeedNext(us: Unchunkers, es: seq<Envelope>, n: nat, known: set<(UUID, u32)>, us1: Unchunkers)
    requires Tidy(us) && Tidy(us1) && n < |es| && FeedAll(us, es[..n], known) == (us1, Ok([]))
    ensures var (us2, r) := Feed(us1, es[n], known); FeedAll(us, es[..n + 1], known) == (us2, AsList(r))
  {
    FeedAllSnoc(us, es[..n], es[n], known);
    assert es[..n] + [es[n]] == es[..n + 1];
    var r := Feed(us1, es[n], known).1;
    if r.Ok? && r.value.Some? {
      assert [] + [r.value.value] == [r.value.value];
    }
  }

  /** Once something is thrown, that is the outcome. */
  lemma {:induction false} FailsForGood(us: Unchunkers, es: seq<Envelope>, n: nat, known: set<(UUID, u32)>)
    requires Tidy(us) && n <= |es| && FeedAll(us, es[..n], known).1.Err?
    ensures FeedAll(us, es, known) == FeedAll(us, es[..n], known)
    decreases |es|
  {
    if n < |es| {
      var init := es[..|es| - 1];
      assert init[..n] == es[..n];
      FailsForGood(us, init, n, known);
    } else {
      assert es[..n] == es;
    }
  }

  class ChunkingMessageEndpoint {
    var unchunkers: Unchunkers

    constructor ()
      ensures unchunkers == map[]
    {
      unchunkers := map[];
    }

    method TakeEnvelope(e: Envelope, known: set<(UUID, u32)>) returns (r: Result<Option<Envelope>>)
      requires Tidy(unchunkers)
      modifies this
      ensures Tidy(unchunkers) && (unchunkers, r) == Feed(old(unchunkers), e, known)
    {
      if !e.content.Chunk? {
        return Ok(Some(e));
      }
      var c := e.content.chunk;
      var id := c.internalInstanceId;
      var u := if id in unchunkers then AddChunk(unchunkers[id], c) else NewUnchunker(c);
      if u.Err? {
        return Err(u.error);
      }
      unchunkers := unchunkers[id := u.value];
      var content := GetUnchunked(u.value, known);
      if content.Err? {
        return Err(content.error);
      }
      if content.value.None? {
        return Ok(None);
      }
      unchunkers := unchunkers - {id};
      return Ok(Some(e.(content := content.value.value)));
    }

    /** Consume envelopes until one comes out, something throws, or the source has no more for now. */
    method GetEnvelope(source: seq<Envelope>, known: set<(UUID, u32)>) returns (n: nat, r: Result<Option<Envelope>>)
      requires Tidy(unchunkers)
      modifies this
      ensures Tidy(unchunkers) && n <= |source|
      ensures FeedAll(old(unchunkers), source[..n], known) == (unchunkers, AsList(r))
      ensures r == Ok(None) ==> n == |source|
    {
      n, r := 0, Ok(None);
      while n < |source| && r == Ok(None)
        invariant Tidy(unchunkers) && n <= |source|
        invariant FeedAll(old(unchunkers), source[..n], known) == (unchunkers, AsList(r))
      {
        FeedNext(old(unchunkers), source, n, known, unchunkers);
        r := TakeEnvelope(source[n], known);
        n := n + 1;
      }
    }
  }

  function AsList(r: Result<Option<Envelope>>): Result<seq<Envelope>> {
    match r
    case Err(m) => Err(m)
    case Ok(None) => Ok([])
    case Ok(Some(e)) => Ok([e])
  }
}
