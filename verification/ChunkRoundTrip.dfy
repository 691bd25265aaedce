/** Whatever the order in which the chunks of several messages arrive, each message comes out once and whole. */
module ChunkRoundTrip {
  import opened Bytes
  import opened Envelopes
  import opened Chunking
  import opened Unchunking

  /**
   The messages under way, by instance id, each with its sender's chunk size and the length its content
   claims to have; `known` is the receiver's registry.
   */
  datatype Batch = Batch(msgs: map<UUID, Envelope>, sizes: map<UUID, nat>, lengths: map<UUID, nat>, known: set<(UUID, u32)>)

  predicate Proper(b: Batch) {
    && b.sizes.Keys == b.lengths.Keys == b.msgs.Keys
    && forall id :: id in b.msgs ==>
         && b.msgs[id].meta.instanceId == id
         && b.msgs[id].content.Object?
         && b.msgs[id].content.body != []
         && b.sizes[id] > 0
         && Min(b.sizes[id], |b.msgs[id].content.body|) < TWO_32
  }

  /** The receiver has the message's class registered, and its length is what it claims to be. */
  predicate Deliverable(b: Batch, id: UUID)
    requires Proper(b) && id in b.msgs
  {
    b.lengths[id] == |Body(b, id)| && (b.msgs[id].content.classId, b.msgs[id].content.version) in b.known
  }

  function Body(b: Batch, id: UUID): seq<byte>
    requires Proper(b) && id in b.msgs
  {
    b.msgs[id].content.body
  }

  /** How many chunks a message has. */
  function Count(b: Batch, id: UUID): nat
    requires Proper(b) && id in b.msgs
  {
    |Cut(Body(b, id), b.sizes[id])|
  }

  /** Chunk i of a message, as putEnvelope makes it when serializedLength() is accurate. */
  function Piece(b: Batch, id: UUID, i: nat): Envelope
    requires Proper(b) && id in b.msgs && i < Count(b, id)
  {
    ChunkOf(b.msgs[id], b.lengths[id], b.sizes[id], i)
  }

  function IdOf(e: Envelope): UUID
    requires e.content.Chunk?
  {
    e.content.chunk.internalInstanceId
  }

  function IndexOf(e: Envelope): nat
    requires e.content.Chunk?
  {
    e.content.chunk.chunkIndex
  }

  predicate IsPiece(b: Batch, e: Envelope)
    requires Proper(b)
  {
    e.content.Chunk? ==> IdOf(e) in b.msgs && IndexOf(e) < Count(b, IdOf(e)) && e == Piece(b, IdOf(e), IndexOf(e))
  }

  predicate SameMessage(x: Envelope, y: Envelope) {
    x.content.Chunk? && y.content.Chunk? && IdOf(x) == IdOf(y)
  }

  /** Every chunk in the stream is of the batch and none comes twice. */
  ghost predicate Chunks(b: Batch, es: seq<Envelope>)
    requires Proper(b)
  {
    && (forall j :: 0 <= j < |es| ==> IsPiece(b, es[j]))
    && (forall j, l :: 0 <= j < l < |es| && SameMessage(es[j], es[l]) ==> IndexOf(es[j]) != IndexOf(es[l]))
  }

  /** The indices of a message's chunks that have arrived. */
  ghost function Seen(es: seq<Envelope>, id: UUID): set<nat> {
    if es == [] then {}
    else
      var e := es[|es| - 1];
      Seen(es[..|es| - 1], id) + (if e.content.Chunk? && IdOf(e) == id then {IndexOf(e)} else {})
  }

  lemma {:induction false} SeenIff(es: seq<Envelope>, id: UUID, i: nat)
    ensures i in Seen(es, id) <==>
              exists j :: 0 <= j < |es| && es[j].content.Chunk? && IdOf(es[j]) == id && IndexOf(es[j]) == i
  {
    if es != [] {
      var init := es[..|es| - 1];
      SeenIff(init, id, i);
      if i in Seen(init, id) {
        var j :| 0 <= j < |init| && init[j].content.Chunk? && IdOf(init[j]) == id && IndexOf(init[j]) == i;
        assert es[j] == init[j];
      }
      if j :| 0 <= j < |es| && es[j].content.Chunk? && IdOf(es[j]) == id && IndexOf(es[j]) == i {
        assert j < |init| ==> init[j] == es[j];
      }
    }
  }

  /** A message of which exactly the chunks in `seen` have arrived. */
  ghost function Partial(b: Batch, id: UUID, seen: set<nat>): Unchunker
    requires Proper(b) && id in b.msgs
  {
    Unchunker(Count(b, id), id, |seen|,
              seq(Count(b, id), i requires 0 <= i < Count(b, id) =>
                if i in seen then Some(Piece(b, id, i).content.chunk) else None))
  }

  /** Collectors exist for the messages of which some but not all chunks have arrived. */
  ghost function Collectors(b: Batch, seen: map<UUID, set<nat>>): Unchunkers
    requires Proper(b) && seen.Keys == b.msgs.Keys
  {
    map id | id in b.msgs && 0 < |seen[id]| < Count(b, id) :: Partial(b, id, seen[id])
  }

  ghost function Arrived(b: Batch, es: seq<Envelope>): map<UUID, set<nat>> {
    map id | id in b.msgs :: Seen(es, id)
  }

  /** What the endpoint remembers after these arrivals. */
  ghost function Memory(b: Batch, es: seq<Envelope>): Unchunkers
    requires Proper(b)
  {
    Collectors(b, Arrived(b, es))
  }

  lemma DropUpdated(us: Unchunkers, id: UUID, u: Unchunker)
    ensures us[id := u] - {id} == us - {id}
  {
  }

  lemma MinusIs(c: Unchunkers, us: Unchunkers, id: UUID)
    requires forall x :: (x in c <==> x in us && x != id) && (x in c ==> c[x] == us[x])
    ensures c == us - {id}
  {
  }

  /** What is kept for one message. */
  predicate Collecting(b: Batch, id: UUID, seen: set<nat>)
    requires Proper(b) && id in b.msgs
  {
    0 < |seen| < Count(b, id)
  }

  lemma CollectorKeys(b: Batch, seen: map<UUID, set<nat>>, x: UUID)
    requires Proper(b) && seen.Keys == b.msgs.Keys
    ensures x in Collectors(b, seen) <==> x in b.msgs && Collecting(b, x, seen[x])
    ensures x in Collectors(b, seen) ==> Collectors(b, seen)[x] == Partial(b, x, seen[x])
  {
  }

  lemma CollectorsAreOf(b: Batch, seen: map<UUID, set<nat>>)
    requires Proper(b) && seen.Keys == b.msgs.Keys
    ensures Collectors(b, seen).Keys <= b.msgs.Keys
  {
  }

  lemma CollectorDone(b: Batch, seen: map<UUID, set<nat>>, id: UUID, now: set<nat>)
    requires Proper(b) && seen.Keys == b.msgs.Keys && id in b.msgs
    requires |now| == Count(b, id)
    ensures seen[id := now].Keys == b.msgs.Keys
    ensures Collectors(b, seen[id := now]) == Collectors(b, seen) - {id}
  {
    var later := seen[id := now];
    var c, us := Collectors(b, later), Collectors(b, seen);
    forall x ensures (x in c <==> x in us && x != id) && (x in c ==> c[x] == us[x]) {
      CollectorKeys(b, later, x);
      CollectorKeys(b, seen, x);
    }
    MinusIs(c, us, id);
  }

  lemma UpdateIs(c: Unchunkers, us: Unchunkers, id: UUID, u: Unchunker)
    requires forall x :: (x in c <==> x in us || x == id) && (x in c ==> c[x] == if x == id then u else us[x])
    ensures c == us[id := u]
  {
  }

  lemma CollectorGrows(b: Batch, seen: map<UUID, set<nat>>, id: UUID, now: set<nat>)
    requires Proper(b) && seen.Keys == b.msgs.Keys && id in b.msgs
    requires 0 < |now| < Count(b, id)
    ensures seen[id := now].Keys == b.msgs.Keys
    ensures Collectors(b, seen[id := now]) == Collectors(b, seen)[id := Partial(b, id, now)]
  {
    var later := seen[id := now];
    var c, us := Collectors(b, later), Collectors(b, seen);
    forall x ensures (x in c <==> x in us || x == id) && (x in c ==> c[x] == if x == id then Partial(b, id, now) else us[x]) {
      CollectorKeys(b, later, x);
      CollectorKeys(b, seen, x);
    }
    UpdateIs(c, us, id, Partial(b, id, now));
  }

  // ---------------------------------------------------------------- one message

  lemma PieceFits(data: seq<byte>, k: nat, i: nat)
    requires k > 0 && i < |Cut(data, k)|
    ensures |Cut(data, k)[i]| <= Min(k, |data|)
  {
    CutShape(data, k);
    CutPlaces(data, k, i);
  }

  lemma PieceIsWhole(b: Batch, id: UUID, i: nat)
    requires Proper(b) && id in b.msgs && i < Count(b, id)
    ensures Piece(b, id, i).content.chunk.payload == Cut(Body(b, id), b.sizes[id])[i]
  {
    CutShape(Body(b, id), b.sizes[id]);
    PieceFits(Body(b, id), b.sizes[id], i);
    var n := |Cut(Body(b, id), b.sizes[id])[i]|;
    assert Low32(n) == n;
  }

  lemma FirstPiece(b: Batch, id: UUID, i: nat)
    requires Proper(b) && id in b.msgs && i < Count(b, id)
    ensures NewUnchunker(Piece(b, id, i).content.chunk) == Ok(Partial(b, id, {i}))
  {
    var slots := Vacant(Count(b, id))[i := Some(Piece(b, id, i).content.chunk)];
    forall j | 0 <= j < Count(b, id) ensures slots[j] == Partial(b, id, {i}).slots[j] {
      SlotIs(b, id, {i}, j);
    }
    assert slots == Partial(b, id, {i}).slots;
  }

  lemma SlotIs(b: Batch, id: UUID, seen: set<nat>, j: nat)
    requires Proper(b) && id in b.msgs && j < Count(b, id)
    ensures Partial(b, id, seen).slots[j] == if j in seen then Some(Piece(b, id, j).content.chunk) else None
  {
  }

  lemma PartialSlots(b: Batch, id: UUID, seen: set<nat>, i: nat)
    requires Proper(b) && id in b.msgs && i < Count(b, id)
    ensures Partial(b, id, seen).slots[i := Some(Piece(b, id, i).content.chunk)] == Partial(b, id, seen + {i}).slots
  {
    var a, c := Partial(b, id, seen).slots[i := Some(Piece(b, id, i).content.chunk)], Partial(b, id, seen + {i}).slots;
    forall j | 0 <= j < Count(b, id) ensures a[j] == c[j] {
      SlotIs(b, id, seen, j);
      SlotIs(b, id, seen + {i}, j);
    }
  }

  lemma NextPiece(b: Batch, id: UUID, seen: set<nat>, i: nat)
    requires Proper(b) && id in b.msgs && i < Count(b, id) && i !in seen
    ensures AddChunk(Partial(b, id, seen), Piece(b, id, i).content.chunk) == Ok(Partial(b, id, seen + {i}))
  {
    PartialSlots(b, id, seen, i);
    assert Partial(b, id, seen).slots[i].None? && |seen + {i}| == |seen| + 1;
  }

  function Below(n: nat): (s: set<nat>)
    ensures |s| == n && forall i: nat :: i in s <==> i < n
  {
    if n == 0 then {} else Below(n - 1) + {n - 1}
  }

  /** n distinct indices below n are all of them. */
  lemma AllSeen(seen: set<nat>, n: nat)
    requires forall i :: i in seen ==> i < n
    ensures |seen| <= n
    ensures |seen| == n ==> seen == Below(n)
  {
    SubsetSize(seen, Below(n));
    if |seen| == n {
      assert Below(n) - seen == {};
    }
  }

  lemma {:induction false} SubsetSize(a: set<nat>, b: set<nat>)
    requires a <= b
    ensures |a| <= |b| && |b - a| == |b| - |a|
  {
    assert b == a + (b - a);
  }

  lemma {:induction false} PayloadIsPrefix(b: Batch, id: UUID, slots: seq<Option<MessageChunk>>)
    requires Proper(b) && id in b.msgs && |slots| <= Count(b, id)
    requires forall i :: 0 <= i < |slots| ==> slots[i] == Some(Piece(b, id, i).content.chunk)
    ensures Payload(slots) == Some(Join(Cut(Body(b, id), b.sizes[id])[..|slots|]))
    decreases |slots|
  {
    var pieces := Cut(Body(b, id), b.sizes[id]);
    if slots != [] {
      var n := |slots| - 1;
      PayloadIsPrefix(b, id, slots[..n]);
      PieceIsWhole(b, id, n);
      JoinSnoc(pieces[..n], pieces[n]);
      assert pieces[..n] + [pieces[n]] == pieces[..n + 1];
    }
  }

  /** What becomes of a message all of whose chunks are there. */
  function Verdict(b: Batch, id: UUID): Result<Content>
    requires Proper(b) && id in b.msgs
  {
    if b.lengths[id] != |Body(b, id)| then Err("Chunk size mismatch")
    else if (b.msgs[id].content.classId, b.msgs[id].content.version) !in b.known
    then Err("Failed to instantiate message class")
    else Ok(b.msgs[id].content)
  }

  /** Nothing until all chunks are there, and then it is the message's content or thrown over. */
  lemma PartialUnchunked(b: Batch, id: UUID, seen: set<nat>)
    requires Proper(b) && id in b.msgs && seen != {} && forall i :: i in seen ==> i < Count(b, id)
    ensures Unchunked(Partial(b, id, seen), b.known)
            == if |seen| < Count(b, id) then Ok(None)
               else match Verdict(b, id) case Ok(c) => Ok(Some(c)) case Err(m) => Err(m)
  {
    AllSeen(seen, Count(b, id));
    CutShape(Body(b, id), b.sizes[id]);
    if |seen| == Count(b, id) {
      FullPayload(b, id);
    }
  }

  lemma FullPayload(b: Batch, id: UUID)
    requires Proper(b) && id in b.msgs
    ensures var slots := Partial(b, id, Below(Count(b, id))).slots;
      && slots != [] && Payload(slots) == Some(Body(b, id))
      && FirstChunk(slots) == Piece(b, id, 0).content.chunk
  {
    var slots, pieces := Partial(b, id, Below(Count(b, id))).slots, Cut(Body(b, id), b.sizes[id]);
    PayloadIsPrefix(b, id, slots);
    assert pieces[..|slots|] == pieces;
    CutShape(Body(b, id), b.sizes[id]);
    SlotIs(b, id, Below(Count(b, id)), 0);
  }

  // ---------------------------------------------------------------- the stream

  lemma SeenInRange(b: Batch, es: seq<Envelope>, id: UUID)
    requires Proper(b) && id in b.msgs && Chunks(b, es)
    ensures forall i :: i in Seen(es, id) ==> i < Count(b, id)
  {
    forall i | i in Seen(es, id) ensures i < Count(b, id) {
      SeenIff(es, id, i);
    }
  }

  /** What arriving chunk i of a message adds. */
  lemma SeenGrows(b: Batch, es: seq<Envelope>, e: Envelope)
    requires Proper(b) && Chunks(b, es + [e])
    ensures Chunks(b, es)
    ensures forall id :: Seen(es + [e], id)
              == Seen(es, id) + (if e.content.Chunk? && IdOf(e) == id then {IndexOf(e)} else {})
    ensures e.content.Chunk? ==> IsPiece(b, e) && IndexOf(e) !in Seen(es, IdOf(e))
    ensures e.content.Chunk? ==> |Seen(es, IdOf(e))| < Count(b, IdOf(e))
  {
    var all := es + [e];
    assert all[..|es|] == es && all[|es|] == e;
    assert forall j :: 0 <= j < |es| ==> es[j] == all[j];
    if e.content.Chunk? {
      var id, i := IdOf(e), IndexOf(e);
      SeenIff(es, id, i);
      SeenInRange(b, es, id);
      AllSeen(Seen(es, id), Count(b, id));
    }
  }

  /** What one arrival delivers. */
  ghost function Delivery(b: Batch, es: seq<Envelope>, e: Envelope): Option<Envelope>
    requires Proper(b) && IsPiece(b, e)
  {
    if !e.content.Chunk? then Some(e)
    else if |Seen(es + [e], IdOf(e))| == Count(b, IdOf(e)) then Some(b.msgs[IdOf(e)])
    else None
  }

  /** The collector of a message is created by its first chunk and extended by the next ones. */
  lemma CollectInto(b: Batch, id: UUID, i: nat, seen: set<nat>, us: Unchunkers)
    requires Proper(b) && id in b.msgs && i < Count(b, id) && i !in seen && Tidy(us)
    requires (id in us <==> seen != {}) && (id in us ==> us[id] == Partial(b, id, seen))
    ensures var c := Piece(b, id, i).content.chunk;
      (if id in us then AddChunk(us[id], c) else NewUnchunker(c)) == Ok(Partial(b, id, seen + {i}))
  {
    if seen == {} {
      FirstPiece(b, id, i);
      assert seen + {i} == {i};
    } else {
      NextPiece(b, id, seen, i);
    }
  }

  lemma CollectorsAreTidy(b: Batch, seen: map<UUID, set<nat>>)
    requires Proper(b) && seen.Keys == b.msgs.Keys
    ensures Tidy(Collectors(b, seen))
  {
  }

  /** While chunks of a message are missing, it has a collector exactly if some have arrived. */
  lemma MemoryAt(b: Batch, es: seq<Envelope>, id: UUID)
    requires Proper(b) && id in b.msgs && |Seen(es, id)| < Count(b, id)
    ensures id in Memory(b, es) <==> Seen(es, id) != {}
    ensures id in Memory(b, es) ==> Memory(b, es)[id] == Partial(b, id, Seen(es, id))
    ensures Tidy(Memory(b, es))
  {
    CollectorKeys(b, Arrived(b, es), id);
    CollectorsAreTidy(b, Arrived(b, es));
  }

  /** A chunk arrives. */
  lemma CollectPiece(b: Batch, es: seq<Envelope>, e: Envelope)
    requires Proper(b) && Chunks(b, es + [e]) && e.content.Chunk?
    ensures IsPiece(b, e) && Tidy(Memory(b, es))
    ensures var id := IdOf(e); var c := e.content.chunk; var us := Memory(b, es);
      (if id in us then AddChunk(us[id], c) else NewUnchunker(c)) == Ok(Partial(b, id, Seen(es + [e], id)))
  {
    SeenGrows(b, es, e);
    MemoryAt(b, es, IdOf(e));
    CollectInto(b, IdOf(e), IndexOf(e), Seen(es, IdOf(e)), Memory(b, es));
  }

  lemma ArrivedUpdate(b: Batch, es: seq<Envelope>, e: Envelope)
    requires Proper(b) && Chunks(b, es + [e]) && e.content.Chunk?
    ensures IsPiece(b, e) && Arrived(b, es + [e]) == Arrived(b, es)[IdOf(e) := Seen(es + [e], IdOf(e))]
    ensures IndexOf(e) in Seen(es + [e], IdOf(e)) && |Seen(es + [e], IdOf(e))| <= Count(b, IdOf(e))
  {
    SeenGrows(b, es, e);
    var id := IdOf(e);
    SeenInRange(b, es + [e], id);
    AllSeen(Seen(es + [e], id), Count(b, id));
    ArrivedIs(b, es, es + [e], id);
  }

  lemma ArrivedIs(b: Batch, es: seq<Envelope>, more: seq<Envelope>, id: UUID)
    requires id in b.msgs && forall x :: x != id ==> Seen(more, x) == Seen(es, x)
    ensures Arrived(b, more) == Arrived(b, es)[id := Seen(more, id)]
  {
  }

  lemma MemoryUpdate(b: Batch, es: seq<Envelope>, e: Envelope)
    requires Proper(b) && Chunks(b, es + [e]) && e.content.Chunk?
    ensures IsPiece(b, e)
    ensures var id := IdOf(e); var u := Partial(b, id, Seen(es + [e], id)); var us := Memory(b, es)[id := u];
      Memory(b, es + [e]) == (if |Seen(es + [e], id)| == Count(b, id) then us - {id} else us)
  {
    ArrivedUpdate(b, es, e);
    var id, now := IdOf(e), Seen(es + [e], IdOf(e));
    if |now| == Count(b, id) {
      CollectorDone(b, Arrived(b, es), id, now);
      DropUpdated(Memory(b, es), id, Partial(b, id, now));
    } else {
      CollectorGrows(b, Arrived(b, es), id, now);
    }
  }

  /** Feed, once the collector and its verdict are known. */
  lemma FeedIs(us: Unchunkers, e: Envelope, known: set<(UUID, u32)>, u: Unchunker, r: Result<Option<Content>>)
    requires Tidy(us) && e.content.Chunk? && u.instanceId == IdOf(e) && |u.slots| == u.numChunks > 0
    requires (if IdOf(e) in us then AddChunk(us[IdOf(e)], e.content.chunk) else NewUnchunker(e.content.chunk)) == Ok(u)
    requires Unchunked(u, known) == r
    ensures Feed(us, e, known)
            == match r
               case Err(m) => (us[IdOf(e) := u], Err(m))
               case Ok(None) => (us[IdOf(e) := u], Ok(None))
               case Ok(Some(c)) => (us[IdOf(e) := u] - {IdOf(e)}, Ok(Some(e.(content := c))))
  {
  }

  /** The arrival of e completes a message that cannot be delivered. */
  ghost predicate Fails(b: Batch, es: seq<Envelope>, e: Envelope)
    requires Proper(b) && IsPiece(b, e)
  {
    e.content.Chunk? && |Seen(es + [e], IdOf(e))| == Count(b, IdOf(e)) && !Deliverable(b, IdOf(e))
  }

  /** What is known of the collector a chunk goes to. */
  lemma PieceVerdict(b: Batch, es: seq<Envelope>, e: Envelope)
    requires Proper(b) && Chunks(b, es + [e]) && e.content.Chunk?
    ensures Tidy(Memory(b, es)) && IsPiece(b, e)
    ensures var id := IdOf(e); var seen := Seen(es + [e], id); var u := Partial(b, id, seen);
      && |seen| <= Count(b, id)
      && Feed(Memory(b, es), e, b.known)
         == if |seen| < Count(b, id) then (Memory(b, es)[id := u], Ok(None))
            else match Verdict(b, id)
                 case Err(m) => (Memory(b, es)[id := u], Err(m))
                 case Ok(c) => (Memory(b, es)[id := u] - {id}, Ok(Some(e.(content := c))))
  {
    CollectPiece(b, es, e);
    SeenGrows(b, es, e);
    var id := IdOf(e);
    var seen := Seen(es + [e], id);
    SeenInRange(b, es + [e], id);
    AllSeen(seen, Count(b, id));
    PartialUnchunked(b, id, seen);
    FeedIs(Memory(b, es), e, b.known, Partial(b, id, seen), Unchunked(Partial(b, id, seen), b.known));
  }

  lemma FeedPiece(b: Batch, es: seq<Envelope>, e: Envelope)
    requires Proper(b) && Chunks(b, es + [e]) && e.content.Chunk? && IsPiece(b, e) && !Fails(b, es, e)
    ensures Tidy(Memory(b, es))
    ensures Feed(Memory(b, es), e, b.known) == (Memory(b, es + [e]), Ok(Delivery(b, es, e)))
  {
    PieceVerdict(b, es, e);
    MemoryUpdate(b, es, e);
  }

  /** A message that cannot be delivered is thrown over with its last chunk, and its collector stays behind. */
  lemma CollectorStays(b: Batch, es: seq<Envelope>, e: Envelope)
    requires Proper(b) && Chunks(b, es + [e]) && IsPiece(b, e) && Fails(b, es, e)
    ensures Tidy(Memory(b, es))
    ensures var id := IdOf(e); var (us, r) := Feed(Memory(b, es), e, b.known);
      && us == Memory(b, es)[id := Partial(b, id, Below(Count(b, id)))]
      && r == Err(Reason(b, id))
  {
    PieceVerdict(b, es, e);
    SeenInRange(b, es + [e], IdOf(e));
    AllSeen(Seen(es + [e], IdOf(e)), Count(b, IdOf(e)));
  }

  lemma FeedOther(b: Batch, es: seq<Envelope>, e: Envelope)
    requires Proper(b) && Chunks(b, es + [e]) && !e.content.Chunk?
    ensures Tidy(Memory(b, es))
    ensures Feed(Memory(b, es), e, b.known) == (Memory(b, es + [e]), Ok(Some(e)))
  {
    SeenGrows(b, es, e);
    assert forall id :: Seen(es, id) + {} == Seen(es, id);
    assert Arrived(b, es + [e]) == Arrived(b, es);
  }

  function AsSeq(e: Option<Envelope>): seq<Envelope> { if e.None? then [] else [e.value] }

  /** What comes out of a stream, given what each arrival brings out. */
  function Given(ds: seq<Option<Envelope>>): seq<Envelope> {
    if ds == [] then [] else Given(ds[..|ds| - 1]) + AsSeq(ds[|ds| - 1])
  }

  /** At each arrival an ordinary message, a completed one, or nothing. */
  ghost function Deliveries(b: Batch, es: seq<Envelope>): seq<Option<Envelope>>
    requires Proper(b) && forall j :: 0 <= j < |es| ==> IsPiece(b, es[j])
  {
    seq(|es|, j requires 0 <= j < |es| => Delivery(b, es[..j], es[j]))
  }

  lemma DeliveriesNext(b: Batch, es: seq<Envelope>, e: Envelope)
    requires Proper(b) && Chunks(b, es) && Chunks(b, es + [e]) && IsPiece(b, e)
    ensures Given(Deliveries(b, es + [e])) == Given(Deliveries(b, es)) + AsSeq(Delivery(b, es, e))
  {
    var ds, all := Deliveries(b, es), Deliveries(b, es + [e]);
    forall j | 0 <= j < |es| ensures all[j] == ds[j] {
      assert (es + [e])[..j] == es[..j];
    }
    assert (es + [e])[..|es|] == es;
    assert all[..|es|] == ds;
  }

  /** No arrival completes a message that cannot be delivered. */
  ghost predicate Healthy(b: Batch, es: seq<Envelope>)
    requires Proper(b) && Chunks(b, es)
  {
    forall j :: 0 <= j < |es| ==> !FailsAt(b, es, j)
  }

  ghost predicate FailsAt(b: Batch, es: seq<Envelope>, j: nat)
    requires Proper(b) && Chunks(b, es) && j < |es|
  {
    Fails(b, es[..j], es[j])
  }

  lemma HealthyPrefix(b: Batch, es: seq<Envelope>, n: nat)
    requires Proper(b) && Chunks(b, es) && n <= |es| && forall j :: 0 <= j < n ==> !FailsAt(b, es, j)
    ensures Chunks(b, es[..n]) && Healthy(b, es[..n])
  {
    ChunksPrefix(b, es, n);
    forall j | 0 <= j < n ensures !FailsAt(b, es[..n], j) {
      assert es[..n][..j] == es[..j];
      assert !FailsAt(b, es, j);
    }
  }

  lemma FeedOne(b: Batch, es: seq<Envelope>, e: Envelope)
    requires Proper(b) && Chunks(b, es + [e]) && IsPiece(b, e) && !Fails(b, es, e)
    ensures Tidy(Memory(b, es))
    ensures Feed(Memory(b, es), e, b.known) == (Memory(b, es + [e]), Ok(Delivery(b, es, e)))
  {
    if e.content.Chunk? {
      FeedPiece(b, es, e);
    } else {
      FeedOther(b, es, e);
    }
  }

  lemma {:induction false} FeedStream(b: Batch, es: seq<Envelope>)
    requires Proper(b) && Chunks(b, es) && Healthy(b, es)
    ensures FeedAll(map[], es, b.known) == (Memory(b, es), Ok(Given(Deliveries(b, es))))
    decreases |es|
  {
    if es == [] {
      assert Memory(b, es) == map[];
    } else {
      var n := |es| - 1;
      var init, e := es[..n], es[n];
      assert es == init + [e];
      HealthyPrefix(b, es, n);
      FeedStream(b, init);
      assert !FailsAt(b, es, n);
      FeedOne(b, init, e);
      FeedAllSnoc(map[], init, e, b.known);
      DeliveriesNext(b, init, e);
    }
  }

  ghost function Reason(b: Batch, id: UUID): string
    requires Proper(b) && id in b.msgs
  {
    if b.lengths[id] != |Body(b, id)| then "Chunk size mismatch" else "Failed to instantiate message class"
  }

  lemma FeedFailure(b: Batch, es: seq<Envelope>, e: Envelope)
    requires Proper(b) && Chunks(b, es) && Chunks(b, es + [e]) && Healthy(b, es) && IsPiece(b, e) && Fails(b, es, e)
    ensures FeedAll(map[], es + [e], b.known)
            == (Memory(b, es)[IdOf(e) := Partial(b, IdOf(e), Below(Count(b, IdOf(e))))], Err(Reason(b, IdOf(e))))
  {
    FeedStream(b, es);
    CollectorStays(b, es, e);
    FeedAllSnoc(map[], es, e, b.known);
  }

  /** The first such arrival ends it. */
  lemma FirstFailure(b: Batch, es: seq<Envelope>, j: nat)
    requires Proper(b) && Chunks(b, es) && j < |es| && FailsAt(b, es, j)
    requires forall i :: 0 <= i < j ==> !FailsAt(b, es, i)
    ensures var id := IdOf(es[j]);
      FeedAll(map[], es, b.known)
      == (Memory(b, es[..j])[id := Partial(b, id, Below(Count(b, id)))], Err(Reason(b, id)))
  {
    assert es[..j] + [es[j]] == es[..j + 1];
    HealthyPrefix(b, es, j);
    ChunksPrefix(b, es, j + 1);
    FeedFailure(b, es[..j], es[j]);
    FailsForGood(map[], es, j + 1, b.known);
  }

  lemma {:induction false} AnyFailure(b: Batch, es: seq<Envelope>, j: nat)
    requires Proper(b) && Chunks(b, es) && j < |es| && FailsAt(b, es, j)
    ensures FeedAll(map[], es, b.known).1.Err?
    decreases j
  {
    if i :| 0 <= i < j && FailsAt(b, es, i) {
      AnyFailure(b, es, i);
    } else {
      FirstFailure(b, es, j);
    }
  }

  // ---------------------------------------------------------------- the round trip

  /** Every chunk of every message is somewhere in the stream. */
  ghost predicate Complete(b: Batch, es: seq<Envelope>)
    requires Proper(b)
  {
    forall id :: id in b.msgs ==> Seen(es, id) == Below(Count(b, id))
  }

  /** No later arrival belongs to the same message. */
  ghost predicate IsLast(es: seq<Envelope>, j: nat)
    requires j < |es|
  {
    forall l :: j < l < |es| ==> !SameMessage(es[j], es[l])
  }

  /** What should come out at each arrival: ordinary messages, and each message with its last chunk. */
  ghost function DueAt(b: Batch, es: seq<Envelope>, j: nat): Option<Envelope>
    requires Proper(b) && Chunks(b, es) && j < |es|
  {
    if !es[j].content.Chunk? then Some(es[j])
    else if IsLast(es, j) then Some(b.msgs[IdOf(es[j])])
    else None
  }

  ghost function Due(b: Batch, es: seq<Envelope>): seq<Option<Envelope>>
    requires Proper(b) && Chunks(b, es)
  {
    seq(|es|, j requires 0 <= j < |es| => DueAt(b, es, j))
  }

  lemma ChunksPrefix(b: Batch, es: seq<Envelope>, n: nat)
    requires Proper(b) && Chunks(b, es) && n <= |es|
    ensures Chunks(b, es[..n])
  {
  }

  lemma LastMeansComplete(b: Batch, es: seq<Envelope>, j: nat)
    requires Proper(b) && Chunks(b, es) && Complete(b, es) && j < |es| && es[j].content.Chunk?
    requires IsLast(es, j)
    ensures |Seen(es[..j + 1], IdOf(es[j]))| == Count(b, IdOf(es[j]))
  {
    var id, seen := IdOf(es[j]), Seen(es[..j + 1], IdOf(es[j]));
    assert IsPiece(b, es[j]);
    ChunksPrefix(b, es, j + 1);
    SeenInRange(b, es[..j + 1], id);
    forall i: nat | i < Count(b, id) ensures i in seen {
      assert i in Seen(es, id);
      SeenIff(es, id, i);
      var l :| 0 <= l < |es| && es[l].content.Chunk? && IdOf(es[l]) == id && IndexOf(es[l]) == i;
      assert l <= j;
      assert es[..j + 1][l] == es[l];
      SeenIff(es[..j + 1], id, i);
    }
    assert seen == Below(Count(b, id));
  }

  lemma FoundEarlier(es: seq<Envelope>, n: nat, l: nat)
    requires n <= l < |es| && es[l].content.Chunk? && IndexOf(es[l]) in Seen(es[..n], IdOf(es[l]))
    ensures exists m :: 0 <= m < n && SameMessage(es[m], es[l]) && IndexOf(es[m]) == IndexOf(es[l])
  {
    var front, id, i := es[..n], IdOf(es[l]), IndexOf(es[l]);
    SeenIff(front, id, i);
    var m :| 0 <= m < n && front[m].content.Chunk? && IdOf(front[m]) == id && IndexOf(front[m]) == i;
    assert SameMessage(es[m], es[l]);
  }

  lemma CompleteMeansLast(b: Batch, es: seq<Envelope>, j: nat)
    requires Proper(b) && Chunks(b, es) && j < |es| && es[j].content.Chunk?
    requires IdOf(es[j]) in b.msgs && |Seen(es[..j + 1], IdOf(es[j]))| == Count(b, IdOf(es[j]))
    ensures IsLast(es, j)
  {
    var id, seen := IdOf(es[j]), Seen(es[..j + 1], IdOf(es[j]));
    ChunksPrefix(b, es, j + 1);
    SeenInRange(b, es[..j + 1], id);
    AllSeen(seen, Count(b, id));
    forall l | j < l < |es| ensures !SameMessage(es[j], es[l]) {
      if SameMessage(es[j], es[l]) {
        assert IsPiece(b, es[l]);
        FoundEarlier(es, j + 1, l);
      }
    }
  }

  /** An arrival delivers an ordinary message, a message with its last chunk, or nothing. */
  lemma DeliveryIsDue(b: Batch, es: seq<Envelope>, j: nat)
    requires Proper(b) && Chunks(b, es) && Complete(b, es) && j < |es|
    ensures IsPiece(b, es[j])
    ensures Delivery(b, es[..j], es[j]) == DueAt(b, es, j)
  {
    assert IsPiece(b, es[j]);
    assert es[..j] + [es[j]] == es[..j + 1];
    if es[j].content.Chunk? {
      if IsLast(es, j) {
        LastMeansComplete(b, es, j);
      } else if |Seen(es[..j + 1], IdOf(es[j]))| == Count(b, IdOf(es[j])) {
        CompleteMeansLast(b, es, j);
      }
    }
  }

  lemma DeliveriesAreDue(b: Batch, es: seq<Envelope>)
    requires Proper(b) && Chunks(b, es) && Complete(b, es)
    ensures Deliveries(b, es) == Due(b, es)
  {
    forall j | 0 <= j < |es| ensures Deliveries(b, es)[j] == Due(b, es)[j] {
      DeliveryIsDue(b, es, j);
    }
  }

  /**
   Chunks of any number of messages, in any order and mixed with other traffic: ordinary messages
   come out in order, every message comes out when its last chunk arrives, identical to the one
   sent, and no collector is left over.
   */
  lemma RoundTrip(b: Batch, es: seq<Envelope>)
    requires Proper(b) && Chunks(b, es) && Complete(b, es) && forall id :: id in b.msgs ==> Deliverable(b, id)
    ensures FeedAll(map[], es, b.known) == (map[], Ok(Given(Due(b, es))))
  {
    FeedStream(b, es);
    DeliveriesAreDue(b, es);
    assert Memory(b, es) == map[];
  }

  /** Each message has exactly one last chunk, so it is delivered exactly once. */
  lemma DeliveredOnce(b: Batch, es: seq<Envelope>, id: UUID) returns (j: nat)
    requires Proper(b) && Chunks(b, es) && Complete(b, es) && id in b.msgs
    ensures j < |es| && es[j].content.Chunk? && IdOf(es[j]) == id && IsLast(es, j)
    ensures forall l :: 0 <= l < |es| && l != j && es[l].content.Chunk? && IdOf(es[l]) == id ==> !IsLast(es, l)
  {
    CutShape(Body(b, id), b.sizes[id]);
    assert Count(b, id) > 0;
    SeenIff(es, id, 0);
    j :| 0 <= j < |es| && es[j].content.Chunk? && IdOf(es[j]) == id && IndexOf(es[j]) == 0;
    while !IsLast(es, j)
      invariant j < |es| && es[j].content.Chunk? && IdOf(es[j]) == id
      decreases |es| - j
    {
      var l :| j < l < |es| && SameMessage(es[j], es[l]);
      j := l;
    }
    forall l | 0 <= l < |es| && l != j && es[l].content.Chunk? && IdOf(es[l]) == id ensures !IsLast(es, l) {
      assert SameMessage(es[l], es[j]) && SameMessage(es[j], es[l]);
    }
  }

  /** That is so exactly when the receiver can deliver all of them; otherwise something is thrown. */
  lemma RoundTripIff(b: Batch, es: seq<Envelope>)
    requires Proper(b) && Chunks(b, es) && Complete(b, es)
    ensures FeedAll(map[], es, b.known) == (map[], Ok(Given(Due(b, es))))
       <==> forall id :: id in b.msgs ==> Deliverable(b, id)
    ensures (exists id :: id in b.msgs && !Deliverable(b, id)) ==> FeedAll(map[], es, b.known).1.Err?
  {
    if forall id :: id in b.msgs ==> Deliverable(b, id) {
      RoundTrip(b, es);
    } else {
      var id :| id in b.msgs && !Deliverable(b, id);
      UndeliverableFails(b, es, id);
    }
  }

  lemma UndeliverableFails(b: Batch, es: seq<Envelope>, id: UUID)
    requires Proper(b) && Chunks(b, es) && Complete(b, es) && id in b.msgs && !Deliverable(b, id)
    ensures FeedAll(map[], es, b.known).1.Err?
  {
    var j := DeliveredOnce(b, es, id);
    LastMeansComplete(b, es, j);
    assert es[..j] + [es[j]] == es[..j + 1];
    assert IsPiece(b, es[j]);
    AnyFailure(b, es, j);
  }

  // ---------------------------------------------------------------- sender and receiver together

  lemma SplitIsPieces(b: Batch, cfg: Config, id: UUID)
    requires Proper(b) && id in b.msgs && cfg.chunkSize == b.sizes[id]
    requires NeedsChunking(cfg, b.msgs[id], b.lengths[id])
    ensures |Split(cfg, b.msgs[id], b.lengths[id])| == Count(b, id)
    ensures forall i :: 0 <= i < Count(b, id) ==> Split(cfg, b.msgs[id], b.lengths[id])[i] == Piece(b, id, i)
  {
  }

  lemma {:induction false} SeenInOrder(b: Batch, es: seq<Envelope>, id: UUID)
    requires Proper(b) && id in b.msgs && |es| <= Count(b, id)
    requires forall i :: 0 <= i < |es| ==> es[i] == Piece(b, id, i)
    ensures Seen(es, id) == Below(|es|)
  {
    if es != [] {
      SeenInOrder(b, es[..|es| - 1], id);
    }
  }

  /** What is passed on for the message brings it out at the receiver, once, and leaves nothing behind. */
  ghost predicate Arrives(cfg: Config, env: Envelope, size: nat, known: set<(UUID, u32)>)
    requires Ends(cfg, env, size)
  {
    Put(cfg, env, size).Ok? && FeedAll(map[], Put(cfg, env, size).value, known) == (map[], Ok([env]))
  }

  /** It is not chunked, or the chunks are neither none nor too many, add up, and are of a class the receiver knows. */
  predicate Passes(cfg: Config, env: Envelope, size: nat, known: set<(UUID, u32)>) {
    NeedsChunking(cfg, env, size) ==>
      && 0 < |env.content.body| <= MAX_CHUNKS * cfg.chunkSize
      && size == |env.content.body| && (env.content.classId, env.content.version) in known
  }

  lemma UnchunkedArrives(cfg: Config, env: Envelope, size: nat, known: set<(UUID, u32)>)
    requires !env.content.Chunk? && !NeedsChunking(cfg, env, size)
    ensures Arrives(cfg, env, size, known)
  {
    assert [env][..0] == [] && [] + [env] == [env];
  }

  lemma EmptyNeverArrives(cfg: Config, env: Envelope, size: nat, known: set<(UUID, u32)>)
    requires NeedsChunking(cfg, env, size) && env.content.body == []
    ensures Split(cfg, env, size) == [] && !Arrives(cfg, env, size, known)
  {
    assert FeedAll(map[], [], known) == (map[], Ok([]));
    assert |[env]| == 1;
  }

  lemma OneBatch(cfg: Config, env: Envelope, size: nat, known: set<(UUID, u32)>) returns (b: Batch)
    requires cfg.chunkSize > 0 && env.content.Object? && env.content.body != []
    requires Min(cfg.chunkSize, |env.content.body|) < TWO_32
    ensures Proper(b) && b.known == known && b.msgs == map[env.meta.instanceId := env]
    ensures b.sizes == map[env.meta.instanceId := cfg.chunkSize] && b.lengths == map[env.meta.instanceId := size]
  {
    var id := env.meta.instanceId;
    b := Batch(map[id := env], map[id := cfg.chunkSize], map[id := size], known);
  }

  /** The sender's chunks, in order, are all the pieces of the message. */
  lemma InOrderIsComplete(b: Batch, es: seq<Envelope>, id: UUID)
    requires Proper(b) && b.msgs.Keys == {id} && |es| == Count(b, id)
    requires forall i :: 0 <= i < |es| ==> es[i] == Piece(b, id, i)
    ensures Chunks(b, es) && Complete(b, es)
  {
    SeenInOrder(b, es, id);
  }

  lemma ChunkedArrivesIff(cfg: Config, env: Envelope, size: nat, known: set<(UUID, u32)>)
    requires NeedsChunking(cfg, env, size) && cfg.chunkSize > 0 && env.content.body != []
    requires Min(cfg.chunkSize, |env.content.body|) < TWO_32
    ensures FeedAll(map[], Split(cfg, env, size), known) == (map[], Ok([env]))
       <==> size == |env.content.body| && (env.content.classId, env.content.version) in known
  {
    var id, sent := env.meta.instanceId, Split(cfg, env, size);
    var b := OneBatch(cfg, env, size, known);
    SplitIsPieces(b, cfg, id);
    InOrderIsComplete(b, sent, id);
    RoundTripIff(b, sent);
    CutShape(env.content.body, cfg.chunkSize);
    DueOfOne(b, sent, id);
    assert id in b.msgs;
  }

  /** A chunked message that does not arrive makes the receiver throw. */
  lemma ChunkedFails(cfg: Config, env: Envelope, size: nat, known: set<(UUID, u32)>)
    requires NeedsChunking(cfg, env, size) && cfg.chunkSize > 0 && env.content.body != []
    requires Min(cfg.chunkSize, |env.content.body|) < TWO_32
    requires !(size == |env.content.body| && (env.content.classId, env.content.version) in known)
    ensures FeedAll(map[], Split(cfg, env, size), known).1.Err?
  {
    var id, sent := env.meta.instanceId, Split(cfg, env, size);
    var b := OneBatch(cfg, env, size, known);
    SplitIsPieces(b, cfg, id);
    InOrderIsComplete(b, sent, id);
    UndeliverableFails(b, sent, id);
  }

  /**
   One message through one connection: it arrives, exactly once and unchanged, if it is not chunked, and
   otherwise exactly if it makes at least one chunk and no more than can be counted, its length is what its
   content said, and the receiver has its class registered.
   */
  lemma SplitArrivesIff(cfg: Config, env: Envelope, size: nat, known: set<(UUID, u32)>)
    requires !env.content.Chunk? && Ends(cfg, env, size)
    requires NeedsChunking(cfg, env, size) ==> Min(cfg.chunkSize, |env.content.body|) < TWO_32
    ensures Arrives(cfg, env, size, known) <==> Passes(cfg, env, size, known)
  {
    if !NeedsChunking(cfg, env, size) {
      UnchunkedArrives(cfg, env, size, known);
    } else if env.content.body == [] {
      EmptyNeverArrives(cfg, env, size, known);
    } else {
      ChunkedArrivesIff(cfg, env, size, known);
    }
  }

  /** After i + 1 of a message's chunks in order, exactly those have arrived. */
  lemma InOrderSeen(b: Batch, es: seq<Envelope>, id: UUID, i: nat)
    requires Proper(b) && Chunks(b, es) && id in b.msgs && ArePieces(b, es, id) && i < |es|
    ensures es[i].content.Chunk? && IdOf(es[i]) == id && |Seen(es[..i] + [es[i]], id)| == i + 1
  {
    var front := es[..i + 1];
    assert es[..i] + [es[i]] == front;
    assert forall j :: 0 <= j < |front| ==> front[j] == es[j];
    SeenInOrder(b, front, id);
  }

  /** So only the last one completes it. */
  lemma OnlyLastFails(b: Batch, es: seq<Envelope>, id: UUID)
    requires Proper(b) && Chunks(b, es) && id in b.msgs && !Deliverable(b, id) && ArePieces(b, es, id) && es != []
    ensures FailsAt(b, es, |es| - 1) && IdOf(es[|es| - 1]) == id
    ensures forall i :: 0 <= i < |es| - 1 ==> !FailsAt(b, es, i)
  {
    forall i | 0 <= i < |es| ensures es[i].content.Chunk? && IdOf(es[i]) == id && (FailsAt(b, es, i) <==> i + 1 == |es|) {
      InOrderSeen(b, es, id, i);
    }
  }

  lemma OneFails(b: Batch, es: seq<Envelope>, id: UUID)
    requires Proper(b) && Chunks(b, es) && b.msgs.Keys == {id} && !Deliverable(b, id) && ArePieces(b, es, id) && es != []
    ensures FeedAll(map[], es, b.known).0.Keys == {id} && FeedAll(map[], es, b.known).1 == Err(Reason(b, id))
  {
    var n := |es| - 1;
    OnlyLastFails(b, es, id);
    FirstFailure(b, es, n);
    CollectorsAreOf(b, Arrived(b, es[..n]));
    KeysOf(Memory(b, es[..n]), id, Partial(b, id, Below(Count(b, id))));
  }

  lemma KeysOf(us: Unchunkers, id: UUID, u: Unchunker)
    requires us.Keys <= {id}
    ensures us[id := u].Keys == {id}
  {
  }

  /** A class the receiver has not registered: the last chunk makes it throw, and the collector is never removed. */
  lemma UnregisteredStays(cfg: Config, env: Envelope, known: set<(UUID, u32)>)
    requires env.content.Object? && NeedsChunking(cfg, env, |env.content.body|) && env.content.body != []
    requires cfg.chunkSize > 0 && Min(cfg.chunkSize, |env.content.body|) < TWO_32
    requires (env.content.classId, env.content.version) !in known
    ensures var (us, r) := FeedAll(map[], Split(cfg, env, |env.content.body|), known);
      r == Err("Failed to instantiate message class") && us.Keys == {env.meta.instanceId}
  {
    var id, sent := env.meta.instanceId, Split(cfg, env, |env.content.body|);
    var b := OneBatch(cfg, env, |env.content.body|, known);
    SplitIsPieces(b, cfg, id);
    InOrderIsComplete(b, sent, id);
    CutShape(env.content.body, cfg.chunkSize);
    OneFails(b, sent, id);
  }

  ghost predicate ArePieces(b: Batch, es: seq<Envelope>, id: UUID)
    requires Proper(b) && id in b.msgs
  {
    |es| == Count(b, id) && forall i :: 0 <= i < |es| ==> es[i] == Piece(b, id, i)
  }

  lemma LastOfOne(b: Batch, es: seq<Envelope>, id: UUID, j: nat)
    requires Proper(b) && Chunks(b, es) && id in b.msgs && ArePieces(b, es, id) && j < |es|
    ensures DueAt(b, es, j) == if j + 1 == |es| then Some(b.msgs[id]) else None
  {
    if j + 1 < |es| {
      assert SameMessage(es[j], es[j + 1]);
    }
  }

  lemma {:induction false} GivenNothing(ds: seq<Option<Envelope>>)
    requires forall j :: 0 <= j < |ds| ==> ds[j].None?
    ensures Given(ds) == []
  {
    if ds != [] {
      GivenNothing(ds[..|ds| - 1]);
    }
  }

  lemma DueOfOne(b: Batch, es: seq<Envelope>, id: UUID)
    requires Proper(b) && Chunks(b, es) && id in b.msgs && ArePieces(b, es, id) && es != []
    ensures Given(Due(b, es)) == [b.msgs[id]]
  {
    var ds, n := Due(b, es), |es| - 1;
    forall j | 0 <= j < |es| ensures ds[j] == if j == n then Some(b.msgs[id]) else None {
      LastOfOne(b, es, id, j);
    }
    GivenNothing(ds[..n]);
  }
}
