/** Frames over a byte stream: the sink side, the source side, and the socket between them. */
module Framing {
  import opened Bytes
  import opened Buffers

  // ---------------------------------------------------------------- the stream format

  const FRAME_BINARY: u32 := 0
  const HEADER_SIZE := 16

  function Header(length: u32): (b: seq<byte>)
    ensures |b| == HEADER_SIZE && HeaderLength(b) == length
  {
    Encode32(FRAME_BINARY) + Encode32(length) + Encode32(0) + Encode32(0)
  }

  function HeaderLength(b: seq<byte>): u32
    requires |b| == HEADER_SIZE
  {
    Decode32(b[4..8])
  }

  function EncodeFrame(f: seq<byte>): seq<byte>
    requires |f| < TWO_32
  {
    Header(|f|) + f
  }

  predicate Framable(fs: seq<seq<byte>>) { forall i :: 0 <= i < |fs| ==> |fs[i]| < TWO_32 }

  function EncodeFrames(fs: seq<seq<byte>>): seq<byte>
    requires Framable(fs)
  {
    if fs == [] then [] else EncodeFrame(fs[0]) + EncodeFrames(fs[1..])
  }

  /** A reader cannot tell an empty frame from a timeout, and goes on to the next. */
  function NonEmpty(fs: seq<seq<byte>>): seq<seq<byte>> {
    if fs == [] then []
    else if fs[0] == [] then NonEmpty(fs[1..])
    else [fs[0]] + NonEmpty(fs[1..])
  }

  datatype Ending = AtBoundary | MidFrame

  /** Read frame after frame until the stream ends, at a frame boundary or in the middle of one. */
  function DecodeFrames(b: seq<byte>): (seq<seq<byte>>, Ending)
    decreases |b|
  {
    if b == [] then ([], AtBoundary)
    else if |b| < HEADER_SIZE then ([], MidFrame)
    else
      var n := HeaderLength(b[..HEADER_SIZE]);
      if |b| < HEADER_SIZE + n then ([], MidFrame)
      else
        var (rest, ending) := DecodeFrames(b[HEADER_SIZE + n..]);
        (if n == 0 then rest else [b[HEADER_SIZE..HEADER_SIZE + n]] + rest, ending)
  }

  lemma DecodeOne(f: seq<byte>, tail: seq<byte>)
    requires |f| < TWO_32
    ensures var (rest, ending) := DecodeFrames(tail);
      DecodeFrames(EncodeFrame(f) + tail) == (if f == [] then rest else [f] + rest, ending)
  {
    var b := EncodeFrame(f) + tail;
    assert b[..HEADER_SIZE] == Header(|f|);
    assert b[HEADER_SIZE..HEADER_SIZE + |f|] == f;
    assert b[HEADER_SIZE + |f|..] == tail;
  }

  lemma DecodeEmptyMore(rest: seq<byte>, tail: seq<byte>, fs: seq<seq<byte>>, last: seq<seq<byte>>, end: Ending)
    requires DecodeFrames(rest + tail) == (fs + last, end)
    ensures DecodeFrames(EncodeFrame([]) + rest + tail) == (fs + last, end)
  {
    DecodeOne([], rest + tail);
    Associative(EncodeFrame([]), rest, tail);
  }

  lemma DecodeOneMore(f: seq<byte>, rest: seq<byte>, tail: seq<byte>, fs: seq<seq<byte>>, last: seq<seq<byte>>, end: Ending)
    requires 0 < |f| < TWO_32 && DecodeFrames(rest + tail) == (fs + last, end)
    ensures DecodeFrames(EncodeFrame(f) + rest + tail) == ([f] + fs + last, end)
  {
    DecodeOne(f, rest + tail);
    Associative(EncodeFrame(f), rest, tail);
    Before(f, fs, last);
  }

  lemma Before(f: seq<byte>, fs: seq<seq<byte>>, last: seq<seq<byte>>)
    ensures [f] + (fs + last) == [f] + fs + last
  {
  }

  /** Whole frames at the front decode to themselves, whatever bytes follow them. */
  lemma {:induction false} DecodeAfter(fs: seq<seq<byte>>, tail: seq<byte>)
    requires Framable(fs)
    ensures DecodeFrames(EncodeFrames(fs) + tail) == (NonEmpty(fs) + DecodeFrames(tail).0, DecodeFrames(tail).1)
  {
    var (last, end) := DecodeFrames(tail);
    if fs == [] {
      assert EncodeFrames(fs) + tail == tail && NonEmpty(fs) + last == last;
    } else {
      DecodeAfter(fs[1..], tail);
      if fs[0] == [] {
        DecodeEmptyMore(EncodeFrames(fs[1..]), tail, NonEmpty(fs[1..]), last, end);
      } else {
        DecodeOneMore(fs[0], EncodeFrames(fs[1..]), tail, NonEmpty(fs[1..]), last, end);
      }
    }
  }

  lemma FramesRoundTrip(fs: seq<seq<byte>>)
    requires Framable(fs)
    ensures DecodeFrames(EncodeFrames(fs)) == (NonEmpty(fs), AtBoundary)
  {
    DecodeAfter(fs, []);
    assert EncodeFrames(fs) + [] == EncodeFrames(fs) && NonEmpty(fs) + [] == NonEmpty(fs);
  }

  /** What a cut-off stream that starts with a frame looks like: cut within the frame, or after it. */
  lemma CutFrame(b: seq<byte>, f: seq<byte>, rest: seq<byte>)
    requires |f| < TWO_32 && b <= EncodeFrame(f) + rest && |b| >= HEADER_SIZE
    ensures HeaderLength(b[..HEADER_SIZE]) == |f|
    ensures var n := HEADER_SIZE + |f|; |b| >= n ==> b[HEADER_SIZE..n] == f && b[n..] <= rest
  {
    var all, n := EncodeFrame(f) + rest, HEADER_SIZE + |f|;
    assert b == all[..|b|];
    assert b[..HEADER_SIZE] == Header(|f|);
    if |b| >= n {
      assert b[HEADER_SIZE..n] == f;
      assert b[n..] == rest[..|b| - n];
    }
  }

  /** A stream cut off anywhere still yields only frames that were sent, in order. */
  lemma {:induction false} DecodeOfPrefix(b: seq<byte>, fs: seq<seq<byte>>)
    requires Framable(fs) && b <= EncodeFrames(fs)
    ensures DecodeFrames(b).0 <= NonEmpty(fs)
  {
    if fs != [] && |b| >= HEADER_SIZE {
      CutFrame(b, fs[0], EncodeFrames(fs[1..]));
      var n := HEADER_SIZE + |fs[0]|;
      if |b| >= n {
        DecodeOfPrefix(b[n..], fs[1..]);
      }
    }
  }

  lemma {:induction false} EncodeFramesSnoc(fs: seq<seq<byte>>, f: seq<byte>)
    requires Framable(fs) && |f| < TWO_32
    ensures Framable(fs + [f]) && EncodeFrames(fs + [f]) == EncodeFrames(fs) + EncodeFrame(f)
  {
    if fs == [] {
      assert fs + [f] == [f];
    } else {
      EncodeFramesSnoc(fs[1..], f);
      assert (fs + [f])[1..] == fs[1..] + [f];
      Associative(EncodeFrame(fs[0]), EncodeFrames(fs[1..]), EncodeFrame(f));
    }
  }

  lemma {:induction false} NonEmptyLength(fs: seq<seq<byte>>)
    ensures |NonEmpty(fs)| <= |fs|
    ensures NonEmpty(fs) == fs <==> forall i :: 0 <= i < |fs| ==> fs[i] != []
  {
    if fs != [] {
      NonEmptyLength(fs[1..]);
      assert fs[0] != [] ==> (NonEmpty(fs) == fs <==> NonEmpty(fs[1..]) == fs[1..]) by {
        assert fs == [fs[0]] + fs[1..];
      }
      assert forall i :: 1 <= i < |fs| ==> fs[i] == fs[1..][i - 1];
    }
  }

  /** The frames come back as they were exactly when none of them is empty. */
  lemma FramesRoundTripIff(fs: seq<seq<byte>>)
    requires Framable(fs)
    ensures DecodeFrames(EncodeFrames(fs)) == (fs, AtBoundary) <==> forall i :: 0 <= i < |fs| ==> fs[i] != []
  {
    FramesRoundTrip(fs);
    NonEmptyLength(fs);
  }

  /** An empty frame between two others is not seen. */
  lemma EmptyIsLost(f: seq<byte>, g: seq<byte>)
    requires 0 < |f| < TWO_32 && 0 < |g| < TWO_32
    ensures DecodeFrames(EncodeFrames([f, [], g])) == ([f, g], AtBoundary)
  {
    FramesRoundTrip([f, [], g]);
    assert [f, [], g][1..] == [[], g] && [[], g][1..] == [g] && [g][1..] == [];
    assert NonEmpty([g]) == [g] && NonEmpty([[], g]) == [g] && [f] + [g] == [f, g];
  }

  // ---------------------------------------------------------------- the sending side

  datatype Io = Done | Nothing | Threw

  /** A connected socket's sending half; `stream` is everything the peer will get to see. */
  class SendSocket {
    var stream: seq<byte>

    constructor ()
      ensures stream == []
    {
      stream := [];
    }

    /** One ::send, which may take any part of the data, report a closed peer (0) or an error (-1). */
    method OsSend(data: seq<byte>) returns (status: int)
      requires data != []
      modifies this
      ensures -1 <= status <= |data|
      ensures stream == old(stream) + (if status > 0 then data[..status] else [])
    {
      status :| -1 <= status <= |data|;
      if status > 0 {
        stream := stream + data[..status];
      }
    }

    /** Keeps sending until all is sent; "nothing" only if nothing was, and partial sends throw. */
    method Send(data: seq<byte>) returns (r: Io)
      modifies this
      ensures old(stream) <= stream <= old(stream) + data
      ensures r.Done? ==> stream == old(stream) + data
      ensures r.Nothing? ==> stream == old(stream) && data != []
    {
      var offset := 0;
      while offset < |data|
        invariant 0 <= offset <= |data|
        invariant stream == old(stream) + data[..offset]
      {
        var status := OsSend(data[offset..]);
        if status < 0 {
          return Threw;
        }
        if status == 0 {
          return if offset == 0 then Nothing else Threw;
        }
        assert data[..offset] + data[offset..][..status] == data[..offset + status];
        offset := offset + status;
      }
      assert data[..offset] == data;
      return Done;
    }
  }

  datatype Status = Good | FramingError | Disconnected

  class BasicFramingSink {
    const peer: SendSocket
    var frameSize: nat
    var bytesWritten: nat

    constructor (peer: SendSocket)
      ensures this.peer == peer && frameSize == 0 && bytesWritten == 0
    {
      this.peer := peer;
      frameSize, bytesWritten := 0, 0;
    }

    /** Announces a frame; too long a one is refused before anything is sent. */
    method OpenFrame(size: nat) returns (r: Status)
      modifies this, peer
      ensures r.FramingError? <==> size >= TWO_32
      ensures r.FramingError? ==> peer.stream == old(peer.stream)
      ensures r.Disconnected? ==> old(peer.stream) <= peer.stream <= old(peer.stream) + Header(size)
      ensures r.Good? ==> peer.stream == old(peer.stream) + Header(size) && frameSize == size && bytesWritten == 0
    {
      if size >= TWO_32 {
        return FramingError;
      }
      var io := peer.Send(Header(size));
      if !io.Done? {
        return Disconnected;
      }
      frameSize, bytesWritten := size, 0;
      return Good;
    }

    /** Part of the frame; writing past its end throws. */
    method Write(data: seq<byte>) returns (r: Status)
      requires bytesWritten <= frameSize
      modifies this`bytesWritten, peer
      ensures bytesWritten <= frameSize
      ensures r.FramingError? <==> old(bytesWritten) + |data| > frameSize
      ensures r.FramingError? ==> peer.stream == old(peer.stream)
      ensures r.Disconnected? ==> old(peer.stream) <= peer.stream <= old(peer.stream) + data
      ensures r.Good? ==> peer.stream == old(peer.stream) + data && bytesWritten == old(bytesWritten) + |data|
    {
      if |data| > frameSize - bytesWritten {
        return FramingError;
      }
      var io := peer.Send(data);
      if !io.Done? {
        return Disconnected;
      }
      bytesWritten := bytesWritten + |data|;
      return Good;
    }

    /** The frame must be full. */
    method CloseFrame() returns (r: Status)
      modifies this
      ensures r == (if old(bytesWritten) == old(frameSize) then Good else FramingError)
      ensures r.Good? ==> frameSize == 0 && bytesWritten == 0
    {
      if frameSize != bytesWritten {
        return FramingError;
      }
      frameSize, bytesWritten := 0, 0;
      return Good;
    }
  }

  function Concat(bs: seq<seq<byte>>): seq<byte> {
    if bs == [] then [] else Concat(bs[..|bs| - 1]) + bs[|bs| - 1]
  }

  lemma {:induction false} ConcatPrefix(bs: seq<seq<byte>>, i: nat)
    requires i <= |bs|
    ensures Concat(bs[..i]) <= Concat(bs)
    decreases |bs|
  {
    if i == |bs| {
      assert bs[..i] == bs;
    } else {
      ConcatPrefix(bs[..|bs| - 1], i);
      assert bs[..|bs| - 1][..i] == bs[..i];
    }
  }

  /** `now` is `before` with some front part of `data` after it. */
  predicate Truncated(before: seq<byte>, data: seq<byte>, now: seq<byte>) { before <= now <= before + data }

  /** Cut off between two points of the data is cut off within the data. */
  lemma CutWithin(before: seq<byte>, from: seq<byte>, to: seq<byte>, data: seq<byte>, now: seq<byte>)
    requires before + from <= now <= before + to && to <= data
    ensures Truncated(before, data, now)
  {
  }

  /** Header, then body, cut off anywhere or not at all. */
  lemma FrameOnStream(s: seq<byte>, body: seq<byte>, now: seq<byte>)
    requires |body| < TWO_32
    ensures Truncated(s, Header(|body|), now) ==> Truncated(s, EncodeFrame(body), now)
    ensures Truncated(s + Header(|body|), body, now) ==> Truncated(s, EncodeFrame(body), now)
    ensures s + Header(|body|) + body == s + EncodeFrame(body)
  {
    assert s + Header(|body|) + body == s + EncodeFrame(body);
  }

  /** Collects a frame's bytes first, because the frame's size has to be announced before them. */
  class BufferedSink {
    const sink: BasicFramingSink
    const multi: MultiBuffer
    var appended: seq<seq<byte>>
    var appendedLength: nat

    ghost predicate Valid()
      reads this, multi
    {
      && multi.Valid() && multi.initialSize > 0
      && multi.Unread() == multi.Contents()
      && multi.bytesWritten == |multi.Contents()|
      && appendedLength == |Concat(appended)|
    }

    /** The frame so far: everything written, then every appended buffer. */
    ghost function Frame(): seq<byte>
      requires Valid()
      reads this, multi
    {
      multi.Contents() + Concat(appended)
    }

    constructor (sink: BasicFramingSink)
      ensures this.sink == sink && fresh(multi) && Valid() && Frame() == []
    {
      this.sink := sink;
      multi := new MultiBuffer(1024 * 1024, 1024 * 1024 * 1024);
      appended, appendedLength := [], 0;
    }

    method OpenFrame()
      requires Valid()
      modifies this, multi
      ensures Valid() && Frame() == []
    {
      multi.Reset();
      appended, appendedLength := [], 0;
    }

    method Write(data: seq<byte>)
      requires Valid()
      modifies multi
      ensures Valid() && appended == old(appended)
      ensures multi.Contents() == old(multi.Contents()) + data
    {
      multi.Write(data);
    }

    method AppendBuffer(data: seq<byte>)
      requires Valid()
      modifies this
      ensures Valid() && Concat(appended) == old(Concat(appended)) + data
    {
      assert (appended + [data])[..|appended|] == appended;
      appended := appended + [data];
      appendedLength := appendedLength + |data|;
    }

    /** Send the frame: it is refused if too long, and otherwise never over- or under-filled. */
    method CloseFrame() returns (r: Status)
      requires Valid()
      modifies this, multi, sink, sink.peer
      ensures Valid()
      ensures r.FramingError? <==> |old(Frame())| >= TWO_32
      ensures r.FramingError? ==> sink.peer.stream == old(sink.peer.stream)
      ensures r.Disconnected? ==> Truncated(old(sink.peer.stream), EncodeFrame(old(Frame())), sink.peer.stream)
      ensures r.Good? ==> sink.peer.stream == old(sink.peer.stream) + EncodeFrame(old(Frame())) && Frame() == []
    {
      ghost var s, body := sink.peer.stream, Frame();
      r := sink.OpenFrame(multi.bytesWritten + appendedLength);
      if r.FramingError? {
        return;
      }
      if r.Good? {
        assert sink.peer.stream == s + Header(|body|);
        r := SendBody();
      }
      FrameOnStream(s, body, sink.peer.stream);
      if r.Good? {
        r := sink.CloseFrame();
        OpenFrame();
      }
    }

    method SendBody() returns (r: Status)
      requires Valid() && sink.bytesWritten == 0 && |Frame()| == sink.frameSize
      modifies sink`bytesWritten, sink.peer
      ensures !r.FramingError?
      ensures r.Disconnected? ==>
                Truncated(old(sink.peer.stream), Frame(), sink.peer.stream)
      ensures r.Good? ==>
                && sink.peer.stream == old(sink.peer.stream) + Frame()
                && sink.bytesWritten == sink.frameSize
    {
      ghost var s, a, b := sink.peer.stream, multi.Contents(), Concat(appended);
      r := SendBuffers();
      if r.Good? {
        r := SendAppended();
      }
      assert s + a + b == s + (a + b);
    }

    method SendBuffers() returns (r: Status)
      requires Valid() && sink.bytesWritten == 0 && |multi.Contents()| <= sink.frameSize
      modifies sink`bytesWritten, sink.peer
      ensures sink.bytesWritten <= sink.frameSize && !r.FramingError?
      ensures r.Disconnected? ==> Truncated(old(sink.peer.stream), multi.Contents(), sink.peer.stream)
      ensures r.Good? ==>
                && sink.peer.stream == old(sink.peer.stream) + multi.Contents()
                && sink.bytesWritten == |multi.Contents()|
    {
      r := SendSpans(multi.buffers[..multi.used]);
    }

    /** The next piece of the data, once what comes before it is on the stream. */
    method SendPiece(piece: seq<byte>, ghost before: seq<byte>, ghost from: seq<byte>, ghost data: seq<byte>)
      returns (r: Status)
      requires sink.bytesWritten + |piece| <= sink.frameSize
      requires sink.peer.stream == before + from && from + piece <= data
      modifies sink`bytesWritten, sink.peer
      ensures sink.bytesWritten <= sink.frameSize && !r.FramingError?
      ensures r.Disconnected? ==> Truncated(before, data, sink.peer.stream)
      ensures r.Good? ==>
                && sink.peer.stream == before + (from + piece)
                && sink.bytesWritten == old(sink.bytesWritten) + |piece|
    {
      Associative(before, from, piece);
      r := sink.Write(piece);
      if r.Disconnected? {
        CutWithin(before, from, from + piece, data, sink.peer.stream);
      }
    }

    /** The unread part of each buffer in turn. */
    method SendSpans(vs: seq<Span>) returns (r: Status)
      requires AllInRange(vs) && sink.bytesWritten == 0 && |Rest(vs)| <= sink.frameSize
      modifies sink`bytesWritten, sink.peer
      ensures sink.bytesWritten <= sink.frameSize && !r.FramingError?
      ensures r.Disconnected? ==> Truncated(old(sink.peer.stream), Rest(vs), sink.peer.stream)
      ensures r.Good? ==> sink.peer.stream == old(sink.peer.stream) + Rest(vs) && sink.bytesWritten == |Rest(vs)|
    {
      ghost var before := sink.peer.stream;
      for i := 0 to |vs|
        invariant sink.bytesWritten == |Rest(vs[..i])| <= sink.frameSize
        invariant sink.peer.stream == before + Rest(vs[..i])
      {
        RestPrefix(vs, i + 1);
        assert vs[..i + 1][..i] == vs[..i];
        r := SendPiece(vs[i].written[vs[i].taken..], before, Rest(vs[..i]), Rest(vs));
        if !r.Good? {
          return;
        }
      }
      assert vs[..|vs|] == vs;
      r := Good;
    }

    method SendAppended() returns (r: Status)
      requires Valid() && sink.bytesWritten + |Concat(appended)| <= sink.frameSize
      modifies sink`bytesWritten, sink.peer
      ensures sink.bytesWritten <= sink.frameSize && !r.FramingError?
      ensures r.Disconnected? ==> Truncated(old(sink.peer.stream), Concat(appended), sink.peer.stream)
      ensures r.Good? ==>
                && sink.peer.stream == old(sink.peer.stream) + Concat(appended)
                && sink.bytesWritten == old(sink.bytesWritten) + |Concat(appended)|
    {
      ghost var before := sink.peer.stream;
      for i := 0 to |appended|
        invariant sink.bytesWritten == old(sink.bytesWritten) + |Concat(appended[..i])| <= sink.frameSize
        invariant sink.peer.stream == before + Concat(appended[..i])
      {
        ConcatPrefix(appended, i + 1);
        assert appended[..i + 1][..i] == appended[..i];
        r := SendPiece(appended[i], before, Concat(appended[..i]), Concat(appended));
        if !r.Good? {
          return;
        }
      }
      assert appended[..|appended|] == appended;
      r := Good;
    }
  }
}
