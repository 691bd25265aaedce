/** Both ends of a framed connection together: what is sent as frames arrives as the same frames. */
module FrameTransport {
  import opened Bytes
  import opened Framing
  import opened FrameReceiving

  /** What a frame's author does between opening and closing it. */
  datatype Part = Written(data: seq<byte>) | Appended(data: seq<byte>)

  function AllWritten(ps: seq<Part>): seq<byte> {
    if ps == [] then []
    else AllWritten(ps[..|ps| - 1]) + (if ps[|ps| - 1].Written? then ps[|ps| - 1].data else [])
  }

  function AllAppended(ps: seq<Part>): seq<byte> {
    if ps == [] then []
    else AllAppended(ps[..|ps| - 1]) + (if ps[|ps| - 1].Appended? then ps[|ps| - 1].data else [])
  }

  /** The frame the parts make: appended buffers follow everything written, whenever that was. */
  function Assembled(ps: seq<Part>): seq<byte> { AllWritten(ps) + AllAppended(ps) }

  function InOrder(ps: seq<Part>): seq<byte> {
    if ps == [] then [] else InOrder(ps[..|ps| - 1]) + ps[|ps| - 1].data
  }

  predicate WritesFirst(ps: seq<Part>) {
    forall i, j :: 0 <= i < j < |ps| && ps[i].Appended? ==> ps[j].Appended? || ps[j].data == []
  }

  lemma OneMorePart(w: seq<byte>, a: seq<byte>, p: Part)
    requires p.Written? && p.data != [] ==> a == []
    ensures w + (if p.Written? then p.data else []) + (a + (if p.Appended? then p.data else [])) == w + a + p.data
  {
  }

  /** Authors that write first and append last get their parts in order. */
  lemma {:induction false} AssembledInOrder(ps: seq<Part>)
    requires WritesFirst(ps)
    ensures Assembled(ps) == InOrder(ps)
  {
    if ps != [] {
      var n := |ps| - 1;
      AssembledInOrder(ps[..n]);
      if ps[n].Written? && ps[n].data != [] {
        NothingAppended(ps[..n]);
      }
      OneMorePart(AllWritten(ps[..n]), AllAppended(ps[..n]), ps[n]);
    }
  }

  lemma {:induction false} NothingAppended(ps: seq<Part>)
    requires forall i :: 0 <= i < |ps| ==> ps[i].Written?
    ensures AllAppended(ps) == []
  {
    if ps != [] {
      NothingAppended(ps[..|ps| - 1]);
    }
  }

  function Frames(fs: seq<seq<Part>>): (r: seq<seq<byte>>)
    ensures |r| == |fs|
  {
    seq(|fs|, i requires 0 <= i < |fs| => Assembled(fs[i]))
  }

  lemma NextPart(ps: seq<Part>, i: nat)
    requires i < |ps|
    ensures AllWritten(ps[..i + 1]) == AllWritten(ps[..i]) + (if ps[i].Written? then ps[i].data else [])
    ensures AllAppended(ps[..i + 1]) == AllAppended(ps[..i]) + (if ps[i].Appended? then ps[i].data else [])
  {
    assert ps[..i + 1][..i] == ps[..i];
  }

  method BuildFrame(out: BufferedSink, ps: seq<Part>)
    requires out.Valid()
    modifies out, out.multi
    ensures out.Valid() && out.Frame() == Assembled(ps)
  {
    out.OpenFrame();
    for i := 0 to |ps|
      invariant out.Valid()
      invariant out.multi.Contents() == AllWritten(ps[..i]) && Concat(out.appended) == AllAppended(ps[..i])
    {
      NextPart(ps, i);
      if ps[i].Written? {
        out.Write(ps[i].data);
      } else {
        out.AppendBuffer(ps[i].data);
      }
    }
    assert ps[..|ps|] == ps;
  }

  /** Where the stream stands after an attempt that got `sent` frames out. */
  ghost predicate StreamHolds(fs: seq<seq<byte>>, sent: nat, r: Status, stream: seq<byte>) {
    && sent <= |fs| && Framable(fs[..sent])
    && (r.Good? ==> sent == |fs|)
    && (r.FramingError? ==> sent < |fs| && |fs[sent]| >= TWO_32)
    && (!r.Disconnected? ==> stream == EncodeFrames(fs[..sent]))
    && (r.Disconnected? ==>
          && sent < |fs| && Framable(fs[..sent + 1])
          && EncodeFrames(fs[..sent]) <= stream <= EncodeFrames(fs[..sent + 1]))
  }

  method SendFrame(out: BufferedSink, ps: seq<Part>) returns (r: Status)
    requires out.Valid()
    modifies out, out.multi, out.sink, out.sink.peer
    ensures out.Valid() && SentOne(old(out.sink.peer.stream), Assembled(ps), r, out.sink.peer.stream)
  {
    BuildFrame(out, ps);
    r := out.CloseFrame();
  }

  ghost predicate SentOne(before: seq<byte>, f: seq<byte>, r: Status, stream: seq<byte>) {
    && (r.FramingError? <==> |f| >= TWO_32)
    && (r.FramingError? ==> stream == before)
    && (r.Good? ==> stream == before + EncodeFrame(f))
    && (r.Disconnected? ==> before <= stream <= before + EncodeFrame(f))
  }

  lemma OneMore(fs: seq<seq<byte>>, sent: nat, r: Status, stream: seq<byte>)
    requires sent < |fs| && Framable(fs[..sent])
    requires SentOne(EncodeFrames(fs[..sent]), fs[sent], r, stream)
    ensures !r.Good? ==> StreamHolds(fs, sent, r, stream)
    ensures r.Good? ==> Framable(fs[..sent + 1]) && stream == EncodeFrames(fs[..sent + 1])
  {
    assert fs[..sent + 1] == fs[..sent] + [fs[sent]];
    if !r.FramingError? {
      EncodeFramesSnoc(fs[..sent], fs[sent]);
    }
  }

  method SendFrames(out: BufferedSink, fs: seq<seq<Part>>) returns (r: Status, sent: nat)
    requires out.Valid() && out.sink.peer.stream == []
    modifies out, out.multi, out.sink, out.sink.peer
    ensures StreamHolds(Frames(fs), sent, r, out.sink.peer.stream)
  {
    ghost var all := Frames(fs);
    sent := 0;
    while sent < |fs|
      invariant out.Valid() && sent <= |fs|
      invariant Framable(all[..sent]) && out.sink.peer.stream == EncodeFrames(all[..sent])
    {
      r := SendFrame(out, fs[sent]);
      OneMore(all, sent, r, out.sink.peer.stream);
      if !r.Good? {
        return;
      }
      sent := sent + 1;
    }
    assert all[..sent] == all;
    r := Good;
  }

  /**
   * From one end to the other, however the frames were put together and however the socket cuts the
   * bytes up: what arrives is the frames sent, without the empty ones; a connection lost half way
   * can only cost frames at the end.
   */
  method Transmit(fs: seq<seq<Part>>, reliable: bool) returns (r: Status, sent: nat, received: seq<seq<byte>>)
    ensures r.Good? ==> received <= NonEmpty(Frames(fs)) && (reliable ==> received == NonEmpty(Frames(fs)))
    ensures sent <= |fs| && (!r.Disconnected? ==> received <= NonEmpty(Frames(fs)[..sent]))
    ensures reliable && !r.Disconnected? ==> received == NonEmpty(Frames(fs)[..sent])
    ensures r.FramingError? ==> sent < |fs| && |Assembled(fs[sent])| >= TWO_32
    ensures r.Disconnected? ==> sent < |fs| && received <= NonEmpty(Frames(fs)[..sent + 1])
    ensures reliable && r.Disconnected? ==> NonEmpty(Frames(fs)[..sent]) <= received
  {
    var wire := new SendSocket();
    var sink := new BasicFramingSink(wire);
    var out := new BufferedSink(sink);
    r, sent := SendFrames(out, fs);
    var arriving := new ReceiveSocket(wire.stream, reliable);
    var source := new BasicFramingSource(arriving);
    var input := new BufferedSource(source);
    received := ReadFrames(input);
    WhatArrives(Frames(fs), sent, r, wire.stream);
  }

  lemma WhatArrives(fs: seq<seq<byte>>, sent: nat, r: Status, stream: seq<byte>)
    requires StreamHolds(fs, sent, r, stream)
    ensures !r.Disconnected? ==> DecodeFrames(stream).0 == NonEmpty(fs[..sent])
    ensures r.Good? ==> DecodeFrames(stream).0 == NonEmpty(fs)
    ensures r.Disconnected? ==>
              sent < |fs| && NonEmpty(fs[..sent]) <= DecodeFrames(stream).0 <= NonEmpty(fs[..sent + 1])
  {
    if r.Disconnected? {
      var whole := EncodeFrames(fs[..sent]);
      assert stream == whole + stream[|whole|..];
      DecodeAfter(fs[..sent], stream[|whole|..]);
      DecodeOfPrefix(stream, fs[..sent + 1]);
    } else {
      FramesRoundTrip(fs[..sent]);
      assert r.Good? ==> fs[..sent] == fs;
    }
  }
}
