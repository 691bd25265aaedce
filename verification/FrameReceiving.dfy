/** The receiving side of the framed stream: socket, framing source and buffered source. */
module FrameReceiving {
  import opened Bytes
  import opened Buffers
  import opened Framing

  /** A connected socket's receiving half; `pending` is what the peer sent and we have not seen. */
  class ReceiveSocket {
    const reliable: bool
    var pending: seq<byte>

    constructor (pending: seq<byte>, reliable: bool)
      ensures this.pending == pending && this.reliable == reliable
    {
      this.pending, this.reliable := pending, reliable;
    }

    /** One ::recv: some of what is pending, 0 at the end of the stream, or -1 for an error. */
    method OsReceive(target: array<byte>, at: nat, n: nat) returns (status: int)
      requires 0 < n && at + n <= target.Length
      modifies this, target
      ensures -1 <= status <= Min(n, |old(pending)|)
      ensures status == 0 <==> old(pending) == [] && status != -1
      ensures status == -1 ==> !reliable
      ensures status <= 0 ==> pending == old(pending) && target[..] == old(target[..])
      ensures status > 0 ==> Moved(old(target[..]), at, status, old(pending), target[..], pending)
    {
      if * {
        if !reliable {
          return -1;
        }
      }
      if pending == [] {
        return 0;
      }
      var most := Min(n, |pending|);
      var k: nat :| 1 <= k <= most;
      forall i | 0 <= i < k {
        target[at + i] := pending[i];
      }
      assert target[..] == old(target[..at]) + pending[..k] + old(target[at + k..]);
      pending := pending[k..];
      return k;
    }

    /** One turn of the receive loop, `offset` bytes after its start. */
    method ReceiveSome(target: array<byte>, at: nat, n: nat, offset: nat, ghost block: seq<byte>, ghost data: seq<byte>)
      returns (status: int)
      requires at + n <= target.Length && offset < n && Moved(block, at, offset, data, target[..], pending)
      modifies this, target
      ensures status == -1 ==> !reliable
      ensures status == 0 ==> |data| == offset
      ensures -1 <= status <= n - offset
      ensures status > 0 ==> Moved(block, at, offset + status, data, target[..], pending)
    {
      ghost var before, left := target[..], pending;
      status := OsReceive(target, at + offset, n - offset);
      if status > 0 {
        MoveMore(block, at, offset, data, before, left, status, target[..], pending);
      }
    }

    /** Receive exactly n bytes into place: all of them, none because the stream is over, or throw. */
    method ReceiveAll(target: array<byte>, at: nat, n: nat) returns (r: Io)
      requires at + n <= target.Length
      modifies this, target
      ensures r.Done? ==> Moved(old(target[..]), at, n, old(pending), target[..], pending)
      ensures r.Nothing? ==> n > 0 && old(pending) == []
      ensures reliable ==> (r.Done? <==> n <= |old(pending)|)
      ensures reliable ==> (r.Nothing? <==> n > 0 && old(pending) == [])
    {
      ghost var block, data := target[..], pending;
      var offset := 0;
      while offset < n
        invariant 0 <= offset <= n
        invariant Moved(block, at, offset, data, target[..], pending)
      {
        var status := ReceiveSome(target, at, n, offset, block, data);
        if status < 0 {
          return Threw;
        }
        if status == 0 {
          return if offset == 0 then Nothing else Threw;
        }
        offset := offset + status;
      }
      return Done;
    }
  }

  /** The first n bytes of `data` moved into `block` at position `at`, giving `now` and `left`. */
  ghost predicate Moved(block: seq<byte>, at: nat, n: nat, data: seq<byte>, now: seq<byte>, left: seq<byte>) {
    && at + n <= |block| && n <= |data|
    && now == block[..at] + data[..n] + block[at + n..]
    && left == data[n..]
  }

  lemma MoveMore(block: seq<byte>, at: nat, n: nat, data: seq<byte>, now: seq<byte>, left: seq<byte>,
                 k: nat, now': seq<byte>, left': seq<byte>)
    requires Moved(block, at, n, data, now, left) && Moved(now, at + n, k, left, now', left')
    ensures Moved(block, at, n + k, data, now', left')
  {
    assert now[..at + n] == block[..at] + data[..n];
    assert now[at + n + k..] == block[at + n + k..];
    assert data[..n] + data[n..][..k] == data[..n + k];
  }

  /** Splits the stream back into frames by their headers. */
  class BasicFramingSource {
    const peer: ReceiveSocket
    var frameSize: nat
    var bytesRead: nat

    constructor (peer: ReceiveSocket)
      ensures this.peer == peer && frameSize == 0 && bytesRead == 0
    {
      this.peer := peer;
      frameSize, bytesRead := 0, 0;
    }

    /** Read a frame header. */
    method NextFrame() returns (r: Status, size: nat)
      modifies this, peer
      ensures !r.FramingError?
      ensures r.Good? ==>
                && |old(peer.pending)| >= HEADER_SIZE
                && frameSize == size == HeaderLength(old(peer.pending)[..HEADER_SIZE]) && bytesRead == 0
                && peer.pending == old(peer.pending)[HEADER_SIZE..]
      ensures peer.reliable ==> (r.Good? <==> |old(peer.pending)| >= HEADER_SIZE)
    {
      var header := new byte[HEADER_SIZE](_ => 0);
      var io := peer.ReceiveAll(header, 0, HEADER_SIZE);
      if !io.Done? {
        return Disconnected, 0;
      }
      assert header[..] == old(peer.pending)[..HEADER_SIZE];
      frameSize, bytesRead := HeaderLength(header[..]), 0;
      return Good, frameSize;
    }

    /** Part of the frame; reading past its end throws. */
    method Read(target: array<byte>, at: nat, n: nat) returns (r: Status)
      requires at + n <= target.Length && bytesRead <= frameSize
      modifies this`bytesRead, peer, target
      ensures bytesRead <= frameSize
      ensures r.FramingError? <==> old(bytesRead) + n > frameSize
      ensures r.Good? ==>
                && Moved(old(target[..]), at, n, old(peer.pending), target[..], peer.pending)
                && bytesRead == old(bytesRead) + n
      ensures peer.reliable && old(bytesRead) + n <= frameSize ==> (r.Good? <==> n <= |old(peer.pending)|)
    {
      if n > frameSize - bytesRead {
        return FramingError;
      }
      var io := peer.ReceiveAll(target, at, n);
      if !io.Done? {
        return Disconnected;
      }
      bytesRead := bytesRead + n;
      return Good;
    }

    method EndFrame()
      modifies this
      ensures frameSize == 0 && bytesRead == 0
    {
      frameSize, bytesRead := 0, 0;
    }
  }

  /** Reads a whole frame into a buffer, which is kept and used again if the next frame fits. */
  class BufferedSource {
    const source: BasicFramingSource
    var buffer: Buffer?
    var isInFrame: bool

    ghost predicate Valid()
      reads this, buffer
    {
      buffer != null ==> buffer.Valid()
    }

    constructor (source: BasicFramingSource)
      ensures this.source == source && Valid() && buffer == null && !isInFrame
    {
      this.source := source;
      buffer, isInFrame := null, false;
    }

    /** A buffer, new only if the old one is too small, with room for `size` bytes claimed at its start. */
    method PrepForFill(size: nat)
      requires Valid()
      modifies this`buffer, buffer
      ensures Valid() && buffer != null && buffer.start == 0 && buffer.end == size <= buffer.data.Length
      ensures buffer == old(buffer) || (fresh(buffer) && fresh(buffer.data))
      ensures buffer == old(buffer) <==> old(buffer) != null && size <= old(buffer).data.Length
    {
      if buffer == null || size > buffer.data.Length {
        buffer := new Buffer(size);
      }
      buffer.Reset();
      var _, _ := buffer.Assign(size);
    }

    /** The next frame's bytes, whole; an empty frame looks like a timeout and leaves the buffer alone. */
    method NextFrame() returns (r: Status, size: nat)
      requires Valid()
      modifies this, buffer, if buffer != null then {buffer.data} else {}, source, source.peer
      ensures Valid() && !r.FramingError?
      ensures buffer == old(buffer) || (fresh(buffer) && fresh(buffer.data))
      ensures r.Good? ==> NextIs(old(source.peer.pending), size, source.peer.pending)
      ensures r.Good? && size == 0 ==> buffer == old(buffer)
      ensures r.Good? && size > 0 ==>
                && buffer != null && isInFrame && buffer.start == 0
                && Unread() == old(source.peer.pending)[HEADER_SIZE..HEADER_SIZE + size]
      ensures source.peer.reliable ==> (r.Good? <==> HasFrame(old(source.peer.pending)))
    {
      ghost var pending := source.peer.pending;
      r, size := source.NextFrame();
      if !r.Good? || size == 0 {
        return;
      }
      PrepForFill(size);
      r := source.Read(buffer.data, 0, size);
      if !r.Good? {
        return;
      }
      assert pending[HEADER_SIZE..][..size] == pending[HEADER_SIZE..HEADER_SIZE + size];
      assert pending[HEADER_SIZE..][size..] == pending[HEADER_SIZE + size..];
      assert buffer.data[..size] == pending[HEADER_SIZE..HEADER_SIZE + size];
      source.EndFrame();
      isInFrame := true;
    }

    /** What is left of the frame. */
    ghost function Unread(): seq<byte>
      requires Valid() && buffer != null
      reads this, buffer, buffer.data
    {
      buffer.data[buffer.start..buffer.end]
    }

    /** Part of the frame; reading past its end, or without one, throws. */
    method Read(n: nat) returns (r: Status, out: seq<byte>)
      requires Valid()
      modifies buffer
      ensures Valid()
      ensures r.Good? <==> buffer != null && n <= old(buffer.Remaining())
      ensures r.Good? ==>
                && |old(Unread())| >= n && out == old(Unread())[..n] && Unread() == old(Unread())[n..]
                && buffer.start == old(buffer.start) + n
      ensures !r.Good? ==> r.FramingError?
    {
      if buffer == null || n > buffer.Remaining() {
        return FramingError, [];
      }
      out := buffer.Read(n);
      r := Good;
    }

    method Skip(n: nat) returns (r: Status)
      requires Valid()
      modifies buffer
      ensures Valid()
      ensures r.Good? <==> buffer != null && n <= old(buffer.Remaining())
      ensures r.Good? ==> |old(Unread())| >= n && Unread() == old(Unread())[n..]
      ensures !r.Good? ==> r.FramingError?
    {
      if buffer == null || n > buffer.Remaining() {
        return FramingError;
      }
      var _ := buffer.Skip(n);
      r := Good;
    }

    /** Give the buffer away; the next frame gets a new one. */
    method TakeBuffer() returns (b: Buffer?)
      requires Valid()
      modifies this`buffer
      ensures Valid() && b == old(buffer) && buffer == null
    {
      b, buffer := buffer, null;
    }

    method EndFrame()
      modifies this`isInFrame
      ensures !isInFrame
    {
      isInFrame := false;
    }
  }

  predicate HasFrame(pending: seq<byte>) {
    && |pending| >= HEADER_SIZE
    && |pending| >= HEADER_SIZE + HeaderLength(pending[..HEADER_SIZE])
  }

  /** The stream starts with a frame of `size` bytes, and `rest` is what comes after it. */
  predicate NextIs(pending: seq<byte>, size: nat, rest: seq<byte>) {
    && HasFrame(pending)
    && size == HeaderLength(pending[..HEADER_SIZE])
    && rest == pending[HEADER_SIZE + size..]
  }

  lemma NoFrameLeft(pending: seq<byte>)
    requires !HasFrame(pending)
    ensures DecodeFrames(pending).0 == []
  {
  }

  /** One more frame read, or an empty one passed over. */
  lemma OneFrameLess(stream: seq<byte>, frames: seq<seq<byte>>, pending: seq<byte>, size: nat, rest: seq<byte>)
    requires DecodeFrames(stream).0 == frames + DecodeFrames(pending).0 && NextIs(pending, size, rest)
    ensures DecodeFrames(stream).0
            == (if size == 0 then frames else frames + [pending[HEADER_SIZE..HEADER_SIZE + size]]) + DecodeFrames(rest).0
  {
    var frame, later := pending[HEADER_SIZE..HEADER_SIZE + size], DecodeFrames(rest).0;
    assert DecodeFrames(pending).0 == if size == 0 then later else [frame] + later;
    assert frames + ([frame] + later) == frames + [frame] + later;
  }

  /**
   * Read frames until the connection is gone, taking some buffers away and reading others in place:
   * either way the frames are exactly those of the stream, or its first ones if receiving fails.
   */
  method ReadFrames(source: BufferedSource) returns (frames: seq<seq<byte>>)
    requires source.Valid() && source.buffer == null
    modifies source, source.source, source.source.peer
    ensures frames <= DecodeFrames(old(source.source.peer.pending)).0
    ensures source.source.peer.reliable ==> frames == DecodeFrames(old(source.source.peer.pending)).0
  {
    ghost var peer := source.source.peer;
    frames := [];
    while true
      invariant source.Valid()
      invariant source.buffer != null ==> fresh(source.buffer) && fresh(source.buffer.data)
      invariant DecodeFrames(old(peer.pending)).0 == frames + DecodeFrames(peer.pending).0
      decreases |peer.pending|
    {
      ghost var before := peer.pending;
      var r, size := source.NextFrame();
      if !r.Good? {
        if peer.reliable {
          NoFrameLeft(before);
        }
        return;
      }
      OneFrameLess(old(peer.pending), frames, before, size, peer.pending);
      if size > 0 {
        var frame := TakeOrRead(source, size);
        frames := frames + [frame];
      }
    }
  }

  method TakeOrRead(source: BufferedSource, size: nat) returns (frame: seq<byte>)
    requires source.Valid() && source.buffer != null && |source.Unread()| == size
    modifies source`buffer, source`isInFrame, source.buffer
    ensures source.Valid() && (source.buffer == null || source.buffer == old(source.buffer))
    ensures frame == old(source.Unread())
  {
    if * {
      var b := source.TakeBuffer();
      frame := b.data[b.start..b.end];
    } else {
      var r, out := source.Read(size);
      frame := out;
      source.EndFrame();
    }
  }
}
