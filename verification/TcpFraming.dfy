/** Length-prefixed frames on a byte stream (src/workloads/raw-protocol.ts). */
module TcpFraming {
  import opened BigEndian

  type Frame = seq<byte>

  /** The length field is a u32: a longer frame is announced by its length modulo 2^32. */
  function EncodeTcpFrame(frame: Frame): seq<byte> {
    U32(|frame|) + frame
  }

  function Wire(frames: seq<Frame>): seq<byte> {
    if frames == [] then [] else EncodeTcpFrame(frames[0]) + Wire(frames[1..])
  }

  predicate Short(frames: seq<Frame>) {
    forall i :: 0 <= i < |frames| ==> |frames[i]| < TWO_32
  }

  /** The buffer starts with a whole frame. */
  predicate HoldsFrame(buffer: seq<byte>) {
    |buffer| >= 4 && |buffer| >= 4 + ReadU32(buffer[..4])
  }

  function FirstFrame(buffer: seq<byte>): Frame
    requires HoldsFrame(buffer)
  {
    buffer[4..4 + ReadU32(buffer[..4])]
  }

  datatype Drained = Drained(frames: seq<Frame>, rest: seq<byte>)

  /** Take whole frames off the front of the buffer until none is left. */
  function Drain(buffer: seq<byte>): Drained
    decreases |buffer|
  {
    if !HoldsFrame(buffer) then Drained([], buffer)
    else
      var d := Drain(buffer[4 + |FirstFrame(buffer)|..]);
      Drained([FirstFrame(buffer)] + d.frames, d.rest)
  }

  lemma {:induction false} FirstFrameTiles(buffer: seq<byte>)
    requires HoldsFrame(buffer)
    ensures var f := FirstFrame(buffer);
            |f| < TWO_32 && buffer == EncodeTcpFrame(f) + buffer[4 + |f|..]
  {
    var f := FirstFrame(buffer);
    WriteReadU32(buffer[..4]);
    assert buffer == buffer[..4] + f + buffer[4 + |f|..];
  }

  lemma EncodedIsFirst(f: Frame, rest: seq<byte>)
    requires |f| < TWO_32
    ensures var b := EncodeTcpFrame(f) + rest;
            HoldsFrame(b) && FirstFrame(b) == f && b[4 + |f|..] == rest
  {
    ReadWriteU32(|f|);
    var b := EncodeTcpFrame(f) + rest;
    assert b[..4] == U32(|f|);
    assert b == U32(|f|) + (f + rest);
  }

  lemma {:induction false} DrainTiles(buffer: seq<byte>)
    ensures var d := Drain(buffer);
            Short(d.frames) && !HoldsFrame(d.rest) && Wire(d.frames) + d.rest == buffer
    decreases |buffer|
  {
    if HoldsFrame(buffer) {
      var f := FirstFrame(buffer);
      var tail := buffer[4 + |f|..];
      FirstFrameTiles(buffer);
      DrainTiles(tail);
      WireCons(f, Drain(tail).frames, Drain(tail).rest);
    } else {
      assert Wire([]) + buffer == buffer;
    }
  }

  lemma WireCons(f: Frame, fs: seq<Frame>, rest: seq<byte>)
    ensures Wire([f] + fs) + rest == EncodeTcpFrame(f) + (Wire(fs) + rest)
  {
    assert ([f] + fs)[1..] == fs;
  }

  lemma {:induction false} WireDrains(frames: seq<Frame>, rest: seq<byte>)
    requires Short(frames) && !HoldsFrame(rest)
    ensures Drain(Wire(frames) + rest) == Drained(frames, rest)
    decreases |frames|
  {
    if frames == [] {
      assert Wire(frames) + rest == rest;
    } else {
      var tail := Wire(frames[1..]) + rest;
      assert frames == [frames[0]] + frames[1..];
      WireCons(frames[0], frames[1..], rest);
      EncodedIsFirst(frames[0], tail);
      WireDrains(frames[1..], rest);
    }
  }

  /** `d` is the buffer cut into whole frames and a rest that holds none. */
  predicate Splits(buffer: seq<byte>, d: Drained) {
    Short(d.frames) && !HoldsFrame(d.rest) && Wire(d.frames) + d.rest == buffer
  }

  /** The split into whole frames and an unfinished rest is the only one there is. */
  lemma DrainIff(buffer: seq<byte>, d: Drained)
    ensures Drain(buffer) == d <==> Splits(buffer, d)
  {
    DrainTiles(buffer);
    if Short(d.frames) && !HoldsFrame(d.rest) {
      WireDrains(d.frames, d.rest);
    }
  }

  lemma {:induction false} WireConcat(a: seq<Frame>, b: seq<Frame>)
    ensures Wire(a + b) == Wire(a) + Wire(b)
  {
    if a == [] {
      assert a + b == b;
    } else {
      assert (a + b)[1..] == a[1..] + b;
      WireConcat(a[1..], b);
    }
  }

  lemma SplitsJoin(buffer: seq<byte>, d: Drained, chunk: seq<byte>, e: Drained)
    requires Splits(buffer, d) && Splits(d.rest + chunk, e)
    ensures Splits(buffer + chunk, Drained(d.frames + e.frames, e.rest))
  {
    WireConcat(d.frames, e.frames);
    Regroup(Wire(d.frames), d.rest, chunk, Wire(e.frames), e.rest);
  }

  lemma Regroup(w: seq<byte>, rest: seq<byte>, chunk: seq<byte>, wire: seq<byte>, left: seq<byte>)
    requires wire + left == rest + chunk
    ensures w + rest + chunk == w + wire + left
  {
    assert w + rest + chunk == w + (rest + chunk);
    assert w + wire + left == w + (wire + left);
  }

  /** Draining may be interrupted anywhere: the rest simply waits for more bytes. */
  lemma DrainIncremental(buffer: seq<byte>, d: Drained, chunk: seq<byte>, e: Drained)
    requires Drain(buffer) == d && Drain(d.rest + chunk) == e
    ensures Drain(buffer + chunk) == Drained(d.frames + e.frames, e.rest)
  {
    DrainIff(buffer, d);
    DrainIff(d.rest + chunk, e);
    SplitsJoin(buffer, d, chunk, e);
    DrainIff(buffer + chunk, Drained(d.frames + e.frames, e.rest));
  }

  /** A frame survives the length prefix exactly when it is shorter than 2^32 bytes. */
  lemma FrameRoundTrip(f: Frame)
    ensures Drain(EncodeTcpFrame(f)) == Drained([f], []) <==> |f| < TWO_32
  {
    if |f| < TWO_32 {
      WireDrains([f], []);
      assert Wire([f]) + [] == EncodeTcpFrame(f) + Wire([]) == EncodeTcpFrame(f);
    } else {
      DrainTiles(EncodeTcpFrame(f));
    }
  }

  /** The shortest frame that does not survive: its length prefix reads zero, so an empty frame comes out first. */
  lemma LongFrameLost()
    ensures var f: Frame := seq(TWO_32, _ => 0);
            |f| == TWO_32 && Drain(EncodeTcpFrame(f)).frames != [] && Drain(EncodeTcpFrame(f)).frames[0] == []
  {
    var f: Frame := seq(TWO_32, _ => 0);
    var b := EncodeTcpFrame(f);
    ReadWriteU32(|f|);
    assert b[..4] == U32(|f|);
  }
}
