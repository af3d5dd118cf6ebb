/** The eight-byte frame header of clients/js/frames.js and the splitting of a message into frames. */
module Frames {
  import opened Wire

  const HEADER_BYTES := 8

  datatype Frame = Frame(kind: nat, flags: nat, channel: nat, seqNo: nat, payload: Bytes)

  /** Every field fits the width the header gives it. */
  predicate Fits(f: Frame) {
    f.kind < 0x100 && f.flags < 0x100 && f.channel < 0x1_0000 && f.seqNo < 0x1_0000 && |f.payload| < 0x1_0000
  }

  function Header(f: Frame): (h: Bytes)
    ensures |h| == HEADER_BYTES
  {
    [f.kind % 256, f.flags % 256] + U16(f.channel) + U16(f.seqNo) + U16(|f.payload|)
  }

  /** The bytes of one frame; each field is cut to its width, the length included. */
  function FrameBytes(f: Frame): (b: Bytes)
    ensures |b| == HEADER_BYTES + |f.payload|
  {
    Header(f) + f.payload
  }

  function Flatten(frames: seq<Frame>): Bytes {
    if frames == [] then [] else FrameBytes(frames[0]) + Flatten(frames[1..])
  }

  /** `encodeFrame`: each header field stored in place, then the payload. */
  method EncodeFrame(f: Frame) returns (out: array<byte>)
    ensures fresh(out)
    ensures out[..] == FrameBytes(f)
  {
    hide U16, Overwrite;
    out := new byte[HEADER_BYTES + |f.payload|];
    CopyIn(out, 0, [f.kind % 256]);
    CopyIn(out, 1, [f.flags % 256]);
    CopyIn(out, 2, U16(f.channel));
    CopyIn(out, 4, U16(f.seqNo));
    CopyIn(out, 6, U16(|f.payload|));
    CopyIn(out, 8, f.payload);
    assert out[..] == out[..8 + |f.payload|];
  }

  function DecodeHeader(buf: Bytes): (f: Frame)
    requires |buf| >= HEADER_BYTES && |buf| >= HEADER_BYTES + ReadU16(buf, 6)
    ensures Fits(f) && |f.payload| == ReadU16(buf, 6)
  {
    Frame(buf[0], buf[1], ReadU16(buf, 2), ReadU16(buf, 4), buf[8..8 + ReadU16(buf, 6)])
  }

  /** No whole frame starts here: too short for a header, or the header asks for more than is left. */
  predicate Stuck(buf: Bytes) {
    |buf| < HEADER_BYTES || HEADER_BYTES + ReadU16(buf, 6) > |buf|
  }

  function Parse(buf: Bytes): seq<Frame> {
    if Stuck(buf) then [] else [DecodeHeader(buf)] + Parse(buf[8 + ReadU16(buf, 6)..])
  }

  function FrameAt(buf: Bytes, off: nat): Frame
    requires off + HEADER_BYTES <= |buf| && off + HEADER_BYTES + ReadU16(buf, off + 6) <= |buf|
  {
    Frame(buf[off], buf[off + 1], ReadU16(buf, off + 2), ReadU16(buf, off + 4), buf[off + 8..off + 8 + ReadU16(buf, off + 6)])
  }

  lemma NextFrame(buf: Bytes, off: nat)
    requires off + HEADER_BYTES <= |buf| && off + HEADER_BYTES + ReadU16(buf, off + 6) <= |buf|
    ensures Parse(buf[off..]) == [FrameAt(buf, off)] + Parse(buf[off + 8 + ReadU16(buf, off + 6)..])
  {
    hide ReadU16;
    ReadFrom(buf, off, 2);
    ReadFrom(buf, off, 4);
    ReadFrom(buf, off, 6);
    var len, rest := ReadU16(buf, off + 6), buf[off..];
    assert rest[8 + len..] == buf[off + 8 + len..];
    assert rest[8..8 + len] == buf[off + 8..off + 8 + len];
    assert DecodeHeader(rest) == FrameAt(buf, off);
  }

  lemma StuckHere(buf: Bytes, off: nat)
    requires off <= |buf| && (off + HEADER_BYTES > |buf| || off + HEADER_BYTES + ReadU16(buf, off + 6) > |buf|)
    ensures Parse(buf[off..]) == []
  {
    if off + HEADER_BYTES <= |buf| { ReadFrom(buf, off, 6); }
  }

  method ParseFrames(buf: Bytes) returns (frames: seq<Frame>)
    ensures frames == Parse(buf)
  {
    hide Parse, ReadU16;
    frames := [];
    var off := 0;
    assert buf[0..] == buf;
    while off + HEADER_BYTES <= |buf|
      invariant off <= |buf|
      invariant Parse(buf) == frames + Parse(buf[off..])
    {
      var len := ReadU16(buf, off + 6);
      if off + HEADER_BYTES + len > |buf| { break; }
      var start, end := off + HEADER_BYTES, off + HEADER_BYTES + len;
      var f := Frame(buf[off], buf[off + 1], ReadU16(buf, off + 2), ReadU16(buf, off + 4), buf[start..end]);
      NextFrame(buf, off);
      Regroup(frames, [f], Parse(buf[end..]));
      frames := frames + [f];
      off := end;
    }
    StuckHere(buf, off);
  }

  lemma ReadFrom(buf: Bytes, off: nat, k: nat)
    requires off + k + 2 <= |buf|
    ensures ReadU16(buf[off..], k) == ReadU16(buf, off + k)
  {
  }

  lemma FirstFrame(f: Frame, tail: Bytes)
    requires Fits(f)
    ensures Parse(FrameBytes(f) + tail) == [f] + Parse(tail)
  {
    var buf := FrameBytes(f) + tail;
    FieldsRead(f, tail);
    assert buf[8..8 + |f.payload|] == f.payload;
    assert DecodeHeader(buf) == f;
    assert buf[8 + |f.payload|..] == tail;
  }

  /** Where each field of the header lies, low byte first. */
  lemma HeaderLayout(f: Frame)
    requires Fits(f)
    ensures var b := FrameBytes(f);
            && b[0] == f.kind && b[1] == f.flags && Pair(b[2], b[3]) == f.channel && Pair(b[4], b[5]) == f.seqNo
            && Pair(b[6], b[7]) == |f.payload| && b[8..] == f.payload
  {
    hide U16, ReadU16, Pair;
    FieldsRead(f, []);
    var b := FrameBytes(f);
    assert b + [] == b;
    LowFirst(b, 2);
    LowFirst(b, 4);
    LowFirst(b, 6);
  }

  lemma FieldsRead(f: Frame, tail: Bytes)
    ensures var buf := FrameBytes(f) + tail;
            && buf[0] == f.kind % 256 && buf[1] == f.flags % 256
            && ReadU16(buf, 2) == f.channel % 65536 && ReadU16(buf, 4) == f.seqNo % 65536
            && ReadU16(buf, 6) == |f.payload| % 65536
  {
    var buf := FrameBytes(f) + tail;
    assert buf[..8] == Header(f);
    assert buf[2..4] == buf[..8][2..4] == U16(f.channel);
    assert buf[4..6] == buf[..8][4..6] == U16(f.seqNo);
    assert buf[6..8] == buf[..8][6..8] == U16(|f.payload|);
    U16RoundTrip(buf, 2, f.channel);
    U16RoundTrip(buf, 4, f.seqNo);
    U16RoundTrip(buf, 6, |f.payload|);
  }

  /** Splitting a message gives back the frames it was packed from, then whatever the rest holds. */
  lemma {:induction false} SplitInvertsPack(frames: seq<Frame>, tail: Bytes)
    requires forall f | f in frames :: Fits(f)
    ensures Parse(Flatten(frames) + tail) == frames + Parse(tail)
  {
    hide Parse, FrameBytes, Fits;
    if frames == [] {
      assert Flatten(frames) + tail == tail;
    } else {
      var f, rest := frames[0], frames[1..];
      SplitInvertsPack(rest, tail);
      FirstFrame(f, Flatten(rest) + tail);
      Regroup(FrameBytes(f), Flatten(rest), tail);
      Regroup([f], rest, Parse(tail));
      assert [f] + rest == frames;
    }
  }

  function PackedLength(frames: seq<Frame>): nat {
    |Flatten(frames)|
  }

  /** Packing what was split gives back the message, up to a remainder that holds no whole frame. */
  lemma {:induction false} PackInvertsSplit(buf: Bytes)
    ensures PackedLength(Parse(buf)) <= |buf|
    ensures Flatten(Parse(buf)) == buf[..PackedLength(Parse(buf))]
    ensures Stuck(buf[PackedLength(Parse(buf))..])
    ensures forall f | f in Parse(buf) :: Fits(f)
    decreases |buf|
  {
    hide ReadU16, DecodeHeader, FrameBytes, Fits, Parse, Flatten, Stuck;
    FirstParsed(buf);
    if Stuck(buf) {
      FlattenFirst(Frame(0, 0, 0, 0, []), []);
      assert buf[0..] == buf;
    } else {
      var f := DecodeHeader(buf);
      var n := 8 + |f.payload|;
      var rest := buf[n..];
      PackInvertsSplit(rest);
      HeaderReencodes(buf);
      FlattenFirst(f, Parse(rest));
      var k := PackedLength(Parse(rest));
      assert buf[..n + k] == buf[..n] + rest[..k];
      assert buf[n + k..] == rest[k..];
    }
  }

  lemma FirstParsed(buf: Bytes)
    ensures Stuck(buf) ==> Parse(buf) == []
    ensures !Stuck(buf) ==>
              var f := DecodeHeader(buf);
              8 + |f.payload| == 8 + ReadU16(buf, 6) <= |buf| && Fits(f) && Parse(buf) == [f] + Parse(buf[8 + |f.payload|..])
  {
    hide ReadU16, DecodeHeader, Fits;
  }

  lemma FlattenFirst(f: Frame, rest: seq<Frame>)
    ensures Flatten([f] + rest) == FrameBytes(f) + Flatten(rest) && Flatten([]) == []
  {
    hide FrameBytes;
    assert ([f] + rest)[1..] == rest;
  }

  lemma HeaderReencodes(buf: Bytes)
    requires !Stuck(buf)
    ensures FrameBytes(DecodeHeader(buf)) == buf[..8 + ReadU16(buf, 6)]
  {
    hide U16, ReadU16;
    var f := DecodeHeader(buf);
    U16Again(buf, 2);
    U16Again(buf, 4);
    U16Again(buf, 6);
    assert buf[..8] == [buf[0], buf[1]] + buf[2..4] + buf[4..6] + buf[6..8];
    assert Header(f) == buf[..8];
  }

  /** One frame survives the wire exactly when every field, the payload length included, fits the header. */
  lemma RoundTripExactly(f: Frame)
    ensures Parse(FrameBytes(f)) == [f] <==> Fits(f)
  {
    PackInvertsSplit(FrameBytes(f));
    if Fits(f) {
      FirstFrame(f, []);
      assert FrameBytes(f) + [] == FrameBytes(f);
    }
    assert f in [f];
  }
}
