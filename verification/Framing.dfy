/** The Assembler wire format `[len: u32 BE][type: u8][payload]`, encoded and parsed. */
module Framing {
  import opened Bytes

  const MAX_MESSAGE_SIZE := 64 * 1024

  datatype Frame = Frame(kind: Byte, payload: Bytes)

  datatype Encoded = Framed(bytes: Bytes) | TooLarge(msgLen: nat)

  /** A frame the format can carry: the length counts the type byte. */
  predicate Fits(f: Frame) {
    1 + |f.payload| <= MAX_MESSAGE_SIZE
  }

  /** The bytes of one frame. */
  function Enc(f: Frame): (r: Bytes)
    ensures |r| == 5 + |f.payload|
  {
    BE(4, 1 + |f.payload|) + [f.kind] + f.payload
  }

  function EncAll(fs: seq<Frame>): Bytes {
    if fs == [] then [] else Enc(fs[0]) + EncAll(fs[1..])
  }

  /** encode_frame: only the low byte of the type survives; an oversized payload is an error. */
  function EncodeFrame(msgType: int, payload: Bytes): Encoded {
    if 1 + |payload| > MAX_MESSAGE_SIZE then TooLarge(1 + |payload|)
    else Framed(BE(4, 1 + |payload|) + [msgType % 256] + payload)
  }

  /** What the head of a byte string is. */
  datatype Head =
    | Short                            // not a whole frame yet
    | Illegal(msgLen: nat)             // a length word no frame can have
    | Whole(frame: Frame, rest: Bytes)

  function ParseOne(bs: Bytes): Head {
    if |bs| < 4 then Short
    else
      var msgLen := FromBE(bs[..4]);
      if msgLen == 0 || msgLen > MAX_MESSAGE_SIZE then Illegal(msgLen)
      else if |bs| < 4 + msgLen then Short
      else Whole(Frame(bs[4], bs[5..4 + msgLen]), bs[4 + msgLen..])
  }

  /** Every whole frame at the front of a byte string, in order. */
  function Frames(bs: Bytes): seq<Frame>
    decreases |bs|
  {
    var h := ParseOne(bs);
    if h.Whole? then [h.frame] + Frames(h.rest) else []
  }

  /** What is left once those frames are gone. */
  function Rest(bs: Bytes): (r: Bytes)
    ensures !ParseOne(r).Whole?
    decreases |bs|
  {
    var h := ParseOne(bs);
    if h.Whole? then Rest(h.rest) else bs
  }

  lemma LengthWord(f: Frame)
    requires Fits(f)
    ensures FromBE(BE(4, 1 + |f.payload|)) == 1 + |f.payload|
  {
    SpanValues();
    FromBEOfBE(4, 1 + |f.payload|);
  }

  /** The parser accepts a frame exactly where an encoded frame stands. */
  lemma ParseOneIff(bs: Bytes, f: Frame, rest: Bytes)
    ensures ParseOne(bs) == Whole(f, rest) <==> Fits(f) && bs == Enc(f) + rest
  {
    if ParseOne(bs) == Whole(f, rest) {
      BEOfFromBE(bs[..4]);
      assert bs == bs[..4] + [bs[4]] + bs[5..4 + FromBE(bs[..4])] + rest;
    }
    if Fits(f) && bs == Enc(f) + rest {
      LengthWord(f);
      assert bs[..4] == BE(4, 1 + |f.payload|);
      assert bs[5..4 + (1 + |f.payload|)] == f.payload;
      assert bs[4 + (1 + |f.payload|)..] == rest;
    }
  }

  lemma {:induction false} EncAllAppend(a: seq<Frame>, b: seq<Frame>)
    ensures EncAll(a + b) == EncAll(a) + EncAll(b)
  {
    if a == [] {
      assert a + b == b;
    } else {
      EncAllAppend(a[1..], b);
      assert (a + b)[1..] == a[1..] + b;
      Assoc(Enc(a[0]), EncAll(a[1..]), EncAll(b));
    }
  }

  lemma EncAllSnoc(fs: seq<Frame>, f: Frame)
    ensures EncAll(fs + [f]) == EncAll(fs) + Enc(f)
  {
    EncAllAppend(fs, [f]);
    assert EncAll([f]) == Enc(f) + EncAll([]);
  }

  /** Nothing is lost: the frames re-encoded, then the rest, are the bytes that came in. */
  lemma {:induction false} FramesConserve(bs: Bytes)
    ensures bs == EncAll(Frames(bs)) + Rest(bs)
    ensures forall f | f in Frames(bs) :: Fits(f)
    decreases |bs|
  {
    var h := ParseOne(bs);
    if h.Whole? {
      ParseOneIff(bs, h.frame, h.rest);
      FramesConserve(h.rest);
    }
  }

  /** The parse is the only one: encoded frames followed by anything that is not a frame. */
  lemma {:induction false} FramesUnique(fs: seq<Frame>, r: Bytes)
    requires forall f | f in fs :: Fits(f)
    requires !ParseOne(r).Whole?
    ensures Frames(EncAll(fs) + r) == fs
    ensures Rest(EncAll(fs) + r) == r
  {
    if fs == [] {
      assert EncAll(fs) + r == r;
    } else {
      var tail := EncAll(fs[1..]) + r;
      assert EncAll(fs) + r == Enc(fs[0]) + tail;
      ParseOneIff(Enc(fs[0]) + tail, fs[0], tail);
      FramesUnique(fs[1..], r);
    }
  }

  /** More bytes never take a frame back: the new frames come out of the old rest. */
  lemma {:induction false} FramesExtend(bs: Bytes, more: Bytes)
    ensures Frames(bs + more) == Frames(bs) + Frames(Rest(bs) + more)
    ensures Rest(bs + more) == Rest(Rest(bs) + more)
    decreases |bs|
  {
    var h := ParseOne(bs);
    if h.Whole? {
      ParseOneIff(bs, h.frame, h.rest);
      Assoc(Enc(h.frame), h.rest, more);
      ParseOneIff(bs + more, h.frame, h.rest + more);
      FramesExtend(h.rest, more);
      assert Frames(bs) == [h.frame] + Frames(h.rest);
    }
  }

  /** A length word stays illegal whatever follows it. */
  lemma IllegalSticks(bs: Bytes, more: Bytes)
    requires ParseOne(bs).Illegal?
    ensures ParseOne(bs + more) == ParseOne(bs)
  {
    assert (bs + more)[..4] == bs[..4];
  }

  /** Behind the first k frames the parse goes on with the others. */
  lemma FramesBehind(bs: Bytes, k: nat, tail: Bytes)
    requires k <= |Frames(bs)|
    requires bs == EncAll(Frames(bs)[..k]) + tail
    ensures Frames(tail) == Frames(bs)[k..]
    ensures Rest(tail) == Rest(bs)
  {
    FramesConserve(bs);
    assert Frames(bs) == Frames(bs)[..k] + Frames(bs)[k..];
    Behind(Frames(bs)[..k], Frames(bs)[k..], tail, Rest(bs));
    FramesUnique(Frames(bs)[k..], Rest(bs));
  }

  lemma Behind(front: seq<Frame>, back: seq<Frame>, tail: Bytes, r: Bytes)
    requires EncAll(front) + tail == EncAll(front + back) + r
    ensures tail == EncAll(back) + r
  {
    EncAllAppend(front, back);
    Assoc(EncAll(front), EncAll(back), r);
    Cancel(EncAll(front), tail, EncAll(back) + r);
  }

  /**
   * Frames taken one at a time off the front of a stream are the first frames of its whole
   * parse, so a reader that asks for exact lengths and one that buffers what arrives agree;
   * and they stop at the same illegal length.
   */
  lemma ReadsAgreeWithParse(stream: Bytes, taken: seq<Frame>, tail: Bytes)
    requires stream == EncAll(taken) + tail && forall f | f in taken :: Fits(f)
    ensures Frames(stream) == taken + Frames(tail) && Rest(stream) == Rest(tail)
    ensures ParseOne(tail).Illegal? ==> Frames(stream) == taken && ParseOne(Rest(stream)) == ParseOne(tail)
  {
    FramesConserve(tail);
    EncAllAppend(taken, Frames(tail));
    Assoc(EncAll(taken), EncAll(Frames(tail)), Rest(tail));
    FramesUnique(taken + Frames(tail), Rest(tail));
  }

  /**
   * encode_frame and the parser are inverse: whatever it emits reads back as the
   * masked type and the payload, and it refuses exactly what cannot be read back.
   */
  lemma EncodeFrameReadsBack(msgType: int, payload: Bytes, rest: Bytes)
    ensures EncodeFrame(msgType, payload).Framed? <==> Fits(Frame(msgType % 256, payload))
    ensures EncodeFrame(msgType, payload).Framed? ==>
              ParseOne(EncodeFrame(msgType, payload).bytes + rest) == Whole(Frame(msgType % 256, payload), rest)
  {
    if EncodeFrame(msgType, payload).Framed? {
      ParseOneIff(EncodeFrame(msgType, payload).bytes + rest, Frame(msgType % 256, payload), rest);
    }
  }
}
