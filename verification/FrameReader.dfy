/**
 * The Node client's incremental frame reader: socket events fill a buffer, `read()`
 * calls queue promises, and a drain loop settles promises from the buffer.
 */
module FrameReader {
  import opened Bytes
  import opened Framing
  import opened Wrappers

  datatype ReadError =
    | IllegalLength(msgLen: nat)   // zero, or above the maximum
    | PeerClosed                   // 'end' or 'close' without an error
    | SocketError(code: int)       // the 'error' event's own error

  datatype Promise = Pending | Resolved(frame: Frame) | Rejected(error: ReadError)

  datatype Event =
    | Data(chunk: Bytes)
    | Read
    | Close(error: Option<ReadError>)

  /**
   * Everything a run of events can be remembered by: the bytes and the reads up to the
   * first close, that close, and the bytes and reads after it.
   */
  datatype View = View(bytes: Bytes, asked: nat, close: Option<ReadError>, lateBytes: Bytes, lateAsked: nat)

  const START := View([], 0, None, [], 0)

  function Next(v: View, e: Event): View {
    match e
    case Data(chunk) =>
      if v.close.None? then v.(bytes := v.bytes + chunk) else v.(lateBytes := v.lateBytes + chunk)
    case Read =>
      if v.close.None? then v.(asked := v.asked + 1) else v.(lateAsked := v.lateAsked + 1)
    case Close(error) =>
      if v.close.None? then v.(close := Some(if error.Some? then error.value else PeerClosed)) else v
  }

  function Run(v: View, es: seq<Event>): View
    decreases |es|
  {
    if es == [] then v else Run(Next(v, es[0]), es[1..])
  }

  /** What the whole byte stream says about the i-th read, with no socket trouble. */
  function FromStream(bs: Bytes, i: nat): Promise {
    if i < |Frames(bs)| then Resolved(Frames(bs)[i])
    else if ParseOne(Rest(bs)).Illegal? then Rejected(IllegalLength(ParseOne(Rest(bs)).msgLen))
    else Pending
  }

  /** What the i-th promise must be after a run. */
  function Expected(v: View, i: nat): Promise {
    var early := if i < v.asked then FromStream(v.bytes, i) else Pending;
    if early.Pending? && v.close.Some? then Rejected(v.close.value) else early
  }

  /** How many frames the reads of a run have taken. */
  function Taken(v: View): nat {
    if v.asked < |Frames(v.bytes)| then v.asked else |Frames(v.bytes)|
  }

  /** The waiters are the newest promises, oldest first, and only they are pending. */
  ghost predicate Queue(promises: seq<Promise>, waiters: seq<nat>) {
    && |waiters| <= |promises|
    && (forall j :: 0 <= j < |waiters| ==> waiters[j] == |promises| - |waiters| + j)
    && (forall i :: 0 <= i < |promises| ==> (promises[i].Pending? <==> i >= |promises| - |waiters|))
  }

  /** The settled promises agree with the stream; `taken` frames have left the buffer for them. */
  ghost predicate Handed(bs: Bytes, taken: nat, buffer: Bytes, promises: seq<Promise>, settled: nat) {
    && settled <= |promises| && taken <= settled
    && Cut(bs, taken, buffer)
    && (taken < settled ==> ParseOne(buffer).Illegal?)
    && (forall i :: 0 <= i < settled ==> promises[i] == FromStream(bs, i))
  }

  /** Every promise is what the events so far determine. */
  ghost predicate Answered(promises: seq<Promise>, v: View) {
    && |promises| == v.asked + v.lateAsked
    && (forall i :: 0 <= i < |promises| ==> promises[i] == Expected(v, i))
  }

  /** What a closed reader has handed out and still holds. */
  ghost predicate Kept(v: View, taken: nat, buffer: Bytes) {
    && taken == Taken(v)
    && v.bytes + v.lateBytes == EncAll(Frames(v.bytes)[..taken]) + buffer
  }

  class FrameReader {
    var buffer: Bytes
    var waiters: seq<nat>        // numbers of the unsettled promises, oldest first
    var promises: seq<Promise>   // what each read() handed out, in call order
    var closed: bool
    var closeError: Option<ReadError>
    ghost var view: View         // the events seen so far
    ghost var taken: nat         // frames handed out so far

    /** Between events and inside the drain loop, while the socket is open. */
    ghost predicate Draining()
      reads this
    {
      && !closed && view == View(view.bytes, |promises|, None, [], 0)
      && Queue(promises, waiters)
      && Handed(view.bytes, taken, buffer, promises, |promises| - |waiters|)
    }

    /** Between events: the promises are right, and no waiter is left before a whole or bad frame. */
    ghost predicate Valid()
      reads this
    {
      && Answered(promises, view)
      && closed == view.close.Some?
      && if closed then closeError == view.close && waiters == [] && Kept(view, taken, buffer)
         else Draining() && (waiters == [] || ParseOne(buffer).Short?)
    }

    constructor ()
      ensures Valid()
      ensures view == START
    {
      buffer, waiters, promises, closed, closeError := [], [], [], false, None;
      view, taken := START, 0;
      new;
      NothingYet(buffer, promises);
      assert Queue(promises, waiters);
      assert view == View(view.bytes, |promises|, None, [], 0);
      assert Handed(view.bytes, taken, buffer, promises, 0);
      assert |promises| - |waiters| == 0;
      assert Draining();
      assert Answered(promises, view);
    }

    /** Settle the oldest promise. */
    method SettleHead(outcome: Promise)
      requires waiters != [] && Queue(promises, waiters) && !outcome.Pending?
      modifies this`waiters, this`promises
      ensures Queue(promises, waiters)
      ensures waiters == old(waiters)[1..]
      ensures promises == old(promises)[old(|promises| - |waiters|) := outcome]
    {
      promises := promises[waiters[0] := outcome];
      waiters := waiters[1..];
    }

    /** Hand the head of the buffer to the oldest waiter; false if it is not a whole frame. */
    method TryReadOne() returns (progress: bool)
      requires Draining() && waiters != []
      modifies this`buffer, this`waiters, this`promises, this`taken
      ensures Draining()
      ensures progress == !old(ParseOne(buffer)).Short?
      ensures |waiters| == old(|waiters|) - (if progress then 1 else 0)
      ensures !progress ==> unchanged(this)
    {
      if |buffer| < 4 {
        return false;
      }
      var msgLen := FromBE(buffer[..4]);
      ghost var settled := |promises| - |waiters|;
      if msgLen == 0 || msgLen > MAX_MESSAGE_SIZE {
        HandIllegal(view.bytes, taken, buffer, promises, settled);
        SettleHead(Rejected(IllegalLength(msgLen)));
        return true;
      }
      if |buffer| < 4 + msgLen {
        return false;
      }
      var frame := buffer[4..4 + msgLen];
      var msgType, payload := frame[0], frame[1..];
      assert ParseOne(buffer) == Whole(Frame(msgType, payload), buffer[4 + msgLen..]) by {
        assert buffer[5..4 + msgLen] == payload;
      }
      HandFrame(view.bytes, taken, buffer, promises, settled);
      buffer := buffer[4 + msgLen..];
      SettleHead(Resolved(Frame(msgType, payload)));
      taken := taken + 1;
      progress := true;
    }

    method Drain()
      requires Draining()
      modifies this`buffer, this`waiters, this`promises, this`taken
      ensures Valid()
    {
      var more := |waiters| > 0;
      while more
        invariant Draining()
        invariant more ==> waiters != []
        invariant !more ==> waiters == [] || ParseOne(buffer).Short?
        decreases |waiters|, more
      {
        var progress := TryReadOne();
        more := progress && |waiters| > 0;
      }
      DrainedIsAnswered(view, taken, buffer, promises, waiters);
    }

    method OnData(chunk: Bytes)
      requires Valid()
      modifies this
      ensures Valid()
      ensures view == Next(old(view), Data(chunk))
      ensures closed == old(closed) && closeError == old(closeError)
      ensures old(closed) ==> promises == old(promises)
    {
      if closed {
        // no waiter is left, so the drain loop would not run
        LateChunk(view, taken, buffer, chunk);
        buffer := buffer + chunk;
        view := Next(view, Data(chunk));
        return;
      }
      MoreBytes(view.bytes, taken, buffer, promises, |promises| - |waiters|, chunk);
      buffer := buffer + chunk;
      view := Next(view, Data(chunk));
      Drain();
    }

    method RejectWaiters(err: ReadError)
      requires Queue(promises, waiters)
      modifies this`waiters, this`promises
      ensures waiters == [] && |promises| == |old(promises)|
      ensures forall i :: 0 <= i < |promises| ==>
        promises[i] == if old(promises)[i].Pending? then Rejected(err) else old(promises)[i]
    {
      var k := 0;
      while k < |waiters|
        modifies this`promises
        invariant 0 <= k <= |waiters|
        invariant |promises| == |old(promises)|
        invariant forall i :: 0 <= i < |promises| ==>
          promises[i] == if |promises| - |waiters| <= i < |promises| - |waiters| + k then Rejected(err)
                         else old(promises)[i]
      {
        promises := promises[waiters[k] := Rejected(err)];
        k := k + 1;
      }
      waiters := [];
    }

    method OnClose(err: Option<ReadError>)
      requires Valid()
      modifies this
      ensures Valid()
      ensures view == Next(old(view), Close(err))
      // all that were pending get the error of this close, unless there was one before; nothing else changes
      ensures old(closed) ==> promises == old(promises) && closeError == old(closeError)
      ensures !old(closed) ==> closeError == Some(if err.Some? then err.value else PeerClosed)
      ensures closed && |promises| == |old(promises)|
      ensures !old(closed) ==> forall i | 0 <= i < |promises| ::
                promises[i] == if !old(promises)[i].Pending? then old(promises)[i]
                               else if err.Some? then Rejected(err.value) else Rejected(PeerClosed)
    {
      if closed {
        return;
      }
      OpenIsKept(view, taken, buffer, promises, waiters);
      closed := true;
      closeError := Some(if err.Some? then err.value else PeerClosed);
      RejectWaiters(closeError.value);
      view := Next(view, Close(err));
    }

    method OnError(err: ReadError)
      requires Valid()
      modifies this
      ensures Valid()
      ensures view == Next(old(view), Close(Some(err)))
      ensures old(closed) ==> promises == old(promises)
      ensures closed && |promises| == |old(promises)|
      ensures !old(closed) ==> forall i | 0 <= i < |promises| ::
                promises[i] == if old(promises)[i].Pending? then Rejected(err) else old(promises)[i]
    {
      OnClose(Some(err));
    }

    /** Returns the number of the promise handed out. */
    method Read() returns (p: nat)
      requires Valid()
      modifies this
      ensures Valid()
      ensures view == Next(old(view), Event.Read)
      ensures p == old(|promises|)
      // on a closed reader the new promise has the error of the first close, and nothing else changes
      ensures closed == old(closed) && closeError == old(closeError)
      ensures old(closed) ==> closeError.Some? && promises == old(promises) + [Rejected(closeError.value)]
    {
      p := |promises|;
      if closed {
        promises := promises + [Rejected(if closeError.Some? then closeError.value else PeerClosed)];
        view := Next(view, Event.Read);
        return;
      }
      promises := promises + [Pending];
      waiters := waiters + [p];
      view := Next(view, Event.Read);
      Drain();
    }
  }

  // ---- the steps, on values ---------------------------------------------------

  lemma NothingYet(buffer: Bytes, ps: seq<Promise>)
    requires buffer == [] && ps == []
    ensures Handed(buffer, 0, buffer, ps, 0)
  {
    assert EncAll(Frames(buffer)[..0]) == [];
  }

  lemma HandIllegal(bs: Bytes, taken: nat, buffer: Bytes, ps: seq<Promise>, settled: nat)
    requires Handed(bs, taken, buffer, ps, settled) && settled < |ps|
    requires ParseOne(buffer).Illegal?
    ensures Handed(bs, taken, buffer, ps[settled := Rejected(IllegalLength(ParseOne(buffer).msgLen))], settled + 1)
  {
    CutParse(bs, taken, buffer);
  }

  lemma HandFrame(bs: Bytes, taken: nat, buffer: Bytes, ps: seq<Promise>, settled: nat)
    requires Handed(bs, taken, buffer, ps, settled) && settled < |ps|
    requires ParseOne(buffer).Whole?
    ensures Handed(bs, taken + 1, ParseOne(buffer).rest, ps[settled := Resolved(ParseOne(buffer).frame)], settled + 1)
  {
    CutNext(bs, taken, buffer);
  }

  lemma MoreBytes(bs: Bytes, taken: nat, buffer: Bytes, ps: seq<Promise>, settled: nat, chunk: Bytes)
    requires Handed(bs, taken, buffer, ps, settled)
    requires forall i :: 0 <= i < settled ==> !ps[i].Pending?
    ensures Handed(bs + chunk, taken, buffer + chunk, ps, settled)
  {
    CutExtend(bs, taken, buffer, chunk);
    FramesExtend(bs, chunk);
    if ParseOne(buffer).Illegal? {
      IllegalSticks(buffer, chunk);
    }
    if ParseOne(Rest(bs)).Illegal? {
      IllegalSticks(Rest(bs), chunk);
    }
  }

  lemma DrainedIsAnswered(v: View, taken: nat, buffer: Bytes, ps: seq<Promise>, ws: seq<nat>)
    requires v == View(v.bytes, |ps|, None, [], 0)
    requires Queue(ps, ws) && Handed(v.bytes, taken, buffer, ps, |ps| - |ws|)
    requires ws == [] || ParseOne(buffer).Short?
    ensures Answered(ps, v)
  {
    if ws != [] {
      CutParse(v.bytes, taken, buffer);
      assert Frames(buffer) == [];
    }
  }

  lemma OpenIsKept(v: View, taken: nat, buffer: Bytes, ps: seq<Promise>, ws: seq<nat>)
    requires v == View(v.bytes, |ps|, None, [], 0)
    requires Queue(ps, ws) && Handed(v.bytes, taken, buffer, ps, |ps| - |ws|)
    requires ws == [] || ParseOne(buffer).Short?
    ensures Kept(v, taken, buffer)
  {
    CutParse(v.bytes, taken, buffer);
    assert v.bytes + [] == v.bytes;
  }

  lemma LateChunk(v: View, taken: nat, buffer: Bytes, chunk: Bytes)
    requires v.close.Some? && Kept(v, taken, buffer)
    ensures Kept(Next(v, Data(chunk)), taken, buffer + chunk)
  {
    Assoc(v.bytes, v.lateBytes, chunk);
    Assoc(EncAll(Frames(v.bytes)[..taken]), buffer, chunk);
  }

  /** Which reads get a frame: exactly the first ones, as many as frames and reads came before the close. */
  lemma ResolvedIff(v: View, i: nat)
    ensures Expected(v, i).Resolved? <==> i < Taken(v)
    ensures i < Taken(v) ==> Expected(v, i) == Resolved(Frames(v.bytes)[i])
  {
  }

  /** A promise settles at most once: no later event changes a settled outcome. */
  lemma {:induction false} SettlesOnce(v: View, es: seq<Event>, i: nat)
    requires !Expected(v, i).Pending?
    requires v.close.Some? || i < v.asked
    ensures Expected(Run(v, es), i) == Expected(v, i)
    decreases |es|
  {
    if es != [] {
      var w := Next(v, es[0]);
      if es[0].Data? && v.close.None? {
        FramesExtend(v.bytes, es[0].chunk);
        if ParseOne(Rest(v.bytes)).Illegal? {
          IllegalSticks(Rest(v.bytes), es[0].chunk);
        }
      }
      SettlesOnce(w, es[1..], i);
    }
  }

  /** Promises settle in the order the reads were made. */
  lemma SettlesInOrder(v: View, i: nat, j: nat)
    requires i < j && !Expected(v, j).Pending?
    requires v.close.Some? || j < v.asked
    ensures !Expected(v, i).Pending?
  {
  }

  function DataOf(es: seq<Event>): Bytes {
    if es == [] then []
    else (if es[0].Data? then es[0].chunk else []) + DataOf(es[1..])
  }

  function ReadsOf(es: seq<Event>): nat {
    if es == [] then 0 else (if es[0].Read? then 1 else 0) + ReadsOf(es[1..])
  }

  /**
   * While the socket is open only the concatenated bytes and the number of reads count:
   * chunk boundaries and the interleaving of reads with data do not.
   */
  lemma {:induction false} ChunkingIrrelevant(v: View, es: seq<Event>)
    requires v.close.None?
    requires forall e | e in es :: !e.Close?
    ensures Run(v, es) == v.(bytes := v.bytes + DataOf(es), asked := v.asked + ReadsOf(es))
    decreases |es|
  {
    if es == [] {
      assert v.bytes + [] == v.bytes;
    } else {
      ChunkingIrrelevant(Next(v, es[0]), es[1..]);
      if es[0].Data? {
        Assoc(v.bytes, es[0].chunk, DataOf(es[1..]));
      } else {
        assert DataOf(es) == DataOf(es[1..]);
      }
    }
  }

  /** A list of frames, sent in any chunks among any reads, resolves the reads to that list in order. */
  lemma DeliversInOrder(fs: seq<Frame>, es: seq<Event>, i: nat)
    requires forall f | f in fs :: Fits(f)
    requires forall e | e in es :: !e.Close?
    requires DataOf(es) == EncAll(fs)
    requires i < ReadsOf(es)
    ensures Expected(Run(START, es), i) == if i < |fs| then Resolved(fs[i]) else Pending
  {
    ChunkingIrrelevant(START, es);
    assert START.bytes + DataOf(es) == EncAll(fs) + [];
    FramesUnique(fs, []);
  }

  lemma {:induction false} RunAppend(v: View, es: seq<Event>, more: seq<Event>)
    ensures Run(v, es + more) == Run(Run(v, es), more)
    decreases |es|
  {
    if es == [] {
      assert es + more == more;
    } else {
      RunAppend(Next(v, es[0]), es[1..], more);
      assert (es + more)[1..] == es[1..] + more;
    }
  }

  /** A closed reader's reads are rejected with the error of that close, whatever comes after. */
  lemma {:induction false} StaysClosed(v: View, es: seq<Event>)
    requires v.close.Some?
    ensures var w := Run(v, es); w.close == v.close && w.bytes == v.bytes && w.asked == v.asked
    decreases |es|
  {
    if es != [] {
      StaysClosed(Next(v, es[0]), es[1..]);
    }
  }

  /**
   * The first close of a run decides every read that was pending then and every later one: they
   * are rejected with the error it carries, or with "peer closed" if it carries none.
   */
  lemma FirstCloseDecides(before: seq<Event>, error: Option<ReadError>, after: seq<Event>, i: nat)
    requires forall e | e in before :: !e.Close?
    ensures var then_, now := Expected(Run(START, before), i), Expected(Run(START, before + ([Close(error)] + after)), i);
      now == if i < ReadsOf(before) && !then_.Pending? then then_
             else match error
                  case Some(e) => Rejected(e)
                  case None => Rejected(PeerClosed)
  {
    var v := Run(START, before);
    ChunkingIrrelevant(START, before);
    RunAppend(START, before, [Close(error)] + after);
    assert ([Close(error)] + after)[1..] == after;
    StaysClosed(Next(v, Close(error)), after);
  }

  /** An illegal length word rejects every read beyond the frames before it, with the length it gave. */
  lemma IllegalLengthRejects(fs: seq<Frame>, word: Bytes, tail: Bytes, es: seq<Event>, i: nat)
    requires forall f | f in fs :: Fits(f)
    requires forall e | e in es :: !e.Close?
    requires |word| == 4 && (FromBE(word) == 0 || FromBE(word) > 65536)
    requires DataOf(es) == EncAll(fs) + (word + tail) && i < ReadsOf(es)
    ensures Expected(Run(START, es), i) == if i < |fs| then Resolved(fs[i]) else Rejected(IllegalLength(FromBE(word)))
  {
    ChunkingIrrelevant(START, es);
    assert START.bytes + DataOf(es) == DataOf(es);
    assert (word + tail)[..4] == word;
    FramesUnique(fs, word + tail);
  }

  /** After an illegal length word no read beyond the frames before it ever resolves. */
  lemma IllegalLengthEndsDelivery(v: View, es: seq<Event>, i: nat)
    requires ParseOne(Rest(v.bytes)).Illegal?
    requires i >= |Frames(v.bytes)|
    ensures !Expected(Run(v, es), i).Resolved?
    decreases |es|
  {
    if es != [] {
      if es[0].Data? && v.close.None? {
        FramesExtend(v.bytes, es[0].chunk);
        IllegalSticks(Rest(v.bytes), es[0].chunk);
      }
      IllegalLengthEndsDelivery(Next(v, es[0]), es[1..], i);
    }
  }

  /** `tail` is what is left of `bs` once its first k frames are gone. */
  ghost predicate Cut(bs: Bytes, k: nat, tail: Bytes) {
    k <= |Frames(bs)| && bs == EncAll(Frames(bs)[..k]) + tail
  }

  lemma CutParse(bs: Bytes, k: nat, tail: Bytes)
    requires Cut(bs, k, tail)
    ensures Frames(tail) == Frames(bs)[k..] && Rest(tail) == Rest(bs)
  {
    FramesBehind(bs, k, tail);
  }

  /** One whole frame leaves the buffer: it is the next one of the stream. */
  lemma CutNext(bs: Bytes, k: nat, tail: Bytes)
    requires Cut(bs, k, tail) && ParseOne(tail).Whole?
    ensures k < |Frames(bs)| && Frames(bs)[k] == ParseOne(tail).frame
    ensures Cut(bs, k + 1, ParseOne(tail).rest)
  {
    var h := ParseOne(tail);
    CutParse(bs, k, tail);
    var fs := Frames(bs);
    assert fs[k] == Frames(tail)[0];
    ParseOneIff(tail, h.frame, h.rest);
    assert fs[..k + 1] == fs[..k] + [h.frame];
    EncAllSnoc(fs[..k], h.frame);
    Assoc(EncAll(fs[..k]), Enc(h.frame), h.rest);
  }

  /** A chunk arrives: the frames already known stay, the new ones are in the buffer. */
  lemma CutExtend(bs: Bytes, k: nat, tail: Bytes, chunk: Bytes)
    requires Cut(bs, k, tail)
    ensures Frames(bs) <= Frames(bs + chunk)
    ensures Cut(bs + chunk, k, tail + chunk)
  {
    FramesExtend(bs, chunk);
    assert Frames(bs + chunk)[..k] == Frames(bs)[..k];
    Assoc(EncAll(Frames(bs)[..k]), tail, chunk);
  }

  // ---- the other direction ------------------------------------------------------------

  /** encodeFrame: an allocated buffer, filled from the front; the length that does not fit otherwise. */
  method EncodeIntoBuffer(msgType: int, payload: Bytes) returns (r: Result<array<Byte>, nat>)
    ensures match EncodeFrame(msgType, payload)
            case TooLarge(n) => r == Err(n)
            case Framed(bytes) => r.Ok? && fresh(r.value) && r.value[..] == bytes
  {
    var msgLen := 1 + |payload|;
    if msgLen > MAX_MESSAGE_SIZE {
      return Err(msgLen);
    }
    var frame := new Byte[4 + msgLen];
    frame[0], frame[1], frame[2], frame[3] := msgLen / 0x100_0000, msgLen / 0x1_0000 % 256, msgLen / 0x100 % 256, msgLen % 256;
    frame[4] := msgType % 256;
    forall i | 0 <= i < |payload| {
      frame[5 + i] := payload[i];
    }
    BE4(msgLen);
    assert frame[..4] == BE(4, msgLen);
    assert frame[5..] == payload;
    assert frame[..] == frame[..4] + [frame[4]] + frame[5..];
    r := Ok(frame);
  }
}
