/**
 * End-to-end TLS over a pipe: the pump that moves ciphertext between an arbitrary TLS object
 * and a raw stream through two memory buffers.
 */
module TlsPump {
  import opened Bytes

  /** What one call of the TLS object does: the ciphertext it leaves in the outgoing buffer, and how it ends. */
  datatype TlsStep = TlsStep(out: Bytes, end: TlsEnd)

  datatype TlsEnd =
    | WantRead
    | WantWrite
    | Finished(data: Bytes, taken: nat)  // plaintext read; how much of a write was taken, less one
    | CloseNotify                        // SSLZeroReturnError
    | TlsFault

  datatype RawRead = Data(bytes: Bytes) | Closed | ReadFault

  datatype RawSend = All | Part(k: nat)  // a failed sendall may have sent some bytes

  /** The calls the pump makes of the TLS object. */
  datatype Call = DoHandshake | Read(n: nat) | Write(view: Bytes)

  datatype Outcome =
    | Returned(data: Bytes, written: nat)
    | ZeroReturn
    | TlsError
    | RawError

  // ---- what decides a call ------------------------------------------------------------

  /** How one call of _io ends: a raw failure, or a step of the TLS object with so much left in the outgoing buffer. */
  datatype Turn = Broke | Settled(step: TlsStep, left: Bytes)

  predicate Sendable(pending: Bytes, sends: seq<RawSend>) {
    pending == [] || sends == [] || sends[0].All?
  }

  function Sent(pending: Bytes, sends: seq<RawSend>): seq<RawSend> {
    if pending == [] || sends == [] then sends else sends[1..]
  }

  /** The step that decides a call, from what the TLS object and the raw stream are going to do. */
  function Decide(tls: seq<TlsStep>, inbox: seq<RawRead>, sends: seq<RawSend>, out: Bytes): Turn
    decreases tls
  {
    if tls == [] then Settled(TlsStep([], TlsFault), out)
    else
      var full := out + tls[0].out;
      match tls[0].end
      case WantRead =>
        if !Sendable(full, sends) || inbox == [] || inbox[0].ReadFault? then Broke
        else Decide(tls[1..], inbox[1..], Sent(full, sends), [])
      case WantWrite =>
        if !Sendable(full, sends) then Broke else Decide(tls[1..], inbox, Sent(full, sends), [])
      case Finished(_, _) =>
        if !Sendable(full, sends) then Broke else Settled(tls[0], full)
      case CloseNotify => Settled(tls[0], full)
      case TlsFault => Settled(tls[0], full)
  }

  /** The outcome of a call, and its buffer afterwards, are what the deciding step makes them. */
  predicate Ended(d: Turn, r: Outcome, outgoing: Bytes) {
    match d
    case Broke => r.RawError? && outgoing == []
    case Settled(step, left) =>
      match step.end
      case Finished(_, _) => r.Returned? && outgoing == []
      case CloseNotify => r.ZeroReturn? && outgoing == left
      case _ => r.TlsError? && outgoing == left
  }

  /** A read of at most n bytes yields no more than the object has. */
  function Yielded(data: Bytes, n: nat): Bytes {
    if |data| <= n then data else data[..n]
  }

  /** A read may get less data and a write may take less than the object offers. */
  predicate SameEnd(a: TlsEnd, b: TlsEnd) {
    if a.Finished? then b.Finished? else a == b
  }

  /** On an empty buffer, what is left is what the deciding step wrote: every earlier step was flushed. */
  lemma {:induction false} LeftIsLastOutput(tls: seq<TlsStep>, inbox: seq<RawRead>, sends: seq<RawSend>, out: Bytes)
    requires Decide(tls, inbox, sends, out).Settled?
    ensures var d := Decide(tls, inbox, sends, out);
      && (out == [] ==> d.left == d.step.out)
      && (d.left == d.step.out || d.left == out + d.step.out)
      && !d.step.end.WantRead? && !d.step.end.WantWrite?
    decreases tls
  {
    if tls != [] {
      var full := out + tls[0].out;
      if tls[0].end.WantRead? {
        LeftIsLastOutput(tls[1..], inbox[1..], Sent(full, sends), []);
      } else if tls[0].end.WantWrite? {
        LeftIsLastOutput(tls[1..], inbox, Sent(full, sends), []);
      }
    }
  }

  class TlsOverStream {
    var tls: seq<TlsStep>       // how the TLS object will behave
    var inbox: seq<RawRead>     // how the raw stream will behave
    var sends: seq<RawSend>
    var outgoing: Bytes         // MemoryBIO the TLS object writes
    var incoming: Bytes         // all that was ever put in the MemoryBIO it reads
    var incomingEof: bool
    var wire: Bytes             // bytes sent on the raw stream
    ghost var produced: Bytes   // all ciphertext the TLS object produced
    ghost var received: Bytes   // all bytes the raw stream delivered
    ghost var accepted: Bytes   // all plaintext the TLS object took from writes
    ghost var yielded: Bytes    // all plaintext the TLS object gave to reads
    ghost var lost: bool        // a raw send failed

    /** Conservation, in both directions, as long as no raw send has failed. */
    ghost predicate Valid()
      reads this
    {
      && (!lost ==> produced == wire + outgoing)
      && incoming == received
    }

    /** The buffers before any call. */
    constructor Start(tls: seq<TlsStep>, inbox: seq<RawRead>, sends: seq<RawSend>)
      ensures Valid() && outgoing == [] && wire == [] && incoming == [] && !incomingEof && !lost
      ensures accepted == [] && yielded == []
      ensures this.tls == tls && this.inbox == inbox && this.sends == sends
    {
      this.tls, this.inbox, this.sends := tls, inbox, sends;
      outgoing, incoming, incomingEof, wire := [], [], false, [];
      produced, received, accepted, yielded, lost := [], [], [], [], false;
    }

    /** One call of the TLS object. */
    method TlsCall(call: Call) returns (end: TlsEnd)
      requires Valid()
      modifies this`tls, this`outgoing, this`produced, this`accepted, this`yielded
      ensures Valid() && |tls| <= |old(tls)| && old(produced) <= produced
      ensures end.WantRead? || end.WantWrite? ==> |tls| < |old(tls)|
      ensures old(tls) == [] ==> end.TlsFault? && tls == [] && outgoing == old(outgoing)
      ensures old(tls) != [] ==> SameEnd(end, old(tls)[0].end) && tls == old(tls)[1..] && outgoing == old(outgoing) + old(tls)[0].out
      ensures end.Finished? && call.Write? && call.view != [] ==> 1 <= end.taken <= |call.view|
      ensures end.Finished? && call.Read? ==> end.data == Yielded(old(tls)[0].end.data, call.n)
      ensures yielded == old(yielded) + if end.Finished? && call.Read? then end.data else []
      ensures accepted == old(accepted) + if end.Finished? && call.Write? && call.view != [] then call.view[..end.taken] else []
    {
      if tls == [] {
        return TlsFault;
      }
      var step := tls[0];
      tls := tls[1..];
      outgoing, produced := outgoing + step.out, produced + step.out;
      end := step.end;
      if end.Finished? {
        match call
        case DoHandshake =>
        case Read(n) =>
          end := end.(data := if |end.data| <= n then end.data else end.data[..n]);
          yielded := yielded + end.data;
        case Write(view) =>
          if view != [] {
            end := end.(taken := if end.taken + 1 <= |view| then end.taken + 1 else |view|);
            accepted := accepted + view[..end.taken];
          }
      }
    }

    /** The raw stream's sendall. */
    method RawSendAll(data: Bytes) returns (ok: bool)
      requires data != []
      modifies this`sends, this`wire, this`lost
      ensures (ok <==> Sendable(data, old(sends))) && sends == Sent(data, old(sends))
      ensures ok ==> wire == old(wire) + data && lost == old(lost)
      ensures !ok ==> lost && old(wire) <= wire <= old(wire) + data
    {
      var fate := if sends == [] then All else sends[0];
      sends := if sends == [] then [] else sends[1..];
      match fate
      case All =>
        wire := wire + data;
        ok := true;
      case Part(k) =>
        wire := wire + if k <= |data| then data[..k] else data;
        lost, ok := true, false;
    }

    /** The raw stream's recv. It may block, so nothing may be waiting to go out. */
    method RawRecv() returns (r: RawRead)
      requires outgoing == []
      modifies this`inbox, this`received
      ensures received == old(received) + if r.Data? then r.bytes else []
      ensures r.Data? ==> r.bytes != [] && old(inbox) != [] && old(inbox)[0] == r
      ensures r.Closed? ==> old(inbox) != [] && (old(inbox)[0] == Closed || old(inbox)[0] == Data([]))
      ensures r.ReadFault? <==> old(inbox) == [] || old(inbox)[0].ReadFault?
      ensures !r.ReadFault? ==> inbox == old(inbox)[1..]
    {
      if inbox == [] {
        return ReadFault;
      }
      r := inbox[0];
      inbox := inbox[1..];
      if r == Data([]) {
        r := Closed;
      }
      received := received + if r.Data? then r.bytes else [];
    }

    /** _flush */
    method Flush() returns (ok: bool)
      requires Valid()
      modifies this`outgoing, this`sends, this`wire, this`lost
      ensures Valid() && outgoing == []
      ensures (ok <==> Sendable(old(outgoing), old(sends))) && sends == Sent(old(outgoing), old(sends))
      ensures ok ==> lost == old(lost)
      ensures !ok ==> lost && (!old(lost) ==> wire <= produced)
    {
      var pending := outgoing;
      outgoing := [];
      ok := true;
      if pending != [] {
        ok := RawSendAll(pending);
      }
    }

    /** What _io does when the TLS object wants to read: flush first, then wait for input. */
    method Refill() returns (ok: bool)
      requires Valid()
      modifies this`outgoing, this`sends, this`wire, this`lost, this`inbox, this`received, this`incoming, this`incomingEof
      ensures Valid() && outgoing == []
      ensures ok <==> Sendable(old(outgoing), old(sends)) && old(inbox) != [] && !old(inbox)[0].ReadFault?
      ensures ok ==> sends == Sent(old(outgoing), old(sends)) && inbox == old(inbox)[1..]
      ensures ok ==> lost == old(lost)
      ensures lost && !old(lost) ==> wire <= produced
      ensures old(received) <= received
      // what the peer sent is put in as it is, and the end of it as an end
      ensures ok ==> incoming == old(incoming) + (if old(inbox)[0].Data? then old(inbox)[0].bytes else [])
      ensures ok ==> incomingEof == (old(incomingEof) || old(inbox)[0] == Closed || old(inbox)[0] == Data([]))
      ensures !ok ==> incoming == old(incoming) && incomingEof == old(incomingEof)
    {
      ok := Flush();
      if !ok {
        return;
      }
      var read := RawRecv();
      match read
      case ReadFault => ok := false;
      case Closed => incomingEof := true;
      case Data(bytes) => incoming := incoming + bytes;
    }

    /** _io: call until the TLS object neither wants to read nor to write. */
    method Io(call: Call) returns (r: Outcome)
      requires Valid()
      modifies this
      ensures Valid()
      // every byte produced is on the wire when a call returns, and before every wait for input
      ensures r.Returned? ==> outgoing == [] && (!old(lost) ==> !lost && wire == produced)
      ensures lost && !old(lost) ==> r.RawError? && wire <= produced
      // which step decides, how, and what it leaves
      ensures Ended(Decide(old(tls), old(inbox), old(sends), old(outgoing)), r, outgoing)
      ensures old(produced) <= produced && old(received) <= received
      // a write hands over the front of its view exactly once, and nothing on an error of the pump
      ensures r.Returned? && call.Write? && call.view != [] ==>
                1 <= r.written <= |call.view| && accepted == old(accepted) + call.view[..r.written]
      ensures r.Returned? && !(call.Write? && call.view != []) ==> accepted == old(accepted)
      ensures r.ZeroReturn? || r.TlsError? ==> accepted == old(accepted)
      ensures accepted == old(accepted) || (call.Write? && exists k | 0 <= k <= |call.view| :: accepted == old(accepted) + call.view[..k])
      // a read hands over what the deciding step yields, and no plaintext is lost on the way
      ensures r.Returned? && call.Read? ==>
                r.data == Yielded(Decide(old(tls), old(inbox), old(sends), old(outgoing)).step.end.data, call.n)
      ensures r.Returned? && call.Read? ==> yielded == old(yielded) + r.data
      ensures !r.RawError? && !(r.Returned? && call.Read?) ==> yielded == old(yielded)
      ensures old(yielded) <= yielded
    {
      while true
        invariant Valid() && lost == old(lost) && accepted == old(accepted) && yielded == old(yielded)
        invariant old(produced) <= produced && old(received) <= received
        invariant Decide(tls, inbox, sends, outgoing) == Decide(old(tls), old(inbox), old(sends), old(outgoing))
        decreases |tls|
      {
        var end := TlsCall(call);
        match end
        case WantRead =>
          var ok := Refill();
          if !ok {
            return RawError;
          }
        case WantWrite =>
          var ok := Flush();
          if !ok {
            return RawError;
          }
        case CloseNotify => return ZeroReturn;
        case TlsFault => return TlsError;
        case Finished(data, taken) =>
          var ok := Flush();
          if !ok {
            return RawError;
          }
          return Returned(data, taken);
      }
    }

    /**
     * recv: plaintext; empty at the peer's close_notify. A normal return leaves the outgoing
     * buffer full exactly if the call was decided by a close_notify with something unsent, or
     * made no call of the TLS object at all on a buffer already full.
     */
    method Recv(n: int) returns (r: Outcome)
      requires Valid()
      modifies this
      ensures Valid() && accepted == old(accepted)
      ensures n <= 0 ==> r == Returned([], 0) && unchanged(this)
      ensures r.Returned? ==> n <= 0 || |r.data| <= n
      ensures r.Returned? ==> yielded == old(yielded) + r.data
      ensures n > 0 && r.Returned? ==>
                var d := Decide(old(tls), old(inbox), old(sends), old(outgoing));
                d.Settled? && r.data == if !d.step.end.Finished? then [] else if |d.step.end.data| <= n then d.step.end.data else d.step.end.data[..n]
      ensures !r.Returned? && !r.RawError? ==> yielded == old(yielded)
      ensures old(yielded) <= yielded
      ensures var d := Decide(old(tls), old(inbox), old(sends), old(outgoing));
        && (n > 0 ==> (r.Returned? <==> d.Settled? && (d.step.end.Finished? || d.step.end.CloseNotify?)))
        && (n > 0 && r.Returned? && d.step.end.CloseNotify? ==> r == Returned([], 0) && outgoing == d.left)
        && (r.Returned? ==>
              (outgoing != [] <==> if n <= 0 then old(outgoing) != [] else d.step.end.CloseNotify? && d.left != []))
      ensures r.Returned? && n > 0 && outgoing == [] && !old(lost) ==> wire == produced
    {
      if n <= 0 {
        return Returned([], 0);
      }
      r := Io(Read(n));
      if r.ZeroReturn? {
        r := Returned([], 0);
      }
    }

    /** Read after read, as a reader of the stream does: what they return is all that came out of the TLS object, in order. */
    method RecvEach(ns: seq<int>) returns (chunks: seq<Bytes>, r: Outcome)
      requires Valid()
      modifies this
      ensures Valid() && |chunks| <= |ns|
      ensures !r.RawError? ==> yielded == old(yielded) + Joined(chunks)
      ensures r.Returned? <==> |chunks| == |ns|
    {
      chunks, r := [], Returned([], 0);
      while |chunks| < |ns|
        invariant Valid() && |chunks| <= |ns|
        invariant yielded == old(yielded) + Joined(chunks)
        decreases |ns| - |chunks|
      {
        r := Recv(ns[|chunks|]);
        if !r.Returned? {
          return;
        }
        JoinedMore(chunks, r.data);
        Assoc(old(yielded), Joined(chunks), r.data);
        chunks := chunks + [r.data];
      }
      r := Returned([], 0);
    }

    /**
     * sendall: every plaintext byte is handed over once and in order, and its ciphertext is out.
     * Only the empty sendall can return on a full buffer.
     */
    method SendAll(data: Bytes) returns (r: Outcome)
      requires Valid()
      modifies this
      ensures Valid()
      ensures r.Returned? ==> accepted == old(accepted) + data
      ensures r.Returned? && !old(lost) && data != [] ==> wire == produced
      ensures r.Returned? ==> outgoing == if data == [] then old(outgoing) else []
      ensures data == [] ==> r == Returned([], 0)
      ensures exists k | 0 <= k <= |data| :: accepted == old(accepted) + data[..k]
    {
      var view := data;
      while view != []
        invariant Valid() && |view| <= |data| && view == data[|data| - |view|..]
        invariant accepted == old(accepted) + data[..|data| - |view|]
        invariant !old(lost) ==> !lost
        invariant !old(lost) && view != data ==> wire == produced
        invariant outgoing == if view == data then old(outgoing) else []
        decreases |view|
      {
        ghost var done := |data| - |view|;
        r := Io(Write(view));
        if !r.Returned? {
          PrefixOf(old(accepted), data, done, accepted);
          return;
        }
        Advance(old(accepted), data, done, r.written);
        view := view[r.written..];
      }
      assert data[..|data|] == data;
      r := Returned([], 0);
    }
  }

  /**
   * The buffer is not always empty on a normal return: an object that asks for input, gets it and
   * then answers a close_notify leaves its answer there, and an empty sendall returns on it.
   */
  method CloseNotifyStrandsOutput(input: Bytes, out: Bytes) returns (pump: TlsOverStream, r: Outcome, again: Outcome)
    ensures r == again == Returned([], 0) && pump.outgoing == out
  {
    var steps, arrivals := [TlsStep([], WantRead), TlsStep(out, CloseNotify)], [Data(input)];
    pump := new TlsOverStream.Start(steps, arrivals, []);
    assert steps[1..] == [TlsStep(out, CloseNotify)];
    r := pump.Recv(1);
    again := pump.SendAll([]);
  }

  /** Any other TLS error leaves its output too, and then an empty recv returns normally on it. */
  method TlsErrorStrandsOutput(out: Bytes) returns (pump: TlsOverStream, r: Outcome, again: Outcome)
    ensures r == TlsError && again == Returned([], 0) && pump.outgoing == out
  {
    pump := new TlsOverStream.Start([TlsStep(out, TlsFault)], [], []);
    r := pump.Io(Read(1));
    again := pump.Recv(0);
  }

  function Joined(chunks: seq<Bytes>): Bytes {
    if chunks == [] then [] else Joined(chunks[..|chunks| - 1]) + chunks[|chunks| - 1]
  }

  lemma JoinedMore(chunks: seq<Bytes>, more: Bytes)
    ensures Joined(chunks + [more]) == Joined(chunks) + more
  {
    assert (chunks + [more])[..|chunks|] == chunks;
  }

  lemma Advance(base: Bytes, data: Bytes, done: nat, k: nat)
    requires done + k <= |data|
    ensures base + data[..done] + data[done..][..k] == base + data[..done + k]
    ensures data[done..][k..] == data[done + k..]
  {
    assert data[..done] + data[done..][..k] == data[..done + k];
    Assoc(base, data[..done], data[done..][..k]);
  }

  lemma PrefixOf(base: Bytes, data: Bytes, done: nat, acc: Bytes)
    requires done <= |data|
    requires acc == base + data[..done]
      || exists k | 0 <= k <= |data| - done :: acc == base + data[..done] + data[done..][..k]
    ensures exists k | 0 <= k <= |data| :: acc == base + data[..k]
  {
    if acc != base + data[..done] {
      var k :| 0 <= k <= |data| - done && acc == base + data[..done] + data[done..][..k];
      Advance(base, data, done, k);
      assert acc == base + data[..done + k];
    }
  }
}
