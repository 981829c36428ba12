/**
 * The connections between the SDK and the Assembler. The Assembler frames well and answers the
 * frames of a connection in order, but it may answer late, stop half-way or drop a connection
 * at any point, and any wait of the client may end in a time-out or a reset.
 */
module AssemblerNet {
  import opened Bytes
  import opened Framing
  import opened Wrappers

  datatype Conn = Conn(
    open: bool,         // the client has not closed its end
    gone: bool,         // the Assembler dropped the connection, or it was reset
    wrote: Bytes,       // the client's bytes that reached the Assembler
    queue: seq<Frame>,  // the Assembler's frames: queue[k] answers the k-th frame it heard
    emitted: nat,       // how many of their bytes it has sent
    pos: nat)           // how many the client has read

  const DIALLED := Conn(true, false, [], [], 0, 0)

  /** The frames the Assembler has heard on a connection. */
  function Heard(c: Conn): seq<Frame> {
    Frames(c.wrote)
  }

  /** An answer follows its request; only the handshake may cross the client's. */
  ghost predicate ConnOk(c: Conn) {
    && |c.queue| <= (if |Heard(c)| == 0 then 1 else |Heard(c)|)
    && (forall f | f in c.queue :: Fits(f))
    && c.pos <= c.emitted <= |EncAll(c.queue)|
  }

  datatype PeerMove = Answer(f: Frame) | Emit(k: nat) | Drop

  predicate CanMove(c: Conn, m: PeerMove) {
    !c.gone &&
    match m
    case Answer(f) => Fits(f) && |c.queue| < (if |Heard(c)| == 0 then 1 else |Heard(c)|)
    case Emit(k) => c.emitted + k <= |EncAll(c.queue)|
    case Drop => true
  }

  function PeerStep(c: Conn, m: PeerMove): Conn {
    match m
    case Answer(f) => c.(queue := c.queue + [f])
    case Emit(k) => c.(emitted := c.emitted + k)
    case Drop => c.(gone := true)
  }

  /** What the Assembler alone can do to a connection. */
  ghost predicate Aged(c: Conn, d: Conn) {
    && d == c.(gone := d.gone, queue := d.queue, emitted := d.emitted)
    && c.queue <= d.queue
    && c.emitted <= d.emitted
    && (c.gone ==> d == c)
  }

  /** After a reset nothing unread will ever arrive. */
  function ResetConn(c: Conn): Conn {
    c.(gone := true, emitted := c.pos)
  }

  lemma PeerStepAges(c: Conn, m: PeerMove)
    requires ConnOk(c) && CanMove(c, m)
    ensures ConnOk(PeerStep(c, m)) && Aged(c, PeerStep(c, m))
  {
    if m.Answer? {
      EncAllSnoc(c.queue, m.f);
    }
  }

  lemma HeardMore(c: Conn, more: Bytes)
    requires ConnOk(c)
    ensures ConnOk(c.(wrote := c.wrote + more))
  {
    FramesExtend(c.wrote, more);
  }

  /** Sent bytes stay what they are. */
  lemma InboundGrows(q: seq<Frame>, r: seq<Frame>)
    requires q <= r
    ensures EncAll(q) <= EncAll(r)
  {
    EncAllAppend(q, r[|q|..]);
    assert r == q + r[|q|..];
  }

  datatype Event =
    | Peer(i: nat, m: PeerMove)
    | Move(k: nat)     // up to k + 1 bytes arrive; or a write, or the peer's end, goes through
    | Expire(k: nat)   // the deadline passes, k bytes of a write having gone out
    | ResetNow
    | DialFails

  /**
   * How the Assembler behaves. Any: every move above. OneShot is the deployed one: it serves
   * one request per connection, answers it whole and drops the connection, and no time-out
   * strikes; the dials with the numbers in `down` find it not running.
   */
  datatype Policy = Any | OneShot(hello: Frame, answer: Frame -> Frame, down: set<nat>)

  ghost predicate PolicyOk(p: Policy) {
    p.OneShot? ==> Fits(p.hello) && forall f :: Fits(p.answer(f))
  }

  /** The one-shot Assembler's reaction to what it has heard. */
  function Serve(c: Conn, hello: Frame, answer: Frame -> Frame): Conn {
    var greeted := if Heard(c) != [] && c.queue == [] then c.(queue := [hello]) else c;
    var done := |Heard(c)| >= 2 && |greeted.queue| == 1;
    var d := if done then greeted.(queue := greeted.queue + [answer(Heard(c)[1])], gone := true) else greeted;
    d.(emitted := |EncAll(d.queue)|)
  }

  /** The request a write made it serve, if any. */
  function ServedBy(c: Conn): seq<Frame> {
    if |Heard(c)| >= 2 && |c.queue| <= 1 then [Heard(c)[1]] else []
  }

  lemma ServeAges(c: Conn, p: Policy)
    requires ConnOk(c) && !c.gone && p.OneShot? && PolicyOk(p)
    ensures var d := Serve(c, p.hello, p.answer); ConnOk(d) && Aged(c, d)
  {
    InboundGrows(c.queue, Serve(c, p.hello, p.answer).queue);
  }

  datatype Sent = AllSent | SendTimeout | BrokenPipe | SendBadFd

  datatype Received = Chunk(bytes: Bytes) | RecvTimeout | ConnReset | RecvBadFd

  /** The next thing to happen is a reset. */
  predicate Resets(p: Policy, script: seq<Event>) {
    p.Any? && script != [] && script[0].ResetNow?
  }

  /** The next dial, the one after so many, will fail. */
  predicate RefusesDial(p: Policy, script: seq<Event>, dials: nat) {
    match p
    case Any => script != [] && script[0].DialFails?
    case OneShot(_, _, down) => dials in down
  }

  class Net {
    const policy: Policy
    ghost var served: seq<Frame>   // requests the one-shot Assembler has served, in order
    var conns: seq<Conn>
    var script: seq<Event>
    var dials: nat

    ghost predicate Valid()
      reads this
    {
      PolicyOk(policy) && forall i | 0 <= i < |conns| :: ConnOk(conns[i])
    }

    constructor (policy: Policy, script: seq<Event>)
      requires PolicyOk(policy)
      ensures Valid() && conns == [] && dials == 0 && served == [] && this.policy == policy && this.script == script
    {
      this.policy := policy;
      conns, dials, served := [], 0, [];
      this.script := script;
    }

    method PeerMoves(i: nat, m: PeerMove)
      requires Valid()
      modifies this`conns
      ensures Valid() && |conns| == |old(conns)|
      ensures forall j | 0 <= j < |conns| :: Aged(old(conns)[j], conns[j])
      ensures SameEnds(old(conns), conns)
    {
      if i < |conns| && CanMove(conns[i], m) {
        PeerStepAges(conns[i], m);
        conns := conns[i := PeerStep(conns[i], m)];
      }
    }

    /** A new connection, if the dial succeeds. */
    method Dial() returns (c: Option<nat>)
      requires Valid()
      modifies this`conns, this`script, this`dials
      ensures Valid() && dials == old(dials) + 1
      ensures c.None? <==> RefusesDial(policy, old(script), old(dials))
      ensures script == if old(script) == [] then [] else old(script)[1..]
      ensures c.None? ==> conns == old(conns)
      ensures c.Some? ==> c.value == |old(conns)| && conns == old(conns) + [DIALLED]
    {
      var refused := RefusesDial(policy, script, dials);
      dials := dials + 1;
      script := if script == [] then [] else script[1..];
      if refused {
        return None;
      }
      assert Frames([]) == [];
      c := Some(|conns|);
      conns := conns + [DIALLED];
    }

    method CloseConn(c: nat)
      requires Valid() && c < |conns|
      modifies this`conns
      ensures Valid()
      ensures conns == old(conns)[c := old(conns)[c].(open := false)]
    {
      conns := conns[c := conns[c].(open := false)];
    }

    method SendOneShot(c: nat, data: Bytes) returns (r: Sent)
      requires Valid() && c < |conns| && conns[c].open && policy.OneShot?
      modifies this`conns, this`script, this`served
      ensures Valid() && OneShotSend(policy, old(conns), conns, old(served), served, c, data, r)
      ensures r.AllSent? ==> Delivered(old(conns)[c], conns[c], data)
      ensures r.BrokenPipe? ==> conns[c].gone && conns[c].pos == conns[c].emitted
      ensures r.AllSent? || r.BrokenPipe?
    {
      var d := conns[c];
      if d.gone {
        if script != [] {
          var e := script[0];
          script := script[1..];
          if e.ResetNow? {
            conns := conns[c := ResetConn(d)];
            return BrokenPipe;
          }
        }
        return AllSent;
      }
      HeardMore(d, data);
      var told := d.(wrote := d.wrote + data);
      ServeAges(told, policy);
      conns := conns[c := Serve(told, policy.hello, policy.answer)];
      served := served + ServedBy(told);
      r := AllSent;
    }

    /** Writing where anything may happen on the way. */
    method SendAny(c: nat, data: Bytes) returns (r: Sent)
      requires Valid() && c < |conns| && conns[c].open && policy.Any?
      modifies this`conns, this`script
      ensures Valid() && SameBut(old(conns), conns, c)
      ensures PartWritten(old(conns)[c], conns[c], data)
      ensures r.AllSent? ==> Delivered(old(conns)[c], conns[c], data)
      ensures r.BrokenPipe? ==> conns[c].gone && conns[c].pos == conns[c].emitted
      ensures r.AllSent? || r.SendTimeout? || r.BrokenPipe?
      ensures Resets(policy, old(script)) ==> r.BrokenPipe? && script == old(script)[1..]
    {
      ghost var was := conns[c];
      NoneWritten(was, was, data);
      while script != []
        invariant Valid() && SameEnds(old(conns), conns)
        invariant Resets(policy, old(script)) ==> script == old(script)
        invariant Aged(was, conns[c])
        invariant PartWritten(was, conns[c], data)
        decreases |script|
      {
        var e := script[0];
        script := script[1..];
        match e
        case Peer(i, m) =>
          PeerMoves(i, m);
          NoneWritten(was, conns[c], data);
        case Move(_) =>
          Arrive(c, data, |data|);
          assert data[..|data|] == data;
          return AllSent;
        case Expire(k) =>
          Arrive(c, data, if k <= |data| then k else 0);
          return SendTimeout;
        case ResetNow =>
          conns := conns[c := ResetConn(conns[c])];
          NoneWritten(was, conns[c], data);
          return BrokenPipe;
        case DialFails =>
      }
      r := SendTimeout;
    }

    /** k bytes of a write arrive, if anyone is there. */
    method Arrive(c: nat, data: Bytes, k: nat)
      requires Valid() && c < |conns| && k <= |data|
      modifies this`conns
      ensures Valid() && |conns| == |old(conns)| && conns == old(conns)[c := conns[c]]
      ensures conns[c] == old(conns)[c].(wrote := if old(conns)[c].gone then old(conns)[c].wrote else old(conns)[c].wrote + data[..k])
    {
      if !conns[c].gone {
        HeardMore(conns[c], data[..k]);
        conns := conns[c := conns[c].(wrote := conns[c].wrote + data[..k])];
      }
    }

    /** `sendall`. */
    method SendAll(c: nat, data: Bytes) returns (r: Sent)
      requires Valid() && c < |conns|
      modifies this`conns, this`script, this`served
      ensures Valid() && SameBut(old(conns), conns, c)
      ensures PartWritten(old(conns)[c], conns[c], data)
      ensures policy.OneShot? ==> OneShotSend(policy, old(conns), conns, old(served), served, c, data, r)
      ensures r.SendBadFd? <==> !old(conns)[c].open
      ensures r.SendBadFd? ==> conns == old(conns)
      ensures r.AllSent? ==> Delivered(old(conns)[c], conns[c], data)
      ensures r.BrokenPipe? ==> conns[c].gone && conns[c].pos == conns[c].emitted
      ensures old(conns)[c].open && Resets(policy, old(script)) ==> r.BrokenPipe? && script == old(script)[1..]
    {
      ghost var was := conns[c];
      if !conns[c].open {
        NoneWritten(was, was, data);
        return SendBadFd;
      }
      if policy.OneShot? {
        r := SendOneShot(c, data);
        OneShotWrites(policy, was, conns[c], data);
      } else {
        r := SendAny(c, data);
      }
    }

    /** Hand over up to k + 1 unread bytes, n at most. */
    method Deliver(c: nat, k: nat, n: nat) returns (r: Received)
      requires Valid() && c < |conns| && conns[c].pos < conns[c].emitted && n > 0
      modifies this`conns
      ensures Valid() && r.Chunk? && 0 < |r.bytes| <= n
      ensures conns == old(conns)[c := old(conns)[c].(pos := old(conns)[c].pos + |r.bytes|)]
      ensures Took(old(conns)[c], conns[c], r.bytes)
    {
      var d := conns[c];
      var left := d.emitted - d.pos;
      var m := if k + 1 <= n && k + 1 <= left then k + 1 else if n <= left then n else left;
      r := Chunk(EncAll(d.queue)[d.pos..d.pos + m]);
      conns := conns[c := d.(pos := d.pos + m)];
    }

    method RecvOneShot(c: nat, n: nat) returns (r: Received)
      requires Valid() && c < |conns| && conns[c].open && n > 0
      modifies this`conns, this`script
      ensures Valid() && OneShotRecv(old(conns), conns, c, r) && !r.RecvBadFd?
      ensures Took(old(conns)[c], conns[c], if r.Chunk? then r.bytes else [])
      ensures r.Chunk? ==> |r.bytes| <= n
      ensures r == Chunk([]) || r.ConnReset? ==> conns[c].gone && conns[c].pos == conns[c].emitted
    {
      var k, reset := n, false;
      if script != [] {
        k, reset := if script[0].Move? then script[0].k else n, script[0].ResetNow?;
        script := script[1..];
      }
      if conns[c].pos < conns[c].emitted {
        r := Deliver(c, k, n);
        return;
      }
      r := if !conns[c].gone then RecvTimeout else if reset then ConnReset else Chunk([]);
    }

    /** Reading where anything may happen meanwhile. */
    method RecvAny(c: nat, n: nat) returns (r: Received)
      requires Valid() && c < |conns| && conns[c].open && n > 0
      modifies this`conns, this`script
      ensures Valid() && SameEnds(old(conns), conns) && !r.RecvBadFd?
      ensures Took(old(conns)[c], conns[c], if r.Chunk? then r.bytes else [])
      ensures r.Chunk? ==> |r.bytes| <= n
      ensures r == Chunk([]) || r.ConnReset? ==> conns[c].gone && conns[c].pos == conns[c].emitted
    {
      while script != []
        invariant Valid() && SameEnds(old(conns), conns)
        invariant Aged(old(conns)[c], conns[c])
        decreases |script|
      {
        var e := script[0];
        script := script[1..];
        match e
        case Peer(i, m) => PeerMoves(i, m);
        case Move(k) =>
          if conns[c].pos < conns[c].emitted {
            r := Deliver(c, k, n);
            return;
          } else if conns[c].gone {
            return Chunk([]);
          }
        case Expire(_) => return RecvTimeout;
        case ResetNow =>
          conns := conns[c := ResetConn(conns[c])];
          return ConnReset;
        case DialFails =>
      }
      r := RecvTimeout;
    }

    /** `recv(n)`: some bytes; none when the Assembler's end is closed and drained. */
    method Recv(c: nat, n: nat) returns (r: Received)
      requires Valid() && c < |conns| && 0 < n <= MAX_MESSAGE_SIZE
      modifies this`conns, this`script
      ensures Valid() && SameEnds(old(conns), conns)
      ensures policy.OneShot? ==> OneShotRecv(old(conns), conns, c, r)
      ensures r.RecvBadFd? <==> !old(conns)[c].open
      ensures r.RecvBadFd? ==> conns == old(conns)
      ensures Took(old(conns)[c], conns[c], if r.Chunk? then r.bytes else [])
      ensures r.Chunk? ==> |r.bytes| <= n
      ensures r == Chunk([]) || r.ConnReset? ==> conns[c].gone && conns[c].pos == conns[c].emitted
    {
      if !conns[c].open {
        return RecvBadFd;
      }
      if policy.OneShot? {
        r := RecvOneShot(c, n);
      } else {
        r := RecvAny(c, n);
      }
    }
  }

  /** No client end was opened or closed, no answer taken back, and nothing written but on c. */
  ghost predicate SameBut(cs: seq<Conn>, ds: seq<Conn>, c: nat) {
    && |cs| == |ds|
    && forall i | 0 <= i < |cs| ::
         cs[i].open == ds[i].open && cs[i].queue <= ds[i].queue && (i != c ==> cs[i].wrote == ds[i].wrote)
  }

  /** Nothing written at all. */
  ghost predicate SameEnds(cs: seq<Conn>, ds: seq<Conn>) {
    SameBut(cs, ds, |cs|)
  }

  /** Of data written to c a front got through, and none where no one was there. */
  ghost predicate PartWritten(c: Conn, d: Conn, data: Bytes) {
    exists k | 0 <= k <= |data| :: d.wrote == c.wrote + data[..k] && (c.gone ==> k == 0)
  }

  lemma NoneWritten(c: Conn, d: Conn, data: Bytes)
    requires d.wrote == c.wrote
    ensures PartWritten(c, d, data)
  {
    assert c.wrote + data[..0] == c.wrote;
  }

  lemma OneShotWrites(p: Policy, c: Conn, d: Conn, data: Bytes)
    requires p.OneShot?
    requires d.wrote == c.wrote || (!c.gone && d == Serve(c.(wrote := c.wrote + data), p.hello, p.answer))
    ensures PartWritten(c, d, data)
  {
    if d.wrote == c.wrote {
      NoneWritten(c, d, data);
    } else {
      assert data[..|data|] == data;
    }
  }

  /** Writing to the one-shot Assembler: a live connection serves, a dropped one swallows or breaks. */
  ghost predicate OneShotSend(p: Policy, cs: seq<Conn>, ds: seq<Conn>, was: seq<Frame>, served: seq<Frame>, c: nat, data: Bytes, r: Sent)
    requires c < |cs| && p.OneShot?
  {
    && |ds| == |cs| && ds == cs[c := ds[c]] && ds[c].open == cs[c].open && cs[c].queue <= ds[c].queue
    && (!cs[c].open ==> ds == cs && served == was)
    && (cs[c].open && cs[c].gone ==> r != SendTimeout && served == was && ds[c].wrote == cs[c].wrote && (r.AllSent? ==> ds == cs))
    && (cs[c].open && !cs[c].gone ==>
          var told := cs[c].(wrote := cs[c].wrote + data);
          r.AllSent? && ds[c] == Serve(told, p.hello, p.answer) && served == was + ServedBy(told))
  }

  ghost predicate OneShotRecv(cs: seq<Conn>, ds: seq<Conn>, c: nat, r: Received)
    requires c < |cs|
  {
    && |ds| == |cs| && ds == cs[c := cs[c].(pos := ds[c].pos)]
    && (cs[c].open && cs[c].pos < cs[c].emitted ==> r.Chunk? && r.bytes != [])
    && (cs[c].open && cs[c].pos == cs[c].emitted && cs[c].gone ==> (r == Chunk([]) || r.ConnReset?) && ds == cs)
  }

  /** A write went through: it reached the Assembler unless the connection was gone before. */
  ghost predicate Delivered(c: Conn, d: Conn, data: Bytes) {
    || Aged(c.(wrote := c.wrote + data), d)
    || (d.gone && Aged(c, d))
  }

  /** The client read `got`; otherwise only the Assembler, or a reset, moved. */
  ghost predicate Took(c: Conn, d: Conn, got: Bytes) {
    && d.open == c.open && d.wrote == c.wrote
    && c.queue <= d.queue && (c.gone ==> d.gone && d.queue == c.queue)
    && d.pos == c.pos + |got| <= |EncAll(d.queue)|
    && EncAll(d.queue)[c.pos..d.pos] == got
    && (c.gone ==> d.emitted <= c.emitted)
  }

  /** Two reads in a row are one. */
  lemma TookTwice(c: Conn, d: Conn, e: Conn, a: Bytes, b: Bytes)
    requires Took(c, d, a) && Took(d, e, b)
    ensures Took(c, e, a + b)
  {
    InboundGrows(d.queue, e.queue);
    Slices(EncAll(d.queue), EncAll(e.queue), c.pos, d.pos, e.pos);
  }

  lemma Slices(f: Bytes, g: Bytes, i: nat, j: nat, k: nat)
    requires f <= g && i <= j <= k <= |g| && j <= |f|
    ensures g[i..k] == f[i..j] + g[j..k]
  {
  }

  lemma TookNothing(c: Conn)
    requires ConnOk(c)
    ensures Took(c, c, [])
  {
  }
}
