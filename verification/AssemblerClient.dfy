/** The Python Assembler client: framed reads, the handshake, and `invoke` with its one retry. */
module AssemblerClient {
  import opened Bytes
  import opened Framing
  import opened Wrappers
  import Lists
  import opened AssemblerNet

  const MSG_TYPE_HANDSHAKE: Byte := 0x00
  const MSG_TOOL_CALL_REQUEST: Byte := 0x52
  const MSG_TOOL_CALL_RESPONSE: Byte := 0x53
  const MSG_REQUEST_REJECTED: Byte := 0x54
  const ROLE_AGENT: Byte := 0x04
  const ROLE_ASSEMBLER: Byte := 0x05
  const PROTOCOL_VERSION := 1
  const SDK_VERSION_MAJOR := 0
  const SDK_VERSION_MINOR := 5
  const SDK_VERSION_PATCH := 0

  /** What a read can raise instead of returning. */
  datatype Failure = PeerClosed | Reset | TimedOut | BadFd | IllegalLength(n: nat)

  datatype Exactly = Got(bytes: Bytes) | NotGot(why: Failure)

  datatype ReadResult = Read(frame: Frame) | Failed(why: Failure)

  /** Nothing more will ever be read from this connection. */
  predicate Spent(c: Conn) {
    c.gone && c.pos == c.emitted
  }

  /** How a failed read leaves a connection. */
  ghost predicate After(c: Conn, d: Conn, why: Failure) {
    && d.wrote == c.wrote
    && (why.PeerClosed? || why.Reset? ==> Spent(d))
  }

  /** What a run of reads for exactly n bytes did to the connections. */
  ghost predicate BytesRead(p: Policy, cs: seq<Conn>, ds: seq<Conn>, c: nat, n: nat, r: Exactly)
    requires c < |cs|
  {
    && SameEnds(cs, ds)
    && (r.Got? ==> |r.bytes| == n && Took(cs[c], ds[c], r.bytes))
    && (r.NotGot? ==> After(cs[c], ds[c], r.why) && !r.why.IllegalLength?)
    && (n > 0 ==> (r == NotGot(BadFd) <==> !cs[c].open))
    && (p.OneShot? && n > 0 ==> OneShotExact(cs, ds, c, n, r))
  }

  /** From the one-shot Assembler a read of sent bytes succeeds, and a read of none finds the end. */
  ghost predicate OneShotExact(cs: seq<Conn>, ds: seq<Conn>, c: nat, n: nat, r: Exactly)
    requires c < |cs|
  {
    && (cs[c].open && cs[c].pos + n <= cs[c].emitted ==>
          r.Got? && ds == cs[c := cs[c].(pos := cs[c].pos + n)])
    && (cs[c].open && Spent(cs[c]) ==> (r == NotGot(PeerClosed) || r == NotGot(Reset)) && ds == cs)
  }

  /** What the loop of _recv_exact has done when buf is read. */
  ghost predicate SoFar(p: Policy, cs: seq<Conn>, ds: seq<Conn>, c: nat, buf: Bytes)
    requires c < |cs|
  {
    && SameEnds(cs, ds) && Took(cs[c], ds[c], buf)
    && (buf != [] ==> cs[c].open)
    && (p.OneShot? && cs[c].open ==> ds == cs[c := cs[c].(pos := cs[c].pos + |buf|)])
  }

  /** What one recv did. */
  ghost predicate Received1(p: Policy, ms: seq<Conn>, ds: seq<Conn>, c: nat, r: Received)
    requires c < |ms|
  {
    && SameEnds(ms, ds)
    && (p.OneShot? ==> OneShotRecv(ms, ds, c, r))
    && (r.RecvBadFd? <==> !ms[c].open)
    && (r.RecvBadFd? ==> ds == ms)
    && Took(ms[c], ds[c], if r.Chunk? then r.bytes else [])
    && (r == Chunk([]) || r.ConnReset? ==> Spent(ds[c]))
  }

  lemma ChunkStep(p: Policy, cs: seq<Conn>, ms: seq<Conn>, ds: seq<Conn>, c: nat, buf: Bytes, bytes: Bytes)
    requires c < |cs| && SoFar(p, cs, ms, c, buf) && Received1(p, ms, ds, c, Chunk(bytes))
    ensures SoFar(p, cs, ds, c, buf + bytes)
  {
    TookTwice(cs[c], ms[c], ds[c], buf, bytes);
  }

  function RecvFailure(r: Received): Failure {
    match r
    case RecvTimeout => TimedOut
    case ConnReset => Reset
    case RecvBadFd => BadFd
    case Chunk(_) => PeerClosed
  }

  lemma RecvStops(p: Policy, cs: seq<Conn>, ms: seq<Conn>, ds: seq<Conn>, c: nat, n: nat, buf: Bytes, r: Received)
    requires c < |cs| && |buf| < n && SoFar(p, cs, ms, c, buf) && Received1(p, ms, ds, c, r)
    requires ConnOk(ms[c]) && (r.Chunk? ==> r.bytes == [])
    ensures BytesRead(p, cs, ds, c, n, NotGot(RecvFailure(r)))
  {
  }

  /** _recv_exact */
  method RecvExact(net: Net, c: nat, n: nat) returns (r: Exactly)
    requires net.Valid() && c < |net.conns| && n <= MAX_MESSAGE_SIZE
    modifies net`conns, net`script
    ensures net.Valid() && BytesRead(net.policy, old(net.conns), net.conns, c, n, r)
  {
    var buf: Bytes := [];
    ghost var start := net.conns;
    TookNothing(start[c]);
    while |buf| < n
      invariant net.Valid() && |buf| <= n && SoFar(net.policy, start, net.conns, c, buf)
    {
      ghost var mid := net.conns;
      var chunk := net.Recv(c, n - |buf|);
      if !chunk.Chunk? || chunk.bytes == [] {
        RecvStops(net.policy, start, mid, net.conns, c, n, buf, chunk);
        return NotGot(RecvFailure(chunk));
      }
      ChunkStep(net.policy, start, mid, net.conns, c, buf, chunk.bytes);
      buf := buf + chunk.bytes;
    }
    r := Got(buf);
  }

  /** A length word no frame has was read, of this value. */
  ghost predicate TookIllegal(c: Conn, d: Conn, n: nat) {
    exists w: Bytes :: |w| == 4 && ParseOne(w) == Illegal(n) && Took(c, d, w)
  }

  /** What reading one frame did to the connections. */
  ghost predicate FrameRead(p: Policy, cs: seq<Conn>, ds: seq<Conn>, c: nat, r: ReadResult)
    requires c < |cs|
  {
    && SameEnds(cs, ds)
    && (r.Read? ==> Fits(r.frame) && Took(cs[c], ds[c], Enc(r.frame)))
    && (r.Failed? ==> After(cs[c], ds[c], r.why))
    && (r.Failed? && r.why.IllegalLength? ==> TookIllegal(cs[c], ds[c], r.why.n))
    && (r == Failed(BadFd) <==> !cs[c].open)
    && (p.OneShot? ==> OneShotRead(cs, ds, c, r))
  }

  ghost predicate OneShotRead(cs: seq<Conn>, ds: seq<Conn>, c: nat, r: ReadResult)
    requires c < |cs|
  {
    && (cs[c].open && Spent(cs[c]) ==> (r == Failed(PeerClosed) || r == Failed(Reset)) && ds == cs)
    && (cs[c].open && Due(cs[c]) ==>
          && r == Read(cs[c].queue[|cs[c].queue| - 1])
          && ds == cs[c := cs[c].(pos := cs[c].emitted)])
  }

  /** read_frame */
  method ReadFrame(net: Net, c: nat) returns (r: ReadResult)
    requires net.Valid() && c < |net.conns|
    modifies net`conns, net`script
    ensures net.Valid() && FrameRead(net.policy, old(net.conns), net.conns, c, r)
  {
    ghost var start := net.conns;
    var lengthBytes := RecvExact(net, c, 4);
    if lengthBytes.NotGot? {
      NoWord(net.policy, start, net.conns, c, lengthBytes.why);
      return Failed(lengthBytes.why);
    }
    var msgLen := FromBE(lengthBytes.bytes);
    if msgLen == 0 || msgLen > MAX_MESSAGE_SIZE {
      BadWord(net.policy, start, net.conns, c, lengthBytes.bytes);
      return Failed(IllegalLength(msgLen));
    }
    ghost var mid := net.conns;
    var body := RecvExact(net, c, msgLen);
    if body.NotGot? {
      NoBody(net.policy, start, mid, net.conns, c, lengthBytes.bytes, body.why);
      return Failed(body.why);
    }
    r := Read(Frame(body.bytes[0], body.bytes[1..]));
    WholeFrame(net.policy, start, mid, net.conns, c, lengthBytes.bytes, body.bytes);
  }

  lemma NoWord(p: Policy, cs: seq<Conn>, ds: seq<Conn>, c: nat, why: Failure)
    requires c < |cs| && BytesRead(p, cs, ds, c, 4, NotGot(why))
    ensures FrameRead(p, cs, ds, c, Failed(why))
  {
    if Due(cs[c]) {
      LastWord(cs[c]);
    }
  }

  lemma BadWord(p: Policy, cs: seq<Conn>, ds: seq<Conn>, c: nat, w: Bytes)
    requires c < |cs| == |ds| && BytesRead(p, cs, ds, c, 4, Got(w))
    requires FromBE(w) == 0 || FromBE(w) > MAX_MESSAGE_SIZE
    ensures FrameRead(p, cs, ds, c, Failed(IllegalLength(FromBE(w))))
  {
    assert w[..4] == w;
    if p.OneShot? && cs[c].open && Due(cs[c]) {
      DueIsLegal(cs, ds, c, w);
    }
  }

  lemma DueIsLegal(cs: seq<Conn>, ds: seq<Conn>, c: nat, w: Bytes)
    requires c < |cs| == |ds| && OneShotExact(cs, ds, c, 4, Got(w))
    requires |w| == 4 && Took(cs[c], ds[c], w) && cs[c].open && Due(cs[c])
    ensures 0 < FromBE(w) <= MAX_MESSAGE_SIZE
  {
    LastWord(cs[c]);
    assert ds[c].queue == cs[c].queue;
  }

  lemma NoBody(p: Policy, cs: seq<Conn>, ms: seq<Conn>, ds: seq<Conn>, c: nat, w: Bytes, why: Failure)
    requires c < |cs| == |ms|
    requires BytesRead(p, cs, ms, c, 4, Got(w)) && 0 < FromBE(w)
    requires BytesRead(p, ms, ds, c, FromBE(w), NotGot(why))
    ensures FrameRead(p, cs, ds, c, Failed(why))
  {
    if p.OneShot? && cs[c].open && Due(cs[c]) {
      LastWord(cs[c]);
    }
  }

  lemma WholeFrame(p: Policy, cs: seq<Conn>, ms: seq<Conn>, ds: seq<Conn>, c: nat, w: Bytes, body: Bytes)
    requires c < |cs| == |ms| == |ds| && ConnOk(ds[c])
    requires BytesRead(p, cs, ms, c, 4, Got(w)) && 0 < FromBE(w) <= MAX_MESSAGE_SIZE
    requires BytesRead(p, ms, ds, c, FromBE(w), Got(body))
    ensures FrameRead(p, cs, ds, c, Read(Frame(body[0], body[1..])))
  {
    TookTwice(cs[c], ms[c], ds[c], w, body);
    FrameOfParts(w, body);
    if p.OneShot? {
      OneShotWhole(cs, ms, ds, c, w, body);
    }
  }

  lemma OneShotWhole(cs: seq<Conn>, ms: seq<Conn>, ds: seq<Conn>, c: nat, w: Bytes, body: Bytes)
    requires c < |cs| == |ms| == |ds| && ConnOk(ds[c])
    requires |w| == 4 && FromBE(w) == |body| && 0 < |body| <= MAX_MESSAGE_SIZE
    requires Took(cs[c], ms[c], w) && Took(cs[c], ds[c], w + body)
    requires OneShotExact(cs, ms, c, 4, Got(w)) && OneShotExact(ms, ds, c, |body|, Got(body))
    ensures OneShotRead(cs, ds, c, Read(Frame(body[0], body[1..])))
  {
    if cs[c].open && Due(cs[c]) {
      LastWord(cs[c]);
      var d := cs[c].(pos := cs[c].pos + 4);
      assert ms[c] == d;
      assert EncAll(d.queue)[cs[c].pos..d.pos] == w;
      assert ds[c] == d.(pos := d.emitted);
      FrameOfParts(w, body);
      FrameAtBoundary(cs[c], ds[c], |cs[c].queue| - 1, Frame(body[0], body[1..]));
    }
  }

  /** A frame read from a frame boundary is the frame the Assembler put there. */
  lemma FrameAtBoundary(c: Conn, d: Conn, k: nat, f: Frame)
    requires ConnOk(d) && k <= |d.queue| && c.pos == |EncAll(d.queue[..k])|
    requires Fits(f) && Took(c, d, Enc(f))
    ensures k < |d.queue| && f == d.queue[k]
    ensures d.pos == |EncAll(d.queue[..k + 1])|
  {
    var front, back := d.queue[..k], d.queue[k..];
    Boundary(d.queue, k);
    var tail := EncAll(back);
    assert tail == Enc(f) + tail[|Enc(f)|..];
    ParseOneIff(tail, f, tail[|Enc(f)|..]);
    if back == [] {
      assert false;
    }
    ParseOneIff(tail, back[0], EncAll(back[1..]));
    EncAllSnoc(front, f);
    assert d.queue[..k + 1] == front + [f];
  }

  lemma Boundary(q: seq<Frame>, k: nat)
    requires k <= |q|
    ensures |EncAll(q)| == |EncAll(q[..k])| + |EncAll(q[k..])|
    ensures EncAll(q)[|EncAll(q[..k])|..] == EncAll(q[k..])
  {
    assert q == q[..k] + q[k..];
    EncAllAppend(q[..k], q[k..]);
    SplitAt(EncAll(q[..k]), EncAll(q[k..]), EncAll(q));
  }

  /** Exactly the newest frame of the Assembler is unread, and all of it was sent. */
  ghost predicate Due(c: Conn) {
    && c.queue != [] && Fits(c.queue[|c.queue| - 1])
    && c.pos == |EncAll(c.queue[..|c.queue| - 1])| && c.emitted == |EncAll(c.queue)|
  }

  lemma LastWord(c: Conn)
    requires Due(c)
    ensures var f := c.queue[|c.queue| - 1];
      && c.pos + |Enc(f)| == c.emitted
      && FromBE(EncAll(c.queue)[c.pos..c.pos + 4]) == 1 + |f.payload|
  {
    var k := |c.queue| - 1;
    var f := c.queue[k];
    Boundary(c.queue, k);
    assert c.queue[k..] == [f];
    assert EncAll([f]) == Enc(f) + EncAll([]) == Enc(f);
    LengthWord(f);
    assert EncAll(c.queue)[c.pos..c.pos + 4] == Enc(f)[..4] == BE(4, 1 + |f.payload|);
  }

  /** At a frame boundary there is no illegal length word. */
  lemma NoIllegalAtBoundary(c: Conn, d: Conn, k: nat, w: Bytes)
    requires ConnOk(d) && k <= |d.queue| && c.pos == |EncAll(d.queue[..k])|
    requires |w| == 4 && Took(c, d, w)
    ensures !ParseOne(w).Illegal?
  {
    Boundary(d.queue, k);
    var back := d.queue[k..];
    if back == [] {
      assert false;
    }
    LengthWord(back[0]);
    assert w == EncAll(back)[..4] == BE(4, 1 + |back[0].payload|);
    assert w[..4] == w;
  }

  lemma FrameOfParts(w: Bytes, body: Bytes)
    requires |w| == 4 && FromBE(w) == |body| && 0 < |body| <= MAX_MESSAGE_SIZE
    ensures w + body == Enc(Frame(body[0], body[1..])) && Fits(Frame(body[0], body[1..]))
  {
    BEOfFromBE(w);
    assert body == [body[0]] + body[1..];
    Assoc(w, [body[0]], body[1..]);
  }

  /**
   * Frame after frame off a connection, over any fragmentation: starting where the j-th begins,
   * the frames read are the Assembler's next ones, and the position is where the one after begins.
   */
  method ReadFrames(net: Net, c: nat, k: nat, ghost j: nat) returns (frames: seq<Frame>, why: Option<Failure>)
    requires net.Valid() && c < |net.conns|
    requires j <= |net.conns[c].queue| && net.conns[c].pos == |EncAll(net.conns[c].queue[..j])|
    modifies net`conns, net`script
    ensures net.Valid() && SameEnds(old(net.conns), net.conns)
    ensures why.None? ==> |frames| == k && ReadUpTo(net.conns[c], j, frames)
    ensures why.Some? ==> |frames| < k && j + |frames| <= |net.conns[c].queue| && frames == net.conns[c].queue[j..j + |frames|]
  {
    frames := [];
    while |frames| < k
      invariant net.Valid() && SameEnds(old(net.conns), net.conns)
      invariant |frames| <= k && ReadUpTo(net.conns[c], j, frames)
      decreases k - |frames|
    {
      ghost var was := net.conns[c];
      var r := ReadFrame(net, c);
      if r.Failed? {
        StillThere(was, net.conns[c], j, frames);
        return frames, Some(r.why);
      }
      OneMoreRead(was, net.conns[c], j, frames, r.frame);
      frames := frames + [r.frame];
    }
    why := None;
  }

  /** These are the Assembler's frames from the j-th on, and nothing behind them was read. */
  ghost predicate ReadUpTo(c: Conn, j: nat, frames: seq<Frame>) {
    && j + |frames| <= |c.queue| && frames == c.queue[j..j + |frames|]
    && c.pos == |EncAll(c.queue[..j + |frames|])|
  }

  lemma StillThere(c: Conn, d: Conn, j: nat, frames: seq<Frame>)
    requires ReadUpTo(c, j, frames) && c.queue <= d.queue
    ensures j + |frames| <= |d.queue| && frames == d.queue[j..j + |frames|]
  {
  }

  lemma OneMoreRead(c: Conn, d: Conn, j: nat, frames: seq<Frame>, f: Frame)
    requires ReadUpTo(c, j, frames) && ConnOk(d) && Fits(f) && Took(c, d, Enc(f))
    ensures ReadUpTo(d, j, frames + [f])
  {
    var k := j + |frames|;
    assert d.queue[..k] == c.queue[..k];
    FrameAtBoundary(c, d, k, f);
    assert d.queue[j..k + 1] == d.queue[j..k] + [f];
    assert d.queue[j..k] == c.queue[j..k];
  }

  // ---- being in step ------------------------------------------------------------

  /** Every frame written was heard whole, and its answer, the last frame of the queue, was read. */
  ghost predicate InStep(c: Conn) {
    && Heard(c) != [] && Rest(c.wrote) == []
    && |c.queue| == |Heard(c)| && c.pos == |EncAll(c.queue)|
  }

  /** One request is out: it is the last frame heard, and the read position is where its answer begins. */
  ghost predicate Asked(c: Conn, req: Frame) {
    && Heard(c) != [] && Heard(c)[|Heard(c)| - 1] == req && Rest(c.wrote) == []
    && |Heard(c)| - 1 <= |c.queue| && c.pos == |EncAll(c.queue[..|Heard(c)| - 1])|
  }

  /** `f` is what the Assembler put in answer to `req`, the last frame it heard on this connection. */
  ghost predicate AnswersLast(c: Conn, req: Frame, f: Frame) {
    && Heard(c) != [] && Heard(c)[|Heard(c)| - 1] == req
    && |c.queue| == |Heard(c)| && c.queue[|c.queue| - 1] == f
  }

  lemma HeardOneMore(c: Conn, req: Frame)
    requires Rest(c.wrote) == [] && Fits(req)
    ensures Heard(c.(wrote := c.wrote + Enc(req))) == Heard(c) + [req]
    ensures Rest(c.wrote + Enc(req)) == []
  {
    FramesExtend(c.wrote, Enc(req));
    FramesUnique([req], []);
    assert EncAll([req]) + [] == Enc(req);
    assert [] + Enc(req) == Enc(req);
  }

  /** A request written in step is either heard as the next frame, or lost with the connection. */
  lemma WriteInStep(c: Conn, d: Conn, req: Frame)
    requires ConnOk(c) && ConnOk(d) && InStep(c) && Fits(req) && Delivered(c, d, Enc(req))
    ensures Asked(d, req) || Spent(d)
  {
    if Aged(c.(wrote := c.wrote + Enc(req)), d) {
      HeardOneMore(c, req);
      assert d.queue[..|Heard(c)|] == c.queue;
    } else {
      assert d.queue == c.queue;
    }
  }

  lemma SpentStays(c: Conn, d: Conn, req: Frame)
    requires ConnOk(d) && Spent(c) && Delivered(c, d, Enc(req))
    ensures Spent(d)
  {
  }

  /** A whole frame read after a request is the Assembler's answer to it, and the connection is in step. */
  lemma ReadAfterAsk(c: Conn, d: Conn, req: Frame, f: Frame)
    requires ConnOk(c) && ConnOk(d) && Fits(f) && Took(c, d, Enc(f))
    requires Asked(c, req) || Spent(c)
    ensures Asked(c, req) && AnswersLast(d, req, f) && InStep(d)
  {
    if Spent(c) {
      assert false;
    }
    var k := |Heard(c)| - 1;
    assert d.queue[..k] == c.queue[..k];
    FrameAtBoundary(c, d, k, f);
    assert d.queue[..k + 1] == d.queue;
  }

  /** So an illegal length word cannot turn up where an answer is awaited. */
  lemma NoIllegalAfterAsk(c: Conn, d: Conn, req: Frame, w: Bytes)
    requires ConnOk(c) && ConnOk(d) && |w| == 4 && Took(c, d, w)
    requires Asked(c, req) || Spent(c)
    ensures !ParseOne(w).Illegal?
  {
    if Spent(c) {
      assert false;
    }
    var k := |Heard(c)| - 1;
    assert d.queue[..k] == c.queue[..k];
    NoIllegalAtBoundary(c, d, k, w);
  }

  // ---- handshake ------------------------------------------------------------------

  function EncodeHandshake(role: int): (r: Bytes)
    ensures |r| == 9
  {
    BE(2, PROTOCOL_VERSION) + BE(2, SDK_VERSION_MAJOR) + BE(2, SDK_VERSION_MINOR) + BE(2, SDK_VERSION_PATCH) + [role % 256]
  }

  datatype HandshakeError = WrongType | TooShort | MajorMismatch(remote: nat) | HandshakeIo(why: Failure)

  /** What perform_handshake makes of the peer's frame: its role, or the error. */
  function CheckHandshake(f: Frame): Result<Byte, HandshakeError> {
    if f.kind != MSG_TYPE_HANDSHAKE then Err(WrongType)
    else if |f.payload| < 9 then Err(TooShort)
    else if FromBE(f.payload[2..4]) != SDK_VERSION_MAJOR then Err(MajorMismatch(FromBE(f.payload[2..4])))
    else Ok(f.payload[8])
  }

  /** A handshake frame the client goes on with. */
  predicate Welcoming(f: Frame) {
    CheckHandshake(f) == Ok(ROLE_ASSEMBLER)
  }

  const HELLO := Frame(MSG_TYPE_HANDSHAKE, EncodeHandshake(ROLE_AGENT as int))

  function SentFailure(s: Sent): Failure
    requires !s.AllSent?
  {
    match s
    case SendTimeout => TimedOut
    case BrokenPipe => Reset
    case SendBadFd => BadFd
  }

  /** On a connection just dialled, of which only the Assembler's side may have moved. */
  method PerformHandshake(net: Net, c: nat) returns (r: Result<Byte, HandshakeError>)
    requires net.Valid() && c < |net.conns| && net.conns[c] == DIALLED
    modifies net`conns, net`script, net`served
    ensures net.Valid() && SameBut(old(net.conns), net.conns, c)
    ensures OnlyGreeted(net.conns[c])
    ensures r.Ok? ==> Shaken(net.conns[c]) && CheckHandshake(net.conns[c].queue[0]) == r
    ensures r.Err? && !r.error.HandshakeIo? ==> net.conns[c].queue != [] && CheckHandshake(net.conns[c].queue[0]) == r
    ensures net.policy.OneShot? ==>
              && |net.conns| == |old(net.conns)| && net.conns == old(net.conns)[c := net.conns[c]]
              && net.served == old(net.served)
              && (CheckHandshake(net.policy.hello).Ok? ==> r == CheckHandshake(net.policy.hello) && Greeted(net.conns[c], net.policy.hello))
  {
    GreetingHeard(net.policy);
    var sent := net.SendAll(c, Enc(HELLO));
    HearsGreeting(net.conns[c]);
    if !sent.AllSent? {
      return Err(HandshakeIo(SentFailure(sent)));
    }
    ghost var d := net.conns[c];
    var got := ReadFrame(net, c);
    if got.Failed? {
      return Err(HandshakeIo(got.why));
    }
    GreetingRead(d, net.conns[c], got.frame);
    r := CheckHandshake(got.frame);
  }

  /** All that was heard on a connection is a greeting. */
  ghost predicate OnlyGreeted(c: Conn) {
    forall f | f in Heard(c) :: f.kind == MSG_TYPE_HANDSHAKE
  }

  lemma HearsGreeting(d: Conn)
    requires PartWritten(DIALLED, d, Enc(HELLO))
    ensures OnlyGreeted(d)
  {
    HearsAtMost(d, HELLO);
  }

  lemma HearsAtMost(d: Conn, f: Frame)
    requires Fits(f) && PartWritten(DIALLED, d, Enc(f))
    ensures Heard(d) <= [f]
  {
    var b := Enc(f);
    var k :| 0 <= k <= |b| && d.wrote == DIALLED.wrote + b[..k];
    assert d.wrote == b[..k];
    var rest := b[k..];
    assert d.wrote + rest == b;
    FramesExtend(d.wrote, rest);
    FramesUnique([f], []);
    assert EncAll([f]) + [] == b;
    assert Frames(b) == [f];
  }

  /** A connection whose handshake frame was read: in step, unless it was dropped before hearing ours. */
  ghost predicate Shaken(c: Conn) {
    |c.queue| == 1 && (InStep(c) || Spent(c))
  }

  lemma GreetingRead(d: Conn, e: Conn, f: Frame)
    requires ConnOk(d) && ConnOk(e) && Delivered(DIALLED, d, Enc(HELLO)) && Fits(f) && Took(d, e, Enc(f))
    ensures Shaken(e) && e.queue[0] == f
  {
    HeardOneMore(DIALLED, HELLO);
    assert e.queue[..0] == [];
    FrameAtBoundary(d, e, 0, f);
    assert e.queue[..1] == e.queue;
  }

  /** A one-shot connection after the handshake, before its request. */
  ghost predicate Greeted(c: Conn, hello: Frame) {
    && c.open && !c.gone && InStep(c) && |Heard(c)| == 1 && c.queue == [hello]
    && c.emitted == c.pos
  }

  lemma GreetingHeard(p: Policy)
    requires PolicyOk(p)
    ensures p.OneShot? ==>
              var told := DIALLED.(wrote := DIALLED.wrote + Enc(HELLO));
              var d := Serve(told, p.hello, p.answer);
              Due(d) && d.queue == [p.hello] && !d.gone && d.open && Heard(d) == [HELLO] && Rest(d.wrote) == [] && ServedBy(told) == []
  {
    HeardOneMore(DIALLED, HELLO);
    if p.OneShot? {
      assert [p.hello][..0] == [];
    }
  }

  // ---- the client -----------------------------------------------------------------

  datatype ConnectError = DialFailed | Handshake(why: HandshakeError) | WrongRole

  /** How a call ends: an answer, or what is raised. */
  datatype Outcome =
    | Response(frame: Frame)
    | Rejected(frame: Frame)
    | UnexpectedType(frame: Frame)
    | FrameTooLarge
    | Broken(why: Failure)
    | NoEndpoint
    | RedialFailed(error: ConnectError)

  predicate Answered(o: Outcome) {
    o.Response? || o.Rejected? || o.UnexpectedType?
  }

  /** The exceptions `invoke` retries on: the connection was already spent. */
  predicate Retryable(o: Outcome) {
    o.Broken? && (o.why.Reset? || o.why.PeerClosed?)
  }

  /** The first try lost its connection, and the re-dial went through. */
  predicate Repeated(first: Outcome, r: Outcome) {
    Retryable(first) && !r.NoEndpoint? && !r.RedialFailed?
  }

  function Request(payload: Bytes): Frame {
    Frame(MSG_TOOL_CALL_REQUEST, payload)
  }

  function Dispatch(f: Frame): Outcome {
    if f.kind == MSG_TOOL_CALL_RESPONSE then Response(f)
    else if f.kind == MSG_REQUEST_REJECTED then Rejected(f)
    else UnexpectedType(f)
  }

  /** What a caller is told goes by the type byte of the frame that came back. */
  predicate ToldByKind(o: Outcome) {
    && (o.Response? ==> o.frame.kind == 0x53)
    && (o.Rejected? ==> o.frame.kind == 0x54)
    && (o.UnexpectedType? ==> o.frame.kind != 0x53 && o.frame.kind != 0x54)
  }

  /** A whole exchange on a usable connection. */
  lemma RoundTrip(c: Conn, d: Conn, e: Conn, req: Frame, got: ReadResult)
    requires ConnOk(c) && ConnOk(d) && ConnOk(e) && Fits(req)
    requires InStep(c) || Spent(c)
    requires Delivered(c, d, Enc(req))
    requires got.Read? ==> Fits(got.frame) && Took(d, e, Enc(got.frame))
    requires got.Failed? ==> After(d, e, got.why)
    requires got.Failed? && got.why.IllegalLength? ==> TookIllegal(d, e, got.why.n)
    ensures got.Read? ==> InStep(e) && AnswersLast(e, req, got.frame)
    ensures got.Failed? ==> !got.why.IllegalLength? && (got.why.PeerClosed? || got.why.Reset? ==> Spent(e))
  {
    if InStep(c) {
      WriteInStep(c, d, req);
    } else {
      SpentStays(c, d, req);
    }
    if got.Read? {
      ReadAfterAsk(d, e, req, got.frame);
    } else if got.why.IllegalLength? {
      var w: Bytes :| |w| == 4 && ParseOne(w) == Illegal(got.why.n) && Took(d, e, w);
      NoIllegalAfterAsk(d, e, req, w);
    }
  }

  /** No connection but c is open at the client's end. */
  ghost predicate OnlyOpen(cs: seq<Conn>, c: nat) {
    forall i | 0 <= i < |cs| && i != c :: !cs[i].open
  }

  ghost predicate AllClosed(cs: seq<Conn>) {
    forall i | 0 <= i < |cs| :: !cs[i].open
  }

  /** An open connection of an idle client: in step, or with nothing left to come. */
  ghost predicate Usable(c: Conn) {
    c.open ==> InStep(c) || Spent(c)
  }

  /** Except on the named connections nothing was written, but for a greeting on new ones. */
  ghost predicate Kept(cs: seq<Conn>, ds: seq<Conn>, on: set<nat>) {
    && |cs| <= |ds|
    && forall i: nat | i < |ds| && i !in on :: if i < |cs| then ds[i].wrote == cs[i].wrote else OnlyGreeted(ds[i])
  }

  lemma KeptAll(cs: seq<Conn>)
    ensures Kept(cs, cs, {})
  {
  }

  lemma KeptTwice(cs: seq<Conn>, ms: seq<Conn>, ds: seq<Conn>, on: set<nat>, then_: set<nat>)
    requires Kept(cs, ms, on) && Kept(ms, ds, then_)
    ensures Kept(cs, ds, on + then_)
  {
    forall i: nat | i < |ds| && i !in on + then_
      ensures if i < |cs| then ds[i].wrote == cs[i].wrote else OnlyGreeted(ds[i])
    {
      if i < |ms| {
        assert ds[i].wrote == ms[i].wrote;
      }
    }
  }

  /** Closing one's end is no writing. */
  lemma KeptClosing(cs: seq<Conn>, s: nat, ds: seq<Conn>, on: set<nat>)
    requires s < |cs| && Kept(cs[s := cs[s].(open := false)], ds, on)
    ensures Kept(cs, ds, on)
  {
  }

  /** An error that the peer's first frame is the reason of. */
  predicate Told(e: ConnectError) {
    e.WrongRole? || (e.Handshake? && !e.why.HandshakeIo?)
  }

  /** That frame has another role in it, or is no handshake of this version. */
  predicate Refuses(c: Conn, e: ConnectError) {
    && c.queue != []
    && match e
       case WrongRole => CheckHandshake(c.queue[0]).Ok? && CheckHandshake(c.queue[0]).value != 0x05
       case Handshake(why) => CheckHandshake(c.queue[0]) == Err(why)
       case DialFailed => false
  }

  /** Dial, shake hands, check the peer's role; nothing stays open on an error. */
  method Connect(net: Net) returns (r: Result<nat, ConnectError>)
    requires net.Valid() && AllClosed(net.conns)
    modifies net
    ensures net.Valid() && net.dials == old(net.dials) + 1
    ensures |old(net.conns)| <= |net.conns|
    ensures r.Err? ==> AllClosed(net.conns)
    ensures Kept(old(net.conns), net.conns, {})
    ensures r.Err? && Told(r.error) ==> |net.conns| == |old(net.conns)| + 1 && Refuses(net.conns[|old(net.conns)|], r.error)
    ensures RefusesDial(net.policy, old(net.script), old(net.dials)) <==> r == Err(DialFailed)
    ensures r.Ok? ==>
              && r.value == |old(net.conns)| == |net.conns| - 1
              && net.conns[r.value].open && OnlyOpen(net.conns, r.value)
              && Shaken(net.conns[r.value]) && Welcoming(net.conns[r.value].queue[0])
    ensures net.policy.OneShot? ==> net.served == old(net.served)
    ensures net.policy.OneShot? && Welcoming(net.policy.hello) && r != Err(DialFailed) ==>
              r.Ok? && Greeted(net.conns[r.value], net.policy.hello)
  {
    var dialled := net.Dial();
    if dialled.None? {
      return Err(DialFailed);
    }
    var c := dialled.value;
    var role := PerformHandshake(net, c);
    if role.Err? {
      net.CloseConn(c);
      return Err(Handshake(role.error));
    }
    if role.value != ROLE_ASSEMBLER {
      net.CloseConn(c);
      return Err(WrongRole);
    }
    r := Ok(c);
  }

  /** What one sendall did. */
  ghost predicate Wrote(p: Policy, cs: seq<Conn>, ms: seq<Conn>, c: nat, data: Bytes, sent: Sent, was: seq<Frame>, served: seq<Frame>)
    requires c < |cs|
  {
    && SameBut(cs, ms, c)
    && (p.OneShot? ==> OneShotSend(p, cs, ms, was, served, c, data, sent))
    && (sent.SendBadFd? <==> !cs[c].open)
    && (sent.SendBadFd? ==> ms == cs)
    && (sent.AllSent? ==> Delivered(cs[c], ms[c], data))
    && (sent.BrokenPipe? ==> Spent(ms[c]))
  }

  /** What an exchange did. */
  ghost predicate Exchanged(p: Policy, cs: seq<Conn>, ds: seq<Conn>, c: nat, req: Frame, r: ReadResult, was: seq<Frame>, served: seq<Frame>)
    requires c < |cs|
  {
    && SameBut(cs, ds, c)
    && (r.Read? ==> InStep(ds[c]) && AnswersLast(ds[c], req, r.frame) && cs[c].open)
    && (r.Failed? ==> Abandoned(cs, ds, c, r.why))
    && (p.OneShot? ==> OneShotExchange(p, cs[c], ds[c], req, r, was, served))
  }

  lemma SendFails(p: Policy, cs: seq<Conn>, ms: seq<Conn>, c: nat, req: Frame, sent: Sent, was: seq<Frame>, served: seq<Frame>)
    requires c < |cs| && !sent.AllSent? && Wrote(p, cs, ms, c, Enc(req), sent, was, served)
    ensures Exchanged(p, cs, ms, c, req, Failed(SentFailure(sent)), was, served)
  {
  }

  lemma SendReads(p: Policy, cs: seq<Conn>, ms: seq<Conn>, ds: seq<Conn>, c: nat, req: Frame, r: ReadResult,
                  was: seq<Frame>, served: seq<Frame>)
    requires PolicyOk(p) && c < |cs| == |ms| == |ds| && ConnOk(cs[c]) && ConnOk(ms[c]) && ConnOk(ds[c])
    requires Usable(cs[c]) && Fits(req)
    requires Wrote(p, cs, ms, c, Enc(req), AllSent, was, served) && FrameRead(p, ms, ds, c, r)
    ensures Exchanged(p, cs, ds, c, req, r, was, served)
  {
    RoundTrip(cs[c], ms[c], ds[c], req, r);
    if p.OneShot? {
      OneShotReads(p, cs, ms, ds, c, req, r, was, served);
    }
  }

  lemma OneShotReads(p: Policy, cs: seq<Conn>, ms: seq<Conn>, ds: seq<Conn>, c: nat, req: Frame, r: ReadResult,
                     was: seq<Frame>, served: seq<Frame>)
    requires PolicyOk(p) && p.OneShot? && c < |cs| == |ms| == |ds| && Fits(req)
    requires OneShotSend(p, cs, ms, was, served, c, Enc(req), AllSent) && OneShotRead(ms, ds, c, r)
    ensures OneShotExchange(p, cs[c], ds[c], req, r, was, served)
  {
    if Greeted(cs[c], p.hello) {
      ServesRequest(cs[c], p, req);
    }
  }

  /** The guarded part of _invoke_once: write one request, read one frame. */
  method Exchange(net: Net, c: nat, wire: Bytes, ghost req: Frame) returns (r: ReadResult)
    requires net.Valid() && c < |net.conns| && Usable(net.conns[c]) && Fits(req) && wire == Enc(req)
    modifies net`conns, net`script, net`served
    ensures net.Valid() && Exchanged(net.policy, old(net.conns), net.conns, c, req, r, old(net.served), net.served)
    ensures old(net.conns)[c].open && Resets(net.policy, old(net.script)) ==> r == Failed(Reset) && net.script == old(net.script)[1..]
  {
    ghost var was, before := net.conns, net.served;
    var sent := net.SendAll(c, wire);
    if !sent.AllSent? {
      SendFails(net.policy, was, net.conns, c, req, sent, before, net.served);
      return Failed(SentFailure(sent));
    }
    ghost var told := net.conns;
    r := ReadFrame(net, c);
    SendReads(net.policy, was, told, net.conns, c, req, r, before, net.served);
  }

  /** A fresh connection of the one-shot Assembler serves and is then used up; a used one serves nothing. */
  ghost predicate OneShotExchange(p: Policy, c: Conn, d: Conn, req: Frame, r: ReadResult, was: seq<Frame>, served: seq<Frame>)
    requires p.OneShot?
  {
    && (Greeted(c, p.hello) ==> r == Read(p.answer(req)) && Spent(d) && served == was + [req])
    && (c.open && Spent(c) ==> (r == Failed(PeerClosed) || r == Failed(Reset)) && Spent(d) && served == was)
  }

  lemma ServesRequest(c: Conn, p: Policy, req: Frame)
    requires PolicyOk(p) && p.OneShot? && Greeted(c, p.hello) && Fits(req)
    ensures var told := c.(wrote := c.wrote + Enc(req));
      var d := Serve(told, p.hello, p.answer);
      Due(d) && d.queue == [p.hello, p.answer(req)] && d.gone && d.open && ServedBy(told) == [req]
  {
    HeardOneMore(c, req);
    var q := [p.hello, p.answer(req)];
    assert q[..1] == [p.hello];
  }

  /** How an exchange that read no frame leaves the connections. */
  ghost predicate Abandoned(cs: seq<Conn>, ds: seq<Conn>, c: nat, why: Failure)
    requires c < |cs| == |ds|
  {
    && !why.IllegalLength?
    && (why.PeerClosed? || why.Reset? ==> Spent(ds[c]))
    && (why.BadFd? <==> !cs[c].open)
    && (why.BadFd? ==> ds == cs)
  }

  /** The connection is reset, and the Assembler cannot be dialled. */
  predicate Lost(p: Policy, script: seq<Event>, dials: nat) {
    Resets(p, script) && RefusesDial(p, script[1..], dials)
  }

  /** Frame f is among those newly heard on connection i. */
  ghost predicate Hears(cs: seq<Conn>, ds: seq<Conn>, i: nat, f: Frame) {
    i < |ds| && exists k | (if i < |cs| then |Heard(cs[i])| else 0) <= k < |Heard(ds[i])| :: Heard(ds[i])[k] == f
  }

  /** What a try of one request on connection c came to. */
  ghost predicate Tried(p: Policy, cs: seq<Conn>, ds: seq<Conn>, c: nat, payload: Bytes, r: Outcome, was: seq<Frame>, served: seq<Frame>)
    requires c < |cs|
  {
    && |ds| == |cs| && cs[c].queue <= ds[c].queue && Kept(cs, ds, {c})
    && (r.FrameTooLarge? <==> !Fits(Request(payload)))
    && (Answered(r) || r.FrameTooLarge? || (r.Broken? && !r.why.IllegalLength?))
    // an answer is the Assembler's to this request, the last thing it heard on the connection
    && (Answered(r) ==> cs[c].open && r == Dispatch(r.frame) && AnswersLast(ds[c], Request(payload), r.frame))
    // nothing more can be read where a try is repeated; a time-out closes; a closed socket stays so
    && (Retryable(r) ==> Spent(ds[c]))
    && ds[c].open == (cs[c].open && r != Broken(TimedOut))
    && (r == Broken(BadFd) ==> ds == cs && !cs[c].open)
    && (Fits(Request(payload)) && !cs[c].open ==> r == Broken(BadFd))
    && (p.OneShot? && Fits(Request(payload)) && cs[c].open ==> OneShotTried(p, cs[c], ds[c], payload, r, was, served))
  }

  /** A connection to the one-shot Assembler that is fresh, or already used up. */
  ghost predicate ReadyConn(p: Policy, c: Conn)
    requires p.OneShot?
  {
    Welcoming(p.hello) && c.open && (Greeted(c, p.hello) || Spent(c))
  }

  /**
   * A call of the one-shot Assembler, on c at first and on d at last: served once, after a re-dial
   * if c was used up, unless that re-dial finds the Assembler not running.
   */
  ghost predicate OneShotCall(p: Policy, c: Conn, d: Conn, payload: Bytes, r: Outcome,
                              was: seq<Frame>, served: seq<Frame>, dials: nat, dialled: nat)
    requires p.OneShot?
  {
    if Greeted(c, p.hello) || dials !in p.down then
      && r == Dispatch(p.answer(Request(payload))) && served == was + [Request(payload)]
      && ReadyConn(p, d) && Spent(d)
      && dialled == dials + if Greeted(c, p.hello) then 0 else 1
    else
      r == RedialFailed(DialFailed) && served == was && dialled == dials + 1
  }

  /** The one-shot Assembler serves on a fresh connection, which is then used up, and not on a used one. */
  ghost predicate OneShotTried(p: Policy, c: Conn, d: Conn, payload: Bytes, r: Outcome, was: seq<Frame>, served: seq<Frame>)
    requires p.OneShot?
  {
    && (Greeted(c, p.hello) ==>
          r == Dispatch(p.answer(Request(payload))) && Spent(d) && served == was + [Request(payload)])
    && (Spent(c) ==> Retryable(r) && Spent(d) && served == was)
  }

  /** One try on a fresh connection, or on a used one the try that fails and then the other. */
  lemma OneShotTries(p: Policy, c: Conn, m: Conn, d: Conn, payload: Bytes, first: Outcome, r: Outcome,
                     was: seq<Frame>, mid: seq<Frame>, served: seq<Frame>, dials: nat, dialled: nat)
    requires p.OneShot? && ReadyConn(p, c) && m.open && OneShotTried(p, c, m, payload, first, was, mid)
    requires !Retryable(first) ==> d == m && r == first && served == mid && dialled == dials
    requires Retryable(first) ==> OneShotCall(p, m, d, payload, r, mid, served, dials, dialled)
    ensures OneShotCall(p, c, d, payload, r, was, served, dials, dialled)
  {
  }

  lemma ExchangeTries(p: Policy, cs: seq<Conn>, ms: seq<Conn>, c: nat, payload: Bytes, got: ReadResult,
                      was: seq<Frame>, served: seq<Frame>)
    requires c < |cs| && Fits(Request(payload)) && Exchanged(p, cs, ms, c, Request(payload), got, was, served)
    ensures var ds := if got == Failed(TimedOut) then ms[c := ms[c].(open := false)] else ms;
      Tried(p, cs, ds, c, payload, if got.Failed? then Broken(got.why) else Dispatch(got.frame), was, served)
  {
  }

  ghost predicate HeardTwice(cs: seq<Conn>, ds: seq<Conn>, f: Frame) {
    exists i, j | i != j :: Hears(cs, ds, i, f) && Hears(cs, ds, j, f)
  }

  lemma HeardOnlyOn(cs: seq<Conn>, ds: seq<Conn>, on: set<nat>, i: nat, f: Frame)
    requires Kept(cs, ds, on) && f.kind != MSG_TYPE_HANDSHAKE && Hears(cs, ds, i, f)
    ensures i in on
  {
    var k :| (if i < |cs| then |Heard(cs[i])| else 0) <= k < |Heard(ds[i])| && Heard(ds[i])[k] == f;
  }

  /** What was written on two connections at most was heard twice exactly if it was heard on both. */
  lemma HeardTwiceIff(cs: seq<Conn>, ds: seq<Conn>, a: nat, b: nat, f: Frame)
    requires Kept(cs, ds, {a, b}) && f.kind != MSG_TYPE_HANDSHAKE
    ensures HeardTwice(cs, ds, f) <==> a != b && Hears(cs, ds, a, f) && Hears(cs, ds, b, f)
  {
    if HeardTwice(cs, ds, f) {
      var i, j :| i != j && Hears(cs, ds, i, f) && Hears(cs, ds, j, f);
      HeardOnlyOn(cs, ds, {a, b}, i, f);
      HeardOnlyOn(cs, ds, {a, b}, j, f);
    }
  }

  class AssemblerClient {
    const net: Net
    const endpoint: bool       // built by `connect`, so there is an endpoint to re-dial
    var sock: nat
    var needsRedial: bool
    ghost var attempts: nat    // requests handed to the socket

    ghost predicate Valid()
      reads this, net
    {
      && net.Valid() && sock < |net.conns|
      && Usable(net.conns[sock]) && OnlyOpen(net.conns, sock)
      && (needsRedial ==> !net.conns[sock].open)
    }

    /** Around a connection that has been dialled and greeted. */
    constructor (net: Net, sock: nat, endpoint: bool)
      requires net.Valid() && sock < |net.conns| && Usable(net.conns[sock]) && OnlyOpen(net.conns, sock)
      ensures Valid() && this.net == net && this.sock == sock && this.endpoint == endpoint && !needsRedial
    {
      this.net, this.sock, this.endpoint := net, sock, endpoint;
      needsRedial, attempts := false, 0;
    }

    method Close()
      requires net.Valid() && sock < |net.conns|
      modifies net`conns
      ensures net.Valid()
      ensures net.conns == old(net.conns)[sock := old(net.conns)[sock].(open := false)]
    {
      net.CloseConn(sock);
    }

    /** _reconnect: the old socket is closed first; the flag is cleared only on success. */
    method Reconnect() returns (r: Option<Outcome>)
      requires Valid()
      modifies this`sock, this`needsRedial, net
      ensures Valid()
      ensures net.dials == old(net.dials) + (if endpoint then 1 else 0)
      ensures r == Some(NoEndpoint) <==> !endpoint
      ensures Kept(old(net.conns), net.conns, {})
      ensures r == Some(NoEndpoint) ==> net.conns == old(net.conns) && sock == old(sock) && needsRedial == old(needsRedial)
      ensures r.Some? && r != Some(NoEndpoint) ==>
                r.value.RedialFailed? && sock == old(sock) && needsRedial == old(needsRedial) && !net.conns[sock].open
      ensures endpoint && RefusesDial(net.policy, old(net.script), old(net.dials)) <==> r == Some(RedialFailed(DialFailed))
      ensures r.None? ==>
                && sock == |old(net.conns)| && !needsRedial
                && Shaken(net.conns[sock]) && Welcoming(net.conns[sock].queue[0]) && net.conns[sock].open
      ensures net.policy.OneShot? ==> net.served == old(net.served)
      ensures net.policy.OneShot? && Welcoming(net.policy.hello) && endpoint && r != Some(RedialFailed(DialFailed)) ==>
                r.None? && Greeted(net.conns[sock], net.policy.hello)
    {
      if !endpoint {
        KeptAll(net.conns);
        return Some(NoEndpoint);
      }
      ghost var start := net.conns;
      net.CloseConn(sock);
      var dialled := Connect(net);
      KeptClosing(start, sock, net.conns, {});
      if dialled.Err? {
        return Some(RedialFailed(dialled.error));
      }
      sock := dialled.value;
      needsRedial := false;
      r := None;
    }

    /** _invoke_once */
    method InvokeOnce(payload: Bytes) returns (r: Outcome)
      requires Valid() && !needsRedial
      modifies this`needsRedial, this`attempts, net
      ensures Valid() && net.dials == old(net.dials)
      ensures attempts == old(attempts) + (if Fits(Request(payload)) then 1 else 0)
      ensures Tried(net.policy, old(net.conns), net.conns, sock, payload, r, old(net.served), net.served)
      ensures ToldByKind(r)
      ensures r == Broken(TimedOut) <==> needsRedial
      ensures Fits(Request(payload)) && old(net.conns[sock].open && Resets(net.policy, net.script)) ==>
                r == Broken(Reset) && net.script == old(net.script)[1..]
    {
      var encoded := EncodeFrame(MSG_TOOL_CALL_REQUEST as int, payload);
      if encoded.TooLarge? {
        return FrameTooLarge;
      }
      attempts := attempts + 1;
      ghost var start, before := net.conns, net.served;
      var got := Exchange(net, sock, encoded.bytes, Request(payload));
      ghost var mid := net.conns;
      if got == Failed(TimedOut) {
        // the Assembler may still answer on this connection, so it goes
        Close();
        needsRedial := true;
      }
      r := if got.Failed? then Broken(got.why) else Dispatch(got.frame);
      ExchangeTries(net.policy, start, mid, sock, payload, got, before, net.served);
    }

    /**
     * `invoke`: re-dial if the last call timed out, try, and once more on a new connection if
     * this one was already spent. `first` is how the first try ended.
     */
    method Invoke(payload: Bytes) returns (r: Outcome, ghost first: Outcome)
      requires Valid()
      modifies this`sock, this`needsRedial, this`attempts, net
      ensures Valid()
      // an answer is the Assembler's to this request, the last thing it heard on the connection
      ensures Answered(r) ==> r == Dispatch(r.frame) && AnswersLast(net.conns[sock], Request(payload), r.frame)
      ensures ToldByKind(r)
      ensures Answered(r) ==> old(net.conns[sock].open) || sock >= |old(net.conns)|
      // at most two dials and two sends; a verdict or a time-out is never retried
      ensures net.dials <= old(net.dials) + 2 && attempts <= old(attempts) + 2
      ensures Answered(first) || first == Broken(TimedOut) ==> r == first && attempts == old(attempts) + 1
      ensures attempts == old(attempts) + 2 ==>
                && Retryable(first) && sock >= |old(net.conns)|
                && net.conns[sock].queue != [] && Welcoming(net.conns[sock].queue[0])
      // the Assembler hears the request twice exactly if it hears it in both tries, the first having lost its connection
      ensures var one := if old(needsRedial) then |old(net.conns)| else old(sock);
        && Kept(old(net.conns), net.conns, {one, if attempts == old(attempts) + 2 then sock else one})
        && (HeardTwice(old(net.conns), net.conns, Request(payload)) <==>
              && attempts == old(attempts) + 2
              && Hears(old(net.conns), net.conns, one, Request(payload)) && Hears(old(net.conns), net.conns, sock, Request(payload)))
      ensures attempts == old(attempts) + 2 <==> Repeated(first, r)
      // a re-dial that fails keeps the flag only if it came before the first try
      ensures r.RedialFailed? ==> !net.conns[sock].open && (needsRedial <==> attempts == old(attempts))
      // a reset and then a dial that fails is one way there
      ensures Fits(Request(payload)) && old(!needsRedial && endpoint && net.conns[sock].open && Lost(net.policy, net.script, net.dials)) ==>
                r.RedialFailed? && !needsRedial
      // a closed socket without the flag stays so: nothing is dialled again
      ensures old(!needsRedial && !net.conns[sock].open) && Fits(Request(payload)) ==>
                r == Broken(BadFd) && net.conns == old(net.conns) && net.dials == old(net.dials) && !needsRedial
      // facing the deployed Assembler: the answer, or a re-dial that finds it not running
      ensures old(OneShotReady()) && Fits(Request(payload)) ==>
                && !needsRedial
                && OneShotCall(net.policy, old(net.conns[sock]), net.conns[sock], payload, r,
                               old(net.served), net.served, old(net.dials), net.dials)
    {
      ghost var start, one := net.conns, if needsRedial then |net.conns| else sock;
      KeptAll(start);
      if needsRedial {
        var failed := Reconnect();
        if failed.Some? {
          HeardTwiceIff(start, net.conns, one, one, Request(payload));
          return failed.value, NoEndpoint;
        }
      }
      ghost var ready, tries := net.conns, attempts;
      r, first := Attempt(payload);
      ghost var last := if attempts == tries + 2 then sock else one;
      KeptTwice(start, ready, net.conns, {}, {one, last});
      assert {} + {one, last} == {one, last};
      HeardTwiceIff(start, net.conns, one, last, Request(payload));
    }

    /** The try statement of `invoke`, with its except arms. */
    method Attempt(payload: Bytes) returns (r: Outcome, ghost first: Outcome)
      requires Valid() && !needsRedial
      modifies this`sock, this`needsRedial, this`attempts, net
      ensures Valid()
      ensures Answered(r) ==> r == Dispatch(r.frame) && AnswersLast(net.conns[sock], Request(payload), r.frame)
      ensures ToldByKind(r)
      ensures Answered(r) ==> old(net.conns[sock].open) || sock >= |old(net.conns)|
      ensures net.dials <= old(net.dials) + 1
      ensures first.FrameTooLarge? <==> !Fits(Request(payload))
      ensures attempts == old(attempts) + (if !Fits(Request(payload)) then 0 else if Repeated(first, r) then 2 else 1)
      ensures sock == if attempts == old(attempts) + 2 then |old(net.conns)| else old(sock)
      ensures Answered(first) || first == Broken(TimedOut) ==> r == first && attempts == old(attempts) + 1
      ensures attempts == old(attempts) + 2 ==>
                net.conns[sock].queue != [] && Welcoming(net.conns[sock].queue[0])
      ensures Kept(old(net.conns), net.conns, {old(sock), if attempts == old(attempts) + 2 then sock else old(sock)})
      ensures r.RedialFailed? ==> !net.conns[sock].open && !needsRedial && attempts == old(attempts) + 1
      ensures Fits(Request(payload)) && old(endpoint && net.conns[sock].open && Lost(net.policy, net.script, net.dials)) ==>
                r.RedialFailed?
      ensures old(!net.conns[sock].open) && Fits(Request(payload)) ==>
                r == Broken(BadFd) && net.conns == old(net.conns) && net.dials == old(net.dials) && !needsRedial
      ensures old(OneShotReady()) && Fits(Request(payload)) ==>
                && !needsRedial
                && OneShotCall(net.policy, old(net.conns[sock]), net.conns[sock], payload, r,
                               old(net.served), net.served, old(net.dials), net.dials)
    {
      ghost var start, one, ready := net.conns, sock, OneShotReady() && Fits(Request(payload));
      ghost var before, dials := net.served, net.dials;
      r := InvokeOnce(payload);
      first := r;
      ghost var tried, tries, mid := net.conns, attempts, net.served;
      if Retryable(r) {
        r := Again(payload);
        KeptTwice(start, tried, net.conns, {one}, if attempts == tries then {} else {sock});
      }
      if ready {
        OneShotTries(net.policy, start[one], tried[one], net.conns[sock], payload, first, r, before, mid, net.served, dials, net.dials);
      }
    }

    /** The except arm of `invoke`. */
    method Again(payload: Bytes) returns (r: Outcome)
      requires Valid() && !needsRedial && Fits(Request(payload))
      modifies this`sock, this`needsRedial, this`attempts, net
      ensures Valid()
      ensures Answered(r) ==> r == Dispatch(r.frame) && AnswersLast(net.conns[sock], Request(payload), r.frame)
      ensures ToldByKind(r)
      ensures Kept(old(net.conns), net.conns, if attempts == old(attempts) then {} else {sock})
      ensures net.dials == old(net.dials) + (if endpoint then 1 else 0)
      ensures attempts == old(attempts) + (if r.NoEndpoint? || r.RedialFailed? then 0 else 1)
      ensures sock == if attempts == old(attempts) then old(sock) else |old(net.conns)|
      ensures attempts == old(attempts) + 1 ==> net.conns[sock].queue != [] && Welcoming(net.conns[sock].queue[0])
      ensures r.RedialFailed? ==> !net.conns[sock].open && !needsRedial
      ensures endpoint && RefusesDial(net.policy, old(net.script), old(net.dials)) ==> r == RedialFailed(DialFailed)
      ensures old(OneShotReady() && Spent(net.conns[sock])) ==>
                && !needsRedial
                && OneShotCall(net.policy, old(net.conns[sock]), net.conns[sock], payload, r,
                               old(net.served), net.served, old(net.dials), net.dials)
    {
      var failed := Reconnect();
      if failed.Some? {
        return failed.value;
      }
      r := InvokeOnce(payload);
    }

    /** Facing the one-shot Assembler with a connection that is fresh, or already used up. */
    ghost predicate OneShotReady()
      reads this, net
      requires net.Valid() && sock < |net.conns|
    {
      net.policy.OneShot? && ReadyConn(net.policy, net.conns[sock]) && endpoint && !needsRedial
    }
  }

  /**
   * A failed re-dial and what follows. The Assembler answers the first call of a connected client
   * and is not running when the second re-dials; the third fails on the closed socket without
   * dialling, and so would any other, although the Assembler is back.
   */
  method StuckAfterFailedRedial(hello: Frame, answer: Frame -> Frame, payload: Bytes)
    returns (client: AssemblerClient, one: Outcome, two: Outcome, three: Outcome)
    requires PolicyOk(OneShot(hello, answer, {1})) && Welcoming(hello) && Fits(Request(payload))
    ensures one == Dispatch(answer(Request(payload))) && two == RedialFailed(DialFailed) && three == Broken(BadFd)
    ensures client.Valid() && client.endpoint && !client.needsRedial && !client.net.conns[client.sock].open
    ensures client.net.dials == 2 && !RefusesDial(client.net.policy, client.net.script, client.net.dials)
  {
    var net := new Net(OneShot(hello, answer, {1}), []);
    var connected := Connect(net);
    client := new AssemblerClient(net, connected.value, true);
    ghost var first;
    one, first := client.Invoke(payload);
    two, three := RedialFails(client, payload);
  }

  /** On a used connection, with the Assembler not running at the next dial: that dial is the last. */
  method RedialFails(client: AssemblerClient, payload: Bytes) returns (one: Outcome, two: Outcome)
    requires client.Valid() && client.OneShotReady() && Fits(Request(payload))
    requires Spent(client.net.conns[client.sock]) && client.net.dials in client.net.policy.down
    modifies client`sock, client`needsRedial, client`attempts, client.net
    ensures one == RedialFailed(DialFailed) && two == Broken(BadFd)
    ensures client.Valid() && !client.needsRedial && !client.net.conns[client.sock].open
    ensures client.net.dials == old(client.net.dials) + 1
  {
    ghost var first;
    one, first := client.Invoke(payload);
    two, first := client.Invoke(payload);
  }

  /**
   * A run of any length against the one-shot Assembler: every call gets its own answer, and
   * every request is served exactly once, in order.
   */
  method InvokeAll(client: AssemblerClient, payloads: seq<Bytes>) returns (outcomes: seq<Outcome>)
    requires client.Valid() && client.OneShotReady() && client.net.policy.down == {}
    requires forall p | p in payloads :: Fits(Request(p))
    modifies client`sock, client`needsRedial, client`attempts, client.net
    ensures client.Valid() && client.OneShotReady()
    ensures |outcomes| == |payloads|
    ensures forall i | 0 <= i < |payloads| :: outcomes[i] == Dispatch(client.net.policy.answer(Request(payloads[i])))
    ensures forall i | 0 <= i < |payloads| ::
              var answer := client.net.policy.answer(Request(payloads[i]));
              && (outcomes[i].Response? <==> answer.kind == 0x53) && (outcomes[i].Rejected? <==> answer.kind == 0x54)
              && Answered(outcomes[i]) && outcomes[i].frame == answer
    ensures client.net.served == old(client.net.served) + seq(|payloads|, i requires 0 <= i < |payloads| => Request(payloads[i]))
  {
    outcomes := [];
    for k := 0 to |payloads|
      invariant client.Valid() && client.OneShotReady()
      invariant |outcomes| == k
      invariant forall i | 0 <= i < k :: outcomes[i] == Dispatch(client.net.policy.answer(Request(payloads[i])))
      invariant client.net.served == old(client.net.served) + seq(k, i requires 0 <= i < k => Request(payloads[i]))
    {
      ghost var before := client.net.served;
      var outcome, first := client.Invoke(payloads[k]);
      outcomes := outcomes + [outcome];
      Lists.Assoc(old(client.net.served), seq(k, i requires 0 <= i < k => Request(payloads[i])), [Request(payloads[k])]);
      assert seq(k, i requires 0 <= i < k => Request(payloads[i])) + [Request(payloads[k])]
          == seq(k + 1, i requires 0 <= i < k + 1 => Request(payloads[i]));
    }
  }
}
