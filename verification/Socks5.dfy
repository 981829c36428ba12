/**
 * The client side of SOCKS5 (RFC 1928 sections 3, 4 and 6) over the egress broker's socket:
 * the blocking and the async driver, and the one specification both refine.
 */
module Socks5 {
  import opened Bytes
  import opened Wrappers
  import opened Egress

  const GREETING: Bytes := [0x05, 0x01, 0x00]

  /** _connect_request: always a DOMAINNAME request. */
  function ConnectRequest(host: string, port: int, idna: string -> Option<Bytes>): Result<Bytes, EgressError> {
    if !(0 <= port <= 0xFFFF) then Err(Protocol(PortRange))
    else
      var raw := EncodeHost(host, idna);
      if raw.Err? then Err(raw.error)
      else Ok([0x05, 0x01, 0x00, 0x03, |raw.value|] + raw.value + BE(2, port))
  }

  /** What RFC 1928 section 4 reads in a CONNECT request with a domain name: name and port. */
  function ReadRequest(bs: Bytes): Option<(Bytes, nat)> {
    if |bs| < 5 || bs[..4] != [0x05, 0x01, 0x00, 0x03] || |bs| - 7 != bs[4] then None
    else Some((bs[5..|bs| - 2], FromBE(bs[|bs| - 2..])))
  }

  /** The request names exactly the encoded host and the port asked for. */
  lemma RequestReadsBack(host: string, port: int, idna: string -> Option<Bytes>)
    ensures ConnectRequest(host, port, idna).Ok? <==> 0 <= port <= 0xFFFF && EncodeHost(host, idna).Ok?
    ensures ConnectRequest(host, port, idna).Ok? ==>
              ReadRequest(ConnectRequest(host, port, idna).value) == Some((EncodeHost(host, idna).value, port))
  {
    if ConnectRequest(host, port, idna).Ok? {
      var raw, bs := EncodeHost(host, idna).value, ConnectRequest(host, port, idna).value;
      SpanValues();
      FromBEOfBE(2, port);
      assert bs[..4] == [0x05, 0x01, 0x00, 0x03];
      assert bs[5..|bs| - 2] == raw;
      assert bs[|bs| - 2..] == BE(2, port);
    }
  }

  /** _check_method_reply: None when NO-AUTH was chosen. */
  function CheckMethod(reply: Bytes): Option<EgressError>
    requires |reply| == 2
  {
    if reply[0] != 0x05 then Some(Protocol(BadVersion(reply[0])))
    else if reply[1] == 0xFF then Some(Protocol(MethodRefused))
    else if reply[1] != 0x00 then Some(Protocol(BadMethod(reply[1])))
    else None
  }

  /** _bound_trailer_len: Ok(None) means a length byte must be read first. */
  function BoundTrailerLen(atyp: Byte): Result<Option<nat>, EgressError> {
    if atyp == 0x01 then Ok(Some(4 + 2))
    else if atyp == 0x04 then Ok(Some(16 + 2))
    else if atyp == 0x03 then Ok(None)
    else Err(Protocol(BadAddressType(atyp)))
  }

  /** _closed_mid_handshake */
  function ClosedMidHandshake(peerCred: bool, gotBytes: bool): EgressError {
    if peerCred && !gotBytes then PeerCred else Protocol(Truncated)
  }

  // ---- the broker, as the drivers can see it ------------------------------------

  /** How long something takes to happen, if it ever does. */
  datatype Delay = After(n: nat) | Never

  datatype Dial = Dial(took: Delay, accepted: bool)

  datatype SendFate = SendFate(took: Delay, broken: bool)

  datatype Ending = Eof(at: nat) | Rst(at: nat) | Silence

  /**
   * All that matters of a broker: how the dial goes, what it sends and when each byte arrives,
   * how and when that ends, and how writes fare. Times count from the start of the dial.
   */
  datatype World = World(dial: Dial, data: Bytes, at: seq<nat>, ending: Ending, greeting: SendFate, request: SendFate)

  /** settimeout bounds each operation by itself; fail_after bounds them all together. */
  datatype Limit = PerOperation(t: nat) | Total(t: nat)

  predicate Late(limit: Limit, clock: nat, took: Delay) {
    || took.Never?
    || match limit
       case PerOperation(t) => took.n > t
       case Total(t) => clock + took.n > t
  }

  function Gap(clock: nat, at: nat): nat {
    if at > clock then at - clock else 0
  }

  /** How long a read at pos waits for anything at all. */
  function Wait(w: World, pos: nat, clock: nat): Delay
    requires |w.at| == |w.data|
  {
    if pos < |w.data| then After(Gap(clock, w.at[pos]))
    else if w.ending.Silence? then Never
    else After(Gap(clock, w.ending.at))
  }

  datatype Dialled = Connected | ConnectTimeout | ConnectFailed

  datatype Moved = Chunk(bytes: Bytes) | RecvTimeout | ConnReset | EndOfStream

  datatype Sent = Done | SendTimeout | SendBroken

  class Broker {
    const world: World
    var limit: Limit
    var clock: nat
    var cuts: seq<nat>    // how the stream is cut into chunks
    var pos: nat          // bytes consumed by the shim
    var sent: Bytes       // bytes the shim handed over
    var open: bool        // the shim holds the socket open

    /** Between operations an overall deadline has not passed. */
    ghost predicate Valid()
      reads this
    {
      pos <= |world.data| == |world.at| && !Late(limit, clock, After(0))
    }

    /** Nothing has happened yet. */
    ghost predicate Fresh()
      reads this
    {
      Valid() && clock == 0 && pos == 0 && sent == [] && !open
    }

    constructor (world: World, cuts: seq<nat>)
      requires |world.at| == |world.data|
      ensures Fresh() && this.world == world
    {
      this.world, this.cuts := world, cuts;
      limit, clock, pos, sent, open := Total(0), 0, 0, [], false;
    }

    method SetLimit(limit: Limit)
      requires Fresh()
      modifies this`limit
      ensures Fresh() && this.limit == limit
    {
      this.limit := limit;
    }

    method Connect() returns (r: Dialled)
      requires Fresh()
      modifies this`open, this`clock
      ensures Valid() && open == r.Connected?
      ensures r == if Late(limit, 0, world.dial.took) then ConnectTimeout else if world.dial.accepted then Connected else ConnectFailed
      ensures !r.ConnectTimeout? ==> clock == world.dial.took.n
    {
      if Late(limit, 0, world.dial.took) {
        return ConnectTimeout;
      }
      clock := world.dial.took.n;
      open := world.dial.accepted;
      r := if open then Connected else ConnectFailed;
    }

    method Close()
      modifies this`open
      ensures !open
    {
      open := false;
    }

    method Send(data: Bytes, fate: SendFate) returns (r: Sent)
      requires Valid()
      modifies this`sent, this`clock
      ensures Valid()
      ensures r == if Late(limit, old(clock), fate.took) then SendTimeout else if fate.broken then SendBroken else Done
      ensures sent == if r.Done? then old(sent) + data else old(sent)
      ensures clock == if r.SendTimeout? then old(clock) else old(clock) + fate.took.n
    {
      if Late(limit, clock, fate.took) {
        return SendTimeout;
      }
      clock := clock + fate.took.n;
      if fate.broken {
        return SendBroken;
      }
      sent := sent + data;
      r := Done;
    }

    /** At most n of the bytes that have arrived, as the stream happens to be cut; at its end, how it ended. */
    method Receive(n: nat) returns (r: Moved)
      requires Valid() && n > 0
      modifies this`cuts, this`pos, this`clock
      ensures Valid()
      ensures var wait := Wait(world, old(pos), old(clock));
        && (r.RecvTimeout? <==> Late(limit, old(clock), wait))
        && clock == if r.RecvTimeout? then old(clock) else old(clock) + wait.n
      ensures r.Chunk? <==> !r.RecvTimeout? && old(pos) < |world.data|
      ensures r.Chunk? ==>
                && 0 < |r.bytes| <= n && pos == old(pos) + |r.bytes| && r.bytes == world.data[old(pos)..pos]
                && forall i | old(pos) <= i < pos :: world.at[i] <= clock
      ensures !r.Chunk? ==> pos == old(pos)
    {
      var wait := Wait(world, pos, clock);
      if Late(limit, clock, wait) {
        return RecvTimeout;
      }
      clock := clock + wait.n;
      if pos == |world.data| {
        r := if world.ending.Rst? then ConnReset else EndOfStream;
        return;
      }
      var most := 1;
      while most < n && pos + most < |world.data| && world.at[pos + most] <= clock
        invariant 1 <= most <= n && pos + most <= |world.data|
        invariant forall i | pos <= i < pos + most :: world.at[i] <= clock
      {
        most := most + 1;
      }
      var k := most;
      if cuts != [] {
        k := if cuts[0] + 1 < most then cuts[0] + 1 else most;
        cuts := cuts[1..];
      }
      r := Chunk(world.data[pos..pos + k]);
      pos := pos + k;
    }
  }

  // ---- the specification: what the byte stream alone decides --------------------------

  /** A driver's end: its result and how many bytes of the stream it consumed. */
  datatype End = End(result: Result<(), EgressError>, pos: nat)

  /** Reading exactly n bytes at pos: possible exactly when the stream holds them. */
  function Take(w: World, pos: nat, n: nat, peerCred: bool): Result<Bytes, EgressError>
    requires pos <= |w.data|
  {
    if pos + n <= |w.data| then Ok(w.data[pos..pos + n]) else Err(ClosedMidHandshake(peerCred, pos < |w.data|))
  }

  /** How the handshake ends if nothing takes too long. */
  function Plain(w: World): End {
    if !w.dial.accepted then End(Err(Config), 0)
    else if w.greeting.broken then End(Err(ClosedMidHandshake(true, false)), 0)
    else
      var method_ := Take(w, 0, 2, true);
      if method_.Err? then End(Err(method_.error), |w.data|)
      else if CheckMethod(method_.value).Some? then End(Err(CheckMethod(method_.value).value), 2)
      else if w.request.broken then End(Err(ClosedMidHandshake(false, false)), 2)
      else AfterRequest(w)
  }

  function AfterRequest(w: World): End
    requires 2 <= |w.data|
  {
    var header := Take(w, 2, 4, false);
    if header.Err? then End(Err(header.error), |w.data|) else Reply(w, header.value)
  }

  /** From the four header bytes on. */
  function Reply(w: World, header: Bytes): End
    requires |header| == 4 && 6 <= |w.data|
  {
    if HeaderError(header).Some? then End(Err(HeaderError(header).value), 6)
    else
      var trailer := BoundTrailerLen(header[3]).value;
      if trailer.Some? then Drained(w, 6, trailer.value)
      else
        var ln := Take(w, 6, 1, false);
        if ln.Err? then End(Err(ln.error), |w.data|) else Drained(w, 7, ln.value[0] as int + 2)
  }

  /** What is wrong with a reply header, if anything. */
  function HeaderError(header: Bytes): (r: Option<EgressError>)
    requires |header| == 4
    ensures r.None? ==> BoundTrailerLen(header[3]).Ok?
  {
    if header[0] != 0x05 then Some(Protocol(BadVersion(header[0])))
    else if header[1] != 0x00 then Some(ReplyException(header[1]))
    else if BoundTrailerLen(header[3]).Err? then Some(BoundTrailerLen(header[3]).error)
    else None
  }

  function Drained(w: World, pos: nat, n: nat): End
    requires pos <= |w.data|
  {
    var t := Take(w, pos, n, false);
    if t.Err? then End(Err(t.error), |w.data|) else End(Ok(()), pos + n)
  }

  // ---- and what the clock decides -----------------------------------------------------

  datatype Kind = Dialling | Writing | Reading

  /** One wait of the handshake, and how many bytes had been consumed before it. */
  datatype Step = Step(kind: Kind, took: Delay, pos: nat)

  /** The waits of reading n bytes at pos, byte by byte; the last one is for the end if the stream is short. */
  function Reads(w: World, pos: nat, n: nat, clock: nat): seq<Step>
    requires |w.at| == |w.data|
    decreases n, |w.data|
  {
    if n == 0 then []
    else
      var wait := Wait(w, pos, clock);
      if pos < |w.data| then [Step(Reading, wait, pos)] + Reads(w, pos + 1, n - 1, clock + wait.n)
      else [Step(Reading, wait, pos)]
  }

  /** The clock after those reads. */
  function Clock(w: World, pos: nat, n: nat, clock: nat): nat
    requires pos + n <= |w.data| == |w.at|
    decreases n, |w.data|
  {
    if n == 0 then clock else Clock(w, pos + 1, n - 1, clock + Gap(clock, w.at[pos]))
  }

  /** Where a handshake is. */
  datatype Phase = AtDial | AtGreeting | AtMethod | AtRequest | AtHeader | AtReply

  function Rank(phase: Phase): nat {
    match phase
    case AtDial => 5
    case AtGreeting => 4
    case AtMethod => 3
    case AtRequest => 2
    case AtHeader => 1
    case AtReply => 0
  }

  /** The waits of a handshake from a phase on, in order. */
  function From(w: World, phase: Phase, clock: nat): seq<Step>
    requires |w.at| == |w.data|
    decreases Rank(phase), |w.data|
  {
    match phase
    case AtDial =>
      [Step(Dialling, w.dial.took, 0)]
      + if w.dial.took.Never? || !w.dial.accepted then [] else From(w, AtGreeting, clock + w.dial.took.n)
    case AtGreeting =>
      [Step(Writing, w.greeting.took, 0)]
      + if w.greeting.took.Never? || w.greeting.broken then [] else From(w, AtMethod, clock + w.greeting.took.n)
    case AtMethod =>
      Reads(w, 0, 2, clock)
      + if |w.data| < 2 || CheckMethod(w.data[0..2]).Some? then [] else From(w, AtRequest, Clock(w, 0, 2, clock))
    case AtRequest =>
      [Step(Writing, w.request.took, 2)]
      + if w.request.took.Never? || w.request.broken then [] else From(w, AtHeader, clock + w.request.took.n)
    case AtHeader =>
      if |w.data| < 2 then [] else Reads(w, 2, 4, clock) + if |w.data| < 6 then [] else From(w, AtReply, Clock(w, 2, 4, clock))
    case AtReply =>
      if |w.data| < 6 || HeaderError(w.data[2..6]).Some? then []
      else
        var trailer := BoundTrailerLen(w.data[5]).value;
        if trailer.Some? then Reads(w, 6, trailer.value, clock)
        else Reads(w, 6, 1, clock) + if |w.data| < 7 then [] else Reads(w, 7, w.data[6] as int + 2, Clock(w, 6, 1, clock))
  }

  /** The waits of a whole handshake. */
  function Steps(w: World): seq<Step>
    requires |w.at| == |w.data|
  {
    From(w, AtDial, 0)
  }

  datatype Passage = Through(clock: nat) | LateAt(kind: Kind, pos: nat)

  /** Going through waits under a limit: the first that is too late ends it. */
  function Pass(limit: Limit, clock: nat, steps: seq<Step>): Passage
    decreases steps
  {
    if steps == [] then Through(clock)
    else if Late(limit, clock, steps[0].took) then LateAt(steps[0].kind, steps[0].pos)
    else Pass(limit, clock + steps[0].took.n, steps[1..])
  }

  /** What a wait that is too late raises. */
  function LateError(limit: Limit, kind: Kind): EgressError {
    if limit.Total? then Protocol(TimedOut)
    else
      match kind
      case Dialling => Config
      case Writing => Protocol(WriteTimedOut)
      case Reading => Protocol(TimedOut)
  }

  function Judged(limit: Limit, p: Passage, last: End): End {
    if p.LateAt? then End(Err(LateError(limit, p.kind)), p.pos) else last
  }

  /** The specification both drivers refine. */
  function Handshake(w: World, limit: Limit): End
    requires |w.at| == |w.data|
  {
    Judged(limit, Pass(limit, 0, Steps(w)), Plain(w))
  }

  lemma {:induction false} PassAppend(limit: Limit, clock: nat, a: seq<Step>, b: seq<Step>)
    ensures Pass(limit, clock, a + b) ==
              if Pass(limit, clock, a).LateAt? then Pass(limit, clock, a) else Pass(limit, Pass(limit, clock, a).clock, b)
    decreases a
  {
    if a == [] {
      assert a + b == b;
    } else {
      assert (a + b)[1..] == a[1..] + b;
      if !Late(limit, clock, a[0].took) {
        PassAppend(limit, clock + a[0].took.n, a[1..], b);
      }
    }
  }

  lemma {:induction false} PassReads(limit: Limit, w: World, pos: nat, n: nat, clock: nat)
    requires pos + n <= |w.data| == |w.at| && Pass(limit, clock, Reads(w, pos, n, clock)).Through?
    ensures Pass(limit, clock, Reads(w, pos, n, clock)).clock == Clock(w, pos, n, clock)
    decreases n
  {
    if n > 0 {
      var next := clock + Gap(clock, w.at[pos]);
      assert Reads(w, pos, n, clock)[1..] == Reads(w, pos + 1, n - 1, next);
      PassReads(limit, w, pos + 1, n - 1, next);
    }
  }

  /** What is left of reading n bytes once some of them have been read. */
  ghost predicate Remains(limit: Limit, w: World, pos: nat, n: nat, clock: nat, pos': nat, n': nat, clock': nat)
    requires |w.at| == |w.data|
  {
    && pos' + n' == pos + n
    && Pass(limit, clock, Reads(w, pos, n, clock)) == Pass(limit, clock', Reads(w, pos', n', clock'))
  }

  /** Bytes that have arrived cost no time, however they are cut. */
  lemma {:induction false} Ready(limit: Limit, w: World, pos: nat, n: nat, clock: nat, k: nat)
    requires k <= n && pos + k <= |w.data| == |w.at| && !Late(limit, clock, After(0))
    requires forall i | pos <= i < pos + k :: w.at[i] <= clock
    ensures Remains(limit, w, pos, n, clock, pos + k, n - k, clock)
    decreases k
  {
    if k > 0 {
      assert Reads(w, pos, n, clock)[1..] == Reads(w, pos + 1, n - 1, clock);
      Ready(limit, w, pos + 1, n - 1, clock, k - 1);
    }
  }

  lemma ReadBlocked(limit: Limit, w: World, pos: nat, n: nat, clock: nat)
    requires n > 0 && pos <= |w.data| == |w.at|
    ensures Late(limit, clock, Wait(w, pos, clock)) ==> Pass(limit, clock, Reads(w, pos, n, clock)) == LateAt(Reading, pos)
    ensures pos == |w.data| && !Late(limit, clock, Wait(w, pos, clock)) ==> Pass(limit, clock, Reads(w, pos, n, clock)).Through?
  {
    var wait := Wait(w, pos, clock);
    if pos == |w.data| {
      assert Reads(w, pos, n, clock) == [Step(Reading, wait, pos)];
      assert Reads(w, pos, n, clock)[1..] == [];
    }
  }

  lemma ReadChunk(limit: Limit, w: World, pos: nat, n: nat, clock: nat, k: nat, clock': nat)
    requires 1 <= k <= n && pos + k <= |w.data| == |w.at| && clock' == clock + Gap(clock, w.at[pos])
    requires !Late(limit, clock, After(Gap(clock, w.at[pos]))) && !Late(limit, clock', After(0))
    requires forall i | pos <= i < pos + k :: w.at[i] <= clock'
    ensures Remains(limit, w, pos, n, clock, pos + k, n - k, clock')
  {
    assert Reads(w, pos, n, clock)[1..] == Reads(w, pos + 1, n - 1, clock');
    Ready(limit, w, pos + 1, n - 1, clock', k - 1);
  }

  /** What reading n bytes came to. */
  ghost predicate ReadEnded(limit: Limit, w: World, pos: nat, n: nat, clock: nat, peerCred: bool,
                            pos': nat, clock': nat, late: bool, r: Result<Bytes, EgressError>)
    requires pos <= |w.data| == |w.at|
  {
    var p := Pass(limit, clock, Reads(w, pos, n, clock));
    && late == p.LateAt?
    && (p.LateAt? ==> pos' == p.pos && p.kind.Reading?)
    && (p.Through? ==> r == Take(w, pos, n, peerCred) && pos' == if r.Ok? then pos + n else |w.data|)
    && (p.Through? && r.Ok? ==> clock' == Clock(w, pos, n, clock))
  }

  /** Bound for `target`: these waits are left, and then `last`. */
  ghost predicate Left(target: End, last: End, limit: Limit, clock: nat, steps: seq<Step>) {
    target == Judged(limit, Pass(limit, clock, steps), last)
  }

  lemma AfterOne(target: End, last: End, limit: Limit, clock: nat, step: Step, rest: seq<Step>)
    requires Left(target, last, limit, clock, [step] + rest)
    ensures Late(limit, clock, step.took) ==> target == End(Err(LateError(limit, step.kind)), step.pos)
    ensures !Late(limit, clock, step.took) ==> Left(target, last, limit, clock + step.took.n, rest)
  {
    assert ([step] + rest)[1..] == rest;
  }

  lemma AfterReads(w: World, target: End, last: End, limit: Limit, pos: nat, n: nat, clock: nat, rest: seq<Step>)
    requires pos <= |w.data| == |w.at| && Left(target, last, limit, clock, Reads(w, pos, n, clock) + rest)
    requires pos + n > |w.data| ==> rest == []
    ensures var p := Pass(limit, clock, Reads(w, pos, n, clock));
      && (p.LateAt? ==> target == End(Err(LateError(limit, p.kind)), p.pos))
      && (p.Through? && pos + n <= |w.data| ==> Left(target, last, limit, Clock(w, pos, n, clock), rest))
      && (p.Through? && pos + n > |w.data| ==> target == last)
  {
    PassAppend(limit, clock, Reads(w, pos, n, clock), rest);
    if pos + n <= |w.data| && Pass(limit, clock, Reads(w, pos, n, clock)).Through? {
      PassReads(limit, w, pos, n, clock);
    }
  }

  lemma Opening(w: World, limit: Limit)
    requires |w.at| == |w.data|
    ensures Late(limit, 0, w.dial.took) ==> Handshake(w, limit) == End(Err(LateError(limit, Dialling)), 0)
    ensures !Late(limit, 0, w.dial.took) && !w.dial.accepted ==> Handshake(w, limit) == End(Err(Config), 0)
    ensures !Late(limit, 0, w.dial.took) && w.dial.accepted ==>
              Left(Handshake(w, limit), Plain(w), limit, w.dial.took.n, From(w, AtGreeting, w.dial.took.n))
  {
    var rest := if w.dial.took.Never? || !w.dial.accepted then [] else From(w, AtGreeting, w.dial.took.n);
    AfterOne(Handshake(w, limit), Plain(w), limit, 0, Step(Dialling, w.dial.took, 0), rest);
  }

  // ---- each operation of a driver is the next stretch of waits --------------------------

  /** The broker has answered the dial. */
  ghost predicate Open(w: World, target: End, last: End, limit: Limit, clock: nat)
  {
    |w.at| == |w.data| && w.dial.accepted && last == Plain(w) && Left(target, last, limit, clock, From(w, AtGreeting, clock))
  }

  /** The greeting is out. */
  ghost predicate Greeted(w: World, target: End, last: End, limit: Limit, clock: nat) {
    && |w.at| == |w.data| && w.dial.accepted && !w.greeting.broken && last == Plain(w)
    && Left(target, last, limit, clock, From(w, AtMethod, clock))
  }

  /** NO-AUTH was chosen: all now hangs on the request and the reply. */
  ghost predicate Chosen(w: World, target: End, last: End, limit: Limit, clock: nat) {
    && 2 <= |w.data| == |w.at|
    && last == (if w.request.broken then End(Err(ClosedMidHandshake(false, false)), 2) else AfterRequest(w))
    && Left(target, last, limit, clock, From(w, AtRequest, clock))
  }

  /** The request is out. */
  ghost predicate Asked(w: World, target: End, last: End, limit: Limit, clock: nat) {
    2 <= |w.data| == |w.at| && last == AfterRequest(w) && Left(target, last, limit, clock, From(w, AtHeader, clock))
  }

  /** The reply says the tunnel is up; only the bound address is left. */
  ghost predicate Replied(w: World, header: Bytes, target: End, last: End, limit: Limit, clock: nat) {
    && 6 <= |w.data| == |w.at| && header == w.data[2..6] && HeaderError(header).None?
    && last == Reply(w, header) && Left(target, last, limit, clock, From(w, AtReply, clock))
  }

  /** So many bytes are left to drain. */
  ghost predicate Draining(w: World, pos: nat, n: nat, target: End, last: End, limit: Limit, clock: nat) {
    && pos <= |w.data| == |w.at|
    && last == Drained(w, pos, n) && Left(target, last, limit, clock, Reads(w, pos, n, clock))
  }

  lemma GreetingWritten(w: World, target: End, last: End, limit: Limit, clock: nat)
    requires Open(w, target, last, limit, clock)
    ensures Late(limit, clock, w.greeting.took) ==> target == End(Err(LateError(limit, Writing)), 0)
    ensures !Late(limit, clock, w.greeting.took) && w.greeting.broken ==> target == End(Err(ClosedMidHandshake(true, false)), 0)
    ensures !Late(limit, clock, w.greeting.took) && !w.greeting.broken ==> Greeted(w, target, last, limit, clock + w.greeting.took.n)
  {
    var rest := if w.greeting.took.Never? || w.greeting.broken then [] else From(w, AtMethod, clock + w.greeting.took.n);
    AfterOne(target, last, limit, clock, Step(Writing, w.greeting.took, 0), rest);
  }

  /** What a reader reports: the error of a wait that was too late, or what the stream gave. */
  predicate Reported(target: End, pos: nat, late: bool, r: Result<Bytes, EgressError>) {
    r.Err? ==> target == End(Err(if late then Protocol(TimedOut) else r.error), pos)
  }

  lemma MethodRead(w: World, target: End, last: End, limit: Limit, clock: nat, pos: nat, clock': nat, late: bool, r: Result<Bytes, EgressError>)
    requires Greeted(w, target, last, limit, clock)
    requires ReadEnded(limit, w, 0, 2, clock, true, pos, clock', late, r) && (late ==> r.Err?)
    ensures Reported(target, pos, late, r)
    ensures r.Ok? ==> |r.value| == 2 && pos == 2
    ensures r.Ok? && CheckMethod(r.value).Some? ==> target == End(Err(CheckMethod(r.value).value), 2)
    ensures r.Ok? && CheckMethod(r.value).None? ==> Chosen(w, target, last, limit, clock')
  {
    var rest := if |w.data| < 2 || CheckMethod(w.data[0..2]).Some? then [] else From(w, AtRequest, Clock(w, 0, 2, clock));
    AfterReads(w, target, last, limit, 0, 2, clock, rest);
  }

  lemma RequestWritten(w: World, target: End, last: End, limit: Limit, clock: nat)
    requires Chosen(w, target, last, limit, clock)
    ensures Late(limit, clock, w.request.took) ==> target == End(Err(LateError(limit, Writing)), 2)
    ensures !Late(limit, clock, w.request.took) && w.request.broken ==> target == End(Err(ClosedMidHandshake(false, false)), 2)
    ensures !Late(limit, clock, w.request.took) && !w.request.broken ==> Asked(w, target, last, limit, clock + w.request.took.n)
  {
    var rest := if w.request.took.Never? || w.request.broken then [] else From(w, AtHeader, clock + w.request.took.n);
    AfterOne(target, last, limit, clock, Step(Writing, w.request.took, 2), rest);
  }

  lemma HeaderRead(w: World, target: End, last: End, limit: Limit, clock: nat, pos: nat, clock': nat, late: bool, r: Result<Bytes, EgressError>)
    requires Asked(w, target, last, limit, clock)
    requires ReadEnded(limit, w, 2, 4, clock, false, pos, clock', late, r) && (late ==> r.Err?)
    ensures Reported(target, pos, late, r)
    ensures r.Ok? ==> |r.value| == 4 && pos == 6
    ensures r.Ok? && HeaderError(r.value).Some? ==> target == End(Err(HeaderError(r.value).value), 6)
    ensures r.Ok? && HeaderError(r.value).None? ==> Replied(w, r.value, target, last, limit, clock')
  {
    AfterReads(w, target, last, limit, 2, 4, clock, if |w.data| < 6 then [] else From(w, AtReply, Clock(w, 2, 4, clock)));
  }

  lemma ReplyDrains(w: World, header: Bytes, target: End, last: End, limit: Limit, clock: nat)
    requires |header| == 4 && Replied(w, header, target, last, limit, clock) && BoundTrailerLen(header[3]).value.Some?
    ensures Draining(w, 6, BoundTrailerLen(header[3]).value.value, target, last, limit, clock)
  {
  }

  lemma LengthRead(w: World, header: Bytes, target: End, last: End, limit: Limit, clock: nat, pos: nat, clock': nat, late: bool,
                   r: Result<Bytes, EgressError>)
    requires |header| == 4 && Replied(w, header, target, last, limit, clock) && BoundTrailerLen(header[3]).value.None?
    requires ReadEnded(limit, w, 6, 1, clock, false, pos, clock', late, r) && (late ==> r.Err?)
    ensures Reported(target, pos, late, r)
    ensures r.Ok? ==> |r.value| == 1 && pos == 7 && Draining(w, 7, r.value[0] as int + 2, target, last, limit, clock')
  {
    AfterReads(w, target, last, limit, 6, 1, clock,
               if |w.data| < 7 then [] else Reads(w, 7, w.data[6] as int + 2, Clock(w, 6, 1, clock)));
  }

  lemma TrailerRead(w: World, from: nat, n: nat, target: End, last: End, limit: Limit, clock: nat, pos: nat, clock': nat, late: bool,
                    r: Result<Bytes, EgressError>)
    requires Draining(w, from, n, target, last, limit, clock)
    requires ReadEnded(limit, w, from, n, clock, false, pos, clock', late, r) && (late ==> r.Err?)
    ensures Reported(target, pos, late, r)
    ensures r.Ok? ==> target == End(Ok(()), pos)
  {
    assert Reads(w, from, n, clock) + [] == Reads(w, from, n, clock);
    AfterReads(w, target, last, limit, from, n, clock, []);
  }

  // ---- the blocking driver --------------------------------------------------------

  method RecvExactSync(b: Broker, n: nat, peerCred: bool) returns (r: Result<Bytes, EgressError>)
    requires b.Valid()
    modifies b`cuts, b`pos, b`clock
    ensures b.Valid()
    ensures ReadEnded(b.limit, b.world, old(b.pos), n, old(b.clock), peerCred, b.pos, b.clock, r == Err(Protocol(TimedOut)), r)
    ensures b.pos <= old(b.pos) + n
  {
    var buf: Bytes := [];
    while |buf| < n
      invariant b.Valid() && |buf| <= n
      invariant b.pos == old(b.pos) + |buf| && buf == b.world.data[old(b.pos)..b.pos]
      invariant Remains(b.limit, b.world, old(b.pos), n, old(b.clock), b.pos, n - |buf|, b.clock)
      decreases n - |buf|
    {
      ghost var pos, clock := b.pos, b.clock;
      ReadBlocked(b.limit, b.world, pos, n - |buf|, clock);
      var chunk := b.Receive(n - |buf|);
      match chunk
      case RecvTimeout => return Err(Protocol(TimedOut));
      case ConnReset => return Err(ClosedMidHandshake(peerCred, buf != []));
      case EndOfStream => return Err(ClosedMidHandshake(peerCred, buf != []));
      case Chunk(bytes) =>
        ReadChunk(b.limit, b.world, pos, n - |buf|, clock, |bytes|, b.clock);
        buf := buf + bytes;
    }
    PassReads(b.limit, b.world, old(b.pos), n, old(b.clock));
    r := Ok(buf);
  }

  method SendAllSync(b: Broker, data: Bytes, fate: SendFate, peerCred: bool) returns (r: Option<EgressError>)
    requires b.Valid() && b.limit.PerOperation?
    modifies b`sent, b`clock
    ensures b.Valid()
    ensures Late(b.limit, old(b.clock), fate.took) ==> r == Some(LateError(b.limit, Writing))
    ensures !Late(b.limit, old(b.clock), fate.took) ==>
              && r == (if fate.broken then Some(ClosedMidHandshake(peerCred, false)) else None)
              && b.clock == old(b.clock) + fate.took.n
    ensures b.sent == if r.None? then old(b.sent) + data else old(b.sent)
  {
    var sent := b.Send(data, fate);
    match sent
    case Done => r := None;
    case SendTimeout => r := Some(Protocol(WriteTimedOut));
    case SendBroken => r := Some(ClosedMidHandshake(peerCred, false));
  }

  /** The body of the try block of _socks5_connect_sync, after the socket is connected. */
  method ShakeSync(b: Broker, request: Bytes, ghost target: End, ghost last: End) returns (r: Result<(), EgressError>)
    requires b.Valid() && b.pos == 0 && b.sent == [] && b.limit.PerOperation?
    requires Open(b.world, target, last, b.limit, b.clock)
    modifies b`cuts, b`pos, b`sent, b`clock
    ensures b.Valid() && End(r, b.pos) == target
    ensures b.sent <= GREETING + request && (b.pos > 0 ==> GREETING <= b.sent) && (r.Ok? || b.pos > 2 ==> b.sent == GREETING + request)
  {
    var failed := GreetSync(b, target, last);
    if failed.Some? {
      return Err(failed.value);
    }
    failed := AskSync(b, request, target, last);
    if failed.Some? {
      return Err(failed.value);
    }
    r := ReplySync(b, target, last);
  }

  /** The greeting, and the method reply. */
  method GreetSync(b: Broker, ghost target: End, ghost last: End) returns (r: Option<EgressError>)
    requires b.Valid() && b.pos == 0 && b.sent == [] && b.limit.PerOperation?
    requires Open(b.world, target, last, b.limit, b.clock)
    modifies b`cuts, b`pos, b`sent, b`clock
    ensures b.Valid() && b.pos <= 2 && (b.sent == GREETING || (b.sent == [] && r.Some? && b.pos == 0))
    ensures r.Some? ==> target == End(Err(r.value), b.pos)
    ensures r.None? ==> b.pos == 2 && Chosen(b.world, target, last, b.limit, b.clock)
  {
    GreetingWritten(b.world, target, last, b.limit, b.clock);
    r := SendAllSync(b, GREETING, b.world.greeting, true);
    if r.None? {
      r := ChooseSync(b, target, last);
    }
  }

  /** The request. */
  method AskSync(b: Broker, request: Bytes, ghost target: End, ghost last: End) returns (r: Option<EgressError>)
    requires b.Valid() && b.pos == 2 && b.limit.PerOperation? && Chosen(b.world, target, last, b.limit, b.clock)
    modifies b`sent, b`clock
    ensures b.Valid() && b.sent == if r.None? then old(b.sent) + request else old(b.sent)
    ensures r.Some? ==> target == End(Err(r.value), b.pos)
    ensures r.None? ==> Asked(b.world, target, last, b.limit, b.clock)
  {
    RequestWritten(b.world, target, last, b.limit, b.clock);
    r := SendAllSync(b, request, b.world.request, false);
  }

  /** The method reply. */
  method ChooseSync(b: Broker, ghost target: End, ghost last: End) returns (r: Option<EgressError>)
    requires b.Valid() && b.pos == 0 && b.limit.PerOperation? && Greeted(b.world, target, last, b.limit, b.clock)
    modifies b`cuts, b`pos, b`clock
    ensures b.Valid() && b.pos <= 2
    ensures r.Some? ==> target == End(Err(r.value), b.pos)
    ensures r.None? ==> b.pos == 2 && Chosen(b.world, target, last, b.limit, b.clock)
  {
    ghost var clock := b.clock;
    var reply := RecvExactSync(b, 2, true);
    MethodRead(b.world, target, last, b.limit, clock, b.pos, b.clock, reply == Err(Protocol(TimedOut)), reply);
    if reply.Err? {
      return Some(reply.error);
    }
    r := CheckMethod(reply.value);
  }

  /** From the header of the reply on. */
  method ReplySync(b: Broker, ghost target: End, ghost last: End) returns (r: Result<(), EgressError>)
    requires b.Valid() && b.pos == 2 && b.limit.PerOperation? && Asked(b.world, target, last, b.limit, b.clock)
    modifies b`cuts, b`pos, b`clock
    ensures b.Valid() && End(r, b.pos) == target
  {
    ghost var clock := b.clock;
    var header := RecvExactSync(b, 4, false);
    HeaderRead(b.world, target, last, b.limit, clock, b.pos, b.clock, header == Err(Protocol(TimedOut)), header);
    if header.Err? {
      return Err(header.error);
    }
    if header.value[0] != 0x05 {
      return Err(Protocol(BadVersion(header.value[0])));
    }
    if header.value[1] != 0x00 {
      return Err(ReplyException(header.value[1]));
    }
    var trailer := BoundTrailerLen(header.value[3]);
    if trailer.Err? {
      return Err(trailer.error);
    }
    if trailer.value.None? {
      r := NameSync(b, header.value, target, last);
    } else {
      ReplyDrains(b.world, header.value, target, last, b.limit, b.clock);
      r := DrainSync(b, trailer.value.value, target, last);
    }
  }

  /** A bound name: one length byte, then that many and the port. */
  method NameSync(b: Broker, ghost header: Bytes, ghost target: End, ghost last: End) returns (r: Result<(), EgressError>)
    requires b.Valid() && b.pos == 6 && b.limit.PerOperation? && |header| == 4
    requires Replied(b.world, header, target, last, b.limit, b.clock) && BoundTrailerLen(header[3]).value.None?
    modifies b`cuts, b`pos, b`clock
    ensures b.Valid() && End(r, b.pos) == target
  {
    ghost var clock := b.clock;
    var ln := RecvExactSync(b, 1, false);
    LengthRead(b.world, header, target, last, b.limit, clock, b.pos, b.clock, ln == Err(Protocol(TimedOut)), ln);
    if ln.Err? {
      return Err(ln.error);
    }
    r := DrainSync(b, ln.value[0] as int + 2, target, last);
  }

  /** The bound address and port, which nobody looks at. */
  method DrainSync(b: Broker, n: nat, ghost target: End, ghost last: End) returns (r: Result<(), EgressError>)
    requires b.Valid() && b.limit.PerOperation? && Draining(b.world, b.pos, n, target, last, b.limit, b.clock)
    modifies b`cuts, b`pos, b`clock
    ensures b.Valid() && End(r, b.pos) == target
  {
    ghost var pos, clock := b.pos, b.clock;
    var rest := RecvExactSync(b, n, false);
    TrailerRead(b.world, pos, n, target, last, b.limit, clock, b.pos, b.clock, rest == Err(Protocol(TimedOut)), rest);
    r := if rest.Err? then Err(rest.error) else Ok(());
  }

  /** _socks5_connect_sync: the socket is left open exactly on success. */
  method ConnectSync(b: Broker, host: string, port: int, idna: string -> Option<Bytes>, timeout: nat) returns (r: Result<(), EgressError>)
    requires b.Fresh()
    modifies b
    ensures b.Valid() && b.open == r.Ok?
    ensures ConnectRequest(host, port, idna).Err? ==>
              r == Err(ConnectRequest(host, port, idna).error) && b.pos == 0 && b.sent == []
    ensures ConnectRequest(host, port, idna).Ok? ==>
              && End(r, b.pos) == Handshake(b.world, PerOperation(timeout))
              && b.sent <= GREETING + ConnectRequest(host, port, idna).value
              && (b.pos > 0 ==> GREETING <= b.sent)
              && (r.Ok? || b.pos > 2 ==> b.sent == GREETING + ConnectRequest(host, port, idna).value)
  {
    var request := ConnectRequest(host, port, idna);
    if request.Err? {
      return Err(request.error);
    }
    b.SetLimit(PerOperation(timeout));
    Opening(b.world, b.limit);
    var dialled := b.Connect();
    if !dialled.Connected? {
      b.Close();
      return Err(Config);
    }
    r := ShakeSync(b, request.value, Handshake(b.world, b.limit), Plain(b.world));
    if r.Err? {
      b.Close();
    }
  }

  // ---- the async driver -----------------------------------------------------------

  /** What an await can raise: an egress error, or the cancellation by the deadline around the whole handshake. */
  datatype Raised = Egress(error: EgressError) | Deadline

  /** The error the caller of the async driver sees. */
  function Surfaced(e: Raised): EgressError {
    if e.Deadline? then Protocol(TimedOut) else e.error
  }

  function Seen<T>(r: Result<T, Raised>): Result<T, EgressError> {
    if r.Ok? then Ok(r.value) else Err(Surfaced(r.error))
  }

  method RecvExactAsync(b: Broker, n: nat, peerCred: bool) returns (r: Result<Bytes, Raised>)
    requires b.Valid()
    modifies b`cuts, b`pos, b`clock
    ensures b.Valid()
    ensures ReadEnded(b.limit, b.world, old(b.pos), n, old(b.clock), peerCred, b.pos, b.clock, r == Err(Deadline), Seen(r))
    ensures b.pos <= old(b.pos) + n
  {
    var buf: Bytes := [];
    while |buf| < n
      invariant b.Valid() && |buf| <= n
      invariant b.pos == old(b.pos) + |buf| && buf == b.world.data[old(b.pos)..b.pos]
      invariant Remains(b.limit, b.world, old(b.pos), n, old(b.clock), b.pos, n - |buf|, b.clock)
      decreases n - |buf|
    {
      ghost var pos, clock := b.pos, b.clock;
      ReadBlocked(b.limit, b.world, pos, n - |buf|, clock);
      var chunk := b.Receive(n - |buf|);
      match chunk
      case RecvTimeout => return Err(Deadline);
      case ConnReset => return Err(Egress(ClosedMidHandshake(peerCred, buf != [])));
      case EndOfStream => return Err(Egress(ClosedMidHandshake(peerCred, buf != [])));
      case Chunk(bytes) =>
        ReadChunk(b.limit, b.world, pos, n - |buf|, clock, |bytes|, b.clock);
        buf := buf + bytes;
    }
    PassReads(b.limit, b.world, old(b.pos), n, old(b.clock));
    r := Ok(buf);
  }

  method SendAllAsync(b: Broker, data: Bytes, fate: SendFate, peerCred: bool) returns (r: Option<Raised>)
    requires b.Valid() && b.limit.Total?
    modifies b`sent, b`clock
    ensures b.Valid()
    ensures Late(b.limit, old(b.clock), fate.took) ==> r == Some(Deadline)
    ensures !Late(b.limit, old(b.clock), fate.took) ==>
              && r == (if fate.broken then Some(Egress(ClosedMidHandshake(peerCred, false))) else None)
              && b.clock == old(b.clock) + fate.took.n
    ensures b.sent == if r.None? then old(b.sent) + data else old(b.sent)
  {
    var sent := b.Send(data, fate);
    match sent
    case Done => r := None;
    case SendTimeout => r := Some(Deadline);
    case SendBroken => r := Some(Egress(ClosedMidHandshake(peerCred, false)));
  }

  /** The body of the try block of _socks5_connect_async, after the stream is connected. */
  method ShakeAsync(b: Broker, request: Bytes, ghost target: End, ghost last: End) returns (r: Result<(), Raised>)
    requires b.Valid() && b.pos == 0 && b.sent == [] && b.limit.Total?
    requires Open(b.world, target, last, b.limit, b.clock)
    modifies b`cuts, b`pos, b`sent, b`clock
    ensures b.Valid() && End(Seen(r), b.pos) == target
    ensures b.sent <= GREETING + request && (b.pos > 0 ==> GREETING <= b.sent) && (r.Ok? || b.pos > 2 ==> b.sent == GREETING + request)
  {
    var failed := GreetAsync(b, target, last);
    if failed.Some? {
      return Err(failed.value);
    }
    failed := AskAsync(b, request, target, last);
    if failed.Some? {
      return Err(failed.value);
    }
    r := ReplyAsync(b, target, last);
  }

  /** The greeting, and the method reply. */
  method GreetAsync(b: Broker, ghost target: End, ghost last: End) returns (r: Option<Raised>)
    requires b.Valid() && b.pos == 0 && b.sent == [] && b.limit.Total?
    requires Open(b.world, target, last, b.limit, b.clock)
    modifies b`cuts, b`pos, b`sent, b`clock
    ensures b.Valid() && b.pos <= 2 && (b.sent == GREETING || (b.sent == [] && r.Some? && b.pos == 0))
    ensures r.Some? ==> target == End(Err(Surfaced(r.value)), b.pos)
    ensures r.None? ==> b.pos == 2 && Chosen(b.world, target, last, b.limit, b.clock)
  {
    GreetingWritten(b.world, target, last, b.limit, b.clock);
    r := SendAllAsync(b, GREETING, b.world.greeting, true);
    if r.None? {
      r := ChooseAsync(b, target, last);
    }
  }

  /** The request. */
  method AskAsync(b: Broker, request: Bytes, ghost target: End, ghost last: End) returns (r: Option<Raised>)
    requires b.Valid() && b.pos == 2 && b.limit.Total? && Chosen(b.world, target, last, b.limit, b.clock)
    modifies b`sent, b`clock
    ensures b.Valid() && b.sent == if r.None? then old(b.sent) + request else old(b.sent)
    ensures r.Some? ==> target == End(Err(Surfaced(r.value)), b.pos)
    ensures r.None? ==> Asked(b.world, target, last, b.limit, b.clock)
  {
    RequestWritten(b.world, target, last, b.limit, b.clock);
    r := SendAllAsync(b, request, b.world.request, false);
  }

  /** The method reply. */
  method ChooseAsync(b: Broker, ghost target: End, ghost last: End) returns (r: Option<Raised>)
    requires b.Valid() && b.pos == 0 && b.limit.Total? && Greeted(b.world, target, last, b.limit, b.clock)
    modifies b`cuts, b`pos, b`clock
    ensures b.Valid() && b.pos <= 2
    ensures r.Some? ==> target == End(Err(Surfaced(r.value)), b.pos)
    ensures r.None? ==> b.pos == 2 && Chosen(b.world, target, last, b.limit, b.clock)
  {
    ghost var clock := b.clock;
    var reply := RecvExactAsync(b, 2, true);
    MethodRead(b.world, target, last, b.limit, clock, b.pos, b.clock, reply == Err(Deadline), Seen(reply));
    if reply.Err? {
      return Some(reply.error);
    }
    var bad := CheckMethod(reply.value);
    r := if bad.Some? then Some(Egress(bad.value)) else None;
  }

  /** From the header of the reply on. */
  method ReplyAsync(b: Broker, ghost target: End, ghost last: End) returns (r: Result<(), Raised>)
    requires b.Valid() && b.pos == 2 && b.limit.Total? && Asked(b.world, target, last, b.limit, b.clock)
    modifies b`cuts, b`pos, b`clock
    ensures b.Valid() && End(Seen(r), b.pos) == target
  {
    ghost var clock := b.clock;
    var header := RecvExactAsync(b, 4, false);
    HeaderRead(b.world, target, last, b.limit, clock, b.pos, b.clock, header == Err(Deadline), Seen(header));
    if header.Err? {
      return Err(header.error);
    }
    if header.value[0] != 0x05 {
      return Err(Egress(Protocol(BadVersion(header.value[0]))));
    }
    if header.value[1] != 0x00 {
      return Err(Egress(ReplyException(header.value[1])));
    }
    var trailer := BoundTrailerLen(header.value[3]);
    if trailer.Err? {
      return Err(Egress(trailer.error));
    }
    if trailer.value.None? {
      r := NameAsync(b, header.value, target, last);
    } else {
      ReplyDrains(b.world, header.value, target, last, b.limit, b.clock);
      r := DrainAsync(b, trailer.value.value, target, last);
    }
  }

  /** A bound name: one length byte, then that many and the port. */
  method NameAsync(b: Broker, ghost header: Bytes, ghost target: End, ghost last: End) returns (r: Result<(), Raised>)
    requires b.Valid() && b.pos == 6 && b.limit.Total? && |header| == 4
    requires Replied(b.world, header, target, last, b.limit, b.clock) && BoundTrailerLen(header[3]).value.None?
    modifies b`cuts, b`pos, b`clock
    ensures b.Valid() && End(Seen(r), b.pos) == target
  {
    ghost var clock := b.clock;
    var ln := RecvExactAsync(b, 1, false);
    LengthRead(b.world, header, target, last, b.limit, clock, b.pos, b.clock, ln == Err(Deadline), Seen(ln));
    if ln.Err? {
      return Err(ln.error);
    }
    r := DrainAsync(b, ln.value[0] as int + 2, target, last);
  }

  /** The bound address and port, which nobody looks at. */
  method DrainAsync(b: Broker, n: nat, ghost target: End, ghost last: End) returns (r: Result<(), Raised>)
    requires b.Valid() && b.limit.Total? && Draining(b.world, b.pos, n, target, last, b.limit, b.clock)
    modifies b`cuts, b`pos, b`clock
    ensures b.Valid() && End(Seen(r), b.pos) == target
  {
    ghost var pos, clock := b.pos, b.clock;
    var rest := RecvExactAsync(b, n, false);
    TrailerRead(b.world, pos, n, target, last, b.limit, clock, b.pos, b.clock, rest == Err(Deadline), Seen(rest));
    r := if rest.Err? then Err(rest.error) else Ok(());
  }

  /** _socks5_connect_async: same contract, but one deadline over everything, the dial included. */
  method ConnectAsync(b: Broker, host: string, port: int, idna: string -> Option<Bytes>, timeout: nat) returns (r: Result<(), EgressError>)
    requires b.Fresh()
    modifies b
    ensures b.Valid() && b.open == r.Ok?
    ensures ConnectRequest(host, port, idna).Err? ==>
              r == Err(ConnectRequest(host, port, idna).error) && b.pos == 0 && b.sent == []
    ensures ConnectRequest(host, port, idna).Ok? ==>
              && End(r, b.pos) == Handshake(b.world, Total(timeout))
              && b.sent <= GREETING + ConnectRequest(host, port, idna).value
              && (b.pos > 0 ==> GREETING <= b.sent)
              && (r.Ok? || b.pos > 2 ==> b.sent == GREETING + ConnectRequest(host, port, idna).value)
  {
    var request := ConnectRequest(host, port, idna);
    if request.Err? {
      return Err(request.error);
    }
    b.SetLimit(Total(timeout));
    Opening(b.world, b.limit);
    var dialled := b.Connect();
    if dialled.ConnectTimeout? {
      return Err(Surfaced(Deadline));
    }
    if dialled.ConnectFailed? {
      return Err(Config);
    }
    var shaken := ShakeAsync(b, request.value, Handshake(b.world, b.limit), Plain(b.world));
    if shaken.Err? {
      b.Close();
      return Err(Surfaced(shaken.error));
    }
    r := Ok(());
  }
}
