/** What a SOCKS5 handshake comes to, and when the two drivers differ. */
module Socks5Laws {
  import opened Bytes
  import opened Wrappers
  import opened Egress
  import opened Socks5

  /** BND.ADDR and BND.PORT of a reply (RFC 1928 section 6). */
  datatype Bound = V4(addr: Bytes) | V6(addr: Bytes) | Name(addr: Bytes)

  predicate BoundOk(a: Bound) {
    match a
    case V4(addr) => |addr| == 4
    case V6(addr) => |addr| == 16
    case Name(addr) => |addr| <= 255
  }

  function EncBound(a: Bound): Bytes
    requires BoundOk(a)
  {
    match a
    case V4(addr) => addr
    case V6(addr) => addr
    case Name(addr) => [|addr|] + addr
  }

  function Atyp(a: Bound): Byte {
    match a case V4(_) => 0x01 case V6(_) => 0x04 case Name(_) => 0x03
  }

  /** Everything a broker sends when it accepts: the method selection, then the success reply. */
  function Acceptance(rsv: Byte, a: Bound, port: Bytes): Bytes
    requires BoundOk(a) && |port| == 2
  {
    [0x05, 0x00, 0x05, 0x00, rsv, Atyp(a)] + EncBound(a) + port
  }

  ghost predicate Accepts(front: Bytes) {
    exists rsv: Byte, a: Bound, port: Bytes :: BoundOk(a) && |port| == 2 && front == Acceptance(rsv, a, port)
  }

  /** The first n bytes have the fields of an acceptance, byte by byte. */
  predicate Shape(d: Bytes, n: nat) {
    && 8 <= n <= |d|
    && d[0] == 0x05 && d[1] == 0x00 && d[2] == 0x05 && d[3] == 0x00
    && ((d[5] == 0x01 && n == 12) || (d[5] == 0x04 && n == 24) || (d[5] == 0x03 && n - 9 == d[6]))
  }

  lemma SuccessShape(w: World, n: nat)
    requires w.dial.accepted && !w.greeting.broken && !w.request.broken
    ensures Plain(w) == End(Ok(()), n) <==> Shape(w.data, n)
  {
  }

  lemma ShapeAccepts(d: Bytes, n: nat)
    requires Shape(d, n)
    ensures Accepts(d[..n])
  {
    var a := if d[5] == 0x01 then V4(d[6..10]) else if d[5] == 0x04 then V6(d[6..22]) else Name(d[7..n - 2]);
    BoundBytes(d, n, a);
    Pieces(d, n);
    assert d[..n] == Acceptance(d[4], a, d[n - 2..n]);
  }

  lemma BoundBytes(d: Bytes, n: nat, a: Bound)
    requires Shape(d, n)
    requires a == if d[5] == 0x01 then V4(d[6..10]) else if d[5] == 0x04 then V6(d[6..22]) else Name(d[7..n - 2])
    ensures BoundOk(a) && EncBound(a) == d[6..n - 2] && Atyp(a) == d[5]
  {
  }

  lemma Pieces(d: Bytes, n: nat)
    requires Shape(d, n)
    ensures d[..n] == [0x05, 0x00, 0x05, 0x00, d[4], d[5]] + d[6..n - 2] + d[n - 2..n]
  {
  }

  lemma AcceptsShape(d: Bytes, n: nat, rsv: Byte, a: Bound, port: Bytes)
    requires n <= |d| && BoundOk(a) && |port| == 2 && d[..n] == Acceptance(rsv, a, port)
    ensures Shape(d, n)
  {
    var front := d[..n];
    assert forall i | 0 <= i < n :: d[i] == front[i];
    var head: Bytes := [0x05, 0x00, 0x05, 0x00, rsv, Atyp(a)];
    assert front == head + (EncBound(a) + port);
    assert forall i | 0 <= i < 6 :: front[i] == head[i];
    if a.Name? {
      assert front[6] == EncBound(a)[0];
    }
  }

  // ---- waits --------------------------------------------------------------------------

  predicate Slow(step: Step, t: nat) {
    step.took.Never? || step.took.n > t
  }

  /** The first wait that is too long by itself, or the number of waits. */
  function FirstSlow(steps: seq<Step>, t: nat): (r: nat)
    ensures r <= |steps|
    ensures r < |steps| ==> Slow(steps[r], t)
    ensures forall i | 0 <= i < r :: !Slow(steps[i], t)
  {
    if steps == [] || Slow(steps[0], t) then 0 else 1 + FirstSlow(steps[1..], t)
  }

  /** The wait in which the clock passes t, or the number of waits. */
  function FirstOver(steps: seq<Step>, clock: nat, t: nat): (r: nat)
    ensures r <= |steps|
    decreases |steps|
  {
    if steps == [] || steps[0].took.Never? || clock + steps[0].took.n > t then 0
    else 1 + FirstOver(steps[1..], clock + steps[0].took.n, t)
  }

  lemma {:induction false} SlowPass(steps: seq<Step>, clock: nat, t: nat)
    ensures var j := FirstSlow(steps, t);
      && (j == |steps| <==> Pass(PerOperation(t), clock, steps).Through?)
      && (j < |steps| ==> Pass(PerOperation(t), clock, steps) == LateAt(steps[j].kind, steps[j].pos))
    decreases |steps|
  {
    if steps != [] && !Slow(steps[0], t) {
      SlowPass(steps[1..], clock + steps[0].took.n, t);
    }
  }

  lemma {:induction false} OverPass(steps: seq<Step>, clock: nat, t: nat)
    ensures var i := FirstOver(steps, clock, t);
      && (i == |steps| <==> Pass(Total(t), clock, steps).Through?)
      && (i < |steps| ==> Pass(Total(t), clock, steps) == LateAt(steps[i].kind, steps[i].pos))
    decreases |steps|
  {
    if steps != [] && !Late(Total(t), clock, steps[0].took) {
      OverPass(steps[1..], clock + steps[0].took.n, t);
    }
  }

  /** A wait that is too long by itself takes the whole over its limit, if nothing did before. */
  lemma {:induction false} OverBeforeSlow(steps: seq<Step>, clock: nat, t: nat)
    ensures FirstOver(steps, clock, t) <= FirstSlow(steps, t)
    decreases |steps|
  {
    if steps != [] && !Late(Total(t), clock, steps[0].took) {
      OverBeforeSlow(steps[1..], clock + steps[0].took.n, t);
    }
  }

  lemma PlainIsNoTimeout(w: World)
    ensures Plain(w).result != Err(Protocol(TimedOut))
  {
    assert forall rep :: ReplyException(rep) != Protocol(TimedOut);
  }

  /**
   * The drivers end alike, in result and bytes consumed, exactly if the waits together stay
   * within the time-out, or if the first wait too long by itself is a read and no byte comes
   * between the deadline and that read.
   */
  lemma DriversAgreeIff(w: World, t: nat)
    requires |w.at| == |w.data|
    ensures var steps := Steps(w); var over, slow := FirstOver(steps, 0, t), FirstSlow(steps, t);
      Handshake(w, PerOperation(t)) == Handshake(w, Total(t)) <==>
        over == |steps| || (slow < |steps| && steps[slow].kind.Reading? && steps[slow].pos == steps[over].pos)
  {
    var steps := Steps(w);
    SlowPass(steps, 0, t);
    OverPass(steps, 0, t);
    OverBeforeSlow(steps, 0, t);
    PlainIsNoTimeout(w);
  }

  /** Without time-outs both end as the byte stream alone decides. */
  lemma DriversAgreeInTime(w: World, t: nat)
    requires |w.at| == |w.data| && FirstOver(Steps(w), 0, t) == |Steps(w)|
    ensures Handshake(w, PerOperation(t)) == Handshake(w, Total(t)) == Plain(w)
  {
    SlowPass(Steps(w), 0, t);
    OverPass(Steps(w), 0, t);
    OverBeforeSlow(Steps(w), 0, t);
  }

  /** A broker that is slow but never slower than the limit at once: the blocking driver waits for it, the async one does not. */
  lemma SteadyBrokerDiffers(w: World, t: nat)
    requires |w.at| == |w.data|
    requires AllFast(Steps(w), t) && FirstOver(Steps(w), 0, t) < |Steps(w)|
    ensures Handshake(w, PerOperation(t)) == Plain(w)
    ensures Handshake(w, Total(t)).result == Err(Protocol(TimedOut))
    ensures Handshake(w, PerOperation(t)) != Handshake(w, Total(t))
  {
    SlowPass(Steps(w), 0, t);
    OverPass(Steps(w), 0, t);
    PlainIsNoTimeout(w);
  }

  /** One byte every twenty seconds. */
  predicate EveryTwenty(w: World) {
    |w.at| == |w.data| && forall i | 0 <= i < |w.at| :: w.at[i] == 20 * (i + 1)
  }

  predicate AllFast(steps: seq<Step>, t: nat) {
    forall i | 0 <= i < |steps| :: !Slow(steps[i], t)
  }

  lemma {:induction false} TwentyEach(w: World, pos: nat, n: nat, clock: nat)
    requires EveryTwenty(w) && pos + n <= |w.data| && clock == 20 * pos
    ensures AllFast(Reads(w, pos, n, clock), 30) && Clock(w, pos, n, clock) == 20 * (pos + n)
    decreases n
  {
    if n > 0 {
      TwentyEach(w, pos + 1, n - 1, clock + 20);
    }
  }

  lemma FastJoin(a: seq<Step>, b: seq<Step>, t: nat)
    requires AllFast(a, t) && AllFast(b, t)
    ensures AllFast(a + b, t)
  {
  }

  /** A broker that accepts, at twenty seconds a byte. */
  function SlowAcceptance(): (w: World)
    ensures |w.data| == |w.at| == 12
  {
    World(Dial(After(0), true), [0x05, 0x00, 0x05, 0x00, 0x00, 0x01, 0, 0, 0, 0, 0, 0],
          seq(12, i => 20 * (i + 1)), Silence, SendFate(After(0), false), SendFate(After(0), false))
  }

  predicate SlowBroker(w: World) {
    && EveryTwenty(w) && |w.data| == 12 && Shape(w.data, 12) && w.data[5] == 0x01
    && w.dial == Dial(After(0), true) && w.greeting == w.request == SendFate(After(0), false)
  }

  lemma SlowAcceptanceIsSlow()
    ensures SlowBroker(SlowAcceptance())
  {
  }

  lemma SlowShape(w: World)
    requires SlowBroker(w)
    ensures Plain(w) == End(Ok(()), 12)
    ensures CheckMethod(w.data[0..2]).None? && HeaderError(w.data[2..6]).None? && BoundTrailerLen(w.data[5]) == Ok(Some(6))
  {
    SuccessShape(w, 12);
  }

  lemma SlowReply(w: World, clock: nat)
    requires SlowBroker(w) && clock == 40
    ensures AllFast(From(w, AtHeader, clock), 30)
  {
    SlowShape(w);
    var after := Clock(w, 2, 4, clock);
    TwentyEach(w, 2, 4, clock);
    TwentyEach(w, 6, 6, after);
    assert From(w, AtReply, after) == Reads(w, 6, 6, after);
    assert From(w, AtHeader, clock) == Reads(w, 2, 4, clock) + From(w, AtReply, after);
    FastJoin(Reads(w, 2, 4, clock), From(w, AtReply, after), 30);
  }

  lemma SlowRequest(w: World, clock: nat)
    requires SlowBroker(w) && clock == 40
    ensures AllFast(From(w, AtRequest, clock), 30)
  {
    var step := Step(Writing, w.request.took, 2);
    SlowReply(w, clock);
    assert From(w, AtRequest, clock) == [step] + From(w, AtHeader, clock);
    FastJoin([step], From(w, AtHeader, clock), 30);
  }

  lemma SlowMethod(w: World, clock: nat) returns (rest: seq<Step>)
    requires SlowBroker(w) && clock == 0
    ensures AllFast(From(w, AtMethod, clock), 30)
    ensures From(w, AtMethod, clock) == Reads(w, 0, 2, clock) + rest
  {
    SlowShape(w);
    var after := Clock(w, 0, 2, clock);
    TwentyEach(w, 0, 2, clock);
    SlowRequest(w, after);
    rest := From(w, AtRequest, after);
    FastJoin(Reads(w, 0, 2, clock), rest, 30);
  }

  lemma TwoReads(w: World, clock: nat)
    requires EveryTwenty(w) && |w.data| >= 2 && clock == 0
    ensures var r := Reads(w, 0, 2, clock); |r| == 2 && r[0].took == r[1].took == After(20)
  {
    var one := Reads(w, 1, 1, clock + 20);
    assert Reads(w, 0, 2, clock) == [Step(Reading, After(20), 0)] + one;
    assert one == [Step(Reading, After(20), 1)] + Reads(w, 2, 0, clock + 40);
  }

  lemma SlowSteps(w: World, clock: nat)
    requires SlowBroker(w) && clock == 0
    ensures var steps := From(w, AtDial, clock);
      && AllFast(steps, 30) && |steps| >= 4 && steps[0].took == steps[1].took == After(0) && steps[2].took == steps[3].took == After(20)
  {
    var rest := SlowMethod(w, clock);
    TwoReads(w, clock);
    var dial, greet, method_ := Step(Dialling, w.dial.took, 0), Step(Writing, w.greeting.took, 0), From(w, AtMethod, clock);
    FastJoin([greet], method_, 30);
    FastJoin([dial], [greet] + method_, 30);
    assert From(w, AtGreeting, clock) == [greet] + method_;
    assert From(w, AtDial, clock) == [dial] + ([greet] + method_);
  }

  /** With thirty seconds for each operation that broker is waited for, with thirty in all it is not. */
  lemma SlowBrokerDiffers(w: World)
    requires SlowBroker(w)
    ensures Handshake(w, PerOperation(30)) == End(Ok(()), 12)
    ensures Handshake(w, Total(30)).result == Err(Protocol(TimedOut))
  {
    SlowShape(w);
    SlowSteps(w, 0);
    OverAtFour(Steps(w));
    SteadyBrokerDiffers(w, 30);
  }

  lemma OverAtFour(steps: seq<Step>)
    requires |steps| >= 4 && steps[0].took == steps[1].took == After(0) && steps[2].took == steps[3].took == After(20)
    ensures FirstOver(steps, 0, 30) == 3
  {
    var a := steps[1..];
    var b := a[1..];
    var c := b[1..];
    assert FirstOver(c, 20, 30) == 0;
    assert FirstOver(b, 0, 30) == 1 + FirstOver(c, 20, 30);
    assert FirstOver(a, 0, 30) == 1 + FirstOver(b, 0, 30);
  }

  // ---- results ------------------------------------------------------------------------

  predicate OnTime(w: World, limit: Limit)
    requires |w.at| == |w.data|
  {
    match limit
    case PerOperation(t) => FirstSlow(Steps(w), t) == |Steps(w)|
    case Total(t) => FirstOver(Steps(w), 0, t) == |Steps(w)|
  }

  lemma OnTimeIsPlain(w: World, limit: Limit)
    requires |w.at| == |w.data|
    ensures OnTime(w, limit) ==> Handshake(w, limit) == Plain(w)
    ensures !OnTime(w, limit) ==>
              exists i | 0 <= i < |Steps(w)| :: Handshake(w, limit) == End(Err(LateError(limit, Steps(w)[i].kind)), Steps(w)[i].pos)
  {
    match limit
    case PerOperation(t) => SlowPass(Steps(w), 0, t);
    case Total(t) => OverPass(Steps(w), 0, t);
  }

  /**
   * Success, exactly: nothing is late, and the stream starts with an acceptance, of which every byte
   * and no other is consumed, so the first byte of the tunnel is the next one read.
   */
  lemma SucceedsIff(w: World, limit: Limit, n: nat)
    requires |w.at| == |w.data|
    ensures Handshake(w, limit) == End(Ok(()), n) <==>
              && OnTime(w, limit) && w.dial.accepted && !w.greeting.broken && !w.request.broken
              && n <= |w.data| && Accepts(w.data[..n])
  {
    OnTimeIsPlain(w, limit);
    PlainSucceedsIff(w, n);
  }

  lemma PlainSucceedsIff(w: World, n: nat)
    ensures Plain(w) == End(Ok(()), n) <==>
              && w.dial.accepted && !w.greeting.broken && !w.request.broken
              && n <= |w.data| && Accepts(w.data[..n])
  {
    if w.dial.accepted && !w.greeting.broken && !w.request.broken {
      SuccessShape(w, n);
      if Shape(w.data, n) {
        ShapeAccepts(w.data, n);
      }
      if n <= |w.data| && Accepts(w.data[..n]) {
        var rsv: Byte, a: Bound, port: Bytes :| BoundOk(a) && |port| == 2 && w.data[..n] == Acceptance(rsv, a, port);
        AcceptsShape(w.data, n, rsv, a, port);
      }
    }
  }

  /** Every wait comes with so many bytes consumed at most. */
  predicate Within(steps: seq<Step>, n: nat) {
    forall i | 0 <= i < |steps| :: steps[i].pos <= n
  }

  lemma WithinJoin(a: seq<Step>, b: seq<Step>, n: nat)
    requires Within(a, n) && Within(b, n)
    ensures Within(a + b, n)
  {
  }

  lemma WithinOne(step: Step, rest: seq<Step>, n: nat)
    requires step.pos <= n && Within(rest, n)
    ensures Within([step] + rest, n)
  {
  }

  function Most(w: World): nat {
    if |w.data| < 264 then |w.data| else 264
  }

  lemma {:induction false} ReadsWithin(w: World, pos: nat, n: nat, clock: nat)
    requires pos <= |w.data| == |w.at| && pos + n <= 264
    ensures Within(Reads(w, pos, n, clock), Most(w))
    decreases n
  {
    if n > 0 && pos < |w.data| {
      ReadsWithin(w, pos + 1, n - 1, clock + Gap(clock, w.at[pos]));
    }
  }

  lemma ReplyWithin(w: World, clock: nat)
    requires |w.data| == |w.at|
    ensures Within(From(w, AtReply, clock), Most(w))
  {
    if |w.data| >= 6 && HeaderError(w.data[2..6]).None? {
      var trailer := BoundTrailerLen(w.data[5]).value;
      if trailer.Some? {
        ReadsWithin(w, 6, trailer.value, clock);
      } else {
        var rest := if |w.data| < 7 then [] else Reads(w, 7, w.data[6] as int + 2, Clock(w, 6, 1, clock));
        ReadsWithin(w, 6, 1, clock);
        if |w.data| >= 7 {
          ReadsWithin(w, 7, w.data[6] as int + 2, Clock(w, 6, 1, clock));
        }
        WithinJoin(Reads(w, 6, 1, clock), rest, Most(w));
      }
    }
  }

  lemma HeaderWithin(w: World, clock: nat)
    requires 2 <= |w.data| == |w.at|
    ensures Within(From(w, AtHeader, clock), Most(w))
  {
    var rest := if |w.data| < 6 then [] else From(w, AtReply, Clock(w, 2, 4, clock));
    ReadsWithin(w, 2, 4, clock);
    if |w.data| >= 6 {
      ReplyWithin(w, Clock(w, 2, 4, clock));
    }
    WithinJoin(Reads(w, 2, 4, clock), rest, Most(w));
  }

  lemma RequestWithin(w: World, clock: nat)
    requires 2 <= |w.data| == |w.at|
    ensures Within(From(w, AtRequest, clock), Most(w))
  {
    var step := Step(Writing, w.request.took, 2);
    if w.request.took.Never? || w.request.broken {
      WithinOne(step, [], Most(w));
      assert From(w, AtRequest, clock) == [step] + [];
    } else {
      var next := From(w, AtHeader, clock + w.request.took.n);
      HeaderWithin(w, clock + w.request.took.n);
      WithinOne(step, next, Most(w));
      assert From(w, AtRequest, clock) == [step] + next;
    }
  }

  lemma MethodWithin(w: World, clock: nat)
    requires |w.data| == |w.at|
    ensures Within(From(w, AtMethod, clock), Most(w))
  {
    var stop := |w.data| < 2 || CheckMethod(w.data[0..2]).Some?;
    if !stop {
      RequestWithin(w, Clock(w, 0, 2, clock));
    }
    ReadsWithin(w, 0, 2, clock);
    WithinJoin(Reads(w, 0, 2, clock), if stop then [] else From(w, AtRequest, Clock(w, 0, 2, clock)), Most(w));
  }

  lemma GreetingWithin(w: World, clock: nat)
    requires |w.data| == |w.at|
    ensures Within(From(w, AtGreeting, clock), Most(w))
  {
    if w.greeting.took.Never? || w.greeting.broken {
      WithinOne(Step(Writing, w.greeting.took, 0), [], Most(w));
    } else {
      MethodWithin(w, clock + w.greeting.took.n);
      WithinOne(Step(Writing, w.greeting.took, 0), From(w, AtMethod, clock + w.greeting.took.n), Most(w));
    }
  }

  lemma DialWithin(w: World, clock: nat)
    requires |w.data| == |w.at|
    ensures Within(From(w, AtDial, clock), Most(w))
  {
    if w.dial.took.Never? || !w.dial.accepted {
      WithinOne(Step(Dialling, w.dial.took, 0), [], Most(w));
    } else {
      GreetingWithin(w, clock + w.dial.took.n);
      WithinOne(Step(Dialling, w.dial.took, 0), From(w, AtGreeting, clock + w.dial.took.n), Most(w));
    }
  }

  /** No handshake consumes more than 264 bytes, whatever the broker sends and whenever. */
  lemma AtMost264(w: World, limit: Limit)
    requires |w.at| == |w.data|
    ensures Handshake(w, limit).pos <= 264 && Handshake(w, limit).pos <= |w.data|
  {
    OnTimeIsPlain(w, limit);
    DialWithin(w, 0);
    PlainWithin(w);
  }

  lemma PlainWithin(w: World)
    ensures Plain(w).pos <= 264 && Plain(w).pos <= |w.data|
  {
  }

  /**
   * The peer-credential error means exactly that, nothing being late, the broker took the dial and
   * went away before its first reply byte.
   */
  lemma PeerCredIff(w: World, limit: Limit)
    requires |w.at| == |w.data|
    ensures Handshake(w, limit).result == Err(PeerCred) <==>
              OnTime(w, limit) && w.dial.accepted && (w.greeting.broken || w.data == [])
  {
    OnTimeIsPlain(w, limit);
    PlainPeerCredIff(w);
  }

  lemma PlainPeerCredIff(w: World)
    ensures Plain(w).result == Err(PeerCred) <==> w.dial.accepted && (w.greeting.broken || w.data == [])
  {
    assert forall rep :: ReplyException(rep) != PeerCred;
  }
}
