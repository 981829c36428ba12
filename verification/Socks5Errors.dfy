/** What each failure of a SOCKS5 handshake is reported as, from the broker's bytes and the clock. */
module Socks5Errors {
  import opened Bytes
  import opened Wrappers
  import opened Egress
  import opened Socks5
  import opened Socks5Laws

  /** Nothing is late, and the dial and both writes went through. */
  predicate Undisturbed(w: World, limit: Limit)
    requires |w.at| == |w.data|
  {
    OnTime(w, limit) && w.dial.accepted && !w.greeting.broken && !w.request.broken
  }

  /** A whole reply header stands behind the acceptance of NO-AUTH: code and address type are c and a. */
  predicate Header(d: Bytes, c: Byte, a: Byte) {
    |d| >= 6 && d[0] == 0x05 && d[1] == 0x00 && d[2] == 0x05 && d[3] == c && d[5] == a
  }

  lemma ByPlain(w: World, limit: Limit)
    requires |w.at| == |w.data|
    ensures OnTime(w, limit) ==> Handshake(w, limit) == Plain(w)
    ensures !OnTime(w, limit) ==> Handshake(w, limit).result in {Err(Config), Err(Protocol(WriteTimedOut)), Err(Protocol(TimedOut))}
  {
    OnTimeIsPlain(w, limit);
  }

  /** A policy denial is exactly reply code 2. */
  lemma DeniedIff(w: World, limit: Limit)
    requires |w.at| == |w.data|
    ensures Handshake(w, limit).result == Err(PolicyDenied) <==> Undisturbed(w, limit) && exists a: Byte :: Header(w.data, 0x02, a)
  {
    ByPlain(w, limit);
    CodeOf(w);
  }

  /** An unreachable host is exactly reply code 4. */
  lemma UnreachableIff(w: World, limit: Limit)
    requires |w.at| == |w.data|
    ensures Handshake(w, limit).result == Err(HostUnreachable) <==> Undisturbed(w, limit) && exists a: Byte :: Header(w.data, 0x04, a)
  {
    ByPlain(w, limit);
    CodeOf(w);
  }

  /** Every other code but success is reported with its number. */
  lemma OtherCodeIff(w: World, limit: Limit, c: Byte)
    requires |w.at| == |w.data|
    ensures Handshake(w, limit).result == Err(Protocol(ReplyCode(c))) <==>
              Undisturbed(w, limit) && c != 0x00 && c != 0x02 && c != 0x04 && exists a: Byte :: Header(w.data, c, a)
  {
    ByPlain(w, limit);
    CodeOf(w);
  }

  /** A bound address of a kind that does not exist. */
  lemma BadAddressIff(w: World, limit: Limit, a: Byte)
    requires |w.at| == |w.data|
    ensures Handshake(w, limit).result == Err(Protocol(BadAddressType(a))) <==>
              Undisturbed(w, limit) && Header(w.data, 0x00, a) && a != 0x01 && a != 0x03 && a != 0x04
  {
    ByPlain(w, limit);
    CodeOf(w);
  }

  /** What an undisturbed handshake makes of a whole header. */
  lemma CodeOf(w: World)
    ensures forall c: Byte, a: Byte | Header(w.data, c, a) && w.dial.accepted && !w.greeting.broken && !w.request.broken ::
              && (c == 0x02 ==> Plain(w) == End(Err(PolicyDenied), 6))
              && (c == 0x04 ==> Plain(w) == End(Err(HostUnreachable), 6))
              && (c != 0x00 && c != 0x02 && c != 0x04 ==> Plain(w) == End(Err(Protocol(ReplyCode(c))), 6))
              && (c == 0x00 && a != 0x01 && a != 0x03 && a != 0x04 ==> Plain(w) == End(Err(Protocol(BadAddressType(a))), 6))
              && (c == 0x00 && (a == 0x01 || a == 0x03 || a == 0x04) ==> Plain(w).result == Ok(()) || Plain(w).result == Err(Protocol(Truncated)))
    ensures (exists e: EgressError :: Plain(w).result == Err(e)
               && (e == PolicyDenied || e == HostUnreachable || (e.Protocol? && (e.why.ReplyCode? || e.why.BadAddressType?))))
            ==> w.dial.accepted && !w.greeting.broken && !w.request.broken && |w.data| >= 6 && Header(w.data, w.data[3], w.data[5])
  {
  }

  /** The broker's method selection offers something else. */
  lemma MethodIff(w: World, limit: Limit, m: Byte)
    requires |w.at| == |w.data|
    ensures var heard := OnTime(w, limit) && w.dial.accepted && !w.greeting.broken && |w.data| >= 2 && w.data[0] == 0x05;
      && (Handshake(w, limit).result == Err(Protocol(MethodRefused)) <==> heard && w.data[1] == 0xFF)
      && (Handshake(w, limit).result == Err(Protocol(BadMethod(m))) <==> heard && w.data[1] == m && m != 0x00 && m != 0xFF)
  {
    ByPlain(w, limit);
  }

  /** A version other than 5, in either reply. */
  lemma VersionIff(w: World, limit: Limit, v: Byte)
    requires |w.at| == |w.data|
    ensures Handshake(w, limit).result == Err(Protocol(BadVersion(v))) <==>
              && OnTime(w, limit) && w.dial.accepted && !w.greeting.broken && v != 0x05
              && ((|w.data| >= 2 && w.data[0] == v)
                  || (|w.data| >= 6 && !w.request.broken && w.data[0] == 0x05 && w.data[1] == 0x00 && w.data[2] == v))
  {
    ByPlain(w, limit);
  }

  /** How many bytes an acceptance takes whose first bytes are these. */
  function Whole(d: Bytes): nat
    requires |d| >= 6
  {
    if d[5] == 0x01 then 12 else if d[5] == 0x04 then 24 else if |d| < 7 then 7 else d[6] as int + 9
  }

  /** The broker goes away behind its first byte: before the request is out, or before the end of its reply. */
  lemma TruncatedIff(w: World, limit: Limit)
    requires |w.at| == |w.data|
    ensures Handshake(w, limit).result == Err(Protocol(Truncated)) <==>
              && OnTime(w, limit) && w.dial.accepted && !w.greeting.broken && |w.data| >= 1
              && (|w.data| == 1
                  || (w.data[0] == 0x05 && w.data[1] == 0x00
                      && (w.request.broken || |w.data| < 6
                          || (Header(w.data, 0x00, w.data[5]) && (w.data[5] == 0x01 || w.data[5] == 0x03 || w.data[5] == 0x04)
                              && |w.data| < Whole(w.data)))))
  {
    ByPlain(w, limit);
  }

  /** What the first wait that is too late is reported as. */
  lemma LateMeans(w: World, t: nat)
    requires |w.at| == |w.data|
    ensures var steps := Steps(w); var over, slow := FirstOver(steps, 0, t), FirstSlow(steps, t);
      && (over < |steps| ==> Handshake(w, Total(t)) == End(Err(Protocol(TimedOut)), steps[over].pos))
      && (slow < |steps| ==>
            Handshake(w, PerOperation(t)) ==
              End(Err(match steps[slow].kind
                      case Dialling => Config
                      case Writing => Protocol(WriteTimedOut)
                      case Reading => Protocol(TimedOut)), steps[slow].pos))
  {
    SlowPass(Steps(w), 0, t);
    OverPass(Steps(w), 0, t);
  }
}
