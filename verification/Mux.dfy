/**
 * The placed control channel's wire format: requests
 * `[0x02][pid u32][port u16][host length u8][host]`, replies `[status][rep][handle u32]`.
 */
module Mux {
  import opened Bytes
  import opened Wrappers
  import opened Egress

  const REQ_CONNECT_FOR: Byte := 0x02
  const OK: Byte := 0x00
  const DENIED: Byte := 0x01
  const BUSY: Byte := 0x02
  const VEND_FAILED: Byte := 0x03
  const REQUESTER_REFUSED: Byte := 0x04
  const REPLY_LEN := 6

  datatype Req = Req(pid: nat, port: nat, host: Bytes)

  predicate ValidReq(r: Req) {
    r.pid < 0x1_0000_0000 && r.port <= 0xFFFF && 1 <= |r.host| <= 255
  }

  type Request = r: Req | ValidReq(r) witness Req(0, 0, [97])

  function EncReq(r: Request): (b: Bytes)
    ensures |b| == 8 + |r.host|
  {
    [REQ_CONNECT_FOR] + BE(4, r.pid) + BE(2, r.port) + [|r.host|] + r.host
  }

  function EncReqs(rs: seq<Request>): Bytes {
    if rs == [] then [] else EncReq(rs[0]) + EncReqs(rs[1..])
  }

  /** _mux_request: the request a host, port and process id stand for, or the error raised before any byte is sent. */
  function MuxRequest(host: string, port: int, pid: nat, idna: string -> Option<Bytes>): (r: Result<Request, EgressError>)
    requires pid < 0x1_0000_0000
    ensures r.Ok? <==> 0 <= port <= 0xFFFF && EncodeHost(host, idna).Ok?
    ensures r.Ok? ==> r.value == Req(pid, port, EncodeHost(host, idna).value)
  {
    if !(0 <= port <= 0xFFFF) then Err(Protocol(PortRange))
    else
      var raw := EncodeHost(host, idna);
      if raw.Err? then Err(raw.error) else Ok(Req(pid, port, raw.value))
  }

  /** What the broker finds at the head of the request bytes. */
  datatype ReqHead = Partial | NotARequest | OneReq(req: Request, rest: Bytes)

  function ParseReq(bs: Bytes): ReqHead {
    if bs == [] then Partial
    else if bs[0] != REQ_CONNECT_FOR then NotARequest
    else if |bs| < 8 then Partial
    else if bs[7] == 0 then NotARequest
    else if |bs| - 8 < bs[7] then Partial
    else
      BEOfFromBE(bs[1..5]);
      BEOfFromBE(bs[5..7]);
      SpanValues();
      var end: int := 8 + bs[7] as int;
      OneReq(Req(FromBE(bs[1..5]), FromBE(bs[5..7]), bs[8..end]), bs[end..])
  }

  /** Every whole request in the bytes the broker has received, in order. */
  function Requests(bs: Bytes): seq<Request>
    decreases |bs|
  {
    var h := ParseReq(bs);
    if h.OneReq? then [h.req] + Requests(h.rest) else []
  }

  lemma EncReqFields(r: Request, tail: Bytes)
    ensures var b := EncReq(r) + tail;
      b[0] == REQ_CONNECT_FOR && b[1..5] == BE(4, r.pid) && b[5..7] == BE(2, r.port) && b[7] == |r.host|
      && b[8..8 + |r.host|] == r.host && b[8 + |r.host|..] == tail
  {
  }

  lemma ParsedIsEncoded(bs: Bytes, r: Request, rest: Bytes)
    requires ParseReq(bs) == OneReq(r, rest)
    ensures bs == EncReq(r) + rest
  {
    SpanValues();
    BEOfFromBE(bs[1..5]);
    BEOfFromBE(bs[5..7]);
    assert bs == [bs[0]] + bs[1..5] + bs[5..7] + [bs[7]] + bs[8..8 + bs[7] as int] + rest;
  }

  lemma EncodedIsParsed(r: Request, rest: Bytes)
    ensures ParseReq(EncReq(r) + rest) == OneReq(r, rest)
  {
    SpanValues();
    EncReqFields(r, rest);
    FromBEOfBE(4, r.pid);
    FromBEOfBE(2, r.port);
  }

  /** The broker reads a request exactly where one was written. */
  lemma ParseReqIff(bs: Bytes, r: Request, rest: Bytes)
    ensures ParseReq(bs) == OneReq(r, rest) <==> bs == EncReq(r) + rest
  {
    EncodedIsParsed(r, rest);
    if ParseReq(bs) == OneReq(r, rest) {
      ParsedIsEncoded(bs, r, rest);
    }
  }

  lemma {:induction false} EncReqsAppend(a: seq<Request>, b: seq<Request>)
    ensures EncReqs(a + b) == EncReqs(a) + EncReqs(b)
  {
    if a == [] {
      assert a + b == b;
    } else {
      EncReqsAppend(a[1..], b);
      assert (a + b)[1..] == a[1..] + b;
      Assoc(EncReq(a[0]), EncReqs(a[1..]), EncReqs(b));
    }
  }

  /** A started but unfinished request is no request yet. */
  lemma PrefixIsPartial(r: Request, put: nat)
    requires put < |EncReq(r)|
    ensures ParseReq(EncReq(r)[..put]) == Partial
  {
    var b := EncReq(r);
    EncReqFields(r, []);
    assert b + [] == b;
    if put > 0 {
      assert b[..put][0] == b[0];
      if put >= 8 {
        assert b[..put][7] == b[7];
      }
    }
  }

  /** Any list of requests, then anything that is not a whole request, splits back into that list. */
  lemma {:induction false} RequestsUnique(rs: seq<Request>, tail: Bytes)
    requires !ParseReq(tail).OneReq?
    ensures Requests(EncReqs(rs) + tail) == rs
  {
    if rs == [] {
      assert EncReqs(rs) + tail == tail;
    } else {
      var rest := EncReqs(rs[1..]) + tail;
      assert EncReqs(rs) + tail == EncReq(rs[0]) + rest;
      ParseReqIff(EncReq(rs[0]) + rest, rs[0], rest);
      RequestsUnique(rs[1..], tail);
    }
  }

  // ---- replies --------------------------------------------------------------

  /** _parse_mux_reply: the vended handle, or the error. */
  function ParseReply(reply: Bytes): Result<nat, EgressError> {
    if |reply| != REPLY_LEN then Err(Protocol(WrongLength(|reply|)))
    else
      var status, rep := reply[0], reply[1];
      var handle := FromBE(reply[2..6]);
      if status == OK then
        if rep != 0 then Err(Protocol(OkWithCode(rep)))
        else if handle == 0 then Err(Protocol(NullHandle))
        else Ok(handle)
      else if handle != 0 then Err(Protocol(RefusalWithHandle))
      else if status == DENIED then
        if rep == 0 then Err(Protocol(RefusalWithSuccess)) else Err(ReplyException(rep))
      else if status == BUSY then Err(BrokerBusy)
      else if status == VEND_FAILED then Err(Protocol(VendFailed))
      else if status == REQUESTER_REFUSED then Err(RequesterRefused)
      else Err(Protocol(UnknownStatus(status)))
  }

  /** _is_refusal: six bytes that say no in one of the ways a broker may, the handle field left empty. */
  predicate IsRefusal(reply: Bytes) {
    && |reply| == REPLY_LEN
    && (reply[0] == DENIED || reply[0] == BUSY || reply[0] == VEND_FAILED || reply[0] == REQUESTER_REFUSED)
    && reply[2..6] == [0, 0, 0, 0]
    && !(reply[0] == DENIED && reply[1] == 0)
  }

  /** What a broker that speaks the protocol can answer. */
  datatype Verdict = Vend(handle: nat) | Refuse(status: Byte, rep: Byte)

  predicate LegalVerdict(v: Verdict) {
    match v
    case Vend(handle) => 0 < handle < 0x1_0000_0000
    case Refuse(status, rep) =>
      (status == DENIED || status == BUSY || status == VEND_FAILED || status == REQUESTER_REFUSED)
      && !(status == DENIED && rep == 0)
  }

  function EncVerdict(v: Verdict): Bytes {
    match v
    case Vend(handle) => [OK, 0] + BE(4, handle)
    case Refuse(status, rep) => [status, rep] + BE(4, 0)
  }

  lemma FromBEZero(s: Bytes)
    requires |s| == 4
    ensures FromBE(s) == 0 <==> s == [0, 0, 0, 0]
  {
    assert BE(1, 0) == BE(0, 0) + [0];
    assert BE(2, 0) == BE(1, 0) + [0];
    assert BE(3, 0) == BE(2, 0) + [0];
    assert BE(4, 0) == BE(3, 0) + [0];
    assert BE(4, 0) == [0, 0, 0, 0];
    BEOfFromBE(s);
    SpanValues();
    FromBEOfBE(4, 0);
  }

  /** A handle is accepted exactly from the encoding of a vend of that handle. */
  lemma AcceptsIff(reply: Bytes, handle: nat)
    ensures ParseReply(reply) == Ok(handle) <==>
            LegalVerdict(Vend(handle)) && reply == EncVerdict(Vend(handle))
  {
    SpanValues();
    if ParseReply(reply) == Ok(handle) {
      BEOfFromBE(reply[2..6]);
      assert reply == [reply[0], reply[1]] + reply[2..6];
    }
    if LegalVerdict(Vend(handle)) && reply == EncVerdict(Vend(handle)) {
      FromBEOfBE(4, handle);
      assert reply[2..6] == BE(4, handle);
    }
  }

  /** The channel is kept exactly on the encoding of a legal refusal. */
  lemma KeepsIff(reply: Bytes)
    ensures IsRefusal(reply) <==>
            |reply| == REPLY_LEN && LegalVerdict(Refuse(reply[0], reply[1])) && reply == EncVerdict(Refuse(reply[0], reply[1]))
    ensures IsRefusal(reply) ==> ParseReply(reply).Err?
  {
    FromBEZero(BE(4, 0));
    SpanValues();
    FromBEOfBE(4, 0);
    if |reply| == REPLY_LEN {
      FromBEZero(reply[2..6]);
      assert reply == [reply[0], reply[1]] + reply[2..6];
    }
  }

  /** The error a legal refusal stands for. */
  function RefusalError(status: Byte, rep: Byte): EgressError
    requires LegalVerdict(Refuse(status, rep))
  {
    if status == 0x01 then
      if rep == 0x02 then PolicyDenied
      else if rep == 0x04 then HostUnreachable
      else Protocol(ReplyCode(rep))
    else if status == 0x02 then BrokerBusy
    else if status == 0x03 then Protocol(VendFailed)
    else RequesterRefused
  }

  /** Whatever a legal broker answers reads back as it meant it. */
  lemma ReplyReadsBack(v: Verdict)
    requires LegalVerdict(v)
    ensures |EncVerdict(v)| == REPLY_LEN
    ensures ParseReply(EncVerdict(v)) == if v.Vend? then Ok(v.handle) else Err(RefusalError(v.status, v.rep))
  {
    match v
    case Vend(handle) => AcceptsIff(EncVerdict(v), handle);
    case Refuse(status, rep) =>
      SpanValues();
      FromBEOfBE(4, 0);
      assert EncVerdict(v)[2..6] == BE(4, 0);
  }

  /** Anything else is reported as the transport failing, never as a verdict. */
  lemma OtherRepliesAreProtocolErrors(reply: Bytes)
    requires forall v :: LegalVerdict(v) ==> reply != EncVerdict(v)
    ensures ParseReply(reply).Err? && ParseReply(reply).error.Protocol?
  {
    if ParseReply(reply).Ok? {
      AcceptsIff(reply, ParseReply(reply).value);
    } else if !ParseReply(reply).error.Protocol? {
      FromBEZero(reply[2..6]);
      KeepsIff(reply);
      assert LegalVerdict(Refuse(reply[0], reply[1]));
    }
  }
}
