/** What the egress shim raises, and the host and reply-code rules both transports share. */
module Egress {
  import opened Bytes
  import opened Wrappers

  /** The EgressError subclasses; `why` tells the EgressProtocolError messages apart. */
  datatype EgressError =
    | PolicyDenied
    | HostUnreachable
    | BrokerBusy
    | RequesterRefused
    | PeerCred
    | Config
    | Protocol(why: Why)

  datatype Why =
    | EmptyHost
    | NotEncodable
    | NulInHost
    | HostLength(n: nat)
    | PortRange
    | BadVersion(v: Byte)
    | MethodRefused
    | BadMethod(m: Byte)
    | ReplyCode(rep: Byte)
    | BadAddressType(atyp: Byte)
    | Truncated
    | TimedOut
    | WriteTimedOut
    | Retired
    | Transport
    | ChannelClosed
    | WrongLength(n: nat)
    | OkWithCode(rep: Byte)
    | NullHandle
    | RefusalWithHandle
    | RefusalWithSuccess
    | VendFailed
    | UnknownStatus(status: Byte)
    | NotAPipe

  predicate IsAscii(s: string) {
    forall i | 0 <= i < |s| :: s[i] as int < 128
  }

  function AsciiBytes(s: string): (r: Bytes)
    requires IsAscii(s)
    ensures |r| == |s| && forall i | 0 <= i < |s| :: r[i] == s[i] as int
  {
    if s == [] then [] else
      var b: Byte := s[0] as int;
      [b] + AsciiBytes(s[1..])
  }

  /**
   * The DOMAINNAME octets of a host. `idna` stands for Python's IDNA codec: None where it raises.
   */
  function EncodeHost(host: string, idna: string -> Option<Bytes>): (r: Result<Bytes, EgressError>)
    ensures r.Ok? ==> 1 <= |r.value| <= 255 && 0 !in r.value
    // ASCII passes through as it is, and is refused only for its length or a NUL
    ensures IsAscii(host) ==> (r.Ok? <==> 1 <= |host| <= 255 && forall i | 0 <= i < |host| :: host[i] as int != 0)
    ensures IsAscii(host) && r.Ok? ==> |r.value| == |host| && forall i | 0 <= i < |host| :: r.value[i] == host[i] as int
  {
    if host == "" then Err(Protocol(EmptyHost))
    else
      var raw := if IsAscii(host) then Some(AsciiBytes(host)) else idna(host);
      if raw.None? then Err(Protocol(NotEncodable))
      else if 0 in raw.value then Err(Protocol(NulInHost))
      else if !(1 <= |raw.value| <= 255) then Err(Protocol(HostLength(|raw.value|)))
      else Ok(raw.value)
  }

  /** _reply_exception: a non-zero SOCKS5 reply code as an error. */
  function ReplyException(rep: Byte): EgressError {
    if rep == 0x02 then PolicyDenied
    else if rep == 0x04 then HostUnreachable
    else Protocol(ReplyCode(rep))
  }
}
