/** What goes over the wire, byte for byte. */
module WireBytes {
  import opened Bytes
  import opened Wrappers
  import opened Egress
  import opened Framing
  import AssemblerClient
  import Mux
  import Socks5

  // ---- the Assembler --------------------------------------------------------------------

  /** A frame: the length of type and payload in four bytes, highest first; the type; the payload. */
  lemma FrameBytes(msgType: int, payload: Bytes)
    ensures EncodeFrame(msgType, payload) ==
              var n := 1 + |payload|;
              if n > 65536 then TooLarge(n)
              else Framed([n / 0x100_0000, n / 0x1_0000 % 256, n / 0x100 % 256, n % 256] + [msgType % 256] + payload)
  {
    var n := 1 + |payload|;
    if n <= 65536 {
      BE4(n);
    }
  }

  /** The agent's handshake: protocol 1, SDK 0.5.0, role 4. */
  lemma HelloBytes()
    ensures Enc(AssemblerClient.HELLO) == [0, 0, 0, 10, 0x00, 0, 1, 0, 0, 0, 5, 0, 0, 0x04]
  {
    BE2(1);
    BE2(0);
    BE2(5);
    BE4(10);
    assert AssemblerClient.HELLO.payload == [0, 1, 0, 0, 0, 5, 0, 0, 4];
  }

  /** A tool call is a frame of type 0x52. */
  lemma ToolCallBytes(payload: Bytes)
    requires Fits(AssemblerClient.Request(payload))
    ensures var n := 1 + |payload|;
      Enc(AssemblerClient.Request(payload)) == [n / 0x100_0000, n / 0x1_0000 % 256, n / 0x100 % 256, n % 256] + [0x52] + payload
  {
    BE4(1 + |payload|);
  }

  /** What the client makes of the peer's first frame. */
  lemma HandshakeChecked(f: Frame)
    ensures f.kind != 0x00 ==> AssemblerClient.CheckHandshake(f) == Err(AssemblerClient.WrongType)
    ensures f.kind == 0x00 && |f.payload| < 9 ==> AssemblerClient.CheckHandshake(f) == Err(AssemblerClient.TooShort)
    ensures f.kind == 0x00 && |f.payload| >= 9 ==>
              var major: nat := f.payload[2] as int * 256 + f.payload[3] as int;
              AssemblerClient.CheckHandshake(f) ==
                if major == 0 then Ok(f.payload[8]) else Err(AssemblerClient.MajorMismatch(major))
    ensures AssemblerClient.Welcoming(f) <==>
              f.kind == 0x00 && |f.payload| >= 9 && f.payload[2] == 0 && f.payload[3] == 0 && f.payload[8] == 0x05
  {
    if |f.payload| >= 9 {
      TwoBytes(f.payload[2..4]);
    }
  }

  lemma TwoBytes(s: Bytes)
    requires |s| == 2
    ensures FromBE(s) == s[0] as int * 256 + s[1] as int
  {
    var one := s[..1];
    assert one[..0] == [];
    assert FromBE(one) == FromBE(one[..0]) * 256 + one[0] == s[0] as int;
  }

  // ---- the control channel --------------------------------------------------------------

  /** A request: 2; the process id in four bytes and the port in two; the length of the host, and the host. */
  lemma MuxRequestBytes(r: Mux.Request)
    ensures Mux.EncReq(r) ==
              [0x02, r.pid / 0x100_0000, r.pid / 0x1_0000 % 256, r.pid / 0x100 % 256, r.pid % 256,
               r.port / 0x100, r.port % 256, |r.host|] + r.host
  {
    BE4(r.pid);
    BE2(r.port);
  }

  /** Handles are vended by status 0, in four bytes. */
  lemma VendBytes(handle: nat)
    requires 0 < handle < 0x1_0000_0000
    ensures Mux.ParseReply([0x00, 0x00, handle / 0x100_0000, handle / 0x1_0000 % 256, handle / 0x100 % 256, handle % 256]) == Ok(handle)
  {
    var v := Mux.Vend(handle);
    BE4(handle);
    Mux.ReplyReadsBack(v);
    var word: Bytes := [handle / 0x100_0000, handle / 0x1_0000 % 256, handle / 0x100 % 256, handle % 256];
    assert Mux.EncVerdict(v) == [0x00, 0x00] + word
        == [0x00, 0x00, handle / 0x100_0000, handle / 0x1_0000 % 256, handle / 0x100 % 256, handle % 256];
  }

  /** Refusals have the handle field empty; each status has its own error, and status 1 one for each code. */
  lemma RefusalBytes(status: Byte, rep: Byte)
    ensures var r := Mux.ParseReply([status, rep, 0, 0, 0, 0]);
      && (status == 0x00 && rep == 0x00 ==> r == Err(Protocol(NullHandle)))
      && (status == 0x00 && rep != 0x00 ==> r == Err(Protocol(OkWithCode(rep))))
      && (status == 0x01 && rep == 0x00 ==> r == Err(Protocol(RefusalWithSuccess)))
      && (status == 0x01 && rep == 0x02 ==> r == Err(PolicyDenied))
      && (status == 0x01 && rep == 0x04 ==> r == Err(HostUnreachable))
      && (status == 0x01 && rep != 0x00 && rep != 0x02 && rep != 0x04 ==> r == Err(Protocol(ReplyCode(rep))))
      && (status == 0x02 ==> r == Err(BrokerBusy))
      && (status == 0x03 ==> r == Err(Protocol(VendFailed)))
      && (status == 0x04 ==> r == Err(RequesterRefused))
      && (status > 0x04 ==> r == Err(Protocol(UnknownStatus(status))))
  {
    var reply: Bytes := [status, rep, 0, 0, 0, 0];
    Mux.FromBEZero(reply[2..6]);
  }

  /** What a reply with a handle in it comes to when it is no vend, and one of another length. */
  lemma MalformedBytes(reply: Bytes)
    ensures |reply| != 6 ==> Mux.ParseReply(reply) == Err(Protocol(WrongLength(|reply|)))
    ensures |reply| == 6 && reply[2..6] != [0, 0, 0, 0] ==>
              && (reply[0] != 0x00 ==> Mux.ParseReply(reply) == Err(Protocol(RefusalWithHandle)))
              && (reply[0] == 0x00 && reply[1] != 0x00 ==> Mux.ParseReply(reply) == Err(Protocol(OkWithCode(reply[1]))))
  {
    if |reply| == 6 {
      Mux.FromBEZero(reply[2..6]);
    }
  }

  // ---- SOCKS5 ---------------------------------------------------------------------------

  /** The greeting offers NO-AUTH alone; the request is a CONNECT to a name, the port in two bytes behind it. */
  lemma SocksBytes(host: string, port: int, idna: string -> Option<Bytes>)
    ensures Socks5.GREETING == [0x05, 0x01, 0x00]
    ensures var r := Socks5.ConnectRequest(host, port, idna);
      && (!(0 <= port <= 65535) ==> r == Err(Protocol(PortRange)))
      && (0 <= port <= 65535 && EncodeHost(host, idna).Err? ==> r == Err(EncodeHost(host, idna).error))
      && (0 <= port <= 65535 && EncodeHost(host, idna).Ok? ==>
            var name := EncodeHost(host, idna).value;
            r == Ok([0x05, 0x01, 0x00, 0x03, |name|] + name + [port / 256, port % 256]))
  {
    if 0 <= port <= 65535 {
      BE2(port);
    }
  }

  /** What a host is refused for. */
  lemma HostRefusals(host: string, idna: string -> Option<Bytes>)
    ensures var r := EncodeHost(host, idna);
      && (r == Err(Protocol(EmptyHost)) <==> host == "")
      && (r == Err(Protocol(NotEncodable)) <==> !IsAscii(host) && idna(host).None?)
      && (IsAscii(host) ==> (r == Err(Protocol(NulInHost)) <==> exists i | 0 <= i < |host| :: host[i] as int == 0))
      && (!IsAscii(host) ==> (r == Err(Protocol(NulInHost)) <==> idna(host).Some? && 0 in idna(host).value))
      && (forall n: nat :: r == Err(Protocol(HostLength(n))) ==> if IsAscii(host) then n == |host| > 255 else idna(host).Some? && n == |idna(host).value| && (n == 0 || n > 255))
      && (!IsAscii(host) ==> (r.Ok? <==> idna(host).Some? && 0 !in idna(host).value && 1 <= |idna(host).value| <= 255))
      && (!IsAscii(host) && r.Ok? ==> r.value == idna(host).value)
  {
  }
}
