/**
 * The SOCKS4 handshake codec (`src/socks4.rs`): decoding the client's
 * CONNECT/BIND request and encoding the proxy's fixed 8-byte reply, in the
 * wire format of "SOCKS: A protocol for TCP proxy across firewalls"
 * (Ying-Da Lee), section "CONNECT".
 *
 *   request: VN=4 | CD | DSTPORT (2, big-endian) | DSTIP (4) | USERID | NUL
 *   reply:   VN=0 | CD | DSTPORT (2, big-endian) | DSTIP (4)
 */
module Socks4 {
  import opened Results
  import opened Net
  import opened Errors
  import opened Streams

  const SocksVersion: Byte := 0x04
  const CommandConnect: Byte := 0x01
  const CommandBind: Byte := 0x02

  const ReplyVersion: Byte := 0x00
  const RequestGranted: Byte := 0x5A
  const RequestRejected: Byte := 0x5B

  /** The longest user id the decoder keeps; one more byte before the NUL is an error. */
  const MaxUseridLen := 256

  /** Why `read_from` fails. `Truncated` is the `UnexpectedEof` I/O error of a stream that ends before the frame does. */
  datatype DecodeError =
    | InvalidVersion(version: Byte)
    | UnsupportedCommand(command: Byte)
    | UseridTooLong
    | Truncated

  /** `Socks4Request`: one decoded client request. */
  datatype Socks4Request = Socks4Request(command: Byte, dstPort: U16, dstIp: Ipv4Addr, userid: seq<Byte>) {

    /** `destination_addr`: the address the client asks to reach. */
    function DestinationAddr(): (addr: SocketAddrV4)
      ensures addr.ip == dstIp && addr.port == dstPort
    {
      SocketAddrV4(dstIp, dstPort)
    }

    /** The requests the wire format can carry: a known command and a user id of at most 256 non-NUL bytes. */
    predicate WellFormed()
    {
      && (command == CommandConnect || command == CommandBind)
      && |userid| <= MaxUseridLen
      && forall i | 0 <= i < |userid| :: userid[i] != 0
    }

    /** The bytes a client sends for this request (the reference encoding of the request format). */
    function Frame(): (bytes: seq<Byte>)
      ensures |bytes| == 9 + |userid|
    {
      [SocksVersion, command] + PortBytes(dstPort) + dstIp.Octets() + userid + [0]
    }

    /**
     * `read_from`: reads one request from the front of `input`, byte by byte,
     * and reports how many bytes it consumed. The user id is read up to its NUL,
     * and reading stops as soon as it grows past 256 bytes.
     */
    static method ReadFrom(input: seq<Byte>) returns (r: Result<Socks4Request, DecodeError>, consumed: nat)
      ensures Decoded(r, consumed) == Decode(input)
    {
      if |input| < 1 {
        return Err(Truncated), |input|;
      }
      var version := input[0];
      if version != SocksVersion {
        return Err(InvalidVersion(version)), 1;
      }
      if |input| < 2 {
        return Err(Truncated), |input|;
      }
      var command := input[1];
      if command != CommandConnect && command != CommandBind {
        return Err(UnsupportedCommand(command)), 2;
      }
      if |input| < 4 {
        return Err(Truncated), |input|;
      }
      var dstPort := PortFromBytes(input[2], input[3]);
      if |input| < 8 {
        return Err(Truncated), |input|;
      }
      var dstIp := Ipv4Addr.FromOctets(input[4..8]);
      var userid: seq<Byte> := [];
      var pos := 8;
      while true
        invariant 8 <= pos <= |input|
        invariant userid == input[8..pos]
        invariant |userid| <= MaxUseridLen
        invariant forall i | 0 <= i < |userid| :: userid[i] != 0
        decreases |input| - pos
      {
        assert forall i | 0 <= i < |userid| :: input[8..][i] == userid[i];
        if pos == |input| {
          UseridEndUnique(input[8..], |userid|);
          return Err(Truncated), pos;
        }
        var byte := input[pos];
        pos := pos + 1;
        if byte == 0 {
          UseridEndUnique(input[8..], |userid|);
          break;
        }
        userid := userid + [byte];
        if |userid| > MaxUseridLen {
          assert input[8..][..|userid|] == userid;
          return Err(UseridTooLong), pos;
        }
      }
      r := Ok(Socks4Request(command, dstPort, dstIp, userid));
      consumed := pos;
    }
  }

  /** What decoding the front of a byte stream yields, and how many bytes it read. */
  datatype Decoded = Decoded(result: Result<Socks4Request, DecodeError>, consumed: nat)

  /** The number of bytes before the first NUL of `rest`, or `|rest|` when it has none. */
  function UseridEnd(rest: seq<Byte>): (n: nat)
    ensures n <= |rest|
    ensures forall i | 0 <= i < n :: rest[i] != 0
    ensures n < |rest| ==> rest[n] == 0
  {
    if rest == [] || rest[0] == 0 then 0 else 1 + UseridEnd(rest[1..])
  }

  /** The first NUL is where it is: any position with no NUL before it and a NUL (or the end) at it is `UseridEnd`. */
  lemma UseridEndUnique(rest: seq<Byte>, n: nat)
    requires n <= |rest|
    requires forall i | 0 <= i < n :: rest[i] != 0
    requires n < |rest| ==> rest[n] == 0
    ensures UseridEnd(rest) == n
  {
  }

  /**
   * The request at the front of `input`, as `read_from` reads it: the version
   * byte (else `InvalidVersion`, one byte read), the command byte (CONNECT or
   * BIND, else `UnsupportedCommand`, two bytes read), the port, the address,
   * then the user id up to its NUL. A user id that reaches 257 bytes fails
   * with `UseridTooLong` without reading further; a stream that ends first
   * fails with `Truncated` after reading all of it.
   */
  function Decode(input: seq<Byte>): (d: Decoded)
    ensures d.consumed <= |input|
    ensures input != [] ==> d.consumed > 0
    ensures d.result.Ok? ==>
      var req := d.result.value;
      && d.consumed == 8 + |req.userid| + 1
      && req.command == input[1]
      && (req.command == CommandConnect || req.command == CommandBind)
      && req.dstPort as int == input[2] as int * 0x100 + input[3] as int
      && req.dstIp.Octets() == input[4..8]
      && |req.userid| <= MaxUseridLen
      && req.userid == input[8..d.consumed - 1]
      && (forall i | 0 <= i < |req.userid| :: req.userid[i] != 0)
      && input[d.consumed - 1] == 0
  {
    if |input| < 1 then Decoded(Err(Truncated), |input|)
    else if input[0] != SocksVersion then Decoded(Err(InvalidVersion(input[0])), 1)
    else if |input| < 2 then Decoded(Err(Truncated), |input|)
    else if input[1] != CommandConnect && input[1] != CommandBind then Decoded(Err(UnsupportedCommand(input[1])), 2)
    else if |input| < 8 then Decoded(Err(Truncated), |input|)
    else
      var rest := input[8..];
      var n := UseridEnd(rest);
      if n > MaxUseridLen then Decoded(Err(UseridTooLong), 8 + MaxUseridLen + 1)
      else if n == |rest| then Decoded(Err(Truncated), |input|)
      else
        var req := Socks4Request(input[1], PortFromBytes(input[2], input[3]), Ipv4Addr.FromOctets(input[4..8]), rest[..n]);
        Decoded(Ok(req), 8 + n + 1)
  }

  /** The request of `test_socks4_request_parsing` in `src/socks4.rs`: `04 01 00 50 42 66 07 63 46 72 65 64 00` is CONNECT to 66.102.7.99:80 from "Fred". */
  lemma DecodeFredExample()
    ensures Decode([0x04, 0x01, 0x00, 0x50, 0x42, 0x66, 0x07, 0x63, 0x46, 0x72, 0x65, 0x64, 0x00])
         == Decoded(Ok(Socks4Request(CommandConnect, 80, Ipv4Addr(66, 102, 7, 99), [0x46, 0x72, 0x65, 0x64])), 13)
  {
    var input: seq<Byte> := [0x04, 0x01, 0x00, 0x50, 0x42, 0x66, 0x07, 0x63, 0x46, 0x72, 0x65, 0x64, 0x00];
    assert input[4..8] == [66, 102, 7, 99];
    assert input[8..] == [0x46, 0x72, 0x65, 0x64, 0x00];
    UseridEndUnique(input[8..], 4);
    assert input[8..][..4] == [0x46, 0x72, 0x65, 0x64];
  }

  /** A first byte other than 4 is rejected as a wrong version after reading that byte alone. */
  lemma InvalidVersionReadsOneByte(input: seq<Byte>)
    requires |input| >= 1 && input[0] != SocksVersion
    ensures Decode(input) == Decoded(Err(InvalidVersion(input[0])), 1)
  {
  }

  /** A command other than CONNECT or BIND is rejected after reading exactly two bytes. */
  lemma UnsupportedCommandReadsTwoBytes(input: seq<Byte>)
    requires |input| >= 2 && input[0] == SocksVersion
    requires input[1] != CommandConnect && input[1] != CommandBind
    ensures Decode(input) == Decoded(Err(UnsupportedCommand(input[1])), 2)
  {
  }

  /** Decoding inverts the request format: every well-formed request, whatever follows it, is read back exactly. */
  lemma DecodeFrame(req: Socks4Request, tail: seq<Byte>)
    requires req.WellFormed()
    ensures Decode(req.Frame() + tail) == Decoded(Ok(req), |req.Frame()|)
  {
    var input := req.Frame() + tail;
    assert input[8..] == req.userid + [0] + tail;
    UseridEndUnique(input[8..], |req.userid|);
    assert input[8..][..|req.userid|] == req.userid;
    PortBytesRoundTrip(req.dstPort);
    assert input[4..8] == req.dstIp.Octets();
  }

  /** And the other way: whatever decodes successfully is a well-formed request followed by the bytes not read. */
  lemma DecodedIsFrame(input: seq<Byte>)
    requires Decode(input).result.Ok?
    ensures Decode(input).result.value.WellFormed()
    ensures input[..Decode(input).consumed] == Decode(input).result.value.Frame()
  {
    var d := Decode(input);
    var req := d.result.value;
    PortFromBytesRoundTrip(input[2], input[3]);
    assert input[..d.consumed] == [input[0], input[1]] + input[2..4] + input[4..8] + input[8..d.consumed - 1] + [input[d.consumed - 1]];
  }

  /** BIND passes the decoder; only the connection handler turns it away. */
  lemma BindIsDecoded(req: Socks4Request, tail: seq<Byte>)
    requires req.WellFormed() && req.command == CommandBind
    ensures Decode(req.Frame() + tail).result == Ok(req)
  {
    DecodeFrame(req, tail);
  }

  /** A user id of the full 256 non-NUL bytes still decodes. */
  lemma LongestUseridAccepted(req: Socks4Request, tail: seq<Byte>)
    requires req.WellFormed() && |req.userid| == MaxUseridLen
    ensures Decode(req.Frame() + tail) == Decoded(Ok(req), 265)
  {
    DecodeFrame(req, tail);
  }

  /** A 257th non-NUL byte of user id is rejected at once: 265 bytes read, whatever comes after. */
  lemma UseridTooLongStopsAt257(header: seq<Byte>, userid: seq<Byte>, tail: seq<Byte>)
    requires |header| == 8 && header[0] == SocksVersion
    requires header[1] == CommandConnect || header[1] == CommandBind
    requires |userid| == MaxUseridLen + 1
    requires forall i | 0 <= i < |userid| :: userid[i] != 0
    ensures Decode(header + userid + tail) == Decoded(Err(UseridTooLong), 8 + MaxUseridLen + 1)
  {
    var input := header + userid + tail;
    assert input[8..] == userid + tail;
    assert forall i | 0 <= i < |userid| :: input[8..][i] == userid[i];
  }

  /** A frame cut short anywhere before its terminating NUL fails with `Truncated`, having read everything there was. */
  lemma TruncatedFrameFails(input: seq<Byte>, n: nat)
    requires Decode(input).result.Ok?
    requires n < Decode(input).consumed
    ensures Decode(input[..n]) == Decoded(Err(Truncated), n)
  {
    var d := Decode(input);
    var cut := input[..n];
    if n >= 8 {
      var len := |d.result.value.userid|;
      assert cut[8..] == input[8..n];
      UseridEndUnique(input[8..], len);
      UseridEndUnique(cut[8..], n - 8);
    }
  }

  /** The decoder reads nothing beyond what it reports as consumed: replacing the rest of the stream changes nothing, unless the stream ran out. */
  lemma DecodeIgnoresRest(input: seq<Byte>, tail: seq<Byte>)
    requires Decode(input).result != Err(Truncated)
    ensures Decode(input[..Decode(input).consumed] + tail) == Decode(input)
  {
    var d := Decode(input);
    var other := input[..d.consumed] + tail;
    if d.consumed > 8 {
      assert other[..d.consumed] == input[..d.consumed];
      var n := UseridEnd(input[8..]);
      if n > MaxUseridLen {
        assert d.consumed == 8 + MaxUseridLen + 1;
        UseridEndUnique(input[8..][..MaxUseridLen + 1], MaxUseridLen + 1);
        assert forall i | 0 <= i <= MaxUseridLen :: other[8..][i] == input[8..][i];
      } else {
        assert other[8..][..n] == input[8..][..n];
        assert other[8..][n] == 0;
        UseridEndUnique(other[8..], n);
        assert other[8..][..n] == input[8..][..n];
      }
    }
  }

  /** Why a reply cannot be built for an address: SOCKS4 replies carry IPv4 addresses only. */
  datatype ReplyError = Ipv6NotSupported

  /** `Socks4Response`: one reply frame. */
  datatype Socks4Response = Socks4Response(status: Byte, dstPort: U16, dstIp: Ipv4Addr) {

    /** `success`: the request is granted, echoing the destination. */
    static function Success(addr: SocketAddrV4): (r: Socks4Response)
      ensures r.status == RequestGranted
    {
      Socks4Response(RequestGranted, addr.port, addr.ip)
    }

    /** `failure`: the request is rejected, with port 0 and address 0.0.0.0. */
    static function Failure(): (r: Socks4Response)
      ensures r.status == RequestRejected
    {
      Socks4Response(RequestRejected, 0, Unspecified)
    }

    /** `try_from_socket_addr`: a granted reply for an IPv4 destination; IPv6 cannot be expressed in SOCKS4. */
    static function TryFromSocketAddr(addr: SocketAddr): (r: Result<Socks4Response, ReplyError>)
      ensures r.Ok? <==> addr.V4?
      ensures addr.V4? ==> r == Ok(Success(addr.v4))
      ensures addr.V6? ==> r == Err(Ipv6NotSupported)
    {
      match addr
      case V4(v4) => Ok(Success(v4))
      case V6(_) => Err(Ipv6NotSupported)
    }

    /** The eight bytes `write_to` puts on the wire. */
    function Encode(): (bytes: seq<Byte>)
      ensures |bytes| == 8
    {
      [ReplyVersion, status] + PortBytes(dstPort) + dstIp.Octets()
    }

    /**
     * `write_to`: writes the reply version, the status, the port and the
     * address one after the other, then flushes; the first failure is
     * returned and ends the write.
     */
    method WriteTo(w: DuplexStream) returns (r: Result<(), IoError>)
      modifies w
      ensures w.unread == old(w.unread)
      ensures r.Ok? <==> w.writeError.None?
      ensures r.Err? ==> r.error == w.writeError.value
      ensures w.outgoing == old(w.outgoing) + w.Delivered(Encode())
    {
      r := w.WriteAll([ReplyVersion]);
      if r.Err? { return; }
      r := w.WriteAll([status]);
      if r.Err? { return; }
      r := w.WriteAll(PortBytes(dstPort));
      if r.Err? { return; }
      r := w.WriteAll(dstIp.Octets());
      if r.Err? { return; }
      r := w.Flush();
    }
  }

  /** How a SOCKS4 client reads a reply frame (the reference decoding of the reply format). */
  function ParseResponse(bytes: seq<Byte>): Option<Socks4Response>
  {
    if |bytes| == 8 && bytes[0] == ReplyVersion then
      Some(Socks4Response(bytes[1], PortFromBytes(bytes[2], bytes[3]), Ipv4Addr.FromOctets(bytes[4..8])))
    else
      None
  }

  /** Every reply the proxy encodes is read back by a client as that same reply. */
  lemma ParseEncode(resp: Socks4Response)
    ensures ParseResponse(resp.Encode()) == Some(resp)
  {
    PortBytesRoundTrip(resp.dstPort);
    assert resp.Encode()[4..8] == resp.dstIp.Octets();
  }

  /** And every frame a client accepts as a reply is the encoding of what it read. */
  lemma EncodeParse(bytes: seq<Byte>)
    requires ParseResponse(bytes).Some?
    ensures ParseResponse(bytes).value.Encode() == bytes
  {
    PortFromBytesRoundTrip(bytes[2], bytes[3]);
    assert bytes == [bytes[0], bytes[1]] + bytes[2..4] + bytes[4..8];
  }

  /** The rejection frame is always `00 5B 00 00 00 00 00 00`. */
  lemma FailureEncoding()
    ensures Socks4Response.Failure().Encode() == [0x00, 0x5B, 0x00, 0x00, 0x00, 0x00, 0x00, 0x00]
  {
  }

  /** The frame of `test_socks4_response_generation` in `src/socks4.rs`: granting 192.168.1.1:8080 encodes as `00 5A 1F 90 C0 A8 01 01`. */
  lemma SuccessEncodingExample()
    ensures Socks4Response.Success(SocketAddrV4(Ipv4Addr(192, 168, 1, 1), 8080)).Encode()
         == [0x00, 0x5A, 0x1F, 0x90, 192, 168, 1, 1]
  {
  }

  /** Granting a decoded request's destination echoes the request's port and address bytes, in place, after `00 5A`. */
  lemma SuccessEchoesRequest(input: seq<Byte>)
    requires Decode(input).result.Ok?
    ensures var frame := Socks4Response.Success(Decode(input).result.value.DestinationAddr()).Encode();
      && frame[..2] == [ReplyVersion, RequestGranted]
      && frame[2..] == input[2..8]
  {
    var req := Decode(input).result.value;
    PortFromBytesRoundTrip(input[2], input[3]);
    assert PortBytes(req.dstPort) == input[2..4];
    assert input[2..8] == input[2..4] + input[4..8];
  }
}
