/**
 * The value types of `std::net` that the proxy passes around: bytes, 16-bit
 * ports, IPv4 addresses and socket addresses, with the big-endian byte order
 * that the SOCKS4 wire format uses for ports.
 */
module Net {

  /** An unsigned 8-bit integer (`u8`). */
  type Byte = x: int | 0 <= x < 0x100

  /** An unsigned 16-bit integer (`u16`), the type of a TCP port. */
  type U16 = x: int | 0 <= x < 0x1_0000

  /** An unsigned 64-bit integer (`u64`, and `usize` on a 64-bit target). */
  type U64 = x: int | 0 <= x < 0x1_0000_0000_0000_0000

  /** The two bytes of a port, most significant first (`u16::to_be_bytes`). */
  function PortBytes(port: U16): (bytes: seq<Byte>)
    ensures |bytes| == 2
    ensures bytes[0] as int * 0x100 + bytes[1] as int == port
  {
    [port / 0x100, port % 0x100]
  }

  /** The port whose big-endian bytes are `hi`, `lo` (`u16::from_be_bytes`). */
  function PortFromBytes(hi: Byte, lo: Byte): (port: U16)
    ensures port / 0x100 == hi && port % 0x100 == lo
  {
    hi as int * 0x100 + lo as int
  }

  lemma PortBytesRoundTrip(port: U16)
    ensures PortFromBytes(PortBytes(port)[0], PortBytes(port)[1]) == port
  {
  }

  lemma PortFromBytesRoundTrip(hi: Byte, lo: Byte)
    ensures PortBytes(PortFromBytes(hi, lo)) == [hi, lo]
  {
  }

  /** `std::net::Ipv4Addr`: four octets, in network order. */
  datatype Ipv4Addr = Ipv4Addr(a: Byte, b: Byte, c: Byte, d: Byte) {

    /** `Ipv4Addr::octets`. */
    function Octets(): (octets: seq<Byte>)
      ensures |octets| == 4
      ensures FromOctets(octets) == this
    {
      [a, b, c, d]
    }

    /** `Ipv4Addr::from([u8; 4])`. */
    static function FromOctets(octets: seq<Byte>): (ip: Ipv4Addr)
      requires |octets| == 4
      ensures [ip.a, ip.b, ip.c, ip.d] == octets
    {
      Ipv4Addr(octets[0], octets[1], octets[2], octets[3])
    }
  }

  /** The unspecified address 0.0.0.0. */
  const Unspecified := Ipv4Addr(0, 0, 0, 0)

  /** `std::net::SocketAddrV4`. */
  datatype SocketAddrV4 = SocketAddrV4(ip: Ipv4Addr, port: U16)

  /** `std::net::SocketAddrV6`; its sixteen address bytes are not looked at by the proxy. */
  datatype SocketAddrV6 = SocketAddrV6(ip: seq<Byte>, port: U16)

  /** `std::net::SocketAddr`. */
  datatype SocketAddr = V4(v4: SocketAddrV4) | V6(v6: SocketAddrV6)
}
