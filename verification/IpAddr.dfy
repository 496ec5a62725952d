/** Addresses and endpoints, as the sockets deliver them.

An address is its sixteen bytes in network order, which is how the union in src/ip_addr.h lays it
out in memory; words wider than a byte are read from those bytes in the order of a little-endian
host. A port is the raw sixteen-bit field of the socket address. */
module IpAddr {
  import opened Bits

  type Addr = b: seq<byte> | |b| == 16 witness [0, 0, 0, 0, 0, 0, 0, 0, 0, 0, 0, 0, 0, 0, 0, 0]

  datatype Endpoint = Endpoint(addr: Addr, port: u16)

  /** Word i of the address, as the 32-bit view of the union reads it. */
  function Dword(a: Addr, i: nat): (d: u32)
    requires i < 4
  {
    var b0: int, b1: int, b2: int, b3: int := a[4 * i], a[4 * i + 1], a[4 * i + 2], a[4 * i + 3];
    b0 + 0x100 * b1 + 0x1_0000 * b2 + 0x100_0000 * b3
  }

  /** Little-endian value of a run of bytes; the 128-bit view of an address is Value(a). */
  function Value(bytes: seq<byte>): nat {
    if bytes == [] then 0 else bytes[0] + 0x100 * Value(bytes[1..])
  }

  /** Comparing the 128-bit views compares the bytes. */
  lemma {:induction false} ValueInjective(a: seq<byte>, b: seq<byte>)
    requires |a| == |b| && Value(a) == Value(b)
    ensures a == b
  {
    if a == [] {
    } else {
      assert a[0] == Value(a) % 0x100 && b[0] == Value(b) % 0x100;
      ValueInjective(a[1..], b[1..]);
      assert a == [a[0]] + a[1..] && b == [b[0]] + b[1..];
    }
  }

  /** The comparison in the C code: the 128-bit views of the addresses, then the ports. */
  predicate SameEndpoint(x: Endpoint, y: Endpoint): (same: bool)
    ensures same <==> x == y
  {
    if Value(x.addr) == Value(y.addr) then
      ValueInjective(x.addr, y.addr);
      x.port == y.port
    else false
  }

  /** An IPv4-mapped address: ten zero bytes, two bytes of ones, the four IPv4 bytes
      (section 2.5.5.2 of RFC 4291). */
  predicate Ipv4Mapped(a: Addr) {
    (forall i :: 0 <= i < 10 ==> a[i] == 0) && a[10] == 0xFF && a[11] == 0xFF
  }
}
