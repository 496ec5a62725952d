/** The CIDR masks and lists of src/ip_addr.c, on a little-endian host.

The string-to-number library calls are parameters: atoi gives the value of a prefix length, and pton
the bytes of an address, or None when the text is not one. */
module Cidr {
  import opened Bits
  import opened IpAddr

  // ----- Words in memory -----

  /** Shifting a word of the given width left, one place at a time. */
  function Shl(x: nat, k: nat, width: nat): nat {
    if k == 0 then x else 2 * Shl(x, k - 1, width) % Pow2(width)
  }

  /** All ones, shifted left: ~0 << k. */
  function OnesFrom(k: nat, width: nat): nat {
    Shl(Pow2(width) - 1, k, width)
  }

  /** The n bytes of a word in memory, least significant first. */
  function Bytes(x: nat, n: nat): (b: seq<byte>)
    ensures |b| == n
  {
    if n == 0 then [] else [x % 0x100] + Bytes(x / 0x100, n - 1)
  }

  function Reverse(b: seq<byte>): (r: seq<byte>)
    ensures |r| == |b|
    ensures forall i :: 0 <= i < |b| ==> r[i] == b[|b| - 1 - i]
  {
    if b == [] then [] else Reverse(b[1..]) + [b[0]]
  }

  /** htobe64 on a little-endian host. */
  function Swap64(x: nat): nat {
    Value(Reverse(Bytes(x, 8)))
  }

  lemma {:induction false} BytesOfValue(b: seq<byte>)
    ensures Bytes(Value(b), |b|) == b
  {
    if b == [] {
    } else {
      assert Value(b) % 0x100 == b[0] && Value(b) / 0x100 == Value(b[1..]);
      BytesOfValue(b[1..]);
      assert b == [b[0]] + b[1..];
    }
  }

  lemma SwapReverses(half: seq<byte>)
    requires |half| == 8
    ensures Bytes(Swap64(Value(half)), 8) == Reverse(half)
  {
    BytesOfValue(half);
    BytesOfValue(Reverse(half));
  }

  /** Swapping each half and exchanging the halves reverses all sixteen bytes. */
  lemma SwapAndExchange(mem: Addr)
    ensures Bytes(Swap64(Value(mem[8..])), 8) + Bytes(Swap64(Value(mem[..8])), 8) == Reverse(mem)
  {
    hide Bytes, Swap64, Value, Reverse;
    SwapReverses(mem[..8]);
    SwapReverses(mem[8..]);
    var high, low := Reverse(mem[..8]), Reverse(mem[8..]);
    forall i | 0 <= i < 16 ensures (low + high)[i] == Reverse(mem)[i] {
    }
  }

  // ----- Bits of words and bytes -----

  lemma {:induction false} BitOfByte(x: nat, j: nat)
    requires j < 8
    ensures Bit(x, j) == Bit(x % 0x100, j)
  {
    LowBit(x, 8, j);
    assert Pow2(8) == 0x100;
  }

  lemma {:induction false} LowBit(x: nat, n: nat, j: nat)
    requires j < n
    ensures Bit(x, j) == Bit(x % Pow2(n), j)
  {
    var h := x / 2 % Pow2(n - 1);
    var y := 2 * h + x % 2;
    assert x % Pow2(n) == y by { ModHalves(x, n); }
    if j == 0 {
    } else {
      LowBit(x / 2, n - 1, j - 1);
      assert y / 2 == h;
    }
  }

  lemma {:induction false} BitAboveByte(x: nat, i: nat)
    ensures Bit(x, 8 + i) == Bit(x / 0x100, i)
  {
    BitAboveNibble(x, 4 + i);
    BitAboveNibble(x / 0x10, i);
  }

  lemma {:induction false} BitAboveNibble(x: nat, i: nat)
    ensures Bit(x, 4 + i) == Bit(x / 0x10, i)
  {
    assert Bit(x, 4 + i) == Bit(x / 2, 3 + i);
    assert Bit(x / 2, 3 + i) == Bit(x / 4, 2 + i);
    assert Bit(x / 4, 2 + i) == Bit(x / 8, 1 + i);
  }

  lemma {:induction false} BitOfBytes(x: nat, n: nat, i: nat, j: nat)
    requires i < n && j < 8
    ensures Bit(x, 8 * i + j) == Bit(Bytes(x, n)[i], j)
  {
    if i == 0 {
      BitOfByte(x, j);
    } else {
      BitAboveByte(x, 8 * (i - 1) + j);
      BitOfBytes(x / 0x100, n - 1, i - 1, j);
    }
  }

  lemma {:induction false} ValueBound(b: seq<byte>, i: nat)
    requires i >= 8 * |b|
    ensures !Bit(Value(b), i)
  {
    if b == [] {
      ZeroBits(i);
    } else {
      BitAboveByte(Value(b), i - 8);
      ValueBound(b[1..], i - 8);
    }
  }

  lemma {:induction false} ZeroBits(i: nat)
    ensures !Bit(0, i)
  {
    if i == 0 {
    } else {
      ZeroBits(i - 1);
    }
  }

  /** Shifting all ones leaves ones from the shift upward. */
  lemma {:induction false} ShlOnes(k: nat, width: nat)
    requires k < width
    ensures OnesFrom(k, width) == Pow2(width) - Pow2(k)
  {
    if k == 0 {
    } else {
      ShlOnes(k - 1, width);
      Pow2Grows(k, width);
      DoubleWraps(Pow2(width), Pow2(k - 1));
    }
  }

  lemma DoubleWraps(m: nat, q: nat)
    requires 0 < 2 * q <= m
    ensures 2 * (m - q) % m == m - 2 * q
  {
    RemainderUnique(2 * (m - q), m, 1, m - 2 * q);
  }

  lemma {:induction false} Pow2Grows(k: nat, n: nat)
    requires k <= n
    ensures Pow2(k) <= Pow2(n)
  {
    if k == n {
    } else {
      Pow2Grows(k, n - 1);
    }
  }

  lemma {:induction false} BitsOfRun(n: nat, k: nat, i: nat)
    requires k <= n
    ensures Pow2(k) <= Pow2(n) && Bit(Pow2(n) - Pow2(k), i) == (k <= i < n)
    decreases i
  {
    Pow2Grows(k, n);
    if n == 0 {
      ZeroBits(i);
    } else if k == 0 {
      var x := Pow2(n) - 1;
      assert x / 2 == Pow2(n - 1) - 1 && x % 2 == 1;
      if i > 0 {
        BitsOfRun(n - 1, 0, i - 1);
      }
    } else {
      var x := Pow2(n) - Pow2(k);
      Pow2Grows(k - 1, n - 1);
      assert x / 2 == Pow2(n - 1) - Pow2(k - 1) && x % 2 == 0;
      if i > 0 {
        BitsOfRun(n - 1, k - 1, i - 1);
      }
    }
  }

  /** Bit i is set in both words. */
  predicate Common(x: nat, y: nat, i: nat) {
    Bit(x, i) && Bit(y, i)
  }

  /** A masked word is nonzero exactly when some bit is set in both. */
  lemma {:induction false} AndNonzero(x: nat, y: nat)
    ensures And(x, y) != 0 <==> exists i: nat :: Common(x, y, i)
  {
    if x == 0 {
      forall i: nat ensures !Common(x, y, i) { ZeroBits(i); }
    } else {
      AndNonzero(x / 2, y / 2);
      AndHalves(x, y);
      if x % 2 == 1 && y % 2 == 1 {
        assert Common(x, y, 0);
      } else if And(x / 2, y / 2) != 0 {
        var i: nat :| Common(x / 2, y / 2, i);
        assert Common(x, y, i + 1);
      } else {
        forall i: nat ensures !Common(x, y, i) {
          assert i > 0 ==> Common(x, y, i) == Common(x / 2, y / 2, i - 1);
        }
      }
    }
  }

  // ----- Masks -----

  /** Bit n of an address in network order: bit 0 is the first on the wire (section 2.3 of RFC 4291
      counts a prefix from there). */
  predicate NetBit(a: Addr, n: nat)
    requires n < 128
  {
    Bit(a[n / 8], 7 - n % 8)
  }

  /** The mask stored for a prefix of p bits has exactly the first p bits set. */
  method MaskOf(p: nat) returns (mask: Addr)
    requires 1 <= p <= 128
    ensures forall n: nat :: n < 128 ==> NetBit(mask, n) == (n < p)
  {
    var word := OnesFrom(128 - p, 128);
    var mem := Bytes(word, 16);
    var high, low := Value(mem[..8]), Value(mem[8..]);
    high := Swap64(high);
    low := Swap64(low);
    high, low := low, high;
    mask := Bytes(high, 8) + Bytes(low, 8);
    SwapAndExchange(mem);
    hide OnesFrom, Bytes, Bit, NetBit, Swap64, Value, Reverse;
    MaskBits(p, mask);
  }

  lemma MaskBits(p: nat, mask: Addr)
    requires 1 <= p <= 128 && mask == Reverse(Bytes(OnesFrom(128 - p, 128), 16))
    ensures forall n: nat :: n < 128 ==> NetBit(mask, n) == (n < p)
  {
    hide OnesFrom, Bytes, Bit, NetBit, Reverse;
    forall n: nat | n < 128 ensures NetBit(mask, n) == (n < p) {
      BitOfReversed(OnesFrom(128 - p, 128), mask, n);
      BitOfOnes(128 - p, 128, 127 - n);
    }
  }

  /** Reversing the bytes of a word turns its bits round end for end, in network order. */
  lemma BitOfReversed(word: nat, mask: Addr, n: nat)
    requires mask == Reverse(Bytes(word, 16)) && n < 128
    ensures NetBit(mask, n) == Bit(word, 127 - n)
  {
    var i, j := n / 8, n % 8;
    BitOfBytes(word, 16, 15 - i, 7 - j);
    assert 127 - n == 8 * (15 - i) + (7 - j);
  }

  lemma BitOfOnes(k: nat, width: nat, i: nat)
    requires k < width && i < width
    ensures Bit(OnesFrom(k, width), i) == (k <= i)
  {
    ShlOnes(k, width);
    BitsOfRun(width, k, i);
  }

  datatype Entry = Entry(mask: Addr, addr: Addr)

  const ZERO_ADDR: Addr := [0, 0, 0, 0, 0, 0, 0, 0, 0, 0, 0, 0, 0, 0, 0, 0]
  const UNFILLED := Entry(ZERO_ADDR, ZERO_ADDR)

  /** The test in ip_addr_cidr_match: some masked bit of the address is set. */
  predicate Match(c: Entry, a: Addr) {
    And(Value(a), Value(c.mask)) != 0
  }

  lemma BitOfValue(a: Addr, n: nat)
    requires n < 128
    ensures NetBit(a, n) == Bit(Value(a), 8 * (n / 8) + (7 - n % 8))
  {
    BytesOfValue(a);
    BitOfBytes(Value(a), 16, n / 8, 7 - n % 8);
  }

  /** A set bit of both words is a set bit of both addresses, in network order. */
  lemma CommonIsNetBit(c: Entry, a: Addr, i: nat)
    requires Common(Value(a), Value(c.mask), i)
    ensures i < 128 && NetBit(a, 8 * (i / 8) + (7 - i % 8)) && NetBit(c.mask, 8 * (i / 8) + (7 - i % 8))
  {
    if i >= 128 {
      ValueBound(a, i);
    }
    var n := 8 * (i / 8) + (7 - i % 8);
    assert n / 8 == i / 8 && n % 8 == 7 - i % 8;
    BitOfValue(a, n);
    BitOfValue(c.mask, n);
  }

  lemma NetBitIsCommon(c: Entry, a: Addr, n: nat)
    requires n < 128 && NetBit(a, n) && NetBit(c.mask, n)
    ensures Common(Value(a), Value(c.mask), 8 * (n / 8) + (7 - n % 8))
  {
    BitOfValue(a, n);
    BitOfValue(c.mask, n);
  }

  /** The match, bit by bit. */
  lemma MatchBits(c: Entry, a: Addr)
    ensures Match(c, a) <==> exists n: nat :: n < 128 && NetBit(a, n) && NetBit(c.mask, n)
  {
    AndNonzero(Value(a), Value(c.mask));
    if Match(c, a) {
      var i: nat :| Common(Value(a), Value(c.mask), i);
      CommonIsNetBit(c, a, i);
    }
    if n: nat :| n < 128 && NetBit(a, n) && NetBit(c.mask, n) {
      NetBitIsCommon(c, a, n);
    }
  }

  ghost predicate PrefixMask(mask: Addr, p: nat) {
    forall n: nat :: n < 128 ==> NetBit(mask, n) == (n < p)
  }

  /** The two addresses agree on their first p bits. */
  ghost predicate SamePrefix(a: Addr, b: Addr, p: nat)
    requires p <= 128
  {
    forall n: nat :: n < p ==> NetBit(a, n) == NetBit(b, n)
  }

  /** With a mask of p bits, the test holds exactly when one of the first p bits is set; so it holds
      of every address in a network whose prefix is not all zeros. */
  lemma MatchIsSomePrefixBit(c: Entry, p: nat, a: Addr)
    requires 1 <= p <= 128 && PrefixMask(c.mask, p)
    ensures Match(c, a) <==> exists n: nat :: n < p && NetBit(a, n)
    ensures SamePrefix(c.addr, a, p) && (exists n: nat :: n < p && NetBit(c.addr, n)) ==> Match(c, a)
  {
    MatchBits(c, a);
    if n: nat :| n < p && NetBit(a, n) {
      assert NetBit(c.mask, n);
    }
    if SamePrefix(c.addr, a, p) && exists n: nat :: n < p && NetBit(c.addr, n) {
      var n: nat :| n < p && NetBit(c.addr, n);
      assert NetBit(a, n);
    }
  }

  /** An IPv4-mapped address starts with eighty clear bits and a set one. */
  lemma MappedBits(a: Addr, n: nat)
    requires Ipv4Mapped(a) && n <= 80
    ensures NetBit(a, n) <==> n == 80
  {
    if n < 80 {
      assert a[n / 8] == 0;
      ZeroBits(7 - n % 8);
    } else {
      assert Bit(0xFF, 7);
    }
  }

  /** So an entry admits every IPv4 peer, when its prefix is longer than eighty bits, or none. */
  lemma Ipv4MatchIff(c: Entry, p: nat, a: Addr)
    requires 1 <= p <= 128 && PrefixMask(c.mask, p) && Ipv4Mapped(a)
    ensures Match(c, a) <==> p > 80
  {
    MatchIsSomePrefixBit(c, p, a);
    hide NetBit, Match, PrefixMask;
    forall n: nat | n <= 80 ensures NetBit(a, n) <==> n == 80 {
      MappedBits(a, n);
    }
    if p > 80 {
      assert NetBit(a, 80);
    }
  }

  /** The test is prefix membership, for every address, exactly when the network is the upper half of
      the address space: a one-bit prefix whose bit is set. */
  lemma MatchIsMembershipIff(c: Entry, p: nat)
    requires 1 <= p <= 128 && PrefixMask(c.mask, p)
    ensures (forall a: Addr :: Match(c, a) <==> SamePrefix(c.addr, a, p)) <==> p == 1 && NetBit(c.addr, 0)
  {
    forall a: Addr ensures Match(c, a) <==> exists n: nat :: n < p && NetBit(a, n) {
      MatchIsSomePrefixBit(c, p, a);
    }
    if !(p == 1 && NetBit(c.addr, 0)) {
      var a := Outsider(c, p);
      assert Match(c, a) != SamePrefix(c.addr, a, p);
    }
  }

  /** An address with one bit set, the first or the second. */
  lemma OneBit(second: bool) returns (a: Addr)
    ensures NetBit(a, 0) == !second && NetBit(a, 1) == second
  {
    a := ZERO_ADDR[0 := if second then 0x40 else 0x80];
    assert Bit(0x80, 7) && !Bit(0x80, 6) && Bit(0x40, 6) && !Bit(0x40, 7);
  }

  /** An address on which the test and membership differ. */
  lemma Outsider(c: Entry, p: nat) returns (a: Addr)
    requires 1 <= p <= 128 && PrefixMask(c.mask, p) && !(p == 1 && NetBit(c.addr, 0))
    ensures Match(c, a) != SamePrefix(c.addr, a, p)
  {
    // Within a one-bit prefix, an address whose first bit is clear; otherwise, one set bit where the
    // network's first bit rules it out.
    a := OneBit(p == 1 || NetBit(c.addr, 0));
    MatchIsSomePrefixBit(c, p, a);
  }

  /** An entry that was never filled matches nothing. */
  lemma UnfilledMatchesNothing(a: Addr)
    ensures !Match(UNFILLED, a)
  {
    assert Value(ZERO_ADDR) == 0 by { ValueOfZeros(ZERO_ADDR); }
    AndZero(Value(a));
  }

  lemma {:induction false} ValueOfZeros(b: seq<byte>)
    requires forall i :: 0 <= i < |b| ==> b[i] == 0
    ensures Value(b) == 0
  {
    if b == [] {
    } else {
      ValueOfZeros(b[1..]);
    }
  }
}
