/** The two hash functions of src/endpoint_map.c and the slots they choose. */
module EndpointHash {
  import opened Bits
  import opened IpAddr

  // ----- Folds: what a key and a nonce each contribute to the hash -----

  function LargeFold(k: Endpoint): nat {
    XorAll([Dword(k.addr, 0), Dword(k.addr, 1), Dword(k.addr, 2), Dword(k.addr, 3), k.port])
  }

  /** The loop in hash_small runs to sizeof(ip_addr) / 4 over bytes, so it reads four of the
      sixteen address bytes. */
  function SmallFold(k: Endpoint): nat {
    XorAll([k.addr[0], k.addr[1], k.addr[2], k.addr[3], k.port % 0x100, k.port / 0x100])
  }

  function NonceFold(nonce: u32): nat {
    XorAll([nonce % 0x100, nonce / 0x100 % 0x100, nonce / 0x1_0000 % 0x100, nonce / 0x100_0000])
  }

  method Hash(k: Endpoint, nonce: u32) returns (h: nat)
    ensures h == Xor(nonce, LargeFold(k))
  {
    h := nonce;
    ghost var ws: seq<nat> := [];
    XorZero(nonce);
    for i := 0 to 4
      invariant |ws| == i && forall j :: 0 <= j < i ==> ws[j] == Dword(k.addr, j)
      invariant h == Xor(nonce, XorAll(ws))
    {
      XorAssociates(nonce, XorAll(ws), Dword(k.addr, i));
      XorAllAppend(ws, Dword(k.addr, i));
      h := Xor(h, Dword(k.addr, i));
      ws := ws + [Dword(k.addr, i)];
    }
    XorAssociates(nonce, XorAll(ws), k.port);
    XorAllAppend(ws, k.port);
    h := Xor(h, k.port);
    assert ws + [k.port]
        == [Dword(k.addr, 0), Dword(k.addr, 1), Dword(k.addr, 2), Dword(k.addr, 3), k.port];
  }

  method HashSmall(k: Endpoint, nonce: u32) returns (h: nat)
    ensures h == Xor(NonceFold(nonce), SmallFold(k))
  {
    h := NonceFold(nonce);
    ghost var ws: seq<nat> := [];
    XorZero(h);
    for i := 0 to 4
      invariant |ws| == i && forall j :: 0 <= j < i ==> ws[j] == k.addr[j]
      invariant h == Xor(NonceFold(nonce), XorAll(ws))
    {
      XorAssociates(NonceFold(nonce), XorAll(ws), k.addr[i]);
      XorAllAppend(ws, k.addr[i]);
      h := Xor(h, k.addr[i]);
      ws := ws + [k.addr[i]];
    }
    var lo, hi := k.port % 0x100, k.port / 0x100;
    XorAssociates(NonceFold(nonce), XorAll(ws), Xor(lo, hi));
    h := Xor(h, Xor(lo, hi));
    SmallFoldTail(ws, lo, hi);
    assert ws + [lo, hi] == [k.addr[0], k.addr[1], k.addr[2], k.addr[3], lo, hi];
  }

  lemma SmallFoldTail(ws: seq<nat>, lo: nat, hi: nat)
    ensures Xor(XorAll(ws), Xor(lo, hi)) == XorAll(ws + [lo, hi])
  {
    XorAssociates(XorAll(ws), lo, hi);
    XorAllAppend(ws, lo);
    XorAllAppend(ws + [lo], hi);
    assert ws + [lo, hi] == ws + [lo] + [hi];
  }

  // ----- Slots -----

  /** The table index of a key under one nonce: the hash for the table's size, masked. */
  function Slot(k: Endpoint, nonce: u32, capacity: nat): nat
    requires capacity >= 1
  {
    And(if capacity <= 256 then Xor(NonceFold(nonce), SmallFold(k)) else Xor(nonce, LargeFold(k)),
        capacity - 1)
  }

  ghost predicate PowerOfTwo(n: nat) {
    exists e: nat :: n == Pow2(e)
  }

  /** The part of the slot that depends on the key, and the part that depends on the nonce. */
  function MaskedFold(k: Endpoint, capacity: nat): nat
    requires capacity >= 1
  {
    (if capacity <= 256 then SmallFold(k) else LargeFold(k)) % capacity
  }

  function MaskedNonce(nonce: u32, capacity: nat): nat
    requires capacity >= 1
  {
    (if capacity <= 256 then NonceFold(nonce) else nonce) % capacity
  }

  /** The distance between a key's two slots: the same for every key. */
  function Spread(nonceA: u32, nonceB: u32, capacity: nat): nat
    requires capacity >= 1
  {
    Xor(MaskedNonce(nonceA, capacity), MaskedNonce(nonceB, capacity))
  }

  lemma SlotSplits(k: Endpoint, nonce: u32, capacity: nat)
    requires PowerOfTwo(capacity)
    ensures Slot(k, nonce, capacity) == Xor(MaskedNonce(nonce, capacity), MaskedFold(k, capacity))
    ensures Slot(k, nonce, capacity) < capacity
  {
    var e: nat :| capacity == Pow2(e);
    var n := if capacity <= 256 then NonceFold(nonce) else nonce;
    var f := if capacity <= 256 then SmallFold(k) else LargeFold(k);
    AndMask(Xor(n, f), e);
    XorMod(n, f, e);
    XorBound(n % capacity, f % capacity, e);
  }

  /** The second slot is the first displaced by the spread. */
  lemma SecondSlot(k: Endpoint, nonceA: u32, nonceB: u32, capacity: nat)
    requires PowerOfTwo(capacity)
    ensures Slot(k, nonceB, capacity)
         == Xor(Slot(k, nonceA, capacity), Spread(nonceA, nonceB, capacity))
  {
    var a, b, f := MaskedNonce(nonceA, capacity), MaskedNonce(nonceB, capacity), MaskedFold(k, capacity);
    SlotSplits(k, nonceA, capacity);
    SlotSplits(k, nonceB, capacity);
    XorCommutes(a, f);
    XorAssociates(f, a, Xor(a, b));
    XorCancels(a, b);
    XorCommutes(f, b);
  }

  /** Two keys compete when their masked folds are equal or differ by exactly the spread. */
  predicate Compete(k: Endpoint, k': Endpoint, spread: nat, capacity: nat)
    requires capacity >= 1
  {
    var x := Xor(MaskedFold(k, capacity), MaskedFold(k', capacity));
    x == 0 || x == spread
  }

  function Slots(k: Endpoint, nonceA: u32, nonceB: u32, capacity: nat): set<nat>
    requires capacity >= 1
  {
    {Slot(k, nonceA, capacity), Slot(k, nonceB, capacity)}
  }

  /** Slots of two keys under two nonces coincide exactly when fold and nonce differences agree. */
  lemma SlotsMeet(k: Endpoint, nonce: u32, k': Endpoint, nonce': u32, capacity: nat)
    requires PowerOfTwo(capacity)
    ensures Slot(k, nonce, capacity) == Slot(k', nonce', capacity)
       <==> Xor(MaskedFold(k, capacity), MaskedFold(k', capacity))
            == Xor(MaskedNonce(nonce, capacity), MaskedNonce(nonce', capacity))
  {
    SlotSplits(k, nonce, capacity);
    SlotSplits(k', nonce', capacity);
    var n, n' := MaskedNonce(nonce, capacity), MaskedNonce(nonce', capacity);
    var f, f' := MaskedFold(k, capacity), MaskedFold(k', capacity);
    if Xor(n, f) == Xor(n', f') {
      XorMove(n, f, n', f');
    }
    if Xor(f, f') == Xor(n, n') {
      XorMove(n, n', f, f');
    }
  }

  /** The slot pairs of two keys are equal when the keys compete and disjoint when they do not. */
  lemma SlotPairs(k: Endpoint, k': Endpoint, nonceA: u32, nonceB: u32, capacity: nat)
    requires PowerOfTwo(capacity)
    ensures var d := Spread(nonceA, nonceB, capacity);
            var s, s' := Slots(k, nonceA, nonceB, capacity), Slots(k', nonceA, nonceB, capacity);
            if Compete(k, k', d, capacity) then s == s' else s !! s'
  {
    SlotsMeet(k, nonceA, k', nonceA, capacity);
    SlotsMeet(k, nonceA, k', nonceB, capacity);
    SlotsMeet(k, nonceB, k', nonceA, capacity);
    SlotsMeet(k, nonceB, k', nonceB, capacity);
    XorSelf(MaskedNonce(nonceA, capacity));
    XorSelf(MaskedNonce(nonceB, capacity));
    XorCommutes(MaskedNonce(nonceA, capacity), MaskedNonce(nonceB, capacity));
  }

  /** A key has one slot rather than two exactly when the spread is zero. */
  lemma OneSlotIff(k: Endpoint, nonceA: u32, nonceB: u32, capacity: nat)
    requires PowerOfTwo(capacity)
    ensures Slot(k, nonceA, capacity) == Slot(k, nonceB, capacity)
       <==> Spread(nonceA, nonceB, capacity) == 0
  {
    SlotsMeet(k, nonceA, k, nonceB, capacity);
    XorSelf(MaskedFold(k, capacity));
  }

  /** In a table of at most 256 slots two IPv4-mapped endpoints with one port have one fold,
      whatever their addresses. */
  lemma Ipv4FoldIsPort(k: Endpoint, k': Endpoint, capacity: nat)
    requires 1 <= capacity <= 256
    requires Ipv4Mapped(k.addr) && Ipv4Mapped(k'.addr) && k.port == k'.port
    ensures MaskedFold(k, capacity) == MaskedFold(k', capacity)
  {
    assert [k.addr[0], k.addr[1], k.addr[2], k.addr[3], k.port % 0x100, k.port / 0x100]
        == [k'.addr[0], k'.addr[1], k'.addr[2], k'.addr[3], k'.port % 0x100, k'.port / 0x100];
  }

  // ----- What the folds read -----

  lemma ValueOfFour(b: seq<byte>)
    requires |b| == 4
    ensures var b0: int, b1: int, b2: int, b3: int := b[0], b[1], b[2], b[3];
            Value(b) == b0 + 0x100 * b1 + 0x1_0000 * b2 + 0x100_0000 * b3
  {
    var b0: int, b1: int, b2: int, b3: int := b[0], b[1], b[2], b[3];
    var c, d, e := b[1..], b[2..], b[3..];
    assert c[1..] == d && d[1..] == e && e[1..] == [] && e[0] == b[3] && d[0] == b[2] && c[0] == b[1];
    assert Value(e) == b3;
    assert Value(d) == b2 + 0x100 * b3;
    assert Value(c) == b1 + 0x100 * (b2 + 0x100 * b3);
  }

  lemma DwordIsValue(a: Addr, i: nat)
    requires i < 4
    ensures Dword(a, i) == Value(a[4 * i..4 * i + 4])
  {
    ValueOfFour(a[4 * i..4 * i + 4]);
  }

  /** The key with four bytes of its address replaced. */
  function WithWord(k: Endpoint, i: nat, b: seq<byte>): Endpoint
    requires i < 4 && |b| == 4
  {
    k.(addr := k.addr[..4 * i] + b + k.addr[4 * i + 4..])
  }

  /** The hash for large tables reads every word of the address and the port: changing one of them changes the
      hash, under any nonce, by exactly that change. */
  lemma HashOfChange(k: Endpoint, nonce: u32, i: nat, b: seq<byte>, port: u16)
    requires i < 4 && |b| == 4
    ensures Xor(Xor(nonce, LargeFold(k)), Xor(nonce, LargeFold(WithWord(k, i, b))))
         == Xor(Value(k.addr[4 * i..4 * i + 4]), Value(b))
    ensures Xor(Xor(nonce, LargeFold(k)), Xor(nonce, LargeFold(k.(port := port)))) == Xor(k.port, port)
  {
    hide Xor, XorAll, Value;
    XorShared(nonce, LargeFold(k), LargeFold(WithWord(k, i, b)));
    XorShared(nonce, LargeFold(k), LargeFold(k.(port := port)));
    WordChange(k, i, b);
    var ws := [Dword(k.addr, 0), Dword(k.addr, 1), Dword(k.addr, 2), Dword(k.addr, 3), k.port];
    XorAllUpdate(ws, 4, port);
    assert ws[4 := port] == [Dword(k.addr, 0), Dword(k.addr, 1), Dword(k.addr, 2), Dword(k.addr, 3), port];
  }

  lemma WordsAfter(k: Endpoint, i: nat, b: seq<byte>, j: nat)
    requires i < 4 && |b| == 4 && j < 4
    ensures Dword(WithWord(k, i, b).addr, j) == if j == i then Value(b) else Dword(k.addr, j)
  {
    var a := WithWord(k, i, b).addr;
    DwordIsValue(k.addr, j);
    DwordIsValue(a, j);
    Spliced(k.addr, 4 * i, b, 4 * j);
    hide Value, Dword;
  }

  /** Replacing four elements leaves any four disjoint from them alone. */
  lemma Spliced(s: seq<byte>, at: nat, b: seq<byte>, from: nat)
    requires |b| == 4 && at + 4 <= |s| && from + 4 <= |s|
    ensures var u := s[..at] + b + s[at + 4..];
            && |u| == |s|
            && (from == at ==> u[from..from + 4] == b)
            && (from + 4 <= at || at + 4 <= from ==> u[from..from + 4] == s[from..from + 4])
  {
    var u := s[..at] + b + s[at + 4..];
    if from + 4 <= at || at + 4 <= from {
      assert forall k :: from <= k < from + 4 ==> u[k] == s[k];
    }
  }

  lemma WordChange(k: Endpoint, i: nat, b: seq<byte>)
    requires i < 4 && |b| == 4
    ensures Xor(LargeFold(k), LargeFold(WithWord(k, i, b))) == Xor(Value(k.addr[4 * i..4 * i + 4]), Value(b))
  {
    hide Xor, XorAll, Value, Dword;
    var a := WithWord(k, i, b).addr;
    var ws: seq<nat> := [Dword(k.addr, 0), Dword(k.addr, 1), Dword(k.addr, 2), Dword(k.addr, 3), k.port];
    WordsAfter(k, i, b, 0);
    WordsAfter(k, i, b, 1);
    WordsAfter(k, i, b, 2);
    WordsAfter(k, i, b, 3);
    DwordIsValue(k.addr, i);
    XorAllUpdate(ws, i, Value(b));
    hide WithWord;
    assert ws[i := Value(b)] == [Dword(a, 0), Dword(a, 1), Dword(a, 2), Dword(a, 3), k.port];
  }

  /** The hash for small tables reads the first four bytes of the address, no other, and both bytes of the port. */
  lemma SmallHashOfChange(k: Endpoint, nonce: u32, i: nat, b: byte, port: u16)
    requires i < 16
    ensures Xor(Xor(NonceFold(nonce), SmallFold(k)), Xor(NonceFold(nonce), SmallFold(k.(addr := k.addr[i := b]))))
         == if i < 4 then Xor(k.addr[i], b) else 0
    ensures Xor(Xor(NonceFold(nonce), SmallFold(k)), Xor(NonceFold(nonce), SmallFold(k.(port := port))))
         == Xor(Xor(k.port % 0x100, port % 0x100), Xor(k.port / 0x100, port / 0x100))
  {
    hide Xor, XorAll, NonceFold;
    XorShared(NonceFold(nonce), SmallFold(k), SmallFold(k.(addr := k.addr[i := b])));
    XorShared(NonceFold(nonce), SmallFold(k), SmallFold(k.(port := port)));
    SmallByteChange(k, i, b);
    SmallPortChange(k, port);
  }

  lemma SmallByteChange(k: Endpoint, i: nat, b: byte)
    requires i < 16
    ensures Xor(SmallFold(k), SmallFold(k.(addr := k.addr[i := b]))) == if i < 4 then Xor(k.addr[i], b) else 0
  {
    hide Xor, XorAll;
    var a := k.addr[i := b];
    var ws: seq<nat> := [k.addr[0], k.addr[1], k.addr[2], k.addr[3], k.port % 0x100, k.port / 0x100];
    var ws': seq<nat> := [a[0], a[1], a[2], a[3], k.port % 0x100, k.port / 0x100];
    if i < 4 {
      XorAllUpdate(ws, i, b);
      assert ws[i := b] == ws';
    } else {
      assert ws == ws';
      XorSelf(XorAll(ws));
    }
  }

  lemma SmallPortChange(k: Endpoint, port: u16)
    ensures Xor(SmallFold(k), SmallFold(k.(port := port)))
         == Xor(Xor(k.port % 0x100, port % 0x100), Xor(k.port / 0x100, port / 0x100))
  {
    hide Xor, XorAll;
    var lo, hi, lo', hi' := k.port % 0x100, k.port / 0x100, port % 0x100, port / 0x100;
    var ws: seq<nat> := [k.addr[0], k.addr[1], k.addr[2], k.addr[3], lo, hi];
    XorAllUpdate(ws, 4, lo');
    XorAllUpdate(ws[4 := lo'], 5, hi');
    assert ws[4 := lo'][5 := hi'] == [k.addr[0], k.addr[1], k.addr[2], k.addr[3], lo', hi'];
    XorAssociates(XorAll(ws), XorAll(ws[4 := lo']), Xor(XorAll(ws[4 := lo']), XorAll(ws[4 := lo'][5 := hi'])));
    XorCancels(XorAll(ws[4 := lo']), XorAll(ws[4 := lo'][5 := hi']));
  }

  /** The fold of a nonce reads its four bytes. */
  lemma NonceFoldOfBytes(b: seq<byte>)
    requires |b| == 4
    ensures Value(b) < 0x1_0000_0000 && NonceFold(Value(b)) == Xor(Xor(Xor(b[0], b[1]), b[2]), b[3])
  {
    ValueOfFour(b);
    BytesOfNonce(b[0], b[1], b[2], b[3], Value(b));
    hide Value;
    XorAllOfFour(b[0], b[1], b[2], b[3]);
    hide Xor, XorAll;
  }

  lemma BytesOfNonce(b0: nat, b1: nat, b2: nat, b3: nat, v: nat)
    requires b0 < 0x100 && b1 < 0x100 && b2 < 0x100 && b3 < 0x100
    requires v == b0 + 0x100 * b1 + 0x1_0000 * b2 + 0x100_0000 * b3
    ensures v < 0x1_0000_0000 && v % 0x100 == b0 && v / 0x100 % 0x100 == b1
    ensures v / 0x1_0000 % 0x100 == b2 && v / 0x100_0000 == b3
  {
    var q1, q2 := b1 + 0x100 * b2 + 0x1_0000 * b3, b2 + 0x100 * b3;
    RemainderUnique(v, 0x100, q1, b0);
    RemainderUnique(q1, 0x100, q2, b1);
    RemainderUnique(v, 0x1_0000, q2, b0 + 0x100 * b1);
    RemainderUnique(q2, 0x100, b3, b2);
    RemainderUnique(v, 0x100_0000, b3, b0 + 0x100 * b1 + 0x1_0000 * b2);
  }

  lemma XorAllOfFour(b0: nat, b1: nat, b2: nat, b3: nat)
    ensures XorAll([b0, b1, b2, b3]) == Xor(Xor(Xor(b0, b1), b2), b3)
  {
    var ws := [b0, b1, b2, b3];
    assert ws[..3] == [b0, b1, b2] && ws[..3][..2] == [b0, b1] && ws[..3][..2][..1] == [b0];
    XorZero(b0);
    XorCommutes(0, b0);
    hide Xor;
    assert XorAll([b0]) == b0 by { assert [b0][..0] == []; }
    assert XorAll([b0, b1]) == Xor(b0, b1) by { assert [b0, b1][..1] == [b0]; }
    assert XorAll([b0, b1, b2]) == Xor(Xor(b0, b1), b2) by { assert [b0, b1, b2][..2] == [b0, b1]; }
  }

  /** An IPv4-mapped endpoint. */
  function Mapped(b: seq<byte>, port: u16): Endpoint
    requires |b| == 4
  {
    Endpoint([0, 0, 0, 0, 0, 0, 0, 0, 0, 0, 0xFF, 0xFF] + b, port)
  }

  /** The fold does not see the address of an IPv4 peer exactly in tables of at most 256 slots. */
  lemma Ipv4FoldBlindIff(capacity: nat)
    requires PowerOfTwo(capacity)
    ensures (forall k: Endpoint, k': Endpoint :: Ipv4Mapped(k.addr) && Ipv4Mapped(k'.addr) && k.port == k'.port ==>
               MaskedFold(k, capacity) == MaskedFold(k', capacity))
       <==> capacity <= 256
  {
    if capacity <= 256 {
      forall k: Endpoint, k': Endpoint | Ipv4Mapped(k.addr) && Ipv4Mapped(k'.addr) && k.port == k'.port
        ensures MaskedFold(k, capacity) == MaskedFold(k', capacity)
      {
        Ipv4FoldIsPort(k, k', capacity);
      }
    } else {
      LargeFoldSees(capacity);
      var k, k' := Mapped([0, 0, 0, 0], 0), Mapped([1, 0, 0, 0], 0);
      assert Ipv4Mapped(k.addr) && Ipv4Mapped(k'.addr);
      hide MaskedFold;
    }
  }

  lemma LargeFoldSees(capacity: nat)
    requires PowerOfTwo(capacity) && capacity > 256
    ensures MaskedFold(Mapped([0, 0, 0, 0], 0), capacity) != MaskedFold(Mapped([1, 0, 0, 0], 0), capacity)
  {
    FoldsApart();
    hide LargeFold, Mapped, Xor;
    OneApart(LargeFold(Mapped([0, 0, 0, 0], 0)), LargeFold(Mapped([1, 0, 0, 0], 0)), capacity);
  }

  lemma FoldsApart()
    ensures Xor(LargeFold(Mapped([0, 0, 0, 0], 0)), LargeFold(Mapped([1, 0, 0, 0], 0))) == 1
  {
    var k := Mapped([0, 0, 0, 0], 0);
    assert Mapped([1, 0, 0, 0], 0) == WithWord(k, 3, [1, 0, 0, 0]) && k.addr[12..16] == [0, 0, 0, 0];
    hide LargeFold, Xor, Value, WithWord, Mapped;
    WordChange(k, 3, [1, 0, 0, 0]);
    ValuesApart();
  }

  lemma OneApart(x: nat, y: nat, capacity: nat)
    requires PowerOfTwo(capacity) && capacity > 1 && Xor(x, y) == 1
    ensures x % capacity != y % capacity
  {
    var e: nat :| capacity == Pow2(e);
    hide Xor;
    XorMod(x, y, e);
    XorSelf(x % capacity);
    SmallRemainder(1, capacity);
  }

  lemma ValuesApart()
    ensures Xor(Value([0, 0, 0, 0]), Value([1, 0, 0, 0])) == 1
  {
    assert [0, 0, 0, 0][1..] == [0, 0, 0] && [0, 0, 0][1..] == [0, 0] && [0, 0][1..] == [0] && [0][1..] == [];
    assert [1, 0, 0, 0][1..] == [0, 0, 0];
    assert Value([0]) == 0;
    assert Value([0, 0]) == 0;
    assert Value([0, 0, 0]) == 0;
    XorCommutes(0, 1);
    XorZero(1);
  }
}
