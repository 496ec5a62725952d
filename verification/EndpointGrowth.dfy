/** A run in which growth goes wrong: the table is filled, and the addition that doubles it picks up an entry
    that nobody added from the memory behind it. */
module EndpointGrowth {
  import opened Bits
  import opened IpAddr
  import opened EndpointHash
  import opened EndpointTable
  import opened EndpointRebuild
  import opened EndpointMap
  import opened EndpointRuns

  // ----- Peers of one address -----

  /** The peers of one address, by port. */
  function Peer(a: Addr, p: nat): (k: Endpoint)
    requires p < 0x100
  {
    Endpoint(a, p)
  }

  /** What the address contributes to the small fold. */
  function AddressFold(a: Addr): nat {
    XorAll([a[0], a[1], a[2], a[3]])
  }

  lemma FoldOfPeer(a: Addr, p: nat)
    requires p < 0x100
    ensures SmallFold(Peer(a, p)) == Xor(AddressFold(a), p)
  {
    var ws: seq<nat> := [a[0], a[1], a[2], a[3]];
    assert p % 0x100 == p && p / 0x100 == 0;
    SmallFoldTail(ws, p, 0);
    XorZero(p);
    hide Xor, XorAll;
    assert ws + [p, 0] == [a[0], a[1], a[2], a[3], p, 0];
  }

  lemma XorInjective(c: nat, p: nat, q: nat)
    requires Xor(c, p) == Xor(c, q)
    ensures p == q
  {
    XorCancels(c, p);
    XorCancels(c, q);
  }

  /** In a table of at most 256 slots, peers whose ports differ below the capacity have different folds. */
  lemma PeersDiffer(a: Addr, p: nat, q: nat, e: nat)
    requires p < 0x100 && q < 0x100 && Pow2(e) <= 256 && p % Pow2(e) != q % Pow2(e)
    ensures MaskedFold(Peer(a, p), Pow2(e)) != MaskedFold(Peer(a, q), Pow2(e))
  {
    FoldOfPeer(a, p);
    FoldOfPeer(a, q);
    XorMod(AddressFold(a), p, e);
    XorMod(AddressFold(a), q, e);
    hide Xor, SmallFold, AddressFold;
    if MaskedFold(Peer(a, p), Pow2(e)) == MaskedFold(Peer(a, q), Pow2(e)) {
      XorInjective(AddressFold(a) % Pow2(e), p % Pow2(e), q % Pow2(e));
    }
  }

  /** Different folds have different first slots. */
  lemma FirstSlotsDiffer(x: Endpoint, y: Endpoint, nonce: u32, capacity: nat)
    requires PowerOfTwo(capacity) && MaskedFold(x, capacity) != MaskedFold(y, capacity)
    ensures Slot(x, nonce, capacity) != Slot(y, nonce, capacity)
  {
    SlotSplits(x, nonce, capacity);
    SlotSplits(y, nonce, capacity);
    hide MaskedFold, MaskedNonce, Slot;
    if Slot(x, nonce, capacity) == Slot(y, nonce, capacity) {
      XorInjective(MaskedNonce(nonce, capacity), MaskedFold(x, capacity), MaskedFold(y, capacity));
    }
  }

  // ----- Filling the table -----

  /** The table after the peers on ports 1 to n have been added, each in its first slot. */
  ghost predicate Filling(t: Table, a: Addr, n: nat) {
    && Valid(t) && |t.entries| == 32 && t.count == n <= 32
    && forall i :: 0 <= i < 32 && t.entries[i].present ==>
         i == t.SlotA(t.entries[i].key) && Known(t.entries[i].key, a, n)
  }

  predicate Known(k: Endpoint, a: Addr, n: nat) {
    k.addr == a && 1 <= k.port <= n
  }

  lemma Pow32()
    ensures Pow2(5) == 32 && Pow2(6) == 64 && PowerOfTwo(32) && PowerOfTwo(64)
  {
    assert Pow2(5) == 32;
    assert Pow2(6) == 64;
  }

  lemma FreeSlot(t: Table, a: Addr, n: nat)
    requires Filling(t, a, n) && n < 32
    ensures !t.entries[t.SlotA(Peer(a, n + 1))].present
  {
    var k := Peer(a, n + 1);
    var i := t.SlotA(k);
    if t.entries[i].present {
      var p := t.entries[i].key.port;
      assert t.entries[i].key == Peer(a, p) && 1 <= p <= n && i == t.SlotA(Peer(a, p));
      hide Valid, MaskedFold, Slot, Filling;
      Pow32();
      PeersDiffer(a, p, n + 1, 5);
      FirstSlotsDiffer(Peer(a, p), k, t.nonceA, 32);
      assert false;
    }
  }

  lemma FillsOne(t: Table, a: Addr, n: nat) returns (u: Table)
    requires Filling(t, a, n) && n < 32
    ensures Direct(t, Peer(a, n + 1)) && TryInsert(t, Peer(a, n + 1), n) == Put(u) && Filling(u, a, n + 1)
  {
    var k := Peer(a, n + 1);
    FreeSlot(t, a, n);
    InsertAgrees(t, k, n);
    Field31Exact(n);
    hide Valid, Slot, Field31;
    var i := t.SlotA(k);
    u := t.(entries := t.entries[i := Entry(k, true, n)], count := t.count + 1);
    assert PutAt(t, i, k, n) == Put(u);
    hide PutAt;
    assert TryInsert(t, k, n) == Put(u);
  }

  /** An addition that meets a half with nothing in it. */
  function Quiet(a: Addr, n: nat): Op
    requires n < 32
  {
    Add(Peer(a, n + 1), n, seq(32, _ => BLANK))
  }

  /** A run that fills a table of 32 slots. */
  lemma {:induction false} FillsUpTo(a: Addr, nonceA: u32, nonceB: u32, n: nat) returns (ts: seq<Table>, ops: seq<Op>)
    requires n <= 32
    ensures Run(ts, ops) && |ops| == n && ts[0] == Cleared(32, nonceA, nonceB) && Filling(ts[n], a, n)
    ensures forall i :: 0 <= i < n ==> ops[i] == Quiet(a, i)
  {
    if n == 0 {
      ts, ops := [Cleared(32, nonceA, nonceB)], [];
      Pow32();
      ClearedValid(32, nonceA, nonceB);
    } else {
      ts, ops := FillsUpTo(a, nonceA, nonceB, n - 1);
      var u := FillsOne(ts[n - 1], a, n - 1);
      hide Filling, Valid;
      assert Step(ts[n - 1], Quiet(a, n - 1), u) by { StepsDirectly(ts[n - 1], a, n - 1, u); }
      hide Step, Direct;
      ts, ops := ts + [u], ops + [Quiet(a, n - 1)];
    }
  }

  lemma StepsDirectly(t: Table, a: Addr, n: nat, u: Table)
    requires n < 32 && |t.entries| == 32 && Direct(t, Peer(a, n + 1)) && TryInsert(t, Peer(a, n + 1), n) == Put(u)
    ensures Step(t, Quiet(a, n), u)
  {
    var rand: nat -> u32 := _ => 0;
    assert Added(t, seq(32, _ => BLANK), Peer(a, n + 1), n, rand, 0, 0, u);
  }

  // ----- The growth -----

  /** Keys of different folds fit any nonzero spread: only one other fold competes with each. */
  lemma DistinctFoldsFit(keys: set<Endpoint>, spread: nat, capacity: nat)
    requires capacity >= 1 && spread != 0
    requires forall x, y :: x in keys && y in keys && x != y ==> MaskedFold(x, capacity) != MaskedFold(y, capacity)
    ensures Fits(keys, spread, capacity)
  {
    hide MaskedFold;
    forall x | x in keys ensures |Rivals(keys, x, spread, capacity)| <= 2 {
      if |Rivals(keys, x, spread, capacity)| > 2 {
        var y, z := OverfullHasCrowd(keys, x, spread, capacity);
        hide Rivals;
        SameRival(x, y, z, spread, capacity);
      }
    }
  }

  lemma SameRival(x: Endpoint, y: Endpoint, z: Endpoint, spread: nat, capacity: nat)
    requires capacity >= 1 && Compete(x, y, spread, capacity) && Compete(x, z, spread, capacity)
    requires MaskedFold(x, capacity) != MaskedFold(y, capacity) && MaskedFold(x, capacity) != MaskedFold(z, capacity)
    ensures MaskedFold(y, capacity) == MaskedFold(z, capacity)
  {
    var fx, fy, fz := MaskedFold(x, capacity), MaskedFold(y, capacity), MaskedFold(z, capacity);
    XorZero(fx);
    XorSelf(fx);
    if Xor(fx, fy) == 0 {
      XorInjective(fx, fx, fy);
    }
    if Xor(fx, fz) == 0 {
      XorInjective(fx, fx, fz);
    }
    hide Xor, MaskedFold;
    XorInjective(fx, fy, fz);
  }

  const STALE_ID := 7

  /** Memory that holds one entry for the peer on port 40, left over from something else. */
  function Leftover(a: Addr): (half: seq<Entry>)
    ensures |half| == 32
  {
    seq(32, i => if i == 0 then Entry(Peer(a, 40), true, STALE_ID) else BLANK)
  }

  lemma {:induction false} LeftoverOverlay(a: Addr, n: nat)
    requires 1 <= n <= 32
    ensures Overlay(Leftover(a)[..n]) == map[Peer(a, 40) := STALE_ID]
  {
    if n == 1 {
      assert Leftover(a)[..1][..0] == [];
    } else {
      LeftoverOverlay(a, n - 1);
      assert Leftover(a)[..n][..n - 1] == Leftover(a)[..n - 1];
    }
  }

  /** The keys a rebuild has to place: the 32 peers added, the leftover one and the new one. */
  lemma GrownKeys(t: Table, a: Addr)
    requires Filling(t, a, 32)
    ensures Overlay(Saved(t, Leftover(a))) == Overlay(t.entries) + map[Peer(a, 40) := STALE_ID]
    ensures forall k :: k in Overlay(t.entries) ==> Known(k, a, 32)
    ensures forall k :: k in Keys(Saved(t, Leftover(a))) + {Peer(a, 41)} ==> k.addr == a && 1 <= k.port <= 41
  {
    assert Leftover(a)[..32] == Leftover(a);
    LeftoverOverlay(a, 32);
    OverlayAppend(t.entries, Leftover(a));
    forall k | k in Overlay(t.entries) ensures Known(k, a, 32) {
      var i := OverlaySource(t.entries, k);
    }
  }

  lemma GrownKeysFit(t: Table, a: Addr)
    requires Filling(t, a, 32)
    ensures Fits(Keys(Saved(t, Leftover(a))) + {Peer(a, 41)}, 1, 64)
  {
    GrownKeys(t, a);
    var keys := Keys(Saved(t, Leftover(a))) + {Peer(a, 41)};
    hide Filling, Saved, Keys, Overlay, MaskedFold, Leftover;
    forall x, y | x in keys && y in keys && x != y ensures MaskedFold(x, 64) != MaskedFold(y, 64) {
      Pow32();
      assert x == Peer(a, x.port) && y == Peer(a, y.port);
      PeersDiffer(a, x.port, y.port, 6);
    }
    DistinctFoldsFit(keys, 1, 64);
  }

  /** Nonces 1 and 0 rebuild the grown table at once. */
  lemma GrowsWithLeftover(t: Table, a: Addr) returns (u: Table, rand: nat -> u32)
    requires Filling(t, a, 32)
    ensures !Direct(t, Peer(a, 41)) && Added(t, Leftover(a), Peer(a, 41), 32, rand, 0, 0, u)
  {
    rand := i => if i == 0 then 1 else 0;
    GrownKeysFit(t, a);
    SpreadReached(1, 64);
    Pow32();
    var saved := Saved(t, Leftover(a));
    assert |saved| == 64;
    RebuildCriterion(saved, Peer(a, 41), 64, 1, 0);
    AttemptShape(saved, 64, 1, 0, Peer(a, 41), 32);
    hide Attempt, Filling, Saved, Overlay, Fits, Leftover, Placeable;
    u := Attempt(saved, 64, 1, 0, Peer(a, 41), 32).table;
  }

  /** The condition on the new half is needed, without any removal: whatever the address and the nonces of
      creation, 32 peers on ports 1 to 32 fill the table, and the addition of a 33rd, with an entry for
      another peer behind the table, ends in a table that answers for that peer though nobody added it. */
  lemma GrowthCanBringBackAStranger(a: Addr, nonceA: u32, nonceB: u32) returns (ts: seq<Table>, ops: seq<Op>)
    ensures Run(ts, ops) && |ops| == 33 && ts[0] == Cleared(32, nonceA, nonceB)
    ensures forall i :: 0 <= i < 33 ==> ops[i].Add? && ops[i].key != Peer(a, 40)
    ensures FaithfulUpTo(ts, ops, 32) && !FaithfulUpTo(ts, ops, 33) && !CleanUpTo(ts, ops, 33)
    ensures ts[33].InBounds() && Lookup(ts[33], Peer(a, 40)) == STALE_ID
  {
    var rand, u;
    ts, ops := FillsUpTo(a, nonceA, nonceB, 32);
    u, rand := GrowsWithLeftover(ts[32], a);
    hide Run, FaithfulUpTo, CleanUpTo, Filling, Lookup, Leftover;
    StepsByRebuild(ts[32], a, rand, u);
    StrangerAnswers(ts[32], a, rand, u);
    GoesWrong(ts, ops, a, u);
    ts, ops := ts + [u], ops + [Grow(a)];
  }

  /** The addition that grows the table. */
  function Grow(a: Addr): Op {
    Add(Peer(a, 41), 32, Leftover(a))
  }

  lemma GoesWrong(ts: seq<Table>, ops: seq<Op>, a: Addr, u: Table)
    requires Run(ts, ops) && |ops| == 32 && forall i :: 0 <= i < 32 ==> ops[i] == Quiet(a, i)
    requires Step(ts[32], Grow(a), u) && !Clean(ts[32], Grow(a))
    ensures var ts', ops' := ts + [u], ops + [Grow(a)];
            Run(ts', ops') && FaithfulUpTo(ts', ops', 32) && !FaithfulUpTo(ts', ops', 33) && !CleanUpTo(ts', ops', 33)
  {
    var ts', ops' := ts + [u], ops + [Grow(a)];
    AdditionsQuiet(ts, ops, a);
    hide Step, Clean, Faithful, Leftover;
    assert Run(ts', ops');
    assert CleanUpTo(ts', ops', 32);
    assert !CleanUpTo(ts', ops', 33) by {
      assert !Clean(ts'[32], ops'[32]);
    }
    hide Run, CleanUpTo, FaithfulUpTo;
    RunRefinesMapIff(ts', ops', 32);
    RunRefinesMapIff(ts', ops', 33);
  }

  lemma StepsByRebuild(t: Table, a: Addr, rand: nat -> u32, u: Table)
    requires |t.entries| == 32 && Added(t, Leftover(a), Peer(a, 41), 32, rand, 0, 0, u)
    ensures Step(t, Grow(a), u)
  {
    hide Added;
  }

  lemma AdditionsQuiet(ts: seq<Table>, ops: seq<Op>, a: Addr)
    requires Run(ts, ops) && |ops| == 32 && forall i :: 0 <= i < 32 ==> ops[i] == Quiet(a, i)
    ensures forall i :: 0 <= i < 32 ==> Clean(ts[i], ops[i])
  {
    AdditionsAreClean(ts, ops, 32);
  }

  lemma StrangerAnswers(t: Table, a: Addr, rand: nat -> u32, u: Table)
    requires Filling(t, a, 32) && !Direct(t, Peer(a, 41))
    requires Added(t, Leftover(a), Peer(a, 41), 32, rand, 0, 0, u)
    ensures u.InBounds() && Lookup(u, Peer(a, 40)) == STALE_ID
    ensures !Clean(t, Grow(a))
  {
    AddedAgrees(t, Leftover(a), Peer(a, 41), 32, rand, 0, 0, u);
    GrownKeys(t, a);
    assert Leftover(a)[..32] == Leftover(a);
    LeftoverOverlay(a, 32);
    LookupAgrees(u, Peer(a, 40));
    hide Overlay, Added, Saved, Leftover, Lookup;
  }
}
