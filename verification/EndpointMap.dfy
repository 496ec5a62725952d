/** The endpoint map of src/endpoint_map.c, updated in place.

Every method is specified by the operation on values of the same name in EndpointTable, through
View. Random numbers are a parameter: an arbitrary stream rand and the position reached in it. */
module EndpointMap {
  import opened Bits
  import opened IpAddr
  import opened EndpointHash
  import opened EndpointTable
  import opened EndpointRebuild
  import opened EndpointRemoval

  /** The entries a rebuild starts from. When the table is full its size has already been doubled,
      so the new half, which realloc leaves as it finds it, is scanned too. */
  function Saved(t: Table, newHalf: seq<Entry>): seq<Entry> {
    if t.count >= |t.entries| then t.entries + newHalf else t.entries
  }

  /** The addition succeeds without a rebuild. */
  ghost predicate Direct(t: Table, k: Endpoint) {
    t.InBounds() && t.count < |t.entries| && TryInsert(t, k, 0).Put?
  }

  /** The i-th pair of numbers from position at on lets the saved entries and the key be placed. */
  ghost predicate GoodPair(saved: seq<Entry>, k: Endpoint, rand: nat -> u32, at: nat, i: nat) {
    Rebuilds(saved, k, |saved|, rand(at + 2 * i), rand(at + 2 * i + 1))
  }

  /** The table left by the attempt with the i-th pair. */
  ghost predicate Rebuilt(saved: seq<Entry>, k: Endpoint, tapId: int, rand: nat -> u32, at: nat, i: nat, u: Table) {
    var a, b := rand(at + 2 * i), rand(at + 2 * i + 1);
    Cleared(|saved|, a, b).InBounds() && Attempt(saved, |saved|, a, b, k, tapId) == Put(u)
  }

  /** The retry loop ends: some later pair of numbers from the stream is good. */
  ghost predicate Returns(t: Table, newHalf: seq<Entry>, k: Endpoint, rand: nat -> u32, at: nat) {
    Direct(t, k) || exists i: nat :: GoodPair(Saved(t, newHalf), k, rand, at, i)
  }

  /** The table after an addition: retries counts the failed attempts. */
  ghost predicate Added(t: Table, newHalf: seq<Entry>, k: Endpoint, tapId: int, rand: nat -> u32, at: nat,
                        retries: nat, u: Table)
  {
    if Direct(t, k) then TryInsert(t, k, tapId) == Put(u) && retries == 0
    else
      && (forall i: nat :: i < retries ==> !GoodPair(Saved(t, newHalf), k, rand, at, i))
      && Rebuilt(Saved(t, newHalf), k, tapId, rand, at, retries, u)
  }

  /** An addition to any table, with or without repeated keys, leaves a well formed one; when it rebuilds,
      the result is valid and stands for the saved entries with the new binding on top. */
  lemma AddedAgrees(t: Table, newHalf: seq<Entry>, k: Endpoint, tapId: int, rand: nat -> u32, at: nat,
                    retries: nat, u: Table)
    requires Formed(t) && |newHalf| == |t.entries|
    requires Added(t, newHalf, k, tapId, rand, at, retries, u)
    ensures Formed(u)
    ensures |u.entries| == if Direct(t, k) then |t.entries| else |Saved(t, newHalf)|
    ensures !Direct(t, k) ==> Valid(u) && Overlay(u.entries) == Overlay(Saved(t, newHalf))[k := Field31(tapId)]
  {
    if Direct(t, k) {
      InsertKeepsFormed(t, k, tapId);
    } else {
      DoubledPower(t);
      var a, b := rand(at + 2 * retries), rand(at + 2 * retries + 1);
      AttemptAgrees(Saved(t, newHalf), |Saved(t, newHalf)|, a, b, k, tapId);
    }
  }

  /** The i-th turn of the retry loop uses the random numbers at 2i and 2i + 1 from where the addition began, and
      it is the last exactly when these let the keys be placed; the table is left with the last two. */
  lemma AddedUsesPairs(t: Table, newHalf: seq<Entry>, k: Endpoint, tapId: int, rand: nat -> u32, at: nat,
                       retries: nat, u: Table, i: nat)
    requires Added(t, newHalf, k, tapId, rand, at, retries, u) && !Direct(t, k) && i <= retries
    ensures Rebuilds(Saved(t, newHalf), k, |Saved(t, newHalf)|, rand(at + 2 * i), rand(at + 2 * i + 1))
       <==> i == retries
    ensures u.nonceA == rand(at + 2 * retries) && u.nonceB == rand(at + 2 * retries + 1)
  {
    var saved := Saved(t, newHalf);
    var a, b := rand(at + 2 * retries), rand(at + 2 * retries + 1);
    assert Cleared(|saved|, a, b).InBounds() && Attempt(saved, |saved|, a, b, k, tapId) == Put(u) by {
      hide Cleared, Attempt, Direct;
    }
    assert i < retries ==> !GoodPair(saved, k, rand, at, i);
    hide Added, Attempt, Direct, Saved;
    AttemptShape(saved, |saved|, a, b, k, tapId);
    hide Rebuilds, Cleared;
  }

  /** Additions alone keep a table valid. */
  lemma AddedKeepsValid(t: Table, newHalf: seq<Entry>, k: Endpoint, tapId: int, rand: nat -> u32, at: nat,
                        retries: nat, u: Table)
    requires Valid(t) && |newHalf| == |t.entries|
    requires Added(t, newHalf, k, tapId, rand, at, retries, u)
    ensures Valid(u) && !Shadowed(t, k)
  {
    AddedAgrees(t, newHalf, k, tapId, rand, at, retries, u);
    if Direct(t, k) {
      InsertAgrees(t, k, tapId);
    }
  }

  lemma DoubledPower(t: Table)
    requires Formed(t)
    ensures PowerOfTwo(2 * |t.entries|)
  {
    var e: nat :| |t.entries| == Pow2(e);
    assert 2 * |t.entries| == Pow2(e + 1);
  }

  /** A key in its second slot below a free first one is written directly, without a rebuild. */
  lemma ShadowedIsDirect(t: Table, k: Endpoint)
    requires Formed(t) && Shadowed(t, k)
    ensures Direct(t, k)
  {
    CountBounds(t.entries);
    assert !t.entries[t.SlotA(k)].present;
  }

  /** An addition to a table with distinct keys keeps them distinct exactly when its key is not shadowed. It is
      then a plain map update exactly when the new half, if it is read, binds no key other than the added
      one to anything new. */
  lemma AddIsUpdateIff(t: Table, newHalf: seq<Entry>, k: Endpoint, tapId: int, rand: nat -> u32, at: nat,
                       retries: nat, u: Table)
    requires Sound(t) && |newHalf| == |t.entries|
    requires Added(t, newHalf, k, tapId, rand, at, retries, u)
    ensures Formed(u) && (Unique(u.entries) <==> !Shadowed(t, k))
    ensures Unique(u.entries) && Overlay(u.entries) == Overlay(t.entries)[k := Field31(tapId)]
       <==> !Shadowed(t, k) && NewHalfHarmless(t, newHalf, k)
  {
    AddedAgrees(t, newHalf, k, tapId, rand, at, retries, u);
    if Direct(t, k) {
      InsertKeepsUniqueIff(t, k, tapId);
    } else {
      if Shadowed(t, k) {
        ShadowedIsDirect(t, k);
      }
      HarmlessIff(t, newHalf, k, tapId);
      hide Overlay, NewHalfHarmless, Shadowed, Added, Valid;
      assert Unique(u.entries) by { ValidIsUnique(u); }
    }
  }

  lemma AddedIsSoundIff(t: Table, newHalf: seq<Entry>, k: Endpoint, tapId: int, rand: nat -> u32, at: nat,
                        retries: nat, u: Table)
    requires Formed(t) && |newHalf| == |t.entries|
    requires Added(t, newHalf, k, tapId, rand, at, retries, u)
    ensures Formed(u) && (Sound(t) ==> (Sound(u) <==> !Shadowed(t, k)))
  {
    AddedAgrees(t, newHalf, k, tapId, rand, at, retries, u);
    if Sound(t) {
      AddIsUpdateIff(t, newHalf, k, tapId, rand, at, retries, u);
    }
    hide Added, Shadowed, NewHalfHarmless, Formed, Unique, Overlay;
  }

  lemma ValidIsUnique(t: Table)
    requires Valid(t)
    ensures Unique(t.entries)
  {
  }

  lemma HarmlessIff(t: Table, newHalf: seq<Entry>, k: Endpoint, tapId: int)
    requires |newHalf| == |t.entries|
    ensures Overlay(Saved(t, newHalf))[k := Field31(tapId)] == Overlay(t.entries)[k := Field31(tapId)]
       <==> NewHalfHarmless(t, newHalf, k)
  {
    if t.count >= |t.entries| {
      OverlayAppend(t.entries, newHalf);
      var was, junk := Overlay(t.entries), Overlay(newHalf);
      var want, got := was[k := Field31(tapId)], (was + junk)[k := Field31(tapId)];
      if NewHalfHarmless(t, newHalf, k) {
        assert forall x :: x in got ==> x in want && got[x] == want[x];
        assert got == want;
      } else {
        var x :| x in junk && x != k && !(x in was && was[x] == junk[x]);
        assert x in got && got[x] == junk[x];
        assert x in want ==> x in was && want[x] == was[x];
      }
    }
  }

  predicate NewHalfHarmless(t: Table, newHalf: seq<Entry>, k: Endpoint) {
    t.count >= |t.entries| ==>
      forall x :: x in Overlay(newHalf) && x != k ==>
        x in Overlay(t.entries) && Overlay(t.entries)[x] == Overlay(newHalf)[x]
  }

  ghost predicate Clear(newHalf: seq<Entry>) {
    forall i :: 0 <= i < |newHalf| ==> !newHalf[i].present
  }

  /** In particular a new half with no present entries is harmless. */
  lemma ClearHalfHarmless(t: Table, newHalf: seq<Entry>, k: Endpoint)
    requires Clear(newHalf)
    ensures NewHalfHarmless(t, newHalf, k)
  {
    OverlayAbsent(newHalf);
  }

  /** Two IPv4 peers on one port are as many as a table of at most 256 slots can hold: adding a third
      returns for no stream of random numbers. */
  lemma ThirdIpv4PeerNeverReturns(t: Table, newHalf: seq<Entry>, k: Endpoint, x: Endpoint, y: Endpoint,
                                  rand: nat -> u32, at: nat)
    requires Valid(t) && |newHalf| == |t.entries| && |Saved(t, newHalf)| <= 256
    requires {x, y} <= Overlay(t.entries).Keys && k !in Overlay(t.entries) && x != y
    requires Ipv4Mapped(x.addr) && Ipv4Mapped(y.addr) && Ipv4Mapped(k.addr) && x.port == y.port == k.port
    ensures !Returns(t, newHalf, k, rand, at)
  {
    var saved := Saved(t, newHalf);
    DoubledPower(t);
    if Direct(t, k) {
      InsertAgrees(t, k, 0);
      Ipv4FoldIsPort(x, y, |t.entries|);
      Ipv4FoldIsPort(y, k, |t.entries|);
      AtMostTwoPerFold(TryInsert(t, k, 0).table, x, y, k);
    }
    OverlayAppend(t.entries, newHalf);
    forall i: nat ensures !GoodPair(saved, k, rand, at, i) {
      ThirdIpv4PeerHangs(saved, k, |saved|, x, y, rand(at + 2 * i), rand(at + 2 * i + 1));
    }
  }

  /** Once one saved entry cannot be put back, the attempt has failed. */
  lemma {:induction false} ReinsertStaysTaken(t: Table, saved: seq<Entry>, n: nat)
    requires t.InBounds() && n <= |saved| && Reinsert(t, saved[..n]).Taken?
    ensures Reinsert(t, saved).Taken?
    decreases |saved| - n
  {
    if n == |saved| {
      assert saved[..n] == saved;
    } else {
      assert saved[..n + 1][..n] == saved[..n];
      ReinsertStaysTaken(t, saved, n + 1);
    }
  }

  class Map {
    var allocEntries: nat
    var numEntries: nat
    var nonceA: u32
    var nonceB: u32
    var entries: array<Entry>

    ghost function View(): Table
      reads this, entries
    {
      Table(entries[..], numEntries, nonceA, nonceB)
    }

    ghost predicate Shaped()
      reads this, entries
    {
      allocEntries == entries.Length && View().InBounds()
    }

    ghost predicate Ok()
      reads this, entries
    {
      allocEntries == entries.Length && Formed(View())
    }

    constructor (rand: nat -> u32, at: nat)
      ensures Ok() && Valid(View()) && fresh(entries)
      ensures View() == Cleared(32, rand(at), rand(at + 1)) && Overlay(View().entries) == map[]
    {
      allocEntries := 32;
      numEntries := 0;
      nonceA := rand(at);
      nonceB := rand(at + 1);
      entries := new Entry[32](_ => BLANK);
      new;
      assert Pow2(5) == 32;
      ClearedValid(32, nonceA, nonceB);
      assert View().entries == Cleared(32, nonceA, nonceB).entries;
    }

    method SlotIndex(k: Endpoint, nonce: u32) returns (i: nat)
      requires Shaped()
      ensures i == Slot(k, nonce, entries.Length)
    {
      var h;
      if allocEntries <= 256 {
        h := HashSmall(k, nonce);
      } else {
        h := Hash(k, nonce);
      }
      i := And(h, allocEntries - 1);
    }

    method TryInsertAt(i: nat, k: Endpoint, tapId: int) returns (ok: bool)
      requires i < entries.Length
      modifies this`numEntries, entries
      ensures ok == PutAt(old(View()), i, k, tapId).Put?
      ensures View() == if ok then PutAt(old(View()), i, k, tapId).table else old(View())
    {
      if entries[i].present {
        if SameEndpoint(k, entries[i].key) {
          entries[i] := entries[i].(tapId := Field31(tapId));
          return true;
        }
      } else {
        entries[i] := Entry(k, true, Field31(tapId));
        numEntries := numEntries + 1;
        return true;
      }
      return false;
    }

    method TryInsert(k: Endpoint, tapId: int) returns (ok: bool)
      requires Shaped()
      modifies this`numEntries, entries
      ensures ok == EndpointTable.TryInsert(old(View()), k, tapId).Put?
      ensures View() == if ok then EndpointTable.TryInsert(old(View()), k, tapId).table else old(View())
      ensures Shaped()
    {
      ghost var t := View();
      var a := SlotIndex(k, nonceA);
      var b := SlotIndex(k, nonceB);
      assert a == t.SlotA(k) && b == t.SlotB(k);
      var slots := [a, b];
      for i := 0 to 2
        invariant View() == t && slots == [a, b]
        invariant i >= 1 ==> PutAt(t, a, k, tapId).Taken?
        invariant i == 2 ==> PutAt(t, b, k, tapId).Taken?
      {
        ok := TryInsertAt(slots[i], k, tapId);
        if ok {
          SameShapeInBounds(t, View());
          return;
        }
      }
      return false;
    }

    method Lookup(k: Endpoint) returns (tapId: int)
      requires Ok()
      ensures tapId == EndpointTable.Lookup(View(), k)
      ensures Unique(View().entries) ==>
                tapId == if k in Overlay(View().entries) then Overlay(View().entries)[k] else -1
    {
      ghost var t := View();
      if Unique(t.entries) {
        LookupAgrees(t, k);
      }
      var a := SlotIndex(k, nonceA);
      var b := SlotIndex(k, nonceB);
      assert a == t.SlotA(k) && b == t.SlotB(k);
      var slots := [a, b];
      for i := 0 to 2
        invariant i >= 1 ==> !Holds(t.entries[a], k)
        invariant i == 2 ==> !Holds(t.entries[b], k)
      {
        var entry := entries[slots[i]];
        if entry.present && SameEndpoint(k, entry.key) {
          return entry.tapId;
        }
      }
      return -1;
    }

    method Remove(k: Endpoint) returns (removed: bool)
      requires Ok()
      modifies this`numEntries, entries
      ensures Ok()
      ensures removed == EndpointTable.Remove(old(View()), k).Removed?
      ensures View() == if removed then EndpointTable.Remove(old(View()), k).table else old(View())
    {
      ghost var t := View();
      var a := SlotIndex(k, nonceA);
      var b := SlotIndex(k, nonceB);
      assert a == t.SlotA(k) && b == t.SlotB(k);
      var slots := [a, b];
      for i := 0 to 2
        invariant View() == t && slots == [a, b]
        invariant i >= 1 ==> !Holds(t.entries[a], k)
        invariant i == 2 ==> !Holds(t.entries[b], k)
      {
        var entry := entries[slots[i]];
        if entry.present && SameEndpoint(k, entry.key) {
          DropKeepsFormed(t, slots[i]);
          entries[slots[i]] := entry.(present := false);
          numEntries := numEntries - 1;
          assert View() == DropAt(t, slots[i]);
          return true;
        }
      }
      return false;
    }

    /** Clearing the table and choosing nonces, at the head of the retry loop. */
    method Reset(a: u32, b: u32)
      requires allocEntries == entries.Length && PowerOfTwo(allocEntries)
      modifies this`numEntries, this`nonceA, this`nonceB, entries
      ensures View() == Cleared(allocEntries, a, b) && Shaped()
    {
      forall i | 0 <= i < entries.Length {
        entries[i] := BLANK;
      }
      numEntries := 0;
      nonceA := a;
      nonceB := b;
      assert View().entries == Cleared(allocEntries, a, b).entries;
      PowerOfTwoInBounds(View());
    }

    /** One turn of the retry loop. */
    method TryRebuild(saved: seq<Entry>, a: u32, b: u32, k: Endpoint, tapId: int) returns (ok: bool)
      requires allocEntries == entries.Length && PowerOfTwo(allocEntries)
      modifies this`numEntries, this`nonceA, this`nonceB, entries
      ensures Shaped() && Cleared(allocEntries, a, b).InBounds()
      ensures ok == Attempt(saved, allocEntries, a, b, k, tapId).Put?
      ensures ok ==> View() == Attempt(saved, allocEntries, a, b, k, tapId).table
    {
      Reset(a, b);
      ghost var base := View();
      assert saved[..0] == [];
      for i := 0 to |saved|
        invariant Shaped() && allocEntries == old(allocEntries)
        invariant Reinsert(base, saved[..i]) == Put(View())
      {
        assert saved[..i + 1][..i] == saved[..i];
        if saved[i].present {
          var put := TryInsert(saved[i].key, saved[i].tapId);
          if !put {
            ReinsertStaysTaken(base, saved, i + 1);
            return false;
          }
        }
      }
      assert saved[..|saved|] == saved;
      ok := TryInsert(k, tapId);
    }

    /** Doubling the table: realloc keeps the old entries and leaves the new half as it finds it. */
    method Grow(newHalf: seq<Entry>)
      requires allocEntries == entries.Length == |newHalf|
      modifies this`allocEntries, this`entries
      ensures fresh(entries) && allocEntries == entries.Length == 2 * old(allocEntries)
      ensures entries[..] == old(entries[..]) + newHalf
      ensures View() == old(View()).(entries := old(entries[..]) + newHalf)
    {
      var wide := entries[..] + newHalf;
      var grown := new Entry[|wide|](i requires 0 <= i < |wide| => wide[i]);
      assert grown[..] == wide;
      allocEntries := allocEntries * 2;
      entries := grown;
    }

    /** The retry loop. Its measure is the distance to a good pair of numbers. */
    method RebuildUntilGood(saved: seq<Entry>, k: Endpoint, tapId: int, rand: nat -> u32, at: nat, ghost good: nat)
      returns (retries: nat)
      requires allocEntries == entries.Length == |saved| && PowerOfTwo(allocEntries)
      requires GoodPair(saved, k, rand, at, good)
      modifies this`numEntries, this`nonceA, this`nonceB, entries
      ensures forall i: nat :: i < retries ==> !GoodPair(saved, k, rand, at, i)
      ensures Rebuilt(saved, k, tapId, rand, at, retries, View())
    {
      retries := 0;
      while true
        invariant retries <= good
        invariant forall i: nat :: i < retries ==> !GoodPair(saved, k, rand, at, i)
        decreases good - retries
      {
        var a, b := rand(at + 2 * retries), rand(at + 2 * retries + 1);
        var ok := TryRebuild(saved, a, b, k, tapId);
        assert ok == GoodPair(saved, k, rand, at, retries) by {
          AttemptShape(saved, allocEntries, a, b, k, tapId);
        }
        if ok {
          return;
        }
        retries := retries + 1;
      }
    }

    /** The first half of an addition: grow a full table, otherwise try to insert. */
    method InsertOrGrow(k: Endpoint, tapId: int, newHalf: seq<Entry>) returns (ok: bool)
      requires Ok() && |newHalf| == allocEntries
      modifies this, entries
      ensures entries == old(entries) || fresh(entries)
      ensures allocEntries == entries.Length && PowerOfTwo(allocEntries)
      ensures ok == Direct(old(View()), k)
      ensures if ok then EndpointTable.TryInsert(old(View()), k, tapId) == Put(View())
              else entries[..] == Saved(old(View()), newHalf)
    {
      ghost var t := View();
      hide PowerOfTwo;
      if numEntries >= allocEntries {
        DoubledPower(t);
        assert |t.entries| == allocEntries;
        Grow(newHalf);
        ok := false;
      } else {
        ok := TryInsert(k, tapId);
      }
    }

    method Add(k: Endpoint, tapId: int, rand: nat -> u32, at: nat, newHalf: seq<Entry>)
      returns (retries: nat, next: nat)
      requires Ok() && |newHalf| == allocEntries
      requires Returns(View(), newHalf, k, rand, at)
      modifies this, entries
      ensures Ok()
      ensures Added(old(View()), newHalf, k, tapId, rand, at, retries, View())
      ensures next == if Direct(old(View()), k) then at else at + 2 * retries + 2
      ensures old(Sound(View())) ==> (Sound(View()) <==> !Shadowed(old(View()), k))
    {
      ghost var t := View();
      var ok := InsertOrGrow(k, tapId, newHalf);
      next, retries := at, 0;
      if !ok {
        var saved := entries[..];
        ghost var good: nat :| GoodPair(saved, k, rand, at, good);
        retries := RebuildUntilGood(saved, k, tapId, rand, at, good);
        next := at + 2 * retries + 2;
      }
      AddedIsSoundIff(t, newHalf, k, tapId, rand, at, retries, View());
    }
  }
}
