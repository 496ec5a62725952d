/** When a rebuild succeeds.

Insertion never displaces an entry, yet a rebuild of any set of keys succeeds exactly when the keys
can be placed at all. The reason is that all slot pairs under one pair of nonces have the same
spread, so two pairs are equal or disjoint. */
module EndpointRebuild {
  import opened Bits
  import opened IpAddr
  import opened EndpointHash
  import opened EndpointTable

  // ----- Three descriptions of a good pair of nonces -----

  /** The saved entries and the new key can all be put back. */
  ghost predicate Rebuilds(saved: seq<Entry>, k: Endpoint, capacity: nat, nonceA: u32, nonceB: u32) {
    && Cleared(capacity, nonceA, nonceB).InBounds()
    && Attempt(saved, capacity, nonceA, nonceB, k, 0).Put?
  }

  /** Some assignment gives every key one of its own slots and no slot to two keys. */
  ghost predicate Placeable(keys: set<Endpoint>, capacity: nat, nonceA: u32, nonceB: u32)
    requires capacity >= 1
  {
    exists place: map<Endpoint, nat> :: Places(place, keys, capacity, nonceA, nonceB)
  }

  ghost predicate Places(place: map<Endpoint, nat>, keys: set<Endpoint>, capacity: nat, nonceA: u32, nonceB: u32)
    requires capacity >= 1
  {
    && keys <= place.Keys
    && (forall k :: k in keys ==> place[k] in Slots(k, nonceA, nonceB, capacity))
    && (forall k, k' :: k in keys && k' in keys && place[k] == place[k'] ==> k == k')
  }

  /** The keys competing with k for its slots, itself included. */
  ghost function Rivals(keys: set<Endpoint>, k: Endpoint, spread: nat, capacity: nat): set<Endpoint>
    requires capacity >= 1
  {
    set k' | k' in keys && Compete(k, k', spread, capacity)
  }

  /** No slot pair is chosen by more keys than it has slots. This mentions only the masked folds of
      the keys and the masked exclusive-or of the nonces. */
  ghost predicate Fits(keys: set<Endpoint>, spread: nat, capacity: nat)
    requires capacity >= 1
  {
    forall k :: k in keys ==> |Rivals(keys, k, spread, capacity)| <= if spread == 0 then 1 else 2
  }

  // ----- Crowding -----

  /** Three distinct keys choosing one slot pair, or two when the pair is a single slot. */
  ghost predicate Crowd(keys: set<Endpoint>, x: Endpoint, y: Endpoint, z: Endpoint, spread: nat, capacity: nat)
    requires capacity >= 1
  {
    && x in keys && y in keys && z in keys && x != y
    && Compete(x, y, spread, capacity) && Compete(x, z, spread, capacity)
    && (spread == 0 || (x != z && y != z))
  }

  lemma CompeteSelf(k: Endpoint, spread: nat, capacity: nat)
    requires capacity >= 1
    ensures Compete(k, k, spread, capacity)
  {
    XorSelf(MaskedFold(k, capacity));
  }

  lemma SubsetSize(small: set<Endpoint>, large: set<Endpoint>)
    requires small <= large
    ensures |small| <= |large|
  {
    assert large == small + (large - small);
  }

  lemma CrowdDoesNotFit(keys: set<Endpoint>, x: Endpoint, y: Endpoint, z: Endpoint, spread: nat, capacity: nat)
    requires capacity >= 1 && Crowd(keys, x, y, z, spread, capacity)
    ensures !Fits(keys, spread, capacity)
  {
    CompeteSelf(x, spread, capacity);
    var some := if spread == 0 then {x, y} else {x, y, z};
    SubsetSize(some, Rivals(keys, x, spread, capacity));
  }

  /** The other direction: more rivals than slots contain a crowd. */
  lemma OverfullHasCrowd(keys: set<Endpoint>, x: Endpoint, spread: nat, capacity: nat)
    returns (y: Endpoint, z: Endpoint)
    requires capacity >= 1 && x in keys
    requires |Rivals(keys, x, spread, capacity)| > if spread == 0 then 1 else 2
    ensures Crowd(keys, x, y, z, spread, capacity)
  {
    var rivals := Rivals(keys, x, spread, capacity);
    CompeteSelf(x, spread, capacity);
    var others := rivals - {x};
    assert rivals == others + {x};
    assert others != {};
    y :| y in others;
    if spread == 0 {
      z := y;
    } else {
      var rest := others - {y};
      assert others == rest + {y};
      assert rest != {};
      z :| z in rest;
    }
  }

  /** A crowd cannot be placed: its keys share two slots, or one. */
  lemma CrowdCannotBePlaced(keys: set<Endpoint>, x: Endpoint, y: Endpoint, z: Endpoint,
                            capacity: nat, nonceA: u32, nonceB: u32)
    requires PowerOfTwo(capacity)
    requires Crowd(keys, x, y, z, Spread(nonceA, nonceB, capacity), capacity)
    ensures !Placeable(keys, capacity, nonceA, nonceB)
  {
    SlotPairs(x, y, nonceA, nonceB, capacity);
    SlotPairs(x, z, nonceA, nonceB, capacity);
    OneSlotIff(x, nonceA, nonceB, capacity);
    forall place: map<Endpoint, nat> ensures !Places(place, keys, capacity, nonceA, nonceB) {
      // The three choices would lie in one slot pair.
      assert Slots(x, nonceA, nonceB, capacity) == {Slot(x, nonceA, capacity), Slot(x, nonceB, capacity)};
    }
  }

  // ----- A failed insertion exposes a crowd -----

  lemma FailureIsCrowd(t: Table, k: Endpoint, keys: set<Endpoint>) returns (y: Endpoint, z: Endpoint)
    requires Valid(t) && TryInsert(t, k, 0).Taken?
    requires Overlay(t.entries).Keys <= keys && k in keys
    ensures Crowd(keys, k, y, z, Spread(t.nonceA, t.nonceB, |t.entries|), |t.entries|)
  {
    var capacity := |t.entries|;
    InsertAgrees(t, k, 0);
    var a, b := t.SlotA(k), t.SlotB(k);
    y, z := t.entries[a].key, t.entries[b].key;
    OverlayHas(t.entries, a);
    OverlayHas(t.entries, b);
    SharedSlotCompete(t, k, a);
    SharedSlotCompete(t, k, b);
    OneSlotIff(k, t.nonceA, t.nonceB, capacity);
  }

  /** The key held in one of k's slots competes with k. */
  lemma SharedSlotCompete(t: Table, k: Endpoint, i: nat)
    requires Sound(t) && i < |t.entries| && t.entries[i].present
    requires i == t.SlotA(k) || i == t.SlotB(k)
    ensures Compete(k, t.entries[i].key, Spread(t.nonceA, t.nonceB, |t.entries|), |t.entries|)
  {
    SlotPairs(k, t.entries[i].key, t.nonceA, t.nonceB, |t.entries|);
    assert i in Slots(k, t.nonceA, t.nonceB, |t.entries|);
    assert i in Slots(t.entries[i].key, t.nonceA, t.nonceB, |t.entries|);
  }

  lemma {:induction false} KeysOfPrefix(saved: seq<Entry>, n: nat)
    requires n <= |saved|
    ensures Overlay(saved[..n]).Keys <= Overlay(saved).Keys
  {
    OverlayAppend(saved[..n], saved[n..]);
    assert saved == saved[..n] + saved[n..];
  }

  lemma {:induction false} FailedReinsertIsCrowd(saved: seq<Entry>, keys: set<Endpoint>, capacity: nat,
                                                 nonceA: u32, nonceB: u32)
    returns (x: Endpoint, y: Endpoint, z: Endpoint)
    requires PowerOfTwo(capacity) && capacity >= 32
    requires Overlay(saved).Keys <= keys
    requires Cleared(capacity, nonceA, nonceB).InBounds()
    requires Reinsert(Cleared(capacity, nonceA, nonceB), saved).Taken?
    ensures Crowd(keys, x, y, z, Spread(nonceA, nonceB, capacity), capacity)
  {
    var base := Cleared(capacity, nonceA, nonceB);
    var last := |saved| - 1;
    var before := Reinsert(base, saved[..last]);
    KeysOfPrefix(saved, last);
    if before.Taken? {
      x, y, z := FailedReinsertIsCrowd(saved[..last], keys, capacity, nonceA, nonceB);
    } else {
      ClearedValid(capacity, nonceA, nonceB);
      ReinsertAgrees(base, saved[..last]);
      x := saved[last].key;
      OverlayHas(saved, last);
      InsertAgrees(before.table, x, saved[last].tapId);
      assert Overlay(before.table.entries).Keys <= keys;
      y, z := FailureIsCrowd(before.table, x, keys);
    }
  }

  lemma FailedRebuildIsCrowd(saved: seq<Entry>, k: Endpoint, capacity: nat, nonceA: u32, nonceB: u32)
    returns (x: Endpoint, y: Endpoint, z: Endpoint)
    requires PowerOfTwo(capacity) && capacity >= 32
    requires !Rebuilds(saved, k, capacity, nonceA, nonceB)
    ensures Crowd(Keys(saved) + {k}, x, y, z, Spread(nonceA, nonceB, capacity), capacity)
  {
    ClearedValid(capacity, nonceA, nonceB);
    var base := Cleared(capacity, nonceA, nonceB);
    var keys := Keys(saved) + {k};
    var back := Reinsert(base, saved);
    if back.Taken? {
      x, y, z := FailedReinsertIsCrowd(saved, keys, capacity, nonceA, nonceB);
    } else {
      ReinsertAgrees(base, saved);
      x := k;
      y, z := FailureIsCrowd(back.table, k, keys);
    }
  }

  /** A sound table is itself a placement of its keys. */
  lemma TablePlaces(t: Table)
    requires Sound(t)
    ensures Placeable(Overlay(t.entries).Keys, |t.entries|, t.nonceA, t.nonceB)
  {
    var keys := Overlay(t.entries).Keys;
    var place: map<Endpoint, nat> := map k | k in keys :: IndexOf(t, k);
    assert Places(place, keys, |t.entries|, t.nonceA, t.nonceB);
  }

  ghost function IndexOf(t: Table, k: Endpoint): (i: nat)
    requires Sound(t) && k in Overlay(t.entries)
    ensures i < |t.entries| && Holds(t.entries[i], k)
    ensures i in Slots(k, t.nonceA, t.nonceB, |t.entries|)
  {
    KeyHasIndex(t, k);
    var i: nat :| i < |t.entries| && Holds(t.entries[i], k);
    i
  }

  lemma KeyHasIndex(t: Table, k: Endpoint)
    requires k in Overlay(t.entries)
    ensures exists i: nat :: i < |t.entries| && Holds(t.entries[i], k)
  {
    var i := OverlaySource(t.entries, k);
  }

  // ----- The main results -----

  /** A rebuild succeeds exactly when every slot pair is the choice of at most two of the keys (one
      when the pair is a single slot), and exactly when the keys can be placed by any means. The
      first condition names neither the order of the entries nor the nonces beyond their spread. */
  lemma RebuildCriterion(saved: seq<Entry>, k: Endpoint, capacity: nat, nonceA: u32, nonceB: u32)
    requires PowerOfTwo(capacity) && capacity >= 32
    ensures Rebuilds(saved, k, capacity, nonceA, nonceB)
       <==> Fits(Keys(saved) + {k}, Spread(nonceA, nonceB, capacity), capacity)
    ensures Rebuilds(saved, k, capacity, nonceA, nonceB)
       <==> Placeable(Keys(saved) + {k}, capacity, nonceA, nonceB)
  {
    var keys, spread := Keys(saved) + {k}, Spread(nonceA, nonceB, capacity);
    if Rebuilds(saved, k, capacity, nonceA, nonceB) {
      AttemptAgrees(saved, capacity, nonceA, nonceB, k, 0);
      var t := Attempt(saved, capacity, nonceA, nonceB, k, 0).table;
      AttemptShape(saved, capacity, nonceA, nonceB, k, 0);
      assert Overlay(t.entries).Keys == keys;
      TablePlaces(t);
      forall x | x in keys ensures |Rivals(keys, x, spread, capacity)| <= if spread == 0 then 1 else 2 {
        if |Rivals(keys, x, spread, capacity)| > if spread == 0 then 1 else 2 {
          var y, z := OverfullHasCrowd(keys, x, spread, capacity);
          CrowdCannotBePlaced(keys, x, y, z, capacity, nonceA, nonceB);
        }
      }
    } else {
      var x, y, z := FailedRebuildIsCrowd(saved, k, capacity, nonceA, nonceB);
      CrowdDoesNotFit(keys, x, y, z, spread, capacity);
      CrowdCannotBePlaced(keys, x, y, z, capacity, nonceA, nonceB);
    }
  }

  lemma AttemptShape(saved: seq<Entry>, capacity: nat, nonceA: u32, nonceB: u32, k: Endpoint, tapId: int)
    requires Cleared(capacity, nonceA, nonceB).InBounds()
    ensures match Attempt(saved, capacity, nonceA, nonceB, k, tapId)
            case Put(u) => SameShape(Cleared(capacity, nonceA, nonceB), u)
            case Taken => true
    ensures Attempt(saved, capacity, nonceA, nonceB, k, tapId).Put?
       <==> Rebuilds(saved, k, capacity, nonceA, nonceB)
  {
    var base := Cleared(capacity, nonceA, nonceB);
    var back := Reinsert(base, saved);
    if back.Put? {
      SameShapeInBounds(base, back.table);
      var p, q := TryInsert(back.table, k, tapId), TryInsert(back.table, k, 0);
      assert p.Put? <==> q.Put?;
      assert p.Put? ==> SameShape(back.table, p.table);
    }
  }

  /** Neither the order of the saved entries nor anything about the nonces but their spread matters. */
  lemma RebuildDependsOnSpread(saved: seq<Entry>, saved': seq<Entry>, k: Endpoint, capacity: nat,
                               nonceA: u32, nonceB: u32, nonceA': u32, nonceB': u32)
    requires PowerOfTwo(capacity) && capacity >= 32
    requires Keys(saved) == Keys(saved')
    requires Spread(nonceA, nonceB, capacity) == Spread(nonceA', nonceB', capacity)
    ensures Rebuilds(saved, k, capacity, nonceA, nonceB) <==> Rebuilds(saved', k, capacity, nonceA', nonceB')
  {
    RebuildCriterion(saved, k, capacity, nonceA, nonceB);
    RebuildCriterion(saved', k, capacity, nonceA', nonceB');
  }

  lemma BytesOfByte(d: u32)
    requires d < 0x100
    ensures [d % 0x100, d / 0x100 % 0x100, d / 0x1_0000 % 0x100, d / 0x100_0000] == [d, 0, 0, 0]
  {
    assert d / 0x100 == 0 && d / 0x1_0000 == 0;
  }

  lemma XorAllPadded(d: nat, ws: seq<nat>)
    requires ws == [d, 0, 0, 0]
    ensures XorAll(ws) == d
  {
    hide Xor;
    XorZero(d);
    XorCommutes(0, d);
    assert ws[..1][..0] == [] && ws[..2][..1] == ws[..1] && ws[..3][..2] == ws[..2];
    assert XorAll(ws[..1]) == d;
    assert XorAll(ws[..2]) == d;
    assert XorAll(ws[..3]) == d;
  }

  lemma FoldOfByte(d: u32)
    requires d < 0x100
    ensures NonceFold(d) == d
  {
    hide XorAll;
    BytesOfByte(d);
    XorAllPadded(d, [d, 0, 0, 0]);
  }

  /** Every spread below the capacity comes from some nonces. */
  lemma SpreadReached(d: u32, capacity: nat)
    requires d < capacity
    ensures Spread(d, 0, capacity) == d
  {
    hide NonceFold, Xor;
    if capacity <= 256 {
      FoldOfByte(d);
      FoldOfByte(0);
    }
    XorZero(d);
    SmallRemainder(d, capacity);
    SmallRemainder(0, capacity);
  }

  lemma SpreadBound(nonceA: u32, nonceB: u32, capacity: nat)
    requires PowerOfTwo(capacity)
    ensures Spread(nonceA, nonceB, capacity) < capacity
  {
    var e: nat :| capacity == Pow2(e);
    XorBound(MaskedNonce(nonceA, capacity), MaskedNonce(nonceB, capacity), e);
  }

  /** Some nonces end the retry loop exactly when some spread leaves no slot pair overfull: a condition
      on the masked folds of the keys alone. */
  lemma SomeNoncesIff(saved: seq<Entry>, k: Endpoint, capacity: nat)
    requires PowerOfTwo(capacity) && 32 <= capacity <= 0x1_0000_0000
    ensures (exists a: u32, b: u32 :: Rebuilds(saved, k, capacity, a, b))
       <==> exists d: nat :: d < capacity && Fits(Keys(saved) + {k}, d, capacity)
  {
    if a: u32, b: u32 :| Rebuilds(saved, k, capacity, a, b) {
      RebuildCriterion(saved, k, capacity, a, b);
      SpreadBound(a, b, capacity);
    }
    if d: nat :| d < capacity && Fits(Keys(saved) + {k}, d, capacity) {
      SpreadReached(d, capacity);
      RebuildCriterion(saved, k, capacity, d, 0);
    }
  }

  /** With three distinct keys of one masked fold, no nonces end the retry loop. */
  lemma ThreeOfOneFold(saved: seq<Entry>, k: Endpoint, capacity: nat, x: Endpoint, y: Endpoint, z: Endpoint,
                       nonceA: u32, nonceB: u32)
    requires PowerOfTwo(capacity) && capacity >= 32
    requires {x, y, z} <= Keys(saved) + {k} && x != y && y != z && x != z
    requires MaskedFold(x, capacity) == MaskedFold(y, capacity) == MaskedFold(z, capacity)
    ensures !Rebuilds(saved, k, capacity, nonceA, nonceB)
  {
    var spread := Spread(nonceA, nonceB, capacity);
    XorSelf(MaskedFold(x, capacity));
    CrowdDoesNotFit(Keys(saved) + {k}, x, y, z, spread, capacity);
    RebuildCriterion(saved, k, capacity, nonceA, nonceB);
  }

  /** Three IPv4 peers on one port never fit a table of at most 256 slots, under any nonces: adding
      the third does not return. */
  lemma ThirdIpv4PeerHangs(saved: seq<Entry>, k: Endpoint, capacity: nat, x: Endpoint, y: Endpoint,
                           nonceA: u32, nonceB: u32)
    requires PowerOfTwo(capacity) && 32 <= capacity <= 256
    requires x in Keys(saved) && y in Keys(saved) && x != y && x != k && y != k
    requires Ipv4Mapped(x.addr) && Ipv4Mapped(y.addr) && Ipv4Mapped(k.addr)
    requires x.port == y.port == k.port
    ensures !Rebuilds(saved, k, capacity, nonceA, nonceB)
  {
    Ipv4FoldIsPort(x, y, capacity);
    Ipv4FoldIsPort(y, k, capacity);
    ThreeOfOneFold(saved, k, capacity, x, y, k, nonceA, nonceB);
  }

  /** Entries whose keys have one masked fold share two slots: of any three, two are the same entry. */
  lemma AtMostTwoEntriesPerFold(t: Table, i: nat, j: nat, l: nat)
    requires Formed(t) && i < |t.entries| && j < |t.entries| && l < |t.entries|
    requires t.entries[i].present && t.entries[j].present && t.entries[l].present
    requires MaskedFold(t.entries[i].key, |t.entries|) == MaskedFold(t.entries[j].key, |t.entries|)
          == MaskedFold(t.entries[l].key, |t.entries|)
    ensures i == j || j == l || i == l
  {
    SameFoldSameSlots(t, t.entries[i].key, t.entries[j].key);
    SameFoldSameSlots(t, t.entries[j].key, t.entries[l].key);
  }

  lemma SameFoldSameSlots(t: Table, x: Endpoint, y: Endpoint)
    requires Formed(t) && MaskedFold(x, |t.entries|) == MaskedFold(y, |t.entries|)
    ensures t.SlotA(x) == t.SlotA(y) && t.SlotB(x) == t.SlotB(y)
  {
    SlotSplits(x, t.nonceA, |t.entries|);
    SlotSplits(y, t.nonceA, |t.entries|);
    SlotSplits(x, t.nonceB, |t.entries|);
    SlotSplits(y, t.nonceB, |t.entries|);
  }

  /** So no table, with or without repeated keys, holds three keys of one masked fold. */
  lemma AtMostTwoPerFold(t: Table, x: Endpoint, y: Endpoint, z: Endpoint)
    requires Formed(t)
    requires {x, y, z} <= Overlay(t.entries).Keys
    requires MaskedFold(x, |t.entries|) == MaskedFold(y, |t.entries|) == MaskedFold(z, |t.entries|)
    ensures x == y || y == z || x == z
  {
    assert x in Overlay(t.entries) && y in Overlay(t.entries) && z in Overlay(t.entries);
    var i := OverlaySource(t.entries, x);
    var j := OverlaySource(t.entries, y);
    var l := OverlaySource(t.entries, z);
    hide Formed, Overlay, MaskedFold;
    AtMostTwoEntriesPerFold(t, i, j, l);
  }
}
