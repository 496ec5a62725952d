/** Removal, and what it takes away from later additions (src/endpoint_map.c, endpoint_map_remove).

Removing a key keeps every key unique and correctly placed, but can free a first slot under a key
that sits in its second one. Adding that key again then writes a second copy. */
module EndpointRemoval {
  import opened Bits
  import opened IpAddr
  import opened EndpointHash
  import opened EndpointTable

  /** Removal deletes exactly the given key, and reports absence exactly when there was none. */
  lemma RemoveAgrees(t: Table, k: Endpoint)
    requires Sound(t)
    ensures match Remove(t, k)
            case Removed(u) =>
              k in Overlay(t.entries) && Sound(u) && SameShape(t, u) && Overlay(u.entries) == Overlay(t.entries) - {k}
            case Absent => k !in Overlay(t.entries)
  {
    if Remove(t, k).Absent? {
      LookupSlots(t, k);
    } else {
      var i := if Holds(t.entries[t.SlotA(k)], k) then t.SlotA(k) else t.SlotB(k);
      DropKeepsSound(t, i);
      OverlayHas(t.entries, i);
    }
  }

  lemma LookupSlots(t: Table, k: Endpoint)
    requires Sound(t) && !Holds(t.entries[t.SlotA(k)], k) && !Holds(t.entries[t.SlotB(k)], k)
    ensures k !in Overlay(t.entries)
  {
    if k in Overlay(t.entries) {
      var i := OverlaySource(t.entries, k);
    }
  }

  lemma DropKeepsSound(t: Table, i: nat)
    requires Sound(t) && i < |t.entries| && t.entries[i].present
    ensures var u := DropAt(t, i);
            Sound(u) && SameShape(t, u) && Overlay(u.entries) == Overlay(t.entries) - {t.entries[i].key}
  {
    OverlayDrop(t.entries, i);
    DropKeepsFormed(t, i);
  }

  /** The key sits in its second slot and its first slot is free. */
  predicate Shadowed(t: Table, k: Endpoint)
    requires t.InBounds()
  {
    !t.entries[t.SlotA(k)].present && Holds(t.entries[t.SlotB(k)], k)
  }

  /** An insertion into a sound table keeps keys unique exactly when the key is not shadowed; it is
      then an ordinary map update. */
  lemma InsertKeepsUniqueIff(t: Table, k: Endpoint, tapId: int)
    requires Sound(t) && TryInsert(t, k, tapId).Put?
    ensures var u := TryInsert(t, k, tapId).table;
            && (Unique(u.entries) <==> !Shadowed(t, k))
            && (!Shadowed(t, k) ==> Sound(u) && Overlay(u.entries) == Overlay(t.entries)[k := Field31(tapId)])
  {
    var u, a, b := TryInsert(t, k, tapId).table, t.SlotA(k), t.SlotB(k);
    if Shadowed(t, k) {
      assert u.entries[a].present && u.entries[b].present && u.entries[a].key == u.entries[b].key;
    } else {
      var i := if PutAt(t, a, k, tapId).Put? then a else b;
      forall j | 0 <= j < |t.entries| && j != i ensures !Holds(t.entries[j], k) {
        NotShadowedElsewhere(t, k, i, j);
      }
      PutKeepsSound(t, i, k, tapId);
    }
  }

  lemma NotShadowedElsewhere(t: Table, k: Endpoint, i: nat, j: nat)
    requires Sound(t) && !Shadowed(t, k) && j < |t.entries| && j != i
    requires || (i == t.SlotA(k) && (!t.entries[i].present || t.entries[i].key == k))
             || (i == t.SlotB(k) && !Holds(t.entries[t.SlotA(k)], k))
    ensures !Holds(t.entries[j], k)
  {
  }

  /** What the second copy does: lookups see the new id, and removing the key once brings the old
      one back. */
  lemma ShadowedCopyReturns(t: Table, k: Endpoint, tapId: int)
    requires Sound(t) && Shadowed(t, k)
    ensures TryInsert(t, k, tapId).Put? && k in Overlay(t.entries)
    ensures var u := TryInsert(t, k, tapId).table;
            && u.InBounds() && Lookup(u, k) == Field31(tapId)
            && Remove(u, k).Removed?
            && Remove(u, k).table.InBounds() && Lookup(Remove(u, k).table, k) == Overlay(t.entries)[k]
  {
    var u := TryInsert(t, k, tapId).table;
    SameShapeInBounds(t, u);
    var v := Remove(u, k).table;
    SameShapeInBounds(u, v);
    OverlayAt(t.entries, t.SlotB(k));
  }

  /** The table with x in its first slot and y, of the same fold, in its second. */
  function Stacked(capacity: nat, nonceA: u32, nonceB: u32, x: Endpoint, y: Endpoint): Table
    requires capacity >= 1 && Slot(x, nonceA, capacity) < capacity && Slot(y, nonceB, capacity) < capacity
  {
    var base := Cleared(capacity, nonceA, nonceB);
    base.(entries := base.entries[Slot(x, nonceA, capacity) := Entry(x, true, 0)]
                                 [Slot(y, nonceB, capacity) := Entry(y, true, 1)],
          count := 2)
  }

  /** Keys of one fold share their first slot, and with a nonzero spread their second slot is
      another one. */
  lemma SameFoldSlots(capacity: nat, nonceA: u32, nonceB: u32, x: Endpoint, y: Endpoint)
    requires PowerOfTwo(capacity)
    requires MaskedFold(x, capacity) == MaskedFold(y, capacity) && Spread(nonceA, nonceB, capacity) != 0
    ensures Slot(x, nonceA, capacity) == Slot(y, nonceA, capacity) < capacity
    ensures Slot(y, nonceA, capacity) != Slot(y, nonceB, capacity) < capacity
  {
    SlotSplits(x, nonceA, capacity);
    SlotSplits(y, nonceA, capacity);
    SlotSplits(y, nonceB, capacity);
    OneSlotIff(y, nonceA, nonceB, capacity);
  }

  /** Adding two keys of one fold to a cleared table, with two distinct slots, stacks them. */
  lemma AddsStack(capacity: nat, nonceA: u32, nonceB: u32, x: Endpoint, y: Endpoint)
    requires PowerOfTwo(capacity) && capacity >= 32 && x != y
    requires MaskedFold(x, capacity) == MaskedFold(y, capacity) && Spread(nonceA, nonceB, capacity) != 0
    ensures Slot(x, nonceA, capacity) == Slot(y, nonceA, capacity) < capacity
    ensures Slot(y, nonceA, capacity) != Slot(y, nonceB, capacity) < capacity
    ensures Cleared(capacity, nonceA, nonceB).InBounds()
    ensures var one := TryInsert(Cleared(capacity, nonceA, nonceB), x, 0);
            && one.Put? && one.table.InBounds()
            && TryInsert(one.table, y, 1) == Put(Stacked(capacity, nonceA, nonceB, x, y))
    ensures Valid(Stacked(capacity, nonceA, nonceB, x, y))
  {
    hide MaskedFold, Spread, Slot;
    SameFoldSlots(capacity, nonceA, nonceB, x, y);
    ClearedValid(capacity, nonceA, nonceB);
    var base := Cleared(capacity, nonceA, nonceB);
    InsertAgrees(base, x, 0);
    var one := TryInsert(base, x, 0).table;
    assert one == base.(entries := base.entries[Slot(x, nonceA, capacity) := Entry(x, true, 0)], count := 1);
    InsertAgrees(one, y, 1);
    assert TryInsert(one, y, 1) == PutAt(one, one.SlotB(y), y, 1);
  }

  /** Removing the first of two stacked keys leaves the second shadowed. Every such pair is a failing
      case of the stronger invariant. */
  lemma RemoveLeavesShadow(capacity: nat, nonceA: u32, nonceB: u32, x: Endpoint, y: Endpoint)
    requires PowerOfTwo(capacity) && capacity >= 32 && x != y
    requires MaskedFold(x, capacity) == MaskedFold(y, capacity) && Spread(nonceA, nonceB, capacity) != 0
    ensures Slot(x, nonceA, capacity) < capacity && Slot(y, nonceB, capacity) < capacity
    ensures var two := Stacked(capacity, nonceA, nonceB, x, y);
            && Valid(two) && Remove(two, x).Removed?
            && var left := Remove(two, x).table;
            && Sound(left) && !FirstFilled(left) && Shadowed(left, y)
  {
    AddsStack(capacity, nonceA, nonceB, x, y);
    var two := Stacked(capacity, nonceA, nonceB, x, y);
    RemoveAgrees(two, x);
    var left := Remove(two, x).table;
    assert left == DropAt(two, two.SlotA(x));
    assert left.entries[left.SlotB(y)] == Entry(y, true, 1);
  }
}
