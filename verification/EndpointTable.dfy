/** The endpoint table of src/endpoint_map.c, on values.

Table is the state of the C structure. The functions below give the effect of each operation on it,
branch by branch; the class in EndpointMap performs the same operations in place. What the table
stands for is Overlay, a plain finite map read off the entries. */
module EndpointTable {
  import opened Bits
  import opened IpAddr
  import opened EndpointHash

  /** A signed 31-bit field, as declared for tap_id. */
  type int31 = x: int | -0x4000_0000 <= x < 0x4000_0000

  /** Storing an int in that field keeps its low 31 bits. */
  function Field31(x: int): int31 {
    var low := x % 0x8000_0000;
    if low < 0x4000_0000 then low else low - 0x8000_0000
  }

  /** The field holds the low 31 bits of the value, and so the value itself exactly when it is in range. */
  lemma Field31Exact(x: int)
    ensures (Field31(x) - x) % 0x8000_0000 == 0
    ensures Field31(x) == x <==> -0x4000_0000 <= x < 0x4000_0000
  {
  }

  datatype Entry = Entry(key: Endpoint, present: bool, tapId: int31)

  datatype Table = Table(entries: seq<Entry>, count: nat, nonceA: u32, nonceB: u32) {
    function SlotA(k: Endpoint): nat
      requires |entries| >= 1
    {
      Slot(k, nonceA, |entries|)
    }

    function SlotB(k: Endpoint): nat
      requires |entries| >= 1
    {
      Slot(k, nonceB, |entries|)
    }

    /** Both slots of every key are indices of the table. */
    ghost predicate InBounds() {
      |entries| >= 1 && forall k {:trigger SlotA(k)} {:trigger SlotB(k)} :: SlotA(k) < |entries| && SlotB(k) < |entries|
    }
  }

  const BLANK := Entry(Endpoint([0, 0, 0, 0, 0, 0, 0, 0, 0, 0, 0, 0, 0, 0, 0, 0], 0), false, 0)

  /** A cleared table. */
  function Cleared(capacity: nat, nonceA: u32, nonceB: u32): Table {
    Table(seq(capacity, _ => BLANK), 0, nonceA, nonceB)
  }

  predicate Holds(e: Entry, k: Endpoint) {
    e.present && e.key == k
  }

  // ----- Operations -----

  /** One round of the loop in try_insert: None when the slot is taken by another key. */
  datatype Placed = Taken | Put(table: Table)

  function PutAt(t: Table, i: nat, k: Endpoint, tapId: int): Placed
    requires i < |t.entries|
  {
    if !t.entries[i].present then
      Put(t.(entries := t.entries[i := Entry(k, true, Field31(tapId))], count := t.count + 1))
    else if t.entries[i].key == k then
      Put(t.(entries := t.entries[i := t.entries[i].(tapId := Field31(tapId))]))
    else
      Taken
  }

  function TryInsert(t: Table, k: Endpoint, tapId: int): Placed
    requires t.InBounds()
  {
    var first := PutAt(t, t.SlotA(k), k, tapId);
    if first.Put? then first else PutAt(t, t.SlotB(k), k, tapId)
  }

  function Lookup(t: Table, k: Endpoint): int
    requires t.InBounds()
  {
    if Holds(t.entries[t.SlotA(k)], k) then t.entries[t.SlotA(k)].tapId
    else if Holds(t.entries[t.SlotB(k)], k) then t.entries[t.SlotB(k)].tapId
    else -1
  }

  function DropAt(t: Table, i: nat): Table
    requires i < |t.entries|
  {
    t.(entries := t.entries[i := t.entries[i].(present := false)],
       count := if t.count > 0 then t.count - 1 else 0)
  }

  datatype Removal = Absent | Removed(table: Table)

  function Remove(t: Table, k: Endpoint): Removal
    requires t.InBounds()
  {
    if Holds(t.entries[t.SlotA(k)], k) then Removed(DropAt(t, t.SlotA(k)))
    else if Holds(t.entries[t.SlotB(k)], k) then Removed(DropAt(t, t.SlotB(k)))
    else Absent
  }

  /** Re-inserting the present entries of a saved copy, in order, stopping at the first failure. */
  function Reinsert(t: Table, saved: seq<Entry>): (p: Placed)
    requires t.InBounds()
    ensures p.Put? ==> SameShape(t, p.table)
  {
    if saved == [] then Put(t)
    else
      var before := Reinsert(t, saved[..|saved| - 1]);
      var e := saved[|saved| - 1];
      if before.Put? && e.present then
        SameShapeInBounds(t, before.table);
        TryInsert(before.table, e.key, e.tapId)
      else before
  }

  /** Same capacity and nonces, so the same slots. */
  predicate SameShape(t: Table, u: Table) {
    |t.entries| == |u.entries| && t.nonceA == u.nonceA && t.nonceB == u.nonceB
  }

  lemma SameShapeInBounds(t: Table, u: Table)
    requires t.InBounds() && SameShape(t, u)
    ensures u.InBounds()
  {
    forall k: Endpoint ensures u.SlotA(k) < |u.entries| && u.SlotB(k) < |u.entries| {
      assert u.SlotA(k) == t.SlotA(k) && u.SlotB(k) == t.SlotB(k);
    }
  }

  lemma PowerOfTwoInBounds(t: Table)
    requires PowerOfTwo(|t.entries|)
    ensures t.InBounds()
  {
    forall k: Endpoint ensures t.SlotA(k) < |t.entries| && t.SlotB(k) < |t.entries| {
      SlotSplits(k, t.nonceA, |t.entries|);
      SlotSplits(k, t.nonceB, |t.entries|);
    }
  }

  /** One attempt of the rebuild loop: clear, choose nonces, put back every saved entry, then the
      new one. */
  function Attempt(saved: seq<Entry>, capacity: nat, nonceA: u32, nonceB: u32, k: Endpoint, tapId: int): Placed
    requires Cleared(capacity, nonceA, nonceB).InBounds()
  {
    var base := Cleared(capacity, nonceA, nonceB);
    var back := Reinsert(base, saved);
    if back.Put? then
      SameShapeInBounds(base, back.table);
      TryInsert(back.table, k, tapId)
    else Taken
  }

  // ----- What a table stands for -----

  /** The finite map written by a sequence of entries, later entries overriding earlier ones. */
  function Overlay(es: seq<Entry>): map<Endpoint, int> {
    if es == [] then map[]
    else
      var m := Overlay(es[..|es| - 1]);
      var e := es[|es| - 1];
      if e.present then m[e.key := e.tapId] else m
  }

  function Keys(es: seq<Entry>): set<Endpoint> {
    Overlay(es).Keys
  }

  function CountPresent(es: seq<Entry>): nat {
    if es == [] then 0 else CountPresent(es[..|es| - 1]) + (if es[|es| - 1].present then 1 else 0)
  }

  // ----- Invariants -----

  ghost predicate Unique(es: seq<Entry>) {
    forall i, j :: 0 <= i < |es| && 0 <= j < |es| && es[i].present && es[j].present && es[i].key == es[j].key
                   ==> i == j
  }

  /** Every present entry sits in one of its key's two slots. */
  ghost predicate WellPlaced(t: Table)
    requires |t.entries| >= 1
  {
    forall i :: 0 <= i < |t.entries| && t.entries[i].present
                ==> i == t.SlotA(t.entries[i].key) || i == t.SlotB(t.entries[i].key)
  }

  /** A key in its second slot has its first slot occupied. */
  ghost predicate FirstFilled(t: Table)
    requires t.InBounds()
  {
    forall i :: 0 <= i < |t.entries| && t.entries[i].present
                ==> t.entries[t.SlotA(t.entries[i].key)].present
  }

  /** What every operation keeps, on every table. */
  ghost predicate Formed(t: Table) {
    && PowerOfTwo(|t.entries|)
    && 32 <= |t.entries|
    && t.InBounds()
    && t.count == CountPresent(t.entries)
    && WellPlaced(t)
  }

  /** A table with distinct keys. */
  ghost predicate Sound(t: Table) {
    Formed(t) && Unique(t.entries)
  }

  /** What additions alone maintain. */
  ghost predicate Valid(t: Table) {
    Sound(t) && FirstFilled(t)
  }

  // ----- Facts about Overlay -----

  lemma {:induction false} OverlayHas(es: seq<Entry>, i: nat)
    requires i < |es| && es[i].present
    ensures es[i].key in Overlay(es)
  {
    if i == |es| - 1 {
    } else {
      OverlayHas(es[..|es| - 1], i);
    }
  }

  /** Every binding comes from some present entry, the last with that key. */
  lemma {:induction false} OverlaySource(es: seq<Entry>, k: Endpoint) returns (i: nat)
    requires k in Overlay(es)
    ensures i < |es| && Holds(es[i], k) && Overlay(es)[k] == es[i].tapId
    ensures forall j :: i < j < |es| ==> !Holds(es[j], k)
  {
    var last := |es| - 1;
    if Holds(es[last], k) {
      i := last;
    } else {
      i := OverlaySource(es[..last], k);
      forall j | i < j < |es| ensures !Holds(es[j], k) {
        if j < last {
          assert es[..last][j] == es[j];
        }
      }
    }
  }

  lemma OverlayAt(es: seq<Entry>, i: nat)
    requires Unique(es) && i < |es| && es[i].present
    ensures es[i].key in Overlay(es) && Overlay(es)[es[i].key] == es[i].tapId
  {
    OverlayHas(es, i);
    var j := OverlaySource(es, es[i].key);
  }

  lemma {:induction false} OverlayAppend(es: seq<Entry>, fs: seq<Entry>)
    ensures Overlay(es + fs) == Overlay(es) + Overlay(fs)
  {
    if fs == [] {
      assert es + fs == es;
    } else {
      var last := |fs| - 1;
      OverlayAppend(es, fs[..last]);
      assert (es + fs)[..|es + fs| - 1] == es + fs[..last];
    }
  }

  lemma {:induction false} OverlayAbsent(es: seq<Entry>)
    requires forall i :: 0 <= i < |es| ==> !es[i].present
    ensures Overlay(es) == map[] && CountPresent(es) == 0
  {
    if es == [] {
    } else {
      OverlayAbsent(es[..|es| - 1]);
    }
  }

  /** Writing one entry changes the number of present entries by that entry alone. */
  lemma {:induction false} CountUpdate(es: seq<Entry>, i: nat, e: Entry)
    requires i < |es|
    ensures CountPresent(es[i := e])
         == CountPresent(es) - (if es[i].present then 1 else 0) + (if e.present then 1 else 0)
  {
    var last := |es| - 1;
    if i == last {
      assert es[i := e][..last] == es[..last];
    } else {
      assert es[i := e][..last] == es[..last][i := e];
      CountUpdate(es[..last], i, e);
    }
  }

  /** Writing a key into a slot that is free or already its own, in a table holding it nowhere else. */
  lemma {:induction false} OverlayUpdate(es: seq<Entry>, i: nat, e: Entry)
    requires i < |es| && e.present
    requires es[i].present ==> es[i].key == e.key
    requires forall j :: 0 <= j < |es| && j != i ==> !Holds(es[j], e.key)
    ensures Overlay(es[i := e]) == Overlay(es)[e.key := e.tapId]
    ensures CountPresent(es[i := e]) == CountPresent(es) + (if es[i].present then 0 else 1)
  {
    var last := |es| - 1;
    if i == last {
      assert es[i := e][..last] == es[..last];
    } else {
      assert es[i := e][..last] == es[..last][i := e];
      OverlayUpdate(es[..last], i, e);
    }
  }

  /** Clearing one entry of a table with distinct keys removes exactly its key. */
  lemma {:induction false} OverlayDrop(es: seq<Entry>, i: nat)
    requires Unique(es) && i < |es| && es[i].present
    ensures Overlay(es[i := es[i].(present := false)]) == Overlay(es) - {es[i].key}
    ensures CountPresent(es[i := es[i].(present := false)]) == CountPresent(es) - 1
  {
    var last := |es| - 1;
    var e := es[i].(present := false);
    if i == last {
      assert es[i := e][..last] == es[..last];
      if es[i].key in Overlay(es[..last]) {
        var j := OverlaySource(es[..last], es[i].key);
      }
    } else {
      assert es[i := e][..last] == es[..last][i := e];
      OverlayDrop(es[..last], i);
    }
  }

  lemma {:induction false} CountBounds(es: seq<Entry>)
    ensures CountPresent(es) <= |es|
    ensures CountPresent(es) == |es| ==> forall i :: 0 <= i < |es| ==> es[i].present
  {
    if es == [] {
    } else {
      CountBounds(es[..|es| - 1]);
      assert forall i :: 0 <= i < |es| - 1 ==> es[..|es| - 1][i] == es[i];
    }
  }

  /** With distinct keys, the number of present entries is the number of bindings. */
  lemma {:induction false} CountIsSize(es: seq<Entry>)
    requires Unique(es)
    ensures CountPresent(es) == |Overlay(es)|
  {
    if es == [] {
    } else {
      var last := |es| - 1;
      CountIsSize(es[..last]);
      if es[last].present && es[last].key in Overlay(es[..last]) {
        var j := OverlaySource(es[..last], es[last].key);
        assert false;
      }
    }
  }

  // ----- What every operation keeps -----

  lemma PutKeepsFormed(t: Table, i: nat, k: Endpoint, tapId: int)
    requires Formed(t) && i < |t.entries| && (i == t.SlotA(k) || i == t.SlotB(k))
    requires PutAt(t, i, k, tapId).Put?
    ensures Formed(PutAt(t, i, k, tapId).table) && SameShape(t, PutAt(t, i, k, tapId).table)
  {
    var u := PutAt(t, i, k, tapId).table;
    CountUpdate(t.entries, i, u.entries[i]);
    SameShapeInBounds(t, u);
  }

  lemma InsertKeepsFormed(t: Table, k: Endpoint, tapId: int)
    requires Formed(t) && TryInsert(t, k, tapId).Put?
    ensures Formed(TryInsert(t, k, tapId).table) && SameShape(t, TryInsert(t, k, tapId).table)
  {
    PutKeepsFormed(t, if PutAt(t, t.SlotA(k), k, tapId).Put? then t.SlotA(k) else t.SlotB(k), k, tapId);
  }

  lemma DropKeepsFormed(t: Table, i: nat)
    requires Formed(t) && i < |t.entries| && t.entries[i].present
    ensures t.count > 0 && Formed(DropAt(t, i)) && SameShape(t, DropAt(t, i))
  {
    CountUpdate(t.entries, i, t.entries[i].(present := false));
    SameShapeInBounds(t, DropAt(t, i));
  }

  // ----- Each operation against the finite map -----

  /** Lookup returns the id bound to the key, and -1 when there is none. */
  lemma LookupAgrees(t: Table, k: Endpoint)
    requires Sound(t)
    ensures Lookup(t, k) == if k in Overlay(t.entries) then Overlay(t.entries)[k] else -1
  {
    var a, b := t.SlotA(k), t.SlotB(k);
    if k in Overlay(t.entries) {
      var i := OverlaySource(t.entries, k);
      assert i == a || i == b;
    }
    if Holds(t.entries[a], k) {
      OverlayAt(t.entries, a);
    } else if Holds(t.entries[b], k) {
      OverlayAt(t.entries, b);
    }
  }

  /** When the first slot accepts a key, no other slot holds it: the second holds it only below an
      occupied first slot, and keys are distinct. */
  lemma HeldNowhereElse(t: Table, k: Endpoint, j: nat)
    requires Valid(t) && j < |t.entries| && j != t.SlotA(k)
    requires t.entries[t.SlotA(k)].present ==> t.entries[t.SlotA(k)].key == k
    ensures !Holds(t.entries[j], k)
  {
  }

  /** Writing at one of the key's slots, where no other slot holds the key, keeps the table sound. */
  lemma PutKeepsSound(t: Table, i: nat, k: Endpoint, tapId: int)
    requires Sound(t) && i < |t.entries| && (i == t.SlotA(k) || i == t.SlotB(k))
    requires PutAt(t, i, k, tapId).Put?
    requires forall j :: 0 <= j < |t.entries| && j != i ==> !Holds(t.entries[j], k)
    ensures var u := PutAt(t, i, k, tapId).table;
            && Sound(u) && SameShape(t, u)
            && Overlay(u.entries) == Overlay(t.entries)[k := Field31(tapId)]
  {
    var u := PutAt(t, i, k, tapId).table;
    OverlayUpdate(t.entries, i, u.entries[i]);
    PutKeepsFormed(t, i, k, tapId);
    hide Formed, Overlay;
  }

  /** Writing at one of the key's slots keeps every second-slot key above an occupied first slot. */
  lemma PutKeepsFirstFilled(t: Table, i: nat, k: Endpoint, tapId: int)
    requires Valid(t) && i < |t.entries| && (i == t.SlotA(k) || t.entries[t.SlotA(k)].present)
    requires PutAt(t, i, k, tapId).Put?
    requires PutAt(t, i, k, tapId).table.InBounds()
    ensures FirstFilled(PutAt(t, i, k, tapId).table)
  {
    var u := PutAt(t, i, k, tapId).table;
    forall j | 0 <= j < |u.entries| && u.entries[j].present ensures u.entries[u.SlotA(u.entries[j].key)].present {
      assert u.SlotA(u.entries[j].key) == t.SlotA(u.entries[j].key);
      assert j != i ==> t.entries[t.SlotA(t.entries[j].key)].present;
    }
  }

  /** Insertion either fails with both slots held by other keys, or acts as a map update. */
  lemma InsertAgrees(t: Table, k: Endpoint, tapId: int)
    requires Valid(t)
    ensures match TryInsert(t, k, tapId)
            case Put(u) => Valid(u) && SameShape(t, u) && Overlay(u.entries) == Overlay(t.entries)[k := Field31(tapId)]
            case Taken =>
              var a, b := t.entries[t.SlotA(k)], t.entries[t.SlotB(k)];
              a.present && b.present && a.key != k && b.key != k
  {
    if TryInsert(t, k, tapId).Put? {
      var a := t.SlotA(k);
      var i := if PutAt(t, a, k, tapId).Put? then a else t.SlotB(k);
      forall j | 0 <= j < |t.entries| && j != i ensures !Holds(t.entries[j], k) {
        if i == a {
          HeldNowhereElse(t, k, j);
        } else {
          HeldElsewhereOrFirst(t, k, j);
        }
      }
      PutKeepsSound(t, i, k, tapId);
      PutKeepsFirstFilled(t, i, k, tapId);
    }
  }

  lemma HeldElsewhereOrFirst(t: Table, k: Endpoint, j: nat)
    requires Sound(t) && j < |t.entries| && j != t.SlotB(k) && !Holds(t.entries[t.SlotA(k)], k)
    ensures !Holds(t.entries[j], k)
  {
  }

  lemma ClearedValid(capacity: nat, nonceA: u32, nonceB: u32)
    requires PowerOfTwo(capacity) && capacity >= 32
    ensures var t := Cleared(capacity, nonceA, nonceB);
            Valid(t) && Overlay(t.entries) == map[]
  {
    var t := Cleared(capacity, nonceA, nonceB);
    PowerOfTwoInBounds(t);
    OverlayAbsent(t.entries);
  }

  /** Whatever is put back stands for the overlay of what was saved. */
  lemma {:induction false} ReinsertAgrees(t: Table, saved: seq<Entry>)
    requires Valid(t)
    ensures var p := Reinsert(t, saved);
            p.Put? ==> Valid(p.table) && Overlay(p.table.entries) == Overlay(t.entries) + Overlay(saved)
  {
    if saved == [] {
      assert Overlay(t.entries) + map[] == Overlay(t.entries);
    } else {
      var last := |saved| - 1;
      ReinsertAgrees(t, saved[..last]);
      var before := Reinsert(t, saved[..last]);
      if before.Put? && saved[last].present {
        InsertAgrees(before.table, saved[last].key, saved[last].tapId);
        Field31Exact(saved[last].tapId);
      }
    }
  }

  /** A successful attempt stands for what was saved, with the new binding on top. */
  lemma AttemptAgrees(saved: seq<Entry>, capacity: nat, nonceA: u32, nonceB: u32, k: Endpoint, tapId: int)
    requires PowerOfTwo(capacity) && capacity >= 32
    ensures Cleared(capacity, nonceA, nonceB).InBounds()
    ensures match Attempt(saved, capacity, nonceA, nonceB, k, tapId)
            case Put(u) =>
              && Valid(u) && |u.entries| == capacity
              && Overlay(u.entries) == Overlay(saved)[k := Field31(tapId)]
            case Taken => true
  {
    ClearedValid(capacity, nonceA, nonceB);
    var base := Cleared(capacity, nonceA, nonceB);
    ReinsertAgrees(base, saved);
    var back := Reinsert(base, saved);
    if back.Put? {
      assert map[] + Overlay(saved) == Overlay(saved);
      InsertAgrees(back.table, k, tapId);
    }
  }
}
