/** Whole runs of the endpoint table: creation, then any sequence of additions, removals and lookups, with
    whatever rebuilds and growth they cause, for every stream of random numbers on which the additions
    return. */
module EndpointRuns {
  import opened Bits
  import opened IpAddr
  import opened EndpointTable
  import opened EndpointRemoval
  import opened EndpointMap

  /** An operation with what it met or answered: an addition would find newHalf behind the table if it had
      to grow it. */
  datatype Op =
    | Add(key: Endpoint, tapId: int, newHalf: seq<Entry>)
    | Drop(key: Endpoint, removed: bool)
    | Find(key: Endpoint, answer: int)

  /** One operation. An addition may meet any random numbers. */
  ghost predicate Step(t: Table, op: Op, u: Table) {
    match op
    case Add(k, id, newHalf) =>
      && |newHalf| == |t.entries|
      && exists rand: nat -> u32, at: nat, retries: nat :: Added(t, newHalf, k, id, rand, at, retries, u)
    case Drop(k, removed) =>
      && t.InBounds()
      && (match Remove(t, k) case Removed(v) => removed && u == v case Absent => !removed && u == t)
    case Find(k, answer) =>
      t.InBounds() && answer == Lookup(t, k) && u == t
  }

  ghost predicate Run(ts: seq<Table>, ops: seq<Op>) {
    && |ts| == |ops| + 1
    && (exists a: u32, b: u32 :: ts[0] == Cleared(32, a, b))
    && forall i :: 0 <= i < |ops| ==> Step(ts[i], ops[i], ts[i + 1])
  }

  /** What one operation does to a finite map. */
  function Effect(m: map<Endpoint, int>, op: Op): map<Endpoint, int> {
    match op
    case Add(k, id, _) => m[k := Field31(id)]
    case Drop(k, _) => m - {k}
    case Find(_, _) => m
  }

  /** What a sequence of operations means: the finite map they would build. */
  function Meaning(ops: seq<Op>): map<Endpoint, int> {
    if ops == [] then map[] else Effect(Meaning(ops[..|ops| - 1]), ops[|ops| - 1])
  }

  /** The last operation to add or remove a key. */
  function LastOn(ops: seq<Op>, k: Endpoint): (last: seq<Op>)
    ensures |last| <= 1
  {
    if ops == [] then []
    else
      var op := ops[|ops| - 1];
      if !op.Find? && op.key == k then [op] else LastOn(ops[..|ops| - 1], k)
  }

  /** The meaning binds a key exactly when the last operation on it added it, to the id then added. */
  lemma {:induction false} MeaningIsLast(ops: seq<Op>, k: Endpoint)
    ensures var last := LastOn(ops, k);
            && (k in Meaning(ops) <==> last != [] && last[0].Add?)
            && (k in Meaning(ops) ==> Meaning(ops)[k] == Field31(last[0].tapId))
  {
    if ops == [] {
    } else {
      MeaningIsLast(ops[..|ops| - 1], k);
    }
  }

  // ----- One operation -----

  /** The table has distinct keys and stands for the map. */
  ghost predicate Faithful(t: Table, m: map<Endpoint, int>) {
    Unique(t.entries) && Overlay(t.entries) == m
  }

  /** An addition whose key is not shadowed, and which meets a harmless new half if it grows the table. */
  ghost predicate Clean(t: Table, op: Op) {
    op.Add? ==> t.InBounds() && !Shadowed(t, op.key) && NewHalfHarmless(t, op.newHalf, op.key)
  }

  lemma StepKeepsFormed(t: Table, op: Op, u: Table)
    requires Formed(t) && Step(t, op, u)
    ensures Formed(u)
    ensures |u.entries| == |t.entries| || (op.Add? && |u.entries| == 2 * |t.entries| && t.count == |t.entries|)
  {
    match op {
      case Add(k, id, newHalf) =>
        var rand: nat -> u32, at: nat, retries: nat :| Added(t, newHalf, k, id, rand, at, retries, u);
        AddedAgrees(t, newHalf, k, id, rand, at, retries, u);
        CountBounds(t.entries);
      case Drop(k, removed) =>
        if removed {
          DropKeepsFormed(t, if Holds(t.entries[t.SlotA(k)], k) then t.SlotA(k) else t.SlotB(k));
        }
      case Find(_, _) =>
    }
  }

  /** From a faithful table, one operation is faithful to the map exactly when it is clean. */
  lemma StepIsFaithfulIff(t: Table, op: Op, u: Table)
    requires Formed(t) && Unique(t.entries) && Step(t, op, u)
    ensures Faithful(u, Effect(Overlay(t.entries), op)) <==> Clean(t, op)
  {
    match op {
      case Add(k, id, newHalf) =>
        var rand: nat -> u32, at: nat, retries: nat :| Added(t, newHalf, k, id, rand, at, retries, u);
        AddIsUpdateIff(t, newHalf, k, id, rand, at, retries, u);
        hide Added, Shadowed, NewHalfHarmless, Overlay, Unique, Formed;
      case Drop(k, removed) =>
        RemoveAgrees(t, k);
        assert k !in Overlay(t.entries) ==> Overlay(t.entries) - {k} == Overlay(t.entries);
      case Find(_, _) =>
    }
  }

  // ----- Whole runs -----

  lemma StartIsFaithful(ts: seq<Table>, ops: seq<Op>)
    requires Run(ts, ops)
    ensures Formed(ts[0]) && Valid(ts[0]) && Faithful(ts[0], map[])
  {
    var a: u32, b: u32 :| ts[0] == Cleared(32, a, b);
    assert Pow2(5) == 32;
    ClearedValid(32, a, b);
  }

  lemma {:induction false} FormedAt(ts: seq<Table>, ops: seq<Op>, i: nat)
    requires Run(ts, ops) && i <= |ops|
    ensures Formed(ts[i])
    decreases i
  {
    hide Formed, Step, Valid, Faithful;
    if i == 0 {
      StartIsFaithful(ts, ops);
    } else {
      FormedAt(ts, ops, i - 1);
      assert Step(ts[i - 1], ops[i - 1], ts[i]);
      StepKeepsFormed(ts[i - 1], ops[i - 1], ts[i]);
    }
  }

  /** In every run, whatever is added and removed and whatever the new halves hold, every table is well
      formed: the capacity is a power of two of at least 32, every index is in bounds and every entry in a
      slot of its key, and the stored count is the number of present entries. The capacity changes only by
      doubling, when an addition finds the table full. */
  lemma RunKeepsFormed(ts: seq<Table>, ops: seq<Op>, i: nat)
    requires Run(ts, ops) && i <= |ops|
    ensures Formed(ts[i])
    ensures i < |ops| && |ts[i + 1].entries| != |ts[i].entries| ==>
              ops[i].Add? && |ts[i + 1].entries| == 2 * |ts[i].entries| && ts[i].count == |ts[i].entries|
  {
    FormedAt(ts, ops, i);
    hide Formed, Step;
    if i < |ops| {
      StepKeepsFormed(ts[i], ops[i], ts[i + 1]);
    }
  }

  /** The first n operations leave faithful tables. */
  ghost predicate FaithfulUpTo(ts: seq<Table>, ops: seq<Op>, n: nat)
    requires n <= |ops| < |ts|
  {
    forall i {:trigger ts[i]} :: 0 <= i <= n ==> Faithful(ts[i], Meaning(ops[..i]))
  }

  ghost predicate CleanUpTo(ts: seq<Table>, ops: seq<Op>, n: nat)
    requires n <= |ops| < |ts|
  {
    forall i :: 0 <= i < n ==> Clean(ts[i], ops[i])
  }

  /** A run stays faithful to the finite map its operations build exactly as long as its additions are
      clean. */
  lemma {:induction false} RunRefinesMapIff(ts: seq<Table>, ops: seq<Op>, n: nat)
    requires Run(ts, ops) && n <= |ops|
    ensures FaithfulUpTo(ts, ops, n) <==> CleanUpTo(ts, ops, n)
    decreases n
  {
    if n == 0 {
      StartIsFaithful(ts, ops);
      assert ops[..0] == [];
    } else {
      RunRefinesMapIff(ts, ops, n - 1);
      FormedAt(ts, ops, n - 1);
      hide Formed, Step, Clean, Faithful;
      assert FaithfulUpTo(ts, ops, n) <==> FaithfulUpTo(ts, ops, n - 1) && Faithful(ts[n], Meaning(ops[..n]));
      if FaithfulUpTo(ts, ops, n - 1) {
        assert Faithful(ts[n - 1], Meaning(ops[..n - 1]));
        LastStepIff(ts, ops, n);
      }
    }
  }

  /** From a faithful table, the next one is faithful exactly when the operation is clean. */
  lemma LastStepIff(ts: seq<Table>, ops: seq<Op>, n: nat)
    requires 1 <= n <= |ops| < |ts|
    requires Faithful(ts[n - 1], Meaning(ops[..n - 1]))
    requires Formed(ts[n - 1]) && Step(ts[n - 1], ops[n - 1], ts[n])
    ensures Faithful(ts[n], Meaning(ops[..n])) <==> Clean(ts[n - 1], ops[n - 1])
  {
    assert ops[..n][..n - 1] == ops[..n - 1] && ops[..n][n - 1] == ops[n - 1];
    assert Meaning(ops[..n]) == Effect(Overlay(ts[n - 1].entries), ops[n - 1]);
    hide Formed, Step, Clean, Overlay, Meaning, Effect;
    StepIsFaithfulIff(ts[n - 1], ops[n - 1], ts[n]);
  }

  /** While the additions of a run are clean, each lookup answers the id last added for its key, and -1 when
      none was or it has been removed since; each removal reports whether the key was there; and the
      stored count is the number of keys. */
  lemma RunAnswersAsMap(ts: seq<Table>, ops: seq<Op>, i: nat)
    requires Run(ts, ops) && i < |ops| && CleanUpTo(ts, ops, i)
    ensures var m := Meaning(ops[..i]);
            && ts[i].count == |m|
            && (ops[i].Find? ==> ops[i].answer == if ops[i].key in m then m[ops[i].key] else -1)
            && (ops[i].Drop? ==> (ops[i].removed <==> ops[i].key in m))
  {
    RunRefinesMapIff(ts, ops, i);
    FormedAt(ts, ops, i);
    assert Faithful(ts[i], Meaning(ops[..i]));
    assert Step(ts[i], ops[i], ts[i + 1]);
    CountIsSize(ts[i].entries);
    hide Run, CleanUpTo, FaithfulUpTo, Meaning, Overlay;
    LookupAgrees(ts[i], ops[i].key);
    RemoveAgrees(ts[i], ops[i].key);
  }

  /** Additions and lookups alone, with no present entry in any new half, are always clean. */
  lemma {:induction false} AdditionsAreClean(ts: seq<Table>, ops: seq<Op>, n: nat)
    requires Run(ts, ops) && n <= |ops|
    requires forall i :: 0 <= i < |ops| ==> !ops[i].Drop? && (ops[i].Add? ==> Clear(ops[i].newHalf))
    ensures Valid(ts[n]) && CleanUpTo(ts, ops, n)
    decreases n
  {
    hide Step, Valid, Clean, Clear, Formed, Faithful;
    if n == 0 {
      StartIsFaithful(ts, ops);
    } else {
      AdditionsAreClean(ts, ops, n - 1);
      assert Step(ts[n - 1], ops[n - 1], ts[n]);
      ValidStepIsClean(ts[n - 1], ops[n - 1], ts[n]);
    }
  }

  lemma ValidStepIsClean(t: Table, op: Op, u: Table)
    requires Valid(t) && Step(t, op, u) && !op.Drop? && (op.Add? ==> Clear(op.newHalf))
    ensures Valid(u) && Clean(t, op)
  {
    if op.Add? {
      var rand: nat -> u32, at: nat, retries: nat :| Added(t, op.newHalf, op.key, op.tapId, rand, at, retries, u);
      AddedKeepsValid(t, op.newHalf, op.key, op.tapId, rand, at, retries, u);
      ClearHalfHarmless(t, op.newHalf, op.key);
    }
  }
}
