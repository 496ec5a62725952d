/** The totals printed for a tap (src/tunnel.c, tunnel_print_stats). */
module WorkerTotals {
  import opened Worker
  import opened WorkerStats

  function Sum(row: seq<Stats>, c: Counter): nat {
    if row == [] then 0 else Sum(row[..|row| - 1], c) + row[|row| - 1].Get(c)
  }

  /** Adding up the queues' counters in 64-bit words. */
  method SumStats(row: seq<Stats>) returns (rx: nat, tx: nat, errors: nat)
    ensures rx == Sum(row, Rx) % U64 && tx == Sum(row, Tx) % U64 && errors == Sum(row, Errors) % U64
  {
    rx, tx, errors := 0, 0, 0;
    for j := 0 to |row|
      invariant rx == Sum(row[..j], Rx) % U64
      invariant tx == Sum(row[..j], Tx) % U64
      invariant errors == Sum(row[..j], Errors) % U64
    {
      assert row[..j + 1][..j] == row[..j];
      AddMod(Sum(row[..j], Rx), row[j].rx);
      AddMod(Sum(row[..j], Tx), row[j].tx);
      AddMod(Sum(row[..j], Errors), row[j].errors);
      rx := (rx + row[j].rx) % U64;
      tx := (tx + row[j].tx) % U64;
      errors := (errors + row[j].errors) % U64;
    }
    assert row[..|row|] == row;
  }

  /** All effects on one counter of one tap, whatever the queue. */
  function TapTally(log: seq<Effect>, id: nat, c: Counter): nat {
    if log == [] then 0
    else
      var e := log[|log| - 1];
      TapTally(log[..|log| - 1], id, c) + if e.tapId == id && e.counter == c then e.amount else 0
  }

  function TallyUpTo(log: seq<Effect>, id: nat, c: Counter, n: nat): nat {
    if n == 0 then 0 else TallyUpTo(log, id, c, n - 1) + Tally(log, id, n - 1, c)
  }

  lemma {:induction false} QueuesCoverLog(log: seq<Effect>, id: nat, c: Counter, n: nat)
    requires forall i :: 0 <= i < |log| ==> log[i].queue < n
    ensures TallyUpTo(log, id, c, n) == TapTally(log, id, c)
  {
    if log == [] {
      TallyUpToEmpty(id, c, n);
    } else {
      var last := |log| - 1;
      QueuesCoverLog(log[..last], id, c, n);
      TallyUpToSplit(log, id, c, n);
    }
  }

  lemma {:induction false} TallyUpToEmpty(id: nat, c: Counter, n: nat)
    ensures TallyUpTo([], id, c, n) == 0
  {
    if n == 0 {
    } else {
      TallyUpToEmpty(id, c, n - 1);
    }
  }

  lemma {:induction false} TallyUpToSplit(log: seq<Effect>, id: nat, c: Counter, n: nat)
    requires log != []
    ensures var last := |log| - 1;
            TallyUpTo(log, id, c, n) == TallyUpTo(log[..last], id, c, n)
              + if log[last].tapId == id && log[last].counter == c && log[last].queue < n then log[last].amount else 0
  {
    if n == 0 {
    } else {
      TallyUpToSplit(log, id, c, n - 1);
    }
  }

  lemma {:induction false} SumIsTally(row: seq<Stats>, log: seq<Effect>, id: nat, c: Counter)
    requires forall q :: 0 <= q < |row| ==> row[q].Get(c) == Tally(log, id, q, c) % U64
    ensures Sum(row, c) % U64 == TallyUpTo(log, id, c, |row|) % U64
  {
    if row == [] {
    } else {
      var last := |row| - 1;
      SumIsTally(row[..last], log, id, c);
      AddMods(Sum(row[..last], c), TallyUpTo(log, id, c, last), Tally(log, id, last, c));
    }
  }

  lemma AddMods(a: nat, b: nat, t: nat)
    requires a % U64 == b % U64
    ensures (a + t % U64) % U64 == (b + t) % U64
  {
    AddMod(a, t % U64);
    AddMod(t, b % U64);
    AddMod(b, t);
  }

  ghost predicate Quiescent(s: State) {
    forall w :: 0 <= w < |s.threads| ==> !CountingPc(s.threads[w].pc)
  }

  /** When no worker is in the middle of counting, the sums over the queues are exactly what was sent,
      delivered and failed for the tap, modulo the width of a counter: no update was lost. */
  lemma QuiescentTotals(s: State, id: nat, c: Counter)
    requires StatsInv(s) && RoutingInv(s) && Quiescent(s)
    requires id < |s.stats| && |s.stats[id]| == |s.threads|
    ensures Sum(s.stats[id], c) % U64 == TapTally(s.log, id, c) % U64
  {
    forall q | 0 <= q < |s.stats[id]| ensures s.stats[id][q].Get(c) == Tally(s.log, id, q, c) % U64 {
      assert HasSlot(s, id, q) && Settles(s, id, q, c);
    }
    SumIsTally(s.stats[id], s.log, id, c);
    forall i | 0 <= i < |s.log| ensures s.log[i].queue < |s.threads| {
      assert Routed(s, s.log[i]);
    }
    QueuesCoverLog(s.log, id, c, |s.threads|);
  }
}
