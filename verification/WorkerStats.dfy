/** Routing and counting: where frames and datagrams went, and that the counters add up. */
module WorkerStats {
  import opened EndpointTable
  import opened Worker
  import opened WorkerDirectory
  import opened WorkerQueues

  // ----- Routing -----

  /** Every send went to the endpoint of its tap, and every tap write carried a datagram from it. */
  ghost predicate RoutingInv(s: State) {
    forall i :: 0 <= i < |s.log| ==> Routed(s, s.log[i])
  }

  predicate Routed(s: State, e: Effect) {
    Names(s.taps, e.tapId, e.peer) && e.queue < |s.threads|
  }

  // ----- Counters -----

  /** What the effects on one counter of one tap through one queue amount to. */
  function Tally(log: seq<Effect>, id: nat, q: nat, c: Counter): nat {
    if log == [] then 0
    else
      var e := log[|log| - 1];
      Tally(log[..|log| - 1], id, q, c) + if e.tapId == id && e.queue == q && e.counter == c then e.amount else 0
  }

  lemma TallyAppend(log: seq<Effect>, e: Effect, id: nat, q: nat, c: Counter)
    ensures Tally(log + [e], id, q, c)
         == Tally(log, id, q, c) + if e.tapId == id && e.queue == q && e.counter == c then e.amount else 0
  {
    assert (log + [e])[..|log|] == log;
  }

  lemma {:induction false} TallyNone(log: seq<Effect>, id: nat, q: nat, c: Counter)
    requires forall i :: 0 <= i < |log| ==> log[i].tapId != id
    ensures Tally(log, id, q, c) == 0
  {
    if log == [] {
    } else {
      TallyNone(log[..|log| - 1], id, q, c);
    }
  }

  /** The worker is between recording an effect on this counter and storing the sum. */
  predicate Updating(t: Thread, id: nat, q: nat, c: Counter) {
    && t.queue == q
    && ((t.pc.Load? && t.pc.tapId == id && t.pc.counter == c) || (t.pc.Store? && t.pc.tapId == id && t.pc.counter == c))
  }

  function Slot(s: State, id: nat, q: nat, c: Counter): nat
    requires HasSlot(s, id, q)
  {
    s.stats[id][q].Get(c)
  }

  predicate Untouched(threads: seq<Thread>, id: nat, q: nat, c: Counter) {
    forall w :: 0 <= w < |threads| ==> !Updating(threads[w], id, q, c)
  }

  lemma UntouchedBefore(threads: seq<Thread>, w: nat, t: Thread, id: nat, q: nat, c: Counter)
    requires w < |threads| && Untouched(threads[w := t], id, q, c) && !Updating(threads[w], id, q, c)
    ensures Untouched(threads, id, q, c)
  {
    forall v | 0 <= v < |threads| ensures !Updating(threads[v], id, q, c) {
      assert !Updating(threads[w := t][v], id, q, c);
    }
  }

  /** A counter nobody is updating holds the tally, modulo its width. */
  ghost predicate Settles(s: State, id: nat, q: nat, c: Counter)
    requires HasSlot(s, id, q)
  {
    Untouched(s.threads, id, q, c) ==> Slot(s, id, q, c) == Tally(s.log, id, q, c) % U64
  }

  /** What a worker owes its counter. */
  ghost predicate Owes(s: State, t: Thread) {
    (t.pc.Load? || t.pc.Store?) ==>
      && HasSlot(s, t.pc.tapId, t.queue)
      && var v := Slot(s, t.pc.tapId, t.queue, t.pc.counter);
      && (v + t.pc.amount) % U64 == Tally(s.log, t.pc.tapId, t.queue, t.pc.counter) % U64
      && (t.pc.Store? ==> t.pc.loaded == v)
  }

  ghost predicate StatsInv(s: State) {
    && (forall w :: 0 <= w < |s.threads| ==> Owes(s, s.threads[w]))
    && (forall id, q, c {:trigger Settles(s, id, q, c)} :: HasSlot(s, id, q) ==> Settles(s, id, q, c))
  }

  // ----- Steps that record and count nothing -----

  predicate CountingPc(pc: Pc) {
    pc.Load? || pc.Store?
  }

  ghost predicate Silent(s: State, w: nat, s': State)
    requires w < |s.threads|
  {
    && |s'.threads| == |s.threads| && s'.threads == s.threads[w := s'.threads[w]]
    && s'.log == s.log && s'.stats == s.stats && s.taps <= s'.taps
    && !CountingPc(s.threads[w].pc) && !CountingPc(s'.threads[w].pc)
  }

  lemma SilentKeepsStats(s: State, w: nat, s': State)
    requires w < |s.threads| && Silent(s, w, s') && StatsInv(s) && RoutingInv(s)
    ensures StatsInv(s') && RoutingInv(s')
  {
    hide Tally;
    forall v | 0 <= v < |s'.threads| ensures Owes(s', s'.threads[v]) {
      assert Owes(s, s.threads[v]);
    }
    forall id, q, c | HasSlot(s', id, q) ensures Settles(s', id, q, c) {
      assert Settles(s, id, q, c);
      if Untouched(s'.threads, id, q, c) {
        UntouchedBefore(s.threads, w, s'.threads[w], id, q, c);
      }
    }
    forall i | 0 <= i < |s'.log| ensures Routed(s', s'.log[i]) {
      assert Routed(s, s.log[i]);
    }
  }

  predicate IsSilent(a: Action) {
    !a.SendTo? && !a.WriteTap? && PhaseOf(a) != Counting && !a.Publish?
  }

  lemma EventsSilent(s: State, w: nat, a: Action)
    requires Enabled(s, w, a) && (PhaseOf(a) == Events || PhaseOf(a) == Locking)
    ensures Silent(s, w, Apply(s, w, a))
  {
    hide BatchReady, Elements;
  }

  lemma TransferSilent(s: State, w: nat, a: Action)
    requires Enabled(s, w, a) && IsSilent(a) && (PhaseOf(a) == Transfer || PhaseOf(a) == Resolving)
    ensures Silent(s, w, Apply(s, w, a))
  {
    hide FindIn, Allowed;
  }

  lemma AllocatingSilent(s: State, w: nat, a: Action)
    requires Enabled(s, w, a) && IsSilent(a) && (PhaseOf(a) == Allocating || PhaseOf(a) == Mapping)
    ensures Silent(s, w, Apply(s, w, a))
  {
    hide FreshFds, TryInsert, Attempt, Cleared;
  }

  // ----- Publishing a tap -----

  lemma PublishKeepsStats(s: State, w: nat)
    requires Enabled(s, w, Publish) && StatsInv(s) && RoutingInv(s) && |s.stats| == |s.taps|
    ensures StatsInv(Apply(s, w, Publish)) && RoutingInv(Apply(s, w, Publish))
  {
    var s' := Apply(s, w, Publish);
    forall v | 0 <= v < |s'.threads| ensures Owes(s', s'.threads[v]) {
      assert Owes(s, s.threads[v]);
    }
    forall id, q, c | HasSlot(s', id, q) ensures Settles(s', id, q, c) {
      if id == |s.stats| {
        forall i | 0 <= i < |s.log| ensures s.log[i].tapId != id {
          assert Routed(s, s.log[i]);
        }
        TallyNone(s.log, id, q, c);
      } else {
        PublishSettles(s, w, id, q, c);
      }
    }
    forall i | 0 <= i < |s'.log| ensures Routed(s', s'.log[i]) {
      assert Routed(s, s.log[i]);
    }
  }

  lemma PublishSettles(s: State, w: nat, id: nat, q: nat, c: Counter)
    requires Enabled(s, w, Publish) && StatsInv(s) && HasSlot(s, id, q)
    ensures Settles(Apply(s, w, Publish), id, q, c)
  {
    hide Tally;
    var s' := Apply(s, w, Publish);
    assert Settles(s, id, q, c);
    if Untouched(s'.threads, id, q, c) {
      UntouchedBefore(s.threads, w, s'.threads[w], id, q, c);
    }
  }

  // ----- Recording an effect -----

  /** No two workers use one queue. */
  ghost predicate OwnQueues(s: State) {
    && (forall w :: 0 <= w < |s.threads| && CountingPc(s.threads[w].pc) ==> !s.threads[w].pc.Boot?)
    && (forall v, w :: 0 <= v < |s.threads| && 0 <= w < |s.threads| && v != w
                       && !s.threads[v].pc.Boot? && !s.threads[w].pc.Boot?
                       ==> s.threads[v].queue != s.threads[w].queue)
  }

  lemma QueuesAreOwn(s: State)
    requires QueueInv(s)
    ensures OwnQueues(s)
  {
  }

  /** The only worker that can be updating a counter of queue q is the one whose queue it is. */
  lemma SoleUpdater(s: State, w: nat, id: nat, c: Counter)
    requires OwnQueues(s) && w < |s.threads| && !s.threads[w].pc.Boot? && !CountingPc(s.threads[w].pc)
    ensures Untouched(s.threads, id, s.threads[w].queue, c)
  {
  }

  lemma RecordKeepsStats(s: State, w: nat, e: Effect)
    requires w < |s.threads| && !s.threads[w].pc.Boot? && !CountingPc(s.threads[w].pc)
    requires OwnQueues(s) && StatsInv(s) && RoutingInv(s) && HasSlot(s, e.tapId, e.queue)
    requires Names(s.taps, e.tapId, e.peer) && e.queue == s.threads[w].queue < |s.threads|
    ensures StatsInv(Counted(s, w, e)) && RoutingInv(Counted(s, w, e))
  {
    var s' := Counted(s, w, e);
    SoleUpdater(s, w, e.tapId, e.counter);
    assert Settles(s, e.tapId, e.queue, e.counter);
    forall v | 0 <= v < |s'.threads| ensures Owes(s', s'.threads[v]) {
      RecordOwes(s, w, e, v);
    }
    forall id, q, c | HasSlot(s', id, q) ensures Settles(s', id, q, c) {
      RecordSettles(s, w, e, id, q, c);
    }
    forall i | 0 <= i < |s'.log| ensures Routed(s', s'.log[i]) {
      if i < |s.log| {
        assert Routed(s, s.log[i]);
      }
    }
  }

  lemma RecordOwes(s: State, w: nat, e: Effect, v: nat)
    requires w < |s.threads| && v < |s.threads| && !s.threads[w].pc.Boot? && OwnQueues(s)
    requires e.queue == s.threads[w].queue && HasSlot(s, e.tapId, e.queue) && Owes(s, s.threads[v])
    requires Slot(s, e.tapId, e.queue, e.counter) == Tally(s.log, e.tapId, e.queue, e.counter) % U64
    ensures Owes(Counted(s, w, e), Counted(s, w, e).threads[v])
  {
    var t := Counted(s, w, e).threads[v];
    if CountingPc(t.pc) {
      TallyAppend(s.log, e, t.pc.tapId, t.queue, t.pc.counter);
      hide Tally;
      if v == w {
        AddMod(Tally(s.log, e.tapId, e.queue, e.counter), e.amount);
      }
    }
  }

  lemma AddMod(a: nat, b: nat)
    ensures (a % U64 + b) % U64 == (a + b) % U64
  {
  }

  lemma RecordSettles(s: State, w: nat, e: Effect, id: nat, q: nat, c: Counter)
    requires w < |s.threads| && e.queue == s.threads[w].queue && !CountingPc(s.threads[w].pc)
    requires HasSlot(s, id, q) && Settles(s, id, q, c)
    ensures Settles(Counted(s, w, e), id, q, c)
  {
    var s' := Counted(s, w, e);
    TallyAppend(s.log, e, id, q, c);
    hide Tally;
    if Untouched(s'.threads, id, q, c) {
      UntouchedBefore(s.threads, w, s'.threads[w], id, q, c);
    }
  }

  // ----- Counting it -----

  lemma LoadKeepsStats(s: State, w: nat)
    requires Enabled(s, w, LoadCounter) && StatsInv(s) && RoutingInv(s)
    ensures StatsInv(Apply(s, w, LoadCounter)) && RoutingInv(Apply(s, w, LoadCounter))
  {
    var s' := Apply(s, w, LoadCounter);
    hide Tally;
    assert Owes(s, s.threads[w]);
    forall v | 0 <= v < |s'.threads| ensures Owes(s', s'.threads[v]) {
      assert Owes(s, s.threads[v]);
    }
    forall id, q, c | HasSlot(s', id, q) ensures Settles(s', id, q, c) {
      assert Settles(s, id, q, c);
      if Untouched(s'.threads, id, q, c) {
        UntouchedBefore(s.threads, w, s'.threads[w], id, q, c);
      }
    }
    forall i | 0 <= i < |s'.log| ensures Routed(s', s'.log[i]) {
      assert Routed(s, s.log[i]);
    }
  }

  lemma StoreOwes(s: State, w: nat, v: nat)
    requires Enabled(s, w, StoreCounter) && OwnQueues(s) && v < |s.threads|
    requires Owes(s, s.threads[w]) && Owes(s, s.threads[v])
    ensures Owes(Apply(s, w, StoreCounter), Apply(s, w, StoreCounter).threads[v])
  {
    hide Tally;
  }

  lemma StoreSettles(s: State, w: nat, id: nat, q: nat, c: Counter)
    requires Enabled(s, w, StoreCounter) && Owes(s, s.threads[w])
    requires HasSlot(s, id, q) && Settles(s, id, q, c)
    ensures var s' := Apply(s, w, StoreCounter);
            HasSlot(s', id, q) && Settles(s', id, q, c)
  {
    hide Tally;
    var s' := Apply(s, w, StoreCounter);
    if !Updating(s.threads[w], id, q, c) && Untouched(s'.threads, id, q, c) {
      UntouchedBefore(s.threads, w, s'.threads[w], id, q, c);
    }
  }

  lemma StoreKeepsStats(s: State, w: nat)
    requires Enabled(s, w, StoreCounter) && OwnQueues(s) && StatsInv(s) && RoutingInv(s)
    ensures StatsInv(Apply(s, w, StoreCounter)) && RoutingInv(Apply(s, w, StoreCounter))
  {
    var s' := Apply(s, w, StoreCounter);
    assert Owes(s, s.threads[w]);
    forall v | 0 <= v < |s'.threads| ensures Owes(s', s'.threads[v]) {
      StoreOwes(s, w, v);
    }
    forall id, q, c | HasSlot(s', id, q) ensures Settles(s', id, q, c) {
      assert HasSlot(s, id, q) && Settles(s, id, q, c);
      StoreSettles(s, w, id, q, c);
    }
    forall i | 0 <= i < |s'.log| ensures Routed(s', s'.log[i]) {
      assert Routed(s, s.log[i]);
    }
  }

  // ----- Every step -----

  /** What the rest of the invariants say about a worker about to send or write. */
  ghost predicate Aimed(s: State, w: nat)
    requires w < |s.threads|
  {
    && s.threads[w].queue < |s.threads|
    && (s.threads[w].pc.TapSend? || s.threads[w].pc.Deliver? ==> HasSlot(s, s.threads[w].pc.tapId, s.threads[w].queue))
  }

  lemma TransferKeepsStats(s: State, w: nat, a: Action)
    requires Enabled(s, w, a) && (a.SendTo? || a.WriteTap?) && OwnQueues(s) && StatsInv(s) && RoutingInv(s)
    requires Aimed(s, w) && PcFits(s, s.threads[w].pc)
    ensures StatsInv(Apply(s, w, a)) && RoutingInv(Apply(s, w, a))
  {
    var pc := s.threads[w].pc;
    var kind := if a.SendTo? then Sent else Written;
    var peer := if a.SendTo? then s.taps[pc.tapId].endpoint else pc.packet.from;
    var e := EffectOf(s, w, kind, pc.tapId, a.sent, peer);
    assert Apply(s, w, a) == Counted(s, w, e);
    hide StatsInv, RoutingInv, OwnQueues, Apply, Counted;
    RecordKeepsStats(s, w, e);
  }

  lemma StepKeepsStats(s: State, w: nat, a: Action)
    requires Enabled(s, w, a) && OwnQueues(s) && StatsInv(s) && RoutingInv(s)
    requires |s.stats| == |s.taps| && Aimed(s, w) && PcFits(s, s.threads[w].pc)
    ensures StatsInv(Apply(s, w, a)) && RoutingInv(Apply(s, w, a))
  {
    hide StatsInv, RoutingInv, OwnQueues, Apply, Aimed, PcFits;
    if IsSilent(a) {
      hide Enabled;
      match PhaseOf(a) {
        case Events => EventsSilent(s, w, a);
        case Locking => EventsSilent(s, w, a);
        case Transfer => TransferSilent(s, w, a);
        case Resolving => TransferSilent(s, w, a);
        case Allocating => AllocatingSilent(s, w, a);
        case Mapping => AllocatingSilent(s, w, a);
        case Counting => assert false;
      }
      hide Silent;
      SilentKeepsStats(s, w, Apply(s, w, a));
    } else {
      match a {
        case LoadCounter => LoadKeepsStats(s, w);
        case StoreCounter => StoreKeepsStats(s, w);
        case Publish => PublishKeepsStats(s, w);
        case _ => TransferKeepsStats(s, w, a);
      }
    }
  }
}
