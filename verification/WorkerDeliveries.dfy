/** What became of the datagrams that were answered with a tap: each is written to it exactly once. */
module WorkerDeliveries {
  import opened IpAddr
  import opened EndpointTable
  import opened EndpointMap
  import opened Worker
  import opened WorkerLock
  import opened WorkerDirectory
  import opened WorkerHistory
  import opened WorkerSafety

  // ----- Answers and writes -----

  /** A tap, and the source of the datagram for it. */
  datatype Delivery = Delivery(tapId: nat, from: Endpoint)

  predicate HasTap(o: Outcome) {
    o.Got? || o.Fresh?
  }

  /** The deliveries a worker owes by its answers, in order. */
  function OwedBy(history: seq<Resolution>, w: nat): seq<Delivery> {
    if history == [] then []
    else
      var r := history[|history| - 1];
      OwedBy(history[..|history| - 1], w)
        + if r.worker == w && HasTap(r.outcome) then [Delivery(r.outcome.tapId, r.from)] else []
  }

  /** The tap writes a worker has made, in order. */
  function WritesBy(log: seq<Effect>, w: nat): seq<Delivery> {
    if log == [] then []
    else
      var e := log[|log| - 1];
      WritesBy(log[..|log| - 1], w) + if e.worker == w && e.kind.Written? then [Delivery(e.tapId, e.peer)] else []
  }

  /** The delivery a worker has in hand. */
  function InHand(pc: Pc): (d: seq<Delivery>)
    ensures |d| <= 1
  {
    if Carrying(pc) then [Delivery(pc.tapId, pc.packet.from)] else []
  }

  ghost predicate DeliveryInv(s: State) {
    forall w :: 0 <= w < |s.threads| ==> Squared(s, w, s.threads[w].pc)
  }

  /** What the worker has written, and then what it has in hand, is what it owes. */
  ghost predicate Squared(s: State, w: nat, pc: Pc) {
    WritesBy(s.log, w) + InHand(pc) == OwedBy(s.history, w)
  }

  lemma OwedAppend(history: seq<Resolution>, r: Resolution, w: nat)
    ensures OwedBy(history + [r], w)
         == OwedBy(history, w) + if r.worker == w && HasTap(r.outcome) then [Delivery(r.outcome.tapId, r.from)] else []
  {
    assert (history + [r])[..|history|] == history;
  }

  lemma WritesAppend(log: seq<Effect>, e: Effect, w: nat)
    ensures WritesBy(log + [e], w)
         == WritesBy(log, w) + if e.worker == w && e.kind.Written? then [Delivery(e.tapId, e.peer)] else []
  {
    assert (log + [e])[..|log|] == log;
  }

  // ----- Steps -----

  ghost predicate OnlyWorker(s: State, w: nat, s': State)
    requires w < |s.threads|
  {
    |s'.threads| == |s.threads| && s'.threads == s.threads[w := s'.threads[w]]
  }

  /** Neither a write nor an answer with a tap. */
  ghost predicate Bystands(s: State, w: nat, s': State)
    requires w < |s.threads|
  {
    && OnlyWorker(s, w, s') && InHand(s'.threads[w].pc) == InHand(s.threads[w].pc)
    && (s'.log == s.log || (|s'.log| == |s.log| + 1 && s.log < s'.log && s'.log[|s.log|].kind.Sent?))
    && (s'.history == s.history ||
          (|s'.history| == |s.history| + 1 && s.history < s'.history && !HasTap(s'.history[|s.history|].outcome)))
  }

  /** An answer with a tap puts its delivery in hand. */
  ghost predicate TakesOn(s: State, w: nat, s': State)
    requires w < |s.threads|
  {
    && OnlyWorker(s, w, s') && s'.log == s.log && InHand(s.threads[w].pc) == []
    && |s'.history| == |s.history| + 1 && s.history < s'.history
    && var r := s'.history[|s.history|];
    r.worker == w && HasTap(r.outcome) && InHand(s'.threads[w].pc) == [Delivery(r.outcome.tapId, r.from)]
  }

  /** A write discharges the delivery in hand. */
  ghost predicate Discharges(s: State, w: nat, s': State)
    requires w < |s.threads|
  {
    && OnlyWorker(s, w, s') && s'.history == s.history && InHand(s'.threads[w].pc) == []
    && |s'.log| == |s.log| + 1 && s.log < s'.log
    && var e := s'.log[|s.log|];
    e.worker == w && e.kind.Written? && InHand(s.threads[w].pc) == [Delivery(e.tapId, e.peer)]
  }

  ghost predicate DeliveryStep(s: State, w: nat, s': State)
    requires w < |s.threads|
  {
    Bystands(s, w, s') || TakesOn(s, w, s') || Discharges(s, w, s')
  }

  lemma BystandingWrites(s: State, w: nat, s': State, v: nat)
    requires w < |s.threads| && Bystands(s, w, s')
    ensures WritesBy(s'.log, v) == WritesBy(s.log, v)
  {
    if s'.log != s.log {
      assert s'.log == s.log + [s'.log[|s.log|]];
      WritesAppend(s.log, s'.log[|s.log|], v);
    }
    hide WritesBy, InHand;
  }

  lemma BystandingOwes(s: State, w: nat, s': State, v: nat)
    requires w < |s.threads| && Bystands(s, w, s')
    ensures OwedBy(s'.history, v) == OwedBy(s.history, v)
  {
    if s'.history != s.history {
      assert s'.history == s.history + [s'.history[|s.history|]];
      OwedAppend(s.history, s'.history[|s.history|], v);
    }
    hide OwedBy, InHand;
  }

  lemma BystandingKeeps(s: State, w: nat, s': State, v: nat)
    requires w < |s.threads| && v < |s.threads| && Bystands(s, w, s') && Squared(s, v, s.threads[v].pc)
    ensures Squared(s', v, s'.threads[v].pc)
  {
    hide WritesBy, OwedBy, InHand;
    BystandingWrites(s, w, s', v);
    BystandingOwes(s, w, s', v);
    assert InHand(s'.threads[v].pc) == InHand(s.threads[v].pc);
  }

  lemma TakingOnKeeps(s: State, w: nat, s': State, v: nat)
    requires w < |s.threads| && v < |s.threads| && TakesOn(s, w, s') && Squared(s, v, s.threads[v].pc)
    ensures Squared(s', v, s'.threads[v].pc)
  {
    assert s'.history == s.history + [s'.history[|s.history|]];
    OwedAppend(s.history, s'.history[|s.history|], v);
    hide WritesBy, OwedBy;
  }

  lemma DischargingKeeps(s: State, w: nat, s': State, v: nat)
    requires w < |s.threads| && v < |s.threads| && Discharges(s, w, s') && Squared(s, v, s.threads[v].pc)
    ensures Squared(s', v, s'.threads[v].pc)
  {
    assert s'.log == s.log + [s'.log[|s.log|]];
    WritesAppend(s.log, s'.log[|s.log|], v);
    hide WritesBy, OwedBy;
  }

  lemma DeliveryStepKeeps(s: State, w: nat, s': State)
    requires w < |s.threads| && DeliveryInv(s) && DeliveryStep(s, w, s')
    ensures DeliveryInv(s')
  {
    assert |s'.threads| == |s.threads|;
    forall v | 0 <= v < |s'.threads| ensures Squared(s', v, s'.threads[v].pc) {
      assert Squared(s, v, s.threads[v].pc);
      hide Squared, Bystands, TakesOn, Discharges;
      if Bystands(s, w, s') {
        BystandingKeeps(s, w, s', v);
      } else if TakesOn(s, w, s') {
        TakingOnKeeps(s, w, s', v);
      } else {
        DischargingKeeps(s, w, s', v);
      }
    }
  }

  // ----- Each phase -----

  lemma EventsBystand(s: State, w: nat, a: Action)
    requires Enabled(s, w, a) && PhaseOf(a) == Events
    ensures Bystands(s, w, Apply(s, w, a))
  {
    hide BatchReady, Elements;
  }

  lemma CountingBystands(s: State, w: nat, a: Action)
    requires Enabled(s, w, a) && PhaseOf(a) == Counting
    ensures Bystands(s, w, Apply(s, w, a))
  {
  }

  lemma LockingBystands(s: State, w: nat, a: Action)
    requires Enabled(s, w, a) && PhaseOf(a) == Locking && Agrees(s.lock, w, s.threads[w].pc)
    ensures Bystands(s, w, Apply(s, w, a))
  {
  }

  lemma MappingBystands(s: State, w: nat, a: Action)
    requires Enabled(s, w, a) && PhaseOf(a) == Mapping
    ensures Bystands(s, w, Apply(s, w, a))
  {
    hide TryInsert, Attempt, Cleared, Saved;
  }

  lemma TransferDelivers(s: State, w: nat, a: Action)
    requires Enabled(s, w, a) && PhaseOf(a) == Transfer
    requires s.threads[w].pc.Deliver? ==> s.threads[w].pc.tapId < |s.taps|
    ensures if a.WriteTap? then Discharges(s, w, Apply(s, w, a)) else Bystands(s, w, Apply(s, w, a))
  {
  }

  lemma ResolvingDelivers(s: State, w: nat, a: Action)
    requires Enabled(s, w, a) && PhaseOf(a) == Resolving
    ensures DeliveryStep(s, w, Apply(s, w, a))
  {
    hide FindIn, Allowed;
  }

  lemma AllocatingDelivers(s: State, w: nat, a: Action)
    requires Enabled(s, w, a) && PhaseOf(a) == Allocating
    ensures DeliveryStep(s, w, Apply(s, w, a))
  {
    hide FreshFds, Registered;
  }

  lemma StepDelivers(s: State, w: nat, a: Action)
    requires Enabled(s, w, a) && LockInv(s) && DirInv(s)
    ensures DeliveryStep(s, w, Apply(s, w, a))
  {
    assert Agrees(s.lock, w, s.threads[w].pc) && PcFits(s, s.threads[w].pc);
    assert s.threads[w].pc.Deliver? ==> s.threads[w].pc.tapId < |s.taps|;
    hide Enabled, Apply, LockInv, DirInv, PcFits, Agrees, Bystands, TakesOn, Discharges;
    match PhaseOf(a)
    case Events => EventsBystand(s, w, a);
    case Locking => LockingBystands(s, w, a);
    case Transfer => TransferDelivers(s, w, a);
    case Counting => CountingBystands(s, w, a);
    case Mapping => MappingBystands(s, w, a);
    case Resolving => ResolvingDelivers(s, w, a);
    case Allocating => AllocatingDelivers(s, w, a);
  }

  // ----- Runs -----

  lemma {:induction false} LeadsKeepsDeliveries(s: State, moves: seq<Move>, s': State)
    requires Reachable(s) && DeliveryInv(s) && Leads(s, moves, s')
    ensures DeliveryInv(s')
    decreases |moves|
  {
    if moves == [] {
    } else {
      var last := |moves| - 1;
      var w, a := moves[last].worker, moves[last].action;
      var mid :| Leads(s, moves[..last], mid) && Enabled(mid, w, a) && s' == Apply(mid, w, a);
      LeadsKeepsDeliveries(s, moves[..last], mid);
      ReachableOnward(s, moves[..last], mid);
      assert w < |mid.threads|;
      hide Reachable, Leads, Enabled, Apply, DeliveryInv, DeliveryStep, LockInv, DirInv;
      ReachableDirectory(mid);
      StepDelivers(mid, w, a);
      DeliveryStepKeeps(mid, w, s');
    }
  }

  /** Each worker has written to taps, in order, exactly the datagrams it has answered with a tap, less the one
      it may have in hand, and each to the tap of its answer: none is lost, none is written twice. */
  lemma AnsweredIsWrittenOnce(s: State, w: nat)
    requires Reachable(s) && w < |s.threads|
    ensures WritesBy(s.log, w) + InHand(s.threads[w].pc) == OwedBy(s.history, w)
  {
    var s0, moves :| Init(s0) && Leads(s0, moves, s);
    assert DeliveryInv(s0);
    assert Reachable(s0) by {
      assert Leads(s0, [], s0);
    }
    hide Init, Leads, Reachable;
    LeadsKeepsDeliveries(s0, moves, s);
    assert Squared(s, w, s.threads[w].pc);
  }
}
