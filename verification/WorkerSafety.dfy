/** The worker protocol over whole runs: one invariant, and what every reachable state satisfies. */
module WorkerSafety {
  import opened Bits
  import opened IpAddr
  import opened EndpointHash
  import opened EndpointTable
  import opened Worker
  import opened WorkerLock
  import opened WorkerDirectory
  import opened WorkerQueues
  import opened WorkerEvents
  import opened WorkerHistory
  import opened WorkerStats

  ghost predicate Inv(s: State, first: seq<Endpoint>) {
    && |s.threads| >= 1
    && (forall w :: 0 <= w < |s.threads| ==> s.threads[w].queue < |s.threads|)
    && LockInv(s) && DirInv(s) && QueueInv(s) && PollInv(s)
    && EventInv(s) && Complete(s)
    && HistoryInv(s, first)
    && StatsInv(s) && RoutingInv(s)
  }

  // ----- Initial states -----

  lemma InitSettled(s: State)
    requires FirstTable(s) && |s.taps| <= 1
    ensures Settled(s)
    ensures |s.taps| == 1 ==> |s.taps[0].fds| == |s.threads| && |s.stats| > 0 && |s.stats[0]| == |s.threads|
  {
    var a: u32, b: u32 :| FirstTableWith(s, a, b);
    ClearedAtFirst(a, b);
    hide Valid, Cleared, Overlay, TryInsert, Mirror;
    MirrorFirst(s.taps);
    if |s.taps| > 0 {
      FirstInsert(Cleared(32, a, b), s.taps[0].endpoint);
    }
  }

  lemma MirrorFirst(taps: seq<Tap>)
    requires |taps| <= 1
    ensures Mirror(if taps == [] then map[] else map[taps[0].endpoint := 0], taps, |taps|)
  {
  }

  lemma ClearedAtFirst(a: u32, b: u32)
    ensures Valid(Cleared(32, a, b)) && Overlay(Cleared(32, a, b).entries) == map[]
  {
    assert PowerOfTwo(32) by { assert Pow2(5) == 32; }
    ClearedValid(32, a, b);
    hide Valid, Cleared, Overlay;
  }

  lemma InitDirectory(s: State)
    requires Init(s)
    ensures DirInv(s)
  {
    assert FirstTable(s) && |s.taps| <= 1;
    InitSettled(s);
    hide Settled, FirstTable, FirstPoll, Init;
    InitShape(s);
    forall w | 0 <= w < |s.threads| ensures PcFits(s, s.threads[w].pc) {
      assert s.threads[w].pc == Boot;
    }
  }

  lemma InitShape(s: State)
    requires Init(s)
    requires |s.taps| == 1 ==> |s.taps[0].fds| == |s.threads| && |s.stats| > 0 && |s.stats[0]| == |s.threads|
    ensures Shape(s) && forall w :: 0 <= w < |s.threads| ==> s.threads[w].pc == Boot
  {
    hide FirstTable, FirstPoll;
  }

  lemma FirstInsert(t: Table, k: Endpoint)
    requires Valid(t) && Overlay(t.entries) == map[]
    ensures TryInsert(t, k, 0).Put? ==>
              Valid(TryInsert(t, k, 0).table) && Overlay(TryInsert(t, k, 0).table.entries) == map[k := 0]
  {
    InsertAgrees(t, k, 0);
    Field31Exact(0);
  }

  lemma InitQueues(s: State)
    requires Init(s)
    ensures QueueInv(s) && PollInv(s)
  {
    CountBootAll(s.threads);
    hide FirstTable, CountBoot;
    forall q | 0 <= q < |s.polls| ensures Accounted(s.polls[q], {}) {
      assert s.polls[q] == FirstPoll(s, q);
    }
  }

  lemma InitEvents(s: State)
    requires Init(s)
    ensures EventInv(s) && Complete(s)
  {
    forall q | 0 <= q < |s.polls| ensures UdpRegistered(s, q) {
      assert s.polls[q] == FirstPoll(s, q);
    }
    forall q, e | 0 <= q < |s.polls| && e in s.polls[q].registered ensures Known(s, q, e) {
      assert s.polls[q] == FirstPoll(s, q);
    }
    InitDirectory(s);
    forall id, q | 0 <= id < |s.taps| && 0 <= q < |s.polls| ensures TapRegistered(s, id, q) {
      assert s.polls[q] == FirstPoll(s, q);
    }
  }

  lemma InitHistory(s: State)
    requires Init(s)
    ensures HistoryInv(s, Endpoints(s.taps))
  {
  }

  lemma InitStats(s: State)
    requires Init(s)
    ensures StatsInv(s) && RoutingInv(s)
  {
    hide Cleared, TryInsert;
    forall id: nat, q: nat, c | HasSlot(s, id, q) ensures Settles(s, id, q, c) {
      assert s.stats[id][q] == ZERO_STATS;
    }
  }

  lemma InitInv(s: State)
    requires Init(s)
    ensures Inv(s, Endpoints(s.taps))
  {
    InitLock(s);
    InitDirectory(s);
    InitQueues(s);
    InitEvents(s);
    InitHistory(s);
    InitStats(s);
    hide LockInv, DirInv, QueueInv, PollInv, EventInv, Complete, HistoryInv, StatsInv, RoutingInv, FirstTable;
  }

  // ----- Steps -----

  /** The event a worker is handling carries the queue's own descriptor of the tap it names exactly
      when it is not an orphan; so an event that names no counted tap is one. */
  lemma HandledEvent(s: State, w: nat, first: seq<Endpoint>)
    requires Inv(s, first) && w < |s.threads| && InTap(s.threads[w].pc)
    ensures var t := s.threads[w];
            && t.next < |t.batch| && t.batch[t.next].TapReady?
            && var e := t.batch[t.next];
            && (OwnFd(s, t.queue, e.tapId, e.fd) <==> Orphan(t.queue, e) !in s.orphans)
            && (TapNamed(s, w).None? ==> Orphan(t.queue, e) in s.orphans)
  {
    var t := s.threads[w];
    assert BatchOk(t) && Agrees(s.lock, w, t.pc);
    var e := t.batch[t.next];
    assert e in Pending(t) by { assert t.batch[t.next..][0] == e; }
    assert Accounted(s.polls[t.queue], Pending(t));
    assert Known(s, t.queue, e);
    if Orphan(t.queue, e) in s.orphans {
      assert Foreign(s, Orphan(t.queue, e));
    }
  }

  /** A step ends in a fault exactly when it reads a tap through an event that names no counted tap. */
  ghost predicate FaultsAsNamed(s: State, w: nat, a: Action)
    requires Enabled(s, w, a)
  {
    var s' := Apply(s, w, a);
    w < |s'.threads| && (s'.threads[w].pc.Fault? <==> (a.TapNothing? || a.TapFrame?) && TapNamed(s, w).None?)
  }

  /** What the other steps rely on to reach no fault. */
  ghost predicate Guarded(s: State, w: nat)
    requires w < |s.threads|
  {
    && Shape(s) && s.threads[w].queue < |s.threads|
    && BatchOk(s.threads[w]) && Agrees(s.lock, w, s.threads[w].pc) && PcFits(s, s.threads[w].pc)
  }

  lemma TransferFaults(s: State, w: nat, a: Action)
    requires Enabled(s, w, a) && PhaseOf(a) == Transfer && Guarded(s, w)
    ensures FaultsAsNamed(s, w, a)
  {
    hide Distinct, Overlay, Valid, Awaiting, Unknown;
  }

  lemma LoopFaults(s: State, w: nat, a: Action)
    requires Enabled(s, w, a) && Guarded(s, w)
    requires PhaseOf(a) == Locking || PhaseOf(a) == Counting || PhaseOf(a) == Events
    ensures FaultsAsNamed(s, w, a)
  {
    hide Distinct, Overlay, Valid, Awaiting, Unknown, Elements, BatchReady, TapNamed;
  }

  lemma DirectoryFaults(s: State, w: nat, a: Action)
    requires Enabled(s, w, a) && (PhaseOf(a) == Resolving || PhaseOf(a) == Allocating || PhaseOf(a) == Mapping)
    ensures FaultsAsNamed(s, w, a)
  {
    hide FindIn, Allowed, TryInsert, Attempt, Cleared, FreshFds, TapNamed;
  }

  lemma StepFaults(s: State, w: nat, a: Action, first: seq<Endpoint>)
    requires Inv(s, first) && Enabled(s, w, a)
    ensures FaultsAsNamed(s, w, a)
    ensures Apply(s, w, a).threads[w].pc.Fault? ==> s.orphans != {}
  {
    assert BatchOk(s.threads[w]) && Agrees(s.lock, w, s.threads[w].pc) && PcFits(s, s.threads[w].pc);
    if InTap(s.threads[w].pc) {
      HandledEvent(s, w, first);
    }
    assert Guarded(s, w);
    assert a.TapNothing? || a.TapFrame? ==> InTap(s.threads[w].pc);
    hide Inv, Guarded, Enabled, Apply, TapNamed;
    match PhaseOf(a)
    case Transfer => TransferFaults(s, w, a);
    case Locking => LoopFaults(s, w, a);
    case Counting => LoopFaults(s, w, a);
    case Events => LoopFaults(s, w, a);
    case Resolving => DirectoryFaults(s, w, a);
    case Allocating => DirectoryFaults(s, w, a);
    case Mapping => DirectoryFaults(s, w, a);
  }

  lemma AllocatingKeepsEvents(s: State, w: nat, a: Action)
    requires Enabled(s, w, a) && PhaseOf(a) == Allocating
    requires LockInv(s) && Shape(s) && PcFits(s, s.threads[w].pc) && EventInv(s) && Complete(s)
    ensures EventInv(Apply(s, w, a)) && Complete(Apply(s, w, a))
  {
    WriterIsSole(s, w);
    hide LockInv, EventInv, Complete, SoleRegistrar, Apply;
    if a.CreateTap? {
      CreateKeepsEvents(s, w, a.created);
    } else if a.RegisterFd? {
      RegisterKeepsEvents(s, w, a.ok);
    } else {
      PublishKeepsEvents(s, w);
    }
  }

  lemma StepKeepsEvents(s: State, w: nat, a: Action, first: seq<Endpoint>)
    requires Inv(s, first) && Enabled(s, w, a)
    ensures EventInv(Apply(s, w, a)) && Complete(Apply(s, w, a))
  {
    StepFaults(s, w, a, first);
    assert PcFits(s, s.threads[w].pc) && Shape(s);
    hide LockInv, DirInv, QueueInv, PollInv, EventInv, Complete, HistoryInv, StatsInv, RoutingInv;
    hide Shape, PcFits, Apply, Enabled;
    if PhaseOf(a) == Allocating {
      AllocatingKeepsEvents(s, w, a);
    } else {
      StepQuiet(s, w, a);
      StepMovesLock(s, w, a);
      hide QuietEvents, LockMove;
      QuietKeepsEvents(s, w, Apply(s, w, a));
    }
  }

  lemma StepKeepsInv(s: State, w: nat, a: Action, first: seq<Endpoint>)
    requires Inv(s, first) && Enabled(s, w, a)
    ensures Inv(Apply(s, w, a), first)
  {
    var s' := Apply(s, w, a);
    assert PcFits(s, s.threads[w].pc) && Shape(s) && StillFresh(s, s.threads[w].pc);
    assert Aimed(s, w);
    StepKeepsRanges(s, w, a);
    hide Apply, Enabled, PcFits, StillFresh, Aimed, Shape;
    hide LockInv, DirInv, QueueInv, PollInv, EventInv, Complete, HistoryInv, StatsInv, RoutingInv;
    StepMovesLock(s, w, a);
    MoveKeepsLockInv(s, w, s');
    StepKeepsDirectory(s, w, a);
    StepKeepsQueues(s, w, a);
    StepKeepsEvents(s, w, a, first);
    StepKeepsHistory(s, w, a, first);
    QueuesAreOwn(s);
    StepKeepsStats(s, w, a);
  }

  lemma StepKeepsRanges(s: State, w: nat, a: Action)
    requires Enabled(s, w, a) && QueueInv(s) && PollInv(s)
    requires forall v :: 0 <= v < |s.threads| ==> s.threads[v].queue < |s.threads|
    ensures |Apply(s, w, a).threads| == |s.threads|
    ensures forall v :: 0 <= v < |s.threads| ==> Apply(s, w, a).threads[v].queue < |s.threads|
  {
    assert BatchOk(s.threads[w]);
    if a == Start {
      StartKeepsQueues(s, w);
    } else if PhaseOf(a) == Events {
      EventStepsKeepBatch(s, w, a);
    } else {
      OthersKeepBatch(s, w, a);
    }
    hide BatchOk, QueueInv, PollInv;
  }

  // ----- Runs -----

  lemma {:induction false} LeadsKeepsInv(s: State, moves: seq<Move>, s': State, first: seq<Endpoint>)
    requires Inv(s, first) && Leads(s, moves, s')
    ensures Inv(s', first)
    decreases |moves|
  {
    hide Inv, Enabled, Apply;
    if moves == [] {
    } else {
      var last := |moves| - 1;
      var mid :| && Leads(s, moves[..last], mid)
                 && Enabled(mid, moves[last].worker, moves[last].action)
                 && s' == Apply(mid, moves[last].worker, moves[last].action);
      LeadsKeepsInv(s, moves[..last], mid, first);
      StepKeepsInv(mid, moves[last].worker, moves[last].action, first);
    }
  }

  /** Every reachable state satisfies the invariant, for the endpoints configured at creation. */
  lemma ReachableInv(s: State) returns (first: seq<Endpoint>)
    requires Reachable(s)
    ensures Inv(s, first) && Distinct(first) && |first| <= 1
  {
    hide Inv, Leads;
    var s0, moves :| Init(s0) && Leads(s0, moves, s);
    first := Endpoints(s0.taps);
    InitInv(s0);
    LeadsKeepsInv(s0, moves, s, first);
  }

  lemma ReachableDirectory(s: State)
    requires Reachable(s)
    ensures LockInv(s) && DirInv(s)
  {
    var first := ReachableInv(s);
    hide LockInv, DirInv, QueueInv, PollInv, EventInv, Complete, HistoryInv, StatsInv, RoutingInv;
  }

  lemma QueueInRange(s: State, w: nat)
    requires Reachable(s) && w < |s.threads|
    ensures s.threads[w].queue < |s.threads|
  {
    var first := ReachableInv(s);
    hide LockInv, DirInv, QueueInv, PollInv, EventInv, Complete, HistoryInv, StatsInv, RoutingInv;
  }
}
