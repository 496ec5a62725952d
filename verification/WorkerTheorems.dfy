/** What holds of the worker protocol in every reachable state, and over every run. */
module WorkerTheorems {
  import opened IpAddr
  import opened EndpointTable
  import opened EndpointMap
  import opened Worker
  import opened Wrappers
  import opened WorkerLock
  import opened WorkerDirectory
  import opened WorkerQueues
  import opened WorkerEvents
  import opened WorkerHistory
  import opened WorkerStats
  import opened WorkerTotals
  import opened WorkerSafety

  // ----- Linearisability -----

  /** Every interleaving refines a sequential run of lookup-or-allocate. The answers given so far are
      such a run, starting from the configured endpoint and ending at the endpoints of the taps; the
      sources each worker has answered, in order, are those of the datagrams it has received, less the
      one it may still be working on; and a worker about to deliver carries the id of its latest answer,
      which was for that datagram's source. */
  lemma Linearisable(s: State) returns (first: seq<Endpoint>)
    requires Reachable(s)
    ensures |first| <= 1
    ensures Sequential(s.cfg, first, s.history)
    ensures Served(first, s.history) == Endpoints(s.taps)
    ensures |s.received| == |s.threads|
    ensures forall w :: 0 <= w < |s.threads| ==>
              PcHistory(s.cfg, s.history, s.received[w], w, s.threads[w].pc)
  {
    first := ReachableInv(s);
  }

  /** The steps at which an answer is given: the first lookup when the source has a tap or is not allowed,
      otherwise the second lookup when it has one by then, and else where the tap is counted or given up. */
  ghost predicate Answering(s: State, w: nat, a: Action)
    requires Enabled(s, w, a)
  {
    var pc := s.threads[w].pc;
    || (a == LookUp && (!Unknown(s.taps, pc.packet.from) || !Allowed(s.cfg, pc.packet.from.addr)))
    || (a == LookUpAgain && !Unknown(s.taps, pc.packet.from))
    || (a == CreateTap(None) && pc.packet.from.port != 0)
    || a == RegisterFd(false)
    || a == Publish
  }

  /** One more answer, for the source of the datagram at hand, and one the sequential server may give. */
  ghost predicate AnswersSource(s: State, w: nat, s': State)
    requires w < |s.threads|
  {
    && |s'.history| == |s.history| + 1 && s.history < s'.history
    && var r, pc := s'.history[|s.history|], s.threads[w].pc;
    && r.worker == w && Unanswered(pc) && r.from == pc.packet.from && Answers(s.cfg, Endpoints(s.taps), r)
  }

  lemma ReachableHistory(s: State, w: nat)
    requires Reachable(s) && w < |s.threads|
    ensures |s.received| == |s.threads| && PcHistoryAt(s, w) && PcFits(s, s.threads[w].pc)
    ensures Holding(s.threads[w].pc) != Nothing && !MidUpdate(s.threads[w].pc) ==> Settled(s)
  {
    var first := ReachableInv(s);
    assert HistoryInv(s, first) && LockInv(s) && DirInv(s);
    hide Inv, PcHistory, PcFits, Settled, LockInv;
    if Holding(s.threads[w].pc) != Nothing && !MidUpdate(s.threads[w].pc) {
      HolderSeesSettled(s, w);
    }
  }

  /** Answers are given at exactly these steps. */
  lemma AnswerPoints(s: State, w: nat, a: Action)
    requires Reachable(s) && Enabled(s, w, a)
    ensures if Answering(s, w, a) then AnswersSource(s, w, Apply(s, w, a)) else Apply(s, w, a).history == s.history
  {
    ReachableHistory(s, w);
    hide Apply, PcHistoryAt, PcFits, Settled, AnswersSource, Unknown, Allowed, Reachable;
    if PhaseOf(a) == Resolving {
      ResolvingAnswers(s, w, a);
    } else if PhaseOf(a) == Allocating {
      AllocatingAnswers(s, w, a);
    } else {
      OthersAnswerNothing(s, w, a);
    }
  }

  lemma ResolvingAnswers(s: State, w: nat, a: Action)
    requires Enabled(s, w, a) && PhaseOf(a) == Resolving && Settled(s)
    ensures if Answering(s, w, a) then AnswersSource(s, w, Apply(s, w, a)) else Apply(s, w, a).history == s.history
  {
    SettledLookup(s, s.threads[w].pc.packet.from);
    UnknownIsNotIn(s.taps, s.threads[w].pc.packet.from);
    hide FindIn, Allowed, Unknown, Settled;
  }

  lemma AllocatingAnswers(s: State, w: nat, a: Action)
    requires Enabled(s, w, a) && PhaseOf(a) == Allocating && |s.received| == |s.threads| && PcHistoryAt(s, w)
    requires PcFits(s, s.threads[w].pc)
    ensures if Answering(s, w, a) then AnswersSource(s, w, Apply(s, w, a)) else Apply(s, w, a).history == s.history
  {
    UnknownIsNotIn(s.taps, s.threads[w].pc.packet.from);
    ContendingAllowed(s, w);
    hide Allowed, Unknown, SourcesBy, LastBy, FreshFds, Registered, PcHistory, PcHistoryAt, PcFits;
  }

  lemma OthersAnswerNothing(s: State, w: nat, a: Action)
    requires Enabled(s, w, a) && PhaseOf(a) != Resolving && PhaseOf(a) != Allocating
    ensures !Answering(s, w, a) && Apply(s, w, a).history == s.history
  {
    hide BatchReady, Elements, TryInsert, Attempt, Cleared, Saved;
  }

  /** The ids of new taps come out as consecutive numbers, and no endpoint is ever given two. */
  lemma IdsAreConsecutiveAndUnique(s: State)
    requires Reachable(s)
    ensures forall i :: 0 <= i < |s.history| && s.history[i].outcome.Fresh? ==>
              s.history[i].outcome.tapId + CountFresh(s.history) == |s.taps| + CountFresh(s.history[..i])
    ensures forall i, j :: 0 <= i < j < |s.history| && s.history[i].from == s.history[j].from
              && (s.history[i].outcome.Got? || s.history[i].outcome.Fresh?)
              ==> s.history[j].outcome == Got(s.history[i].outcome.tapId)
  {
    var first := ReachableInv(s);
    ServedLength(first, s.history);
    forall i | 0 <= i < |s.history| && s.history[i].outcome.Fresh?
      ensures s.history[i].outcome.tapId + CountFresh(s.history) == |s.taps| + CountFresh(s.history[..i])
    {
      FreshIdsInOrder(s.cfg, first, s.history, i);
    }
    forall i, j | 0 <= i < j < |s.history| && s.history[i].from == s.history[j].from
                  && (s.history[i].outcome.Got? || s.history[i].outcome.Fresh?)
      ensures s.history[j].outcome == Got(s.history[i].outcome.tapId)
    {
      OneIdPerEndpoint(s.cfg, first, s.history, i, j);
    }
  }

  // ----- Who is admitted -----

  /** Some entry's mask and the address have a set bit in common. */
  ghost predicate SharesBit(list: seq<Cidr.Entry>, a: Addr) {
    exists i: nat, n: nat :: i < |list| && n < 128 && Cidr.NetBit(a, n) && Cidr.NetBit(list[i].mask, n)
  }

  lemma AllowedIff(cfg: Config, a: Addr)
    ensures Allowed(cfg, a) <==> cfg.allowed.Some? && SharesBit(cfg.allowed.value, a)
  {
    if cfg.allowed.Some? {
      var list := cfg.allowed.value;
      forall i | 0 <= i < |list|
        ensures Cidr.Match(list[i], a) <==>
                  exists n: nat :: n < 128 && Cidr.NetBit(a, n) && Cidr.NetBit(list[i].mask, n)
      {
        Cidr.MatchBits(list[i], a);
      }
      hide Cidr.Match, Cidr.NetBit;
    }
  }

  /** Every answer is one the sequential server may give in its place. */
  lemma AnswersInPlace(s: State, i: nat) returns (eps: seq<Endpoint>)
    requires Reachable(s) && i < |s.history|
    ensures Answers(s.cfg, eps, s.history[i])
  {
    var first := ReachableInv(s);
    assert HistoryInv(s, first);
    hide Inv;
    SequentialPrefix(s.cfg, first, s.history, i + 1);
    assert s.history[..i + 1][..i] == s.history[..i];
    eps := Served(first, s.history[..i]);
  }

  /** Without an allow list no source but the configured endpoint ever gets a tap: every other one is refused. */
  lemma NoListNoStrangers(s: State)
    requires Reachable(s) && s.cfg.allowed.None?
    ensures |s.taps| <= 1
    ensures forall i :: 0 <= i < |s.history| ==> s.history[i].outcome.Got? || s.history[i].outcome.Refused?
  {
    forall i | 0 <= i < |s.history| ensures s.history[i].outcome.Got? || s.history[i].outcome.Refused? {
      var eps := AnswersInPlace(s, i);
      AllowedIff(s.cfg, s.history[i].from.addr);
    }
    var first := ReachableInv(s);
    assert HistoryInv(s, first);
    hide Inv, Reachable;
    ServedLength(first, s.history);
    NothingFresh(s.history);
  }

  lemma {:induction false} NothingFresh(history: seq<Resolution>)
    requires forall i :: 0 <= i < |history| ==> !history[i].outcome.Fresh?
    ensures CountFresh(history) == 0
  {
    if history == [] {
    } else {
      NothingFresh(history[..|history| - 1]);
    }
  }

  /** With an allow list a source without a tap is tried for one exactly when some entry's mask shares a set bit
      with its address, and refused otherwise. */
  lemma ListDecides(s: State, i: nat)
    requires Reachable(s) && s.cfg.allowed.Some? && i < |s.history|
    ensures s.history[i].outcome.Fresh? || s.history[i].outcome.NoTap? ==>
              SharesBit(s.cfg.allowed.value, s.history[i].from.addr)
    ensures s.history[i].outcome.Refused? ==> !SharesBit(s.cfg.allowed.value, s.history[i].from.addr)
  {
    var eps := AnswersInPlace(s, i);
    AllowedIff(s.cfg, s.history[i].from.addr);
    hide Reachable, Allowed, SharesBit;
  }

  // ----- The table and the taps -----

  /** With no worker in the middle of adding to the table, looking up an endpoint gives exactly the
      tap that holds it: table and taps are inverse to each other. */
  lemma TableMirrorsTaps(s: State, k: Endpoint, id: nat)
    requires Reachable(s) && NobodyMidUpdate(s)
    ensures FindIn(s.table, k) == id <==> Names(s.taps, id, k)
    ensures FindIn(s.table, k) < 0 <==> Unknown(s.taps, k)
  {
    var first := ReachableInv(s);
    SettledLookup(s, k);
    if Names(s.taps, id, k) {
      OneTapPerEndpoint(s.taps, id, FindIn(s.table, k), k);
    }
  }

  lemma OneTapPerEndpoint(taps: seq<Tap>, i: nat, j: nat, k: Endpoint)
    requires forall a, b :: 0 <= a < b < |taps| ==> taps[a].endpoint != taps[b].endpoint
    requires Names(taps, i, k) && Names(taps, j, k)
    ensures i == j
  {
  }

  /** A step keeps every tap with its endpoint, and only adds to the history and the log. */
  ghost predicate Extends(s: State, s': State) {
    && s.taps <= s'.taps && s.history <= s'.history && s.log <= s'.log && s'.cfg == s.cfg
  }

  lemma LoopExtends(s: State, w: nat, a: Action)
    requires Enabled(s, w, a) && PhaseOf(a) != Allocating && PhaseOf(a) != Mapping && PhaseOf(a) != Transfer
    ensures Extends(s, Apply(s, w, a))
  {
    hide FindIn, Allowed, BatchReady, Elements;
  }

  lemma AllocatingExtends(s: State, w: nat, a: Action)
    requires Enabled(s, w, a) && PhaseOf(a) == Allocating
    ensures Extends(s, Apply(s, w, a))
  {
    hide FreshFds;
  }

  lemma OthersExtend(s: State, w: nat, a: Action)
    requires Enabled(s, w, a) && (PhaseOf(a) == Mapping || PhaseOf(a) == Transfer)
    ensures Extends(s, Apply(s, w, a))
  {
    hide TryInsert, Attempt, Cleared;
  }

  /** Assignments never change: whatever follows a state, its taps keep their ids and endpoints. */
  lemma {:induction false} AssignmentsNeverChange(s: State, moves: seq<Move>, s': State)
    requires Leads(s, moves, s')
    ensures Extends(s, s')
    decreases |moves|
  {
    if moves == [] {
    } else {
      var last := |moves| - 1;
      var w, a := moves[last].worker, moves[last].action;
      var mid :| Leads(s, moves[..last], mid) && Enabled(mid, w, a) && s' == Apply(mid, w, a);
      AssignmentsNeverChange(s, moves[..last], mid);
      hide Enabled, Apply, Leads;
      if PhaseOf(a) == Allocating {
        AllocatingExtends(mid, w, a);
      } else if PhaseOf(a) == Mapping || PhaseOf(a) == Transfer {
        OthersExtend(mid, w, a);
      } else {
        LoopExtends(mid, w, a);
      }
    }
  }

  // ----- The lock -----

  /** In every reachable state each worker holds exactly what its program point says, so every acquire
      is matched by one release; and a worker that must wait is waiting for one that can step. */
  lemma LockDiscipline(s: State, w: nat)
    requires Reachable(s) && w < |s.threads|
    ensures Agrees(s.lock, w, s.threads[w].pc)
    ensures forall v :: 0 <= v < |s.threads| && v != w && Holding(s.threads[w].pc) == Exclusive
              ==> Holding(s.threads[v].pc) == Nothing
  {
    var first := ReachableInv(s);
    forall v | 0 <= v < |s.threads| && v != w && Holding(s.threads[w].pc) == Exclusive
      ensures Holding(s.threads[v].pc) == Nothing
    {
      WriterAlone(s, w, v);
    }
  }

  lemma ReachableIndexed(s: State)
    requires Reachable(s)
    ensures Indexed(s) && LockInv(s)
  {
    var first := ReachableInv(s);
    assert DirInv(s) && LockInv(s);
    hide Inv, LockInv;
    DirectoryIndexed(s);
  }

  lemma DirectoryIndexed(s: State)
    requires DirInv(s)
    ensures Indexed(s)
  {
    hide Settled, Valid, Overlay, Unknown, Awaiting;
    forall u | 0 <= u < |s.threads|
      ensures s.threads[u].pc.Register? ==> |s.threads[u].pc.fds| == |s.threads| && s.threads[u].pc.done <= |s.threads|
    {
      assert PcFits(s, s.threads[u].pc);
    }
  }

  /** Unless the assertion on the port has ended the program, no worker waits for the lock in vain: its
      request can be granted, or another worker holds the lock and can step unless it has faulted. */
  lemma NoDeadlock(s: State, w: nat) returns (v: nat)
    requires Reachable(s) && w < |s.threads| && Waiting(s.threads[w].pc)
    ensures s.aborted ==> forall u: nat :: !CanStep(s, u)
    ensures !s.aborted && Grantable(s, w) ==> v == w && CanStep(s, w)
    ensures !s.aborted && !Grantable(s, w) ==>
              v != w && v < |s.threads| && s.lock.Held(v) && (CanStep(s, v) <==> !s.threads[v].pc.Fault?)
  {
    ReachableIndexed(s);
    hide Reachable, LockInv, Indexed;
    v := BlockedByRunner(s, w);
  }

  /** The table, the taps and the tap array change only under the write hold. */
  lemma SharedStateIsGuarded(s: State, w: nat, a: Action)
    requires Reachable(s) && Enabled(s, w, a)
    ensures var s' := Apply(s, w, a);
            s'.table != s.table || s'.taps != s.taps || s'.generation != s.generation || s'.slots != s.slots
            ==> s.lock == Lock({}, Some(w))
  {
    var first := ReachableInv(s);
    SharedWritesAreExclusive(s, w, a);
  }

  // ----- Pointers and ids -----

  /** A step follows a stale or dangling pointer exactly when it reads a tap through an event that names no
      counted tap, and then that event was left by an abandoned tap. No other step of any worker faults. */
  lemma FaultsExactly(s: State, w: nat, a: Action)
    requires Reachable(s) && Enabled(s, w, a)
    ensures a.TapNothing? || a.TapFrame? ==>
              s.threads[w].next < |s.threads[w].batch| && s.threads[w].batch[s.threads[w].next].TapReady?
    ensures var t := s.threads[w];
            && |Apply(s, w, a).threads| == |s.threads|
            && (Apply(s, w, a).threads[w].pc.Fault? <==>
                  (a.TapNothing? || a.TapFrame?) && t.batch[t.next].tapId >= |s.taps|)
            && (Apply(s, w, a).threads[w].pc.Fault? ==> Orphan(t.queue, t.batch[t.next]) in s.orphans)
  {
    var first := ReachableInv(s);
    StepFaults(s, w, a, first);
    assert |Apply(s, w, a).threads| == |s.threads| by { StepMovesLock(s, w, a); }
    if a.TapNothing? || a.TapFrame? {
      HandledEvent(s, w, first);
    }
    hide Inv, Enabled, Apply;
  }

  /** So no worker has faulted while no tap has been abandoned half registered. */
  lemma NoFault(s: State, w: nat)
    requires Reachable(s) && s.orphans == {} && w < |s.threads|
    ensures !s.threads[w].pc.Fault?
  {
    var first := ReachableInv(s);
  }

  /** A tap pointer held across the read of a frame belongs to the current tap array, and an id carried
      from a lookup, also across the change from the write to the read lock, is the endpoint's own. */
  lemma CarriedIdsAreGood(s: State, w: nat)
    requires Reachable(s) && w < |s.threads|
    ensures match s.threads[w].pc
            case TapSend(id, generation, _) => id < |s.taps| && generation == s.generation
            case Unwrite(p, id) => Names(s.taps, id, p.from)
            case Downgrade(p, id) => Names(s.taps, id, p.from)
            case MapAdd(p, id) => Names(s.taps, id, p.from)
            case Rebuild(p, id, _) => Names(s.taps, id, p.from)
            case Deliver(p, id) => Names(s.taps, id, p.from)
            case _ => true
  {
    var first := ReachableInv(s);
    assert PcFits(s, s.threads[w].pc);
  }

  /** The events left behind grow exactly when a registration fails after the first descriptor, and then by
      the events registered so far, which name a tap that is not counted. */
  lemma OrphansGrowExactly(s: State, w: nat, a: Action)
    requires Reachable(s) && Enabled(s, w, a)
    ensures var s', pc := Apply(s, w, a), s.threads[w].pc;
            && (s'.orphans != s.orphans <==> a == RegisterFd(false) && pc.done > 0)
            && (a == RegisterFd(false) ==>
                  && s'.taps == s.taps && s'.orphans == s.orphans + Registered(|s.taps|, pc.fds, pc.done)
                  && forall o :: o in Registered(|s.taps|, pc.fds, pc.done) ==>
                       o !in s.orphans && o.queue < |s'.polls| && o.event in s'.polls[o.queue].registered)
  {
    if a == RegisterFd(false) {
      ReachableRegistering(s, w);
      hide Reachable;
      GivingUpLeaves(s, w);
    } else {
      hide Reachable, Enabled, Apply;
      OthersLeaveOrphans(s, w, a);
    }
  }

  lemma ReachableRegistering(s: State, w: nat)
    requires Reachable(s) && w < |s.threads|
    ensures RegisteredSoFar(s, s.threads[w].pc) && NoOrphanIn(s, s.threads[w].pc)
  {
    var first := ReachableInv(s);
    assert EventInv(s) && Complete(s);
    hide Inv, RegisteredSoFar, NoOrphanIn;
  }

  lemma GivingUpLeaves(s: State, w: nat)
    requires Enabled(s, w, RegisterFd(false)) && RegisteredSoFar(s, s.threads[w].pc) && NoOrphanIn(s, s.threads[w].pc)
    ensures var s', pc := Apply(s, w, RegisterFd(false)), s.threads[w].pc;
            && (s'.orphans != s.orphans <==> pc.done > 0)
            && s'.taps == s.taps && s'.orphans == s.orphans + Registered(|s.taps|, pc.fds, pc.done)
            && forall o :: o in Registered(|s.taps|, pc.fds, pc.done) ==>
                 o !in s.orphans && o.queue < |s'.polls| && o.event in s'.polls[o.queue].registered
  {
    var pc := s.threads[w].pc;
    if pc.done > 0 {
      assert Orphan(0, TapReady(|s.taps|, pc.fds[0])) in Registered(|s.taps|, pc.fds, pc.done);
    }
  }

  lemma OthersLeaveOrphans(s: State, w: nat, a: Action)
    requires Enabled(s, w, a) && a != RegisterFd(false)
    ensures Apply(s, w, a).orphans == s.orphans
  {
    if PhaseOf(a) == Allocating {
      hide FreshFds;
    } else {
      hide Enabled, Apply;
      StepQuiet(s, w, a);
    }
  }

  /** A free lock lets a polling worker take up an armed tap event. */
  lemma TakesUpEvent(s: State, w: nat, e: Event) returns (moves: seq<Move>, s': State)
    requires !s.aborted && w < |s.threads| && s.threads[w].pc.Polling? && s.lock == Lock({}, None)
    requires s.threads[w].queue < |s.polls| && e in s.polls[s.threads[w].queue].armed && e.TapReady?
    ensures Leads(s, moves, s') && |s'.threads| == |s.threads|
    ensures s'.threads[w] == s.threads[w].(pc := TapRead, batch := [e], next := 0)
    ensures s'.taps == s.taps && !s'.aborted
  {
    moves := [];
    assert Leads(s, moves, s);
    hide FindIn, Allowed;
    assert BatchReady(s.polls[s.threads[w].queue], [e]) by { DistinctOne(e); }
    hide Leads, BatchReady, Elements;
    var s1 := Advance(s, moves, s, Move(w, PollEvents([e])));
    moves := moves + [Move(w, PollEvents([e]))];
    var s2 := Advance(s, moves, s1, Move(w, AcquireRead));
    moves := moves + [Move(w, AcquireRead)];
    assert s2.threads[w].batch == [e] && s2.threads[w].pc == Dispatch;
    s' := Advance(s, moves, s2, Move(w, NextEvent));
    moves := moves + [Move(w, NextEvent)];
  }

  lemma DistinctOne(e: Event)
    ensures Distinct([e]) && Elements([e]) == {e}
  {
  }

  // ----- The tap array -----

  /** The taps fit the array, and their ids the 31-bit fields. */
  lemma TapsFitArray(s: State)
    requires Reachable(s)
    ensures |s.taps| <= s.slots && |s.taps| <= 0x4000_0000
  {
    ReachableDirectory(s);
    hide Reachable, LockInv;
  }

  /** The array is reallocated, and every pointer into it stale, exactly when a tap is created with the array
      full; it then doubles. */
  lemma ReallocatedExactly(s: State, w: nat, a: Action)
    requires Reachable(s) && Enabled(s, w, a)
    ensures var s' := Apply(s, w, a);
            && (s'.generation != s.generation <==> s'.slots != s.slots)
            && (s'.slots != s.slots <==> a.CreateTap? && |s.taps| == s.slots)
            && (s'.slots != s.slots ==>
                  s'.generation == s.generation + 1 && s'.slots == if s.slots == 0 then 1 else 2 * s.slots)
  {
    TapsFitArray(s);
    hide Reachable, FindIn, Allowed, BatchReady, Elements, FreshFds, TryInsert, Attempt, Cleared, Saved, Registered;
    if a.CreateTap? {
      hide Enabled;
    } else {
      OthersKeepArray(s, w, a);
    }
  }

  lemma OthersKeepArray(s: State, w: nat, a: Action)
    requires Enabled(s, w, a) && !a.CreateTap?
    ensures Apply(s, w, a).slots == s.slots && Apply(s, w, a).generation == s.generation
  {
    hide FindIn, Allowed, BatchReady, Elements, FreshFds, TryInsert, Attempt, Cleared, Saved, Registered;
  }

  // ----- What can happen -----

  /** Every outcome of every call is possible at its point: nothing about the environment is ruled out. */
  lemma EveryOutcomePossible(s: State, w: nat)
    requires Reachable(s) && !s.aborted && w < |s.threads|
    ensures TapOutcomes(s, w) && UdpOutcomes(s, w) && AddingOutcomes(s, w)
    ensures s.threads[w].queue < |s.polls| && EventOutcomes(s, w)
  {
    ReachableIndexed(s);
    QueueInRange(s, w);
    hide Reachable, LockInv, TapOutcomes, UdpOutcomes, EventOutcomes, AddingOutcomes;
    TapsPossible(s, w);
    UdpPossible(s, w);
    EventsPossible(s, w);
    AddingPossible(s, w);
  }

  ghost predicate TapOutcomes(s: State, w: nat)
    requires w < |s.threads|
  {
    match s.threads[w].pc
    case TapRead => Enabled(s, w, TapNothing) && forall len :: Enabled(s, w, TapFrame(len))
    case TapSend(_, _, _) => forall sent :: Enabled(s, w, SendTo(sent))
    case Deliver(_, _) => forall sent :: Enabled(s, w, WriteTap(sent))
    case _ => true
  }

  ghost predicate UdpOutcomes(s: State, w: nat)
    requires w < |s.threads|
  {
    match s.threads[w].pc
    case UdpRecv =>
      Enabled(s, w, UdpNothing) && Enabled(s, w, UdpOther) && forall p :: Enabled(s, w, UdpPacket(p))
    case Find(_) => Enabled(s, w, LookUp)
    case Recheck(_) => Enabled(s, w, LookUpAgain)
    case Allocate(_) =>
      && Enabled(s, w, CreateTap(None))
      && forall fds: seq<int> {:trigger FreshFds(s, fds)} ::
           FreshFds(s, fds) && |s.taps| < 0x4000_0000 ==> Enabled(s, w, CreateTap(Some(fds)))
    case Register(_, fds, done) =>
      if done < |fds| then Enabled(s, w, RegisterFd(true)) && Enabled(s, w, RegisterFd(false))
      else Enabled(s, w, Publish)
    case _ => true
  }

  ghost predicate EventOutcomes(s: State, w: nat)
    requires w < |s.threads| && s.threads[w].queue < |s.polls|
  {
    match s.threads[w].pc
    case Boot => Enabled(s, w, Start)
    case Polling =>
      && Enabled(s, w, Quit)
      && forall batch: seq<Event> {:trigger PollEvents(batch)} ::
           0 < |batch| <= 64 && Distinct(batch) && Elements(batch) <= s.polls[s.threads[w].queue].armed
           ==> Enabled(s, w, PollEvents(batch))
    case Dispatch => Enabled(s, w, NextEvent)
    case Rearm => Enabled(s, w, RearmFd(true)) && Enabled(s, w, RearmFd(false))
    case _ => true
  }

  ghost predicate AddingOutcomes(s: State, w: nat)
    requires w < |s.threads|
  {
    match s.threads[w].pc
    case MapAdd(_, _) =>
      forall newHalf: seq<Entry> {:trigger AddFirst(newHalf)} ::
        |newHalf| == |s.table.entries| && Clear(newHalf) ==> Enabled(s, w, AddFirst(newHalf))
    case Rebuild(_, _, _) => forall a, b, debris :: Enabled(s, w, AddAttempt(a, b, debris))
    case _ => true
  }

  lemma TapsPossible(s: State, w: nat)
    requires !s.aborted && w < |s.threads|
    ensures TapOutcomes(s, w)
  {
  }

  lemma UdpPossible(s: State, w: nat)
    requires !s.aborted && w < |s.threads| && Indexed(s)
    ensures UdpOutcomes(s, w)
  {
    hide FreshFds;
  }

  lemma EventsPossible(s: State, w: nat)
    requires !s.aborted && w < |s.threads| && s.threads[w].queue < |s.polls|
    ensures EventOutcomes(s, w)
  {
    hide Distinct, Elements;
  }

  lemma AddingPossible(s: State, w: nat)
    requires !s.aborted && w < |s.threads|
    ensures AddingOutcomes(s, w)
  {
  }

  // ----- Routing and counting -----

  /** Every frame read from a tap went to that tap's endpoint, and every datagram written to a tap came
      from that tap's endpoint, by the assignments as they are now and forever. */
  lemma RoutingIsSafe(s: State, i: nat)
    requires Reachable(s) && i < |s.log|
    ensures Names(s.taps, s.log[i].tapId, s.log[i].peer) && s.log[i].queue < |s.threads|
  {
    var first := ReachableInv(s);
    assert Routed(s, s.log[i]);
  }

  /** Refusing an unknown source changes nothing but the worker's own position and the record of the
      refusal; in particular there is no tap write. It is refused when there is no allow list, or no entry's
      mask shares a set bit with its address. */
  lemma RefusalIsInert(s: State, w: nat)
    requires Reachable(s) && Enabled(s, w, LookUp)
    requires var k := s.threads[w].pc.packet.from;
             Unknown(s.taps, k) && (s.cfg.allowed.Some? ==> !SharesBit(s.cfg.allowed.value, k.addr))
    ensures Apply(s, w, LookUp)
         == s.(threads := s.threads[w := s.threads[w].(pc := UdpRecv)],
               history := s.history + [Resolution(w, s.threads[w].pc.packet.from, Refused)])
  {
    ReachableHistory(s, w);
    AllowedIff(s.cfg, s.threads[w].pc.packet.from.addr);
    SettledLookup(s, s.threads[w].pc.packet.from);
    hide Reachable, Allowed, Settled, SharesBit, PcHistoryAt, FindIn, Unknown;
  }

  /** With no worker in the middle of counting, the totals of a tap over its queues are what was sent,
      delivered and failed, modulo the width of the counters. */
  lemma TotalsAreExact(s: State, id: nat, c: Counter)
    requires Reachable(s) && Quiescent(s) && id < |s.taps|
    ensures id < |s.stats| && Sum(s.stats[id], c) % U64 == TapTally(s.log, id, c) % U64
  {
    var first := ReachableInv(s);
    QuiescentTotals(s, id, c);
  }

  /** Running workers use distinct queues, so each counter has one writer. */
  lemma QueuesAreDistinct(s: State, v: nat, w: nat)
    requires Reachable(s) && v < w < |s.threads|
    requires !s.threads[v].pc.Boot? && !s.threads[w].pc.Boot?
    ensures s.threads[v].queue != s.threads[w].queue
    ensures s.threads[v].queue < |s.threads| && s.threads[w].queue < |s.threads|
  {
    var first := ReachableInv(s);
  }

  // ----- Events -----

  /** Every descriptor registered with a running worker is armed, or in the unfinished part of its
      batch, or was dropped by a failed re-arming, and only one of these; and every descriptor of every
      counted tap is registered with the worker of its queue. */
  lemma DescriptorsAccounted(s: State, w: nat)
    requires Reachable(s) && w < |s.threads| && !s.threads[w].pc.Boot?
    ensures s.threads[w].queue < |s.polls|
    ensures Accounted(s.polls[s.threads[w].queue], Pending(s.threads[w]))
    ensures forall id :: 0 <= id < |s.taps| ==> TapRegistered(s, id, s.threads[w].queue)
  {
    var first := ReachableInv(s);
  }

  /** A tap event being handled carries the handling worker's own descriptor of the tap it names exactly
      when it was not left behind by an abandoned tap. The others name no counted tap, or one that has
      since been given the abandoned id. */
  lemma EventsCarryOwnDescriptorIff(s: State, w: nat)
    requires Reachable(s) && w < |s.threads| && InTap(s.threads[w].pc)
    ensures var t := s.threads[w];
            && t.next < |t.batch| && t.batch[t.next].TapReady?
            && var e := t.batch[t.next];
            (OwnFd(s, t.queue, e.tapId, e.fd) <==> Orphan(t.queue, e) !in s.orphans)
  {
    var first := ReachableInv(s);
    HandledEvent(s, w, first);
  }

  /** A tap's event is handled by reading the tap, a socket's by receiving, and a batch holds at most 64 events. */
  lemma EventsGoToTheirLoop(s: State, w: nat)
    requires Reachable(s) && w < |s.threads|
    ensures var t := s.threads[w];
            && |t.batch| <= 64 && t.next <= |t.batch|
            && (InTap(t.pc) ==> t.next < |t.batch| && t.batch[t.next].TapReady?)
            && (InUdp(t.pc) ==> t.next < |t.batch| && t.batch[t.next].UdpReady?)
  {
    var first := ReachableInv(s);
    assert BatchOk(s.threads[w]);
    hide Inv;
  }

  /** The same event is being handled, or a bad pointer was followed. */
  predicate SameEvent(t: Thread, t': Thread) {
    && t'.batch == t.batch && t'.next == t.next
    && ((InEvent(t'.pc) && !t'.pc.Rearm?) || t'.pc.Fault?)
  }

  /** A worker stays with its event until nothing more is found, whatever becomes of each frame or datagram:
      sent or failed, refused, given a tap or denied one. */
  lemma StaysWithEvent(s: State, w: nat, a: Action)
    requires Enabled(s, w, a) && InEvent(s.threads[w].pc)
    requires !a.UdpNothing? && !a.TapNothing? && !a.RearmFd?
    ensures w < |Apply(s, w, a).threads| && SameEvent(s.threads[w], Apply(s, w, a).threads[w])
  {
    match PhaseOf(a) {
      case Allocating => AllocatingStays(s, w, a);
      case Mapping => MappingStays(s, w, a);
      case Counting => CountingStays(s, w, a);
      case Transfer => TransferStays(s, w, a);
      case _ => LockedStays(s, w, a);
    }
    hide Enabled, Apply, SameEvent;
  }

  lemma AllocatingStays(s: State, w: nat, a: Action)
    requires Enabled(s, w, a) && PhaseOf(a) == Allocating
    ensures w < |Apply(s, w, a).threads| && SameEvent(s.threads[w], Apply(s, w, a).threads[w])
  {
    hide FreshFds, Registered;
  }

  lemma MappingStays(s: State, w: nat, a: Action)
    requires Enabled(s, w, a) && PhaseOf(a) == Mapping
    ensures w < |Apply(s, w, a).threads| && SameEvent(s.threads[w], Apply(s, w, a).threads[w])
  {
    hide TryInsert, Attempt, Cleared, Saved;
  }

  lemma CountingStays(s: State, w: nat, a: Action)
    requires Enabled(s, w, a) && PhaseOf(a) == Counting
    ensures w < |Apply(s, w, a).threads| && SameEvent(s.threads[w], Apply(s, w, a).threads[w])
  {
  }

  lemma TransferStays(s: State, w: nat, a: Action)
    requires Enabled(s, w, a) && PhaseOf(a) == Transfer && !a.UdpNothing? && !a.TapNothing?
    ensures w < |Apply(s, w, a).threads| && SameEvent(s.threads[w], Apply(s, w, a).threads[w])
  {
  }

  lemma LockedStays(s: State, w: nat, a: Action)
    requires Enabled(s, w, a) && InEvent(s.threads[w].pc) && !a.RearmFd?
    requires PhaseOf(a) == Events || PhaseOf(a) == Locking || PhaseOf(a) == Resolving
    ensures w < |Apply(s, w, a).threads| && SameEvent(s.threads[w], Apply(s, w, a).threads[w])
  {
    hide FindIn, Allowed, BatchReady;
  }

  /** An event is done with exactly when a read or a receive has found nothing more: its descriptor is drained
      before it is re-armed. */
  lemma EventsAreDrained(s: State, w: nat, a: Action)
    requires Reachable(s) && Enabled(s, w, a)
    ensures |Apply(s, w, a).threads| == |s.threads|
    ensures Apply(s, w, a).threads[w].pc.Rearm? <==> a.UdpNothing? || (a.TapNothing? && HandlesCounted(s, w))
  {
    ReachableDirectory(s);
    assert |Apply(s, w, a).threads| == |s.threads| by {
      hide Reachable, DirInv, Apply, Enabled;
      StepMovesLock(s, w, a);
    }
    hide Reachable, DirInv, LockInv;
    if a.TapNothing? {
      hide Enabled;
    } else {
      OthersDrained(s, w, a);
    }
  }

  lemma OthersDrained(s: State, w: nat, a: Action)
    requires Enabled(s, w, a) && !a.TapNothing?
    ensures w < |Apply(s, w, a).threads| && (Apply(s, w, a).threads[w].pc.Rearm? <==> a.UdpNothing?)
  {
    if PhaseOf(a) == Allocating || PhaseOf(a) == Mapping || PhaseOf(a) == Transfer {
      UdpDrained(s, w, a);
    } else {
      LoopDrained(s, w, a);
    }
    hide Enabled, Apply;
  }

  lemma UdpDrained(s: State, w: nat, a: Action)
    requires Enabled(s, w, a) && !a.TapNothing?
    requires PhaseOf(a) == Allocating || PhaseOf(a) == Mapping || PhaseOf(a) == Transfer
    ensures w < |Apply(s, w, a).threads| && (Apply(s, w, a).threads[w].pc.Rearm? <==> a.UdpNothing?)
  {
    hide FreshFds, TryInsert, Attempt, Cleared, Saved, Registered;
  }

  lemma LoopDrained(s: State, w: nat, a: Action)
    requires Enabled(s, w, a) && PhaseOf(a) != Allocating && PhaseOf(a) != Mapping && PhaseOf(a) != Transfer
    ensures w < |Apply(s, w, a).threads| && !Apply(s, w, a).threads[w].pc.Rearm?
  {
    hide FindIn, Allowed, BatchReady, Elements;
  }

  /** Re-arming takes one event off the batch and arms it; a failure drops it with the rest of the batch, which
      ends there. */
  lemma RearmsExactly(s: State, w: nat, ok: bool)
    requires Reachable(s) && Enabled(s, w, RearmFd(ok))
    ensures var s', t, q := Apply(s, w, RearmFd(ok)), s.threads[w], s.threads[w].queue;
            && |s'.threads| == |s.threads| && q < |s.polls| == |s'.polls| && t.next < |t.batch|
            && var t', e := s'.threads[w], t.batch[t.next];
            if ok then
              && s'.polls[q].armed == s.polls[q].armed + {e} && s'.polls[q].dropped == s.polls[q].dropped
              && Pending(t') == Pending(t) - {e}
            else
              && s'.polls[q].armed == s.polls[q].armed && s'.polls[q].dropped == s.polls[q].dropped + Pending(t)
              && Pending(t') == {} && t'.pc.LeaveBatch?
  {
    RearmingInRange(s, w);
    assert BatchOk(s.threads[w]);
    hide Reachable;
    PendingAdvances(s.threads[w]);
  }

  ghost predicate NothingDropped(s: State) {
    forall q :: 0 <= q < |s.polls| ==> s.polls[q].dropped == {}
  }

  lemma StepDropsNothing(s: State, w: nat, a: Action)
    requires Enabled(s, w, a) && a != RearmFd(false)
    ensures |Apply(s, w, a).polls| == |s.polls|
    ensures forall q :: 0 <= q < |s.polls| ==> Apply(s, w, a).polls[q].dropped == s.polls[q].dropped
  {
    hide FindIn, Allowed, BatchReady, Elements, FreshFds, TryInsert, Attempt, Cleared, Saved, Registered;
  }

  /** A failed re-arming drops the event at hand. */
  lemma FailedRearmDrops(s: State, w: nat)
    requires Enabled(s, w, RearmFd(false)) && BatchOk(s.threads[w]) && s.threads[w].queue < |s.polls|
    ensures !NothingDropped(Apply(s, w, RearmFd(false)))
  {
    var t, s' := s.threads[w], Apply(s, w, RearmFd(false));
    assert t.batch[t.next..][0] == t.batch[t.next];
    assert t.batch[t.next] in s'.polls[t.queue].dropped;
  }

  lemma RearmingInRange(s: State, w: nat)
    requires Reachable(s) && w < |s.threads|
    ensures BatchOk(s.threads[w]) && s.threads[w].queue < |s.polls|
  {
    var first := ReachableInv(s);
    hide BatchOk;
  }

  lemma DroppedStays(s: State, w: nat, a: Action)
    requires Enabled(s, w, a) && !NothingDropped(s)
    ensures !NothingDropped(Apply(s, w, a))
  {
    var q :| 0 <= q < |s.polls| && s.polls[q].dropped != {};
    if a == RearmFd(false) {
      var e :| e in s.polls[q].dropped;
      assert e in Apply(s, w, a).polls[q].dropped;
    } else {
      StepDropsNothing(s, w, a);
      hide Enabled, Apply;
    }
  }

  lemma StepDropsIff(s: State, w: nat, a: Action)
    requires Reachable(s) && Enabled(s, w, a)
    ensures NothingDropped(Apply(s, w, a)) <==> NothingDropped(s) && a != RearmFd(false)
  {
    if !NothingDropped(s) {
      DroppedStays(s, w, a);
    } else if a == RearmFd(false) {
      RearmingInRange(s, w);
      FailedRearmDrops(s, w);
    } else {
      StepDropsNothing(s, w, a);
      hide Apply, Enabled;
    }
  }

  lemma StartsUndropped(s: State)
    requires Init(s)
    ensures NothingDropped(s)
  {
    hide FirstTable;
    forall q | 0 <= q < |s.polls| ensures s.polls[q].dropped == {} {
      assert s.polls[q] == FirstPoll(s, q);
    }
  }

  lemma ReachedFrom(s: State, moves: seq<Move>, s': State)
    requires Init(s) && Leads(s, moves, s')
    ensures Reachable(s')
  {
    hide Init, Leads;
  }

  predicate EveryRearmSucceeds(moves: seq<Move>) {
    forall i :: 0 <= i < |moves| ==> moves[i].action != RearmFd(false)
  }

  lemma OneMoreRearms(moves: seq<Move>)
    requires moves != []
    ensures EveryRearmSucceeds(moves)
       <==> EveryRearmSucceeds(moves[..|moves| - 1]) && moves[|moves| - 1].action != RearmFd(false)
  {
  }

  /** Nothing is ever dropped exactly when no re-arming fails: only then is every registered descriptor at
      all times armed or in the unfinished part of a batch. */
  lemma {:induction false} NothingIsDroppedIff(s: State, moves: seq<Move>, s': State)
    requires Init(s) && Leads(s, moves, s')
    ensures NothingDropped(s') <==> EveryRearmSucceeds(moves)
    decreases |moves|
  {
    if moves == [] {
      StartsUndropped(s);
    } else {
      var last := |moves| - 1;
      var w, a := moves[last].worker, moves[last].action;
      var mid :| Leads(s, moves[..last], mid) && Enabled(mid, w, a) && s' == Apply(mid, w, a);
      hide Init, Leads, Enabled, Apply, Reachable, NothingDropped, EveryRearmSucceeds;
      ReachedFrom(s, moves[..last], mid);
      NothingIsDroppedIff(s, moves[..last], mid);
      StepDropsIff(mid, w, a);
      OneMoreRearms(moves);
    }
  }

  // ----- The assertion on the port -----

  /** A step ends the program exactly when a tap is to be created for a source with port 0. */
  lemma AbortsExactly(s: State, w: nat, a: Action)
    requires Enabled(s, w, a)
    ensures Apply(s, w, a).aborted <==> a.CreateTap? && s.threads[w].pc.packet.from.port == 0
  {
    if PhaseOf(a) == Allocating {
      hide FreshFds, Registered;
    } else {
      OthersDoNotAbort(s, w, a);
    }
  }

  lemma OthersDoNotAbort(s: State, w: nat, a: Action)
    requires Enabled(s, w, a) && PhaseOf(a) != Allocating
    ensures !Apply(s, w, a).aborted
  {
    hide FindIn, Allowed, BatchReady, Elements, TryInsert, Attempt, Cleared, Saved;
  }

  /** The last move of a run creates a tap for a source with port 0. */
  ghost predicate EndsInPortZero(s: State, moves: seq<Move>) {
    && moves != []
    && var m := moves[|moves| - 1];
    && m.action.CreateTap?
    && exists mid: State ::
         && Leads(s, moves[..|moves| - 1], mid) && Enabled(mid, m.worker, m.action)
         && mid.threads[m.worker].pc.packet.from.port == 0
  }

  /** A run has ended the program exactly when its last move was to create a tap for a source with port 0. */
  lemma RunAbortsIff(s: State, moves: seq<Move>, s': State)
    requires !s.aborted && Leads(s, moves, s')
    ensures s'.aborted <==> EndsInPortZero(s, moves)
  {
    if moves == [] {
    } else {
      var last := |moves| - 1;
      var w, a := moves[last].worker, moves[last].action;
      var mid :| Leads(s, moves[..last], mid) && Enabled(mid, w, a) && s' == Apply(mid, w, a);
      AbortsExactly(mid, w, a);
      hide Apply;
      forall other: State | Leads(s, moves[..last], other) ensures other == mid {
        LeadsOnce(s, moves[..last], mid, other);
      }
      hide Leads;
    }
  }
}
