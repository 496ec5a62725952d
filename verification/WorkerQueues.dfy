/** Queue ids, batches and epoll instances: each worker has its own queue, and every registered
    descriptor is accounted for. */
module WorkerQueues {
  import opened Bits
  import opened EndpointTable
  import opened Worker
  import opened Wrappers

  // ----- Queue ids -----

  function CountBoot(threads: seq<Thread>): nat {
    if threads == [] then 0
    else CountBoot(threads[..|threads| - 1]) + if threads[|threads| - 1].pc.Boot? then 1 else 0
  }

  lemma {:induction false} CountBootUpdate(threads: seq<Thread>, w: nat, t: Thread)
    requires w < |threads|
    ensures CountBoot(threads[w := t])
         == CountBoot(threads) - (if threads[w].pc.Boot? then 1 else 0) + (if t.pc.Boot? then 1 else 0)
  {
    var last := |threads| - 1;
    if w == last {
      assert threads[w := t][..last] == threads[..last];
    } else {
      assert threads[w := t][..last] == threads[..last][w := t];
      CountBootUpdate(threads[..last], w, t);
    }
  }

  lemma {:induction false} CountBootPositive(threads: seq<Thread>, w: nat)
    requires w < |threads| && threads[w].pc.Boot?
    ensures CountBoot(threads) > 0
  {
    if w == |threads| - 1 {
    } else {
      CountBootPositive(threads[..|threads| - 1], w);
    }
  }

  lemma {:induction false} CountBootAll(threads: seq<Thread>)
    requires forall w :: 0 <= w < |threads| ==> threads[w].pc.Boot?
    ensures CountBoot(threads) == |threads|
  {
    if threads == [] {
    } else {
      CountBootAll(threads[..|threads| - 1]);
    }
  }

  /** Workers that have started hold distinct queue ids, handed out in order. */
  ghost predicate QueueInv(s: State) {
    && s.nextQueue + CountBoot(s.threads) == |s.threads|
    && (forall w :: 0 <= w < |s.threads| && !s.threads[w].pc.Boot? ==> s.threads[w].queue < s.nextQueue)
    && (forall v, w :: 0 <= v < w < |s.threads| && !s.threads[v].pc.Boot? && !s.threads[w].pc.Boot?
                       ==> s.threads[v].queue != s.threads[w].queue)
  }

  lemma StartKeepsQueues(s: State, w: nat)
    requires Enabled(s, w, Start) && QueueInv(s)
    ensures QueueInv(Apply(s, w, Start))
    ensures Apply(s, w, Start).threads[w].queue == s.nextQueue < |s.threads|
  {
    CountBootPositive(s.threads, w);
    SmallRemainder(s.nextQueue, |s.threads|);
    var t := s.threads[w].(pc := Polling, queue := s.nextQueue);
    var s' := Apply(s, w, Start);
    assert s' == s.(threads := s.threads[w := t], nextQueue := s.nextQueue + 1);
    CountBootUpdate(s.threads, w, t);
  }

  /** A step that moves one running worker and leaves its queue alone. */
  ghost predicate Runs(s: State, w: nat, s': State)
    requires w < |s.threads|
  {
    && |s'.threads| == |s.threads| && s'.threads == s.threads[w := s'.threads[w]]
    && s'.nextQueue == s.nextQueue
    && !s.threads[w].pc.Boot? && !s'.threads[w].pc.Boot?
    && s'.threads[w].queue == s.threads[w].queue
  }

  lemma RunsKeepsQueues(s: State, w: nat, s': State)
    requires w < |s.threads| && QueueInv(s) && Runs(s, w, s')
    ensures QueueInv(s')
  {
    CountBootUpdate(s.threads, w, s'.threads[w]);
  }

  // ----- Batches -----

  /** In the middle of handling an event. */
  predicate InEvent(pc: Pc) {
    !(pc.Boot? || pc.Polling? || pc.Exited? || pc.EnterBatch? || pc.Dispatch? || pc.LeaveBatch? || pc.Fault?)
  }

  predicate InTap(pc: Pc) {
    pc.TapRead? || pc.TapSend?
  }

  predicate InUdp(pc: Pc) {
    || pc.UdpRecv? || pc.Find? || pc.Release? || pc.Upgrade? || pc.Recheck? || pc.Allocate? || pc.Register?
    || pc.MapAdd? || pc.Rebuild? || pc.Unwrite? || pc.Downgrade? || pc.Deliver?
  }

  predicate BetweenBatches(pc: Pc) {
    pc.Boot? || pc.Polling? || pc.Exited? || pc.LeaveBatch?
  }

  /** The tap named by the event a worker is handling. */
  function Handled(s: State, w: nat): Option<nat> {
    if w < |s.threads| && s.threads[w].next < |s.threads[w].batch| then
      match s.threads[w].batch[s.threads[w].next]
      case TapReady(id, _) => Some(id)
      case UdpReady(_) => None
    else None
  }

  /** That tap is counted. */
  predicate HandlesCounted(s: State, w: nat) {
    Handled(s, w).Some? && Handled(s, w).value < |s.taps|
  }

  ghost predicate BatchOk(t: Thread) {
    && t.next <= |t.batch| && Distinct(t.batch)
    && (InEvent(t.pc) ==> t.next < |t.batch|)
    && |t.batch| <= 64
    && (InTap(t.pc) ==> t.next < |t.batch| && t.batch[t.next].TapReady?)
    && (InUdp(t.pc) ==> t.next < |t.batch| && t.batch[t.next].UdpReady?)
    && (t.pc.TapSend? ==> t.next < |t.batch| && t.batch[t.next].TapReady? && t.batch[t.next].tapId == t.pc.tapId)
    && (BetweenBatches(t.pc) ==> t.batch == [] && t.next == 0)
  }

  /** The events of the current batch not yet re-armed. */
  function Pending(t: Thread): set<Event> {
    if t.next <= |t.batch| then Elements(t.batch[t.next..]) else {}
  }

  lemma EventStepsKeepBatch(s: State, w: nat, a: Action)
    requires Enabled(s, w, a) && PhaseOf(a) == Events && BatchOk(s.threads[w])
    ensures BatchOk(Apply(s, w, a).threads[w])
    ensures a != Start ==> Runs(s, w, Apply(s, w, a))
  {
    hide Elements;
  }

  /** The other steps do not touch the batch. */
  ghost predicate SameBatch(s: State, w: nat, s': State)
    requires w < |s.threads|
  {
    && Runs(s, w, s') && BatchOk(s'.threads[w])
    && s'.threads[w].batch == s.threads[w].batch && s'.threads[w].next == s.threads[w].next
  }

  lemma LockingKeepsBatch(s: State, w: nat, a: Action)
    requires Enabled(s, w, a) && PhaseOf(a) == Locking && BatchOk(s.threads[w])
    ensures SameBatch(s, w, Apply(s, w, a))
  {
    hide Distinct;
  }

  lemma TransferKeepsBatch(s: State, w: nat, a: Action)
    requires Enabled(s, w, a) && PhaseOf(a) == Transfer && BatchOk(s.threads[w])
    ensures SameBatch(s, w, Apply(s, w, a))
  {
    hide Distinct;
  }

  lemma CountingKeepsBatch(s: State, w: nat, a: Action)
    requires Enabled(s, w, a) && PhaseOf(a) == Counting && BatchOk(s.threads[w])
    ensures SameBatch(s, w, Apply(s, w, a))
  {
    hide Distinct;
  }

  lemma ResolvingKeepsBatch(s: State, w: nat, a: Action)
    requires Enabled(s, w, a) && PhaseOf(a) == Resolving && BatchOk(s.threads[w])
    ensures SameBatch(s, w, Apply(s, w, a))
  {
    hide Distinct, FindIn, Allowed;
  }

  lemma AllocatingKeepsBatch(s: State, w: nat, a: Action)
    requires Enabled(s, w, a) && PhaseOf(a) == Allocating && BatchOk(s.threads[w])
    ensures SameBatch(s, w, Apply(s, w, a))
  {
    hide Distinct, FreshFds;
  }

  lemma MappingKeepsBatch(s: State, w: nat, a: Action)
    requires Enabled(s, w, a) && PhaseOf(a) == Mapping && BatchOk(s.threads[w])
    ensures SameBatch(s, w, Apply(s, w, a))
  {
    hide Distinct, TryInsert, Attempt, Cleared;
  }

  lemma OthersKeepBatch(s: State, w: nat, a: Action)
    requires Enabled(s, w, a) && PhaseOf(a) != Events && BatchOk(s.threads[w])
    ensures SameBatch(s, w, Apply(s, w, a))
  {
    hide Enabled, Apply, BatchOk, SameBatch;
    match PhaseOf(a)
    case Locking => LockingKeepsBatch(s, w, a);
    case Transfer => TransferKeepsBatch(s, w, a);
    case Counting => CountingKeepsBatch(s, w, a);
    case Resolving => ResolvingKeepsBatch(s, w, a);
    case Allocating => AllocatingKeepsBatch(s, w, a);
    case Mapping => MappingKeepsBatch(s, w, a);
  }

  // ----- Epoll instances -----

  /** Every registered event is armed, pending or dropped, and only one of these. */
  ghost predicate Accounted(p: Poll, pending: set<Event>) {
    && p.registered == p.armed + pending + p.dropped
    && p.armed !! pending && p.armed !! p.dropped && pending !! p.dropped
  }

  ghost predicate PollInv(s: State) {
    && |s.polls| == |s.threads|
    && (forall w :: 0 <= w < |s.threads| ==> BatchOk(s.threads[w]))
    && (forall w :: 0 <= w < |s.threads| && !s.threads[w].pc.Boot? ==>
          s.threads[w].queue < |s.polls| && Accounted(s.polls[s.threads[w].queue], Pending(s.threads[w])))
    && (forall q :: s.nextQueue <= q < |s.polls| ==> Accounted(s.polls[q], {}))
  }

  lemma PendingAdvances(t: Thread)
    requires BatchOk(t) && t.next < |t.batch|
    ensures Pending(t) == {t.batch[t.next]} + Elements(t.batch[t.next + 1..])
    ensures t.batch[t.next] !in Elements(t.batch[t.next + 1..])
  {
    assert t.batch[t.next..] == [t.batch[t.next]] + t.batch[t.next + 1..];
  }

  /** A step that changes at most its own worker's epoll instance, and accounts for it. */
  lemma OwnPollStep(s: State, w: nat, s': State)
    requires w < |s.threads| && QueueInv(s) && PollInv(s) && Runs(s, w, s')
    requires s.threads[w].queue < |s.polls| == |s'.polls|
    requires s'.polls == s.polls[s.threads[w].queue := s'.polls[s.threads[w].queue]]
    requires BatchOk(s'.threads[w]) && Accounted(s'.polls[s.threads[w].queue], Pending(s'.threads[w]))
    ensures PollInv(s')
  {
    hide BatchOk, Accounted, Elements;
    forall v | 0 <= v < |s'.threads|
      ensures BatchOk(s'.threads[v])
      ensures !s'.threads[v].pc.Boot? ==>
                s'.threads[v].queue < |s'.polls| && Accounted(s'.polls[s'.threads[v].queue], Pending(s'.threads[v]))
    {
      assert BatchOk(s.threads[v]);
    }
  }

  lemma PollEventsAccounted(s: State, w: nat, batch: seq<Event>)
    requires Enabled(s, w, PollEvents(batch)) && PollInv(s)
    ensures var s' := Apply(s, w, PollEvents(batch));
            Accounted(s'.polls[s.threads[w].queue], Pending(s'.threads[w]))
  {
    var t := s.threads[w];
    assert BatchOk(t) && Pending(t) == {} && batch[0..] == batch;
  }

  lemma NextEventAccounted(s: State, w: nat)
    requires Enabled(s, w, NextEvent) && PollInv(s)
    ensures Pending(Apply(s, w, NextEvent).threads[w]) == Pending(s.threads[w])
  {
    assert BatchOk(s.threads[w]);
  }

  lemma RearmAccounted(s: State, w: nat, ok: bool)
    requires Enabled(s, w, RearmFd(ok)) && PollInv(s)
    ensures var s' := Apply(s, w, RearmFd(ok));
            && |s'.polls| == |s.polls| && s.threads[w].queue < |s.polls|
            && s'.polls == s.polls[s.threads[w].queue := s'.polls[s.threads[w].queue]]
            && BatchOk(s'.threads[w])
            && Accounted(s'.polls[s.threads[w].queue], Pending(s'.threads[w]))
  {
    var t := s.threads[w];
    assert BatchOk(t);
    PendingAdvances(t);
  }

  lemma EventsKeepPolls(s: State, w: nat, a: Action)
    requires Enabled(s, w, a) && PhaseOf(a) == Events && a != Start && QueueInv(s) && PollInv(s)
    ensures PollInv(Apply(s, w, a))
  {
    assert BatchOk(s.threads[w]);
    EventStepsKeepBatch(s, w, a);
    match a {
      case PollEvents(batch) => PollEventsAccounted(s, w, batch);
      case NextEvent => NextEventAccounted(s, w);
      case RearmFd(ok) => RearmAccounted(s, w, ok);
      case Quit =>
    }
    hide BatchOk, Accounted, Elements;
    OwnPollStep(s, w, Apply(s, w, a));
  }

  lemma StartKeepsPolls(s: State, w: nat)
    requires Enabled(s, w, Start) && QueueInv(s) && PollInv(s)
    ensures PollInv(Apply(s, w, Start))
  {
    StartKeepsQueues(s, w);
    var s' := Apply(s, w, Start);
    assert BatchOk(s.threads[w]);
    assert Pending(s'.threads[w]) == {};
    hide Accounted;
    forall v | 0 <= v < |s'.threads|
      ensures BatchOk(s'.threads[v])
      ensures !s'.threads[v].pc.Boot? ==>
                s'.threads[v].queue < |s'.polls| && Accounted(s'.polls[s'.threads[v].queue], Pending(s'.threads[v]))
    {
      assert BatchOk(s.threads[v]);
    }
  }

  /** A step that touches no epoll instance. */
  lemma QuietKeepsPolls(s: State, w: nat, a: Action)
    requires Enabled(s, w, a) && PhaseOf(a) != Events && !a.RegisterFd? && QueueInv(s) && PollInv(s)
    ensures PollInv(Apply(s, w, a))
  {
    assert BatchOk(s.threads[w]);
    OthersKeepBatch(s, w, a);
    SamePolls(s, w, a);
    hide Enabled, Apply, BatchOk, Accounted, Elements;
    OwnPollStep(s, w, Apply(s, w, a));
  }

  lemma SamePolls(s: State, w: nat, a: Action)
    requires Enabled(s, w, a) && PhaseOf(a) != Events && !a.RegisterFd?
    ensures Apply(s, w, a).polls == s.polls
  {
  }

  /** The descriptors still to be registered are not registered yet. */
  ghost predicate StillFresh(s: State, pc: Pc) {
    pc.Register? ==>
      && |pc.fds| <= |s.polls| && Distinct(pc.fds)
      && forall q, e :: pc.done <= q < |pc.fds| && e in s.polls[q].registered ==> e.fd != pc.fds[q]
  }

  lemma RegisterKeepsPolls(s: State, w: nat, ok: bool)
    requires Enabled(s, w, RegisterFd(ok)) && QueueInv(s) && PollInv(s) && StillFresh(s, s.threads[w].pc)
    ensures PollInv(Apply(s, w, RegisterFd(ok)))
  {
    var a, s' := RegisterFd(ok), Apply(s, w, RegisterFd(ok));
    assert BatchOk(s.threads[w]);
    OthersKeepBatch(s, w, a);
    if ok {
      var q := s.threads[w].pc.done;
      var e := TapReady(|s.taps|, s.threads[w].pc.fds[q]);
      assert e !in s.polls[q].registered;
      forall pending | Accounted(s.polls[q], pending) ensures Accounted(s'.polls[q], pending) {
      }
      hide BatchOk, Accounted, Elements;
      forall v | 0 <= v < |s'.threads|
        ensures BatchOk(s'.threads[v])
        ensures !s'.threads[v].pc.Boot? ==>
                  s'.threads[v].queue < |s'.polls| && Accounted(s'.polls[s'.threads[v].queue], Pending(s'.threads[v]))
      {
        assert BatchOk(s.threads[v]);
      }
    } else {
      OwnPollStep(s, w, s');
    }
  }

  lemma StepKeepsQueues(s: State, w: nat, a: Action)
    requires Enabled(s, w, a) && QueueInv(s) && PollInv(s) && StillFresh(s, s.threads[w].pc)
    ensures QueueInv(Apply(s, w, a)) && PollInv(Apply(s, w, a))
  {
    assert BatchOk(s.threads[w]);
    if a == Start {
      StartKeepsQueues(s, w);
      StartKeepsPolls(s, w);
    } else if PhaseOf(a) == Events {
      EventStepsKeepBatch(s, w, a);
      RunsKeepsQueues(s, w, Apply(s, w, a));
      EventsKeepPolls(s, w, a);
    } else {
      OthersKeepBatch(s, w, a);
      RunsKeepsQueues(s, w, Apply(s, w, a));
      if a.RegisterFd? {
        RegisterKeepsPolls(s, w, a.ok);
      } else {
        QuietKeepsPolls(s, w, a);
      }
    }
  }
}
