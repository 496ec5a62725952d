/** What events name, and that no worker follows a stale or dangling pointer. */
module WorkerEvents {
  import opened EndpointTable
  import opened Worker
  import opened Wrappers
  import opened WorkerLock
  import opened WorkerDirectory
  import opened WorkerQueues

  // ----- Invariant -----

  /** The descriptor is one the lock's writer has just registered for a tap not yet counted. */
  ghost predicate InRegistration(s: State, q: nat, id: nat, fd: int) {
    && s.lock.writer.Some? && s.lock.writer.value < |s.threads|
    && var pc := s.threads[s.lock.writer.value].pc;
    pc.Register? && id == |s.taps| && q < pc.done <= |pc.fds| && pc.fds[q] == fd
  }

  predicate OwnFd(s: State, q: nat, id: nat, fd: int) {
    id < |s.taps| && q < |s.taps[id].fds| && s.taps[id].fds[q] == fd
  }

  /** An event registered with queue q carries that queue's own descriptor: its UDP socket, or its
      descriptor of the tap the event names. */
  ghost predicate Known(s: State, q: nat, e: Event) {
    match e
    case UdpReady(fd) => q < |s.cfg.udpFds| && s.cfg.udpFds[q] == fd
    case TapReady(id, fd) => Orphan(q, e) in s.orphans || OwnFd(s, q, id, fd) || InRegistration(s, q, id, fd)
  }

  /** An orphan stays registered, and its descriptor is never the queue's own descriptor of a counted
      tap, although a later tap may come to have its id. */
  ghost predicate Foreign(s: State, o: Orphan) {
    && o.queue < |s.polls| && o.event in s.polls[o.queue].registered
    && o.event.TapReady? && !OwnFd(s, o.queue, o.event.tapId, o.event.fd)
  }

  /** The descriptors of the tap being created are not those of an orphan. */
  ghost predicate NoOrphanIn(s: State, pc: Pc) {
    pc.Register? ==> forall o :: o in s.orphans ==> o.event.fd !in pc.fds
  }

  ghost predicate EventInv(s: State) {
    && (forall q, e :: 0 <= q < |s.polls| && e in s.polls[q].registered ==> Known(s, q, e))
    && (forall w :: 0 <= w < |s.threads| ==> StillFresh(s, s.threads[w].pc))
    && (forall o :: o in s.orphans ==> Foreign(s, o))
    && (forall w :: 0 <= w < |s.threads| ==> NoOrphanIn(s, s.threads[w].pc))
    && (forall w :: 0 <= w < |s.threads| && s.threads[w].pc.Fault? ==> s.orphans != {})
  }

  /** Every counted tap has each of its descriptors registered with the queue it belongs to. */
  ghost predicate Complete(s: State) {
    && (forall q :: 0 <= q < |s.polls| ==> UdpRegistered(s, q))
    && (forall id, q :: 0 <= id < |s.taps| && 0 <= q < |s.polls| ==> TapRegistered(s, id, q))
    && (forall w :: 0 <= w < |s.threads| ==> RegisteredSoFar(s, s.threads[w].pc))
  }

  ghost predicate UdpRegistered(s: State, q: nat)
    requires q < |s.polls|
  {
    q < |s.cfg.udpFds| && UdpReady(s.cfg.udpFds[q]) in s.polls[q].registered
  }

  ghost predicate TapRegistered(s: State, id: nat, q: nat)
    requires id < |s.taps| && q < |s.polls|
  {
    q < |s.taps[id].fds| && TapReady(id, s.taps[id].fds[q]) in s.polls[q].registered
  }

  ghost predicate RegisteredSoFar(s: State, pc: Pc) {
    pc.Register? ==>
      && pc.done <= |pc.fds| <= |s.polls|
      && forall q :: 0 <= q < pc.done ==> TapReady(|s.taps|, pc.fds[q]) in s.polls[q].registered
  }

  /** Registration only adds, and counted taps stay as they are. */
  ghost predicate RegisteredGrows(s: State, s': State) {
    && |s'.polls| == |s.polls| && s'.cfg == s.cfg && s.taps <= s'.taps
    && forall q :: 0 <= q < |s.polls| ==> s.polls[q].registered <= s'.polls[q].registered
  }

  /** The tap counted by this step, if any, has all its descriptors registered. */
  ghost predicate NewTapRegistered(s: State, s': State) {
    forall id, q :: |s.taps| <= id < |s'.taps| && 0 <= q < |s'.polls| ==> TapRegistered(s', id, q)
  }

  lemma CompleteKept(s: State, s': State)
    requires Complete(s) && RegisteredGrows(s, s') && NewTapRegistered(s, s')
    requires forall w :: 0 <= w < |s'.threads| ==> RegisteredSoFar(s', s'.threads[w].pc)
    ensures Complete(s')
  {
    hide RegisteredSoFar;
    forall q | 0 <= q < |s'.polls| ensures UdpRegistered(s', q) {
      assert UdpRegistered(s, q);
    }
    forall id, q | 0 <= id < |s'.taps| && 0 <= q < |s'.polls| ensures TapRegistered(s', id, q) {
      if id < |s.taps| {
        assert TapRegistered(s, id, q);
      }
    }
  }

  // ----- Steps outside tap creation -----

  ghost predicate SameRegistered(s: State, s': State) {
    |s'.polls| == |s.polls| && forall q :: 0 <= q < |s.polls| ==> s'.polls[q].registered == s.polls[q].registered
  }

  ghost predicate QuietEvents(s: State, w: nat, s': State)
    requires w < |s.threads|
  {
    && OnlyMoves(s, w, s') && SameRegistered(s, s')
    && s'.taps == s.taps && s'.cfg == s.cfg && s'.orphans == s.orphans
    && !s.threads[w].pc.Register? && !s'.threads[w].pc.Register?
  }

  lemma EventsQuiet(s: State, w: nat, a: Action)
    requires Enabled(s, w, a) && PhaseOf(a) == Events
    ensures QuietEvents(s, w, Apply(s, w, a))
  {
    hide BatchReady, Elements;
  }

  lemma LockingQuiet(s: State, w: nat, a: Action)
    requires Enabled(s, w, a) && (PhaseOf(a) == Locking || PhaseOf(a) == Resolving)
    ensures QuietEvents(s, w, Apply(s, w, a))
  {
    hide FindIn, Allowed;
  }

  lemma TransferQuiet(s: State, w: nat, a: Action)
    requires Enabled(s, w, a) && (PhaseOf(a) == Transfer || PhaseOf(a) == Counting)
    ensures QuietEvents(s, w, Apply(s, w, a))
  {
  }

  lemma MappingQuiet(s: State, w: nat, a: Action)
    requires Enabled(s, w, a) && PhaseOf(a) == Mapping
    ensures QuietEvents(s, w, Apply(s, w, a))
  {
    hide TryInsert, Attempt, Cleared;
  }

  lemma StepQuiet(s: State, w: nat, a: Action)
    requires Enabled(s, w, a) && PhaseOf(a) != Allocating
    ensures QuietEvents(s, w, Apply(s, w, a))
  {
    hide Enabled, Apply, QuietEvents;
    match PhaseOf(a)
    case Events => EventsQuiet(s, w, a);
    case Locking => LockingQuiet(s, w, a);
    case Resolving => LockingQuiet(s, w, a);
    case Transfer => TransferQuiet(s, w, a);
    case Counting => TransferQuiet(s, w, a);
    case Mapping => MappingQuiet(s, w, a);
  }

  lemma QuietKeepsKnown(s: State, w: nat, s': State, q: nat, e: Event)
    requires w < |s.threads| && QuietEvents(s, w, s') && LockInv(s) && LockMove(s, w, s')
    requires Known(s, q, e)
    ensures Known(s', q, e)
  {
    if e.TapReady? && InRegistration(s, q, e.tapId, e.fd) {
      assert s.lock.writer.value != w;
      assert s'.lock.writer == s.lock.writer;
    }
  }

  lemma QuietKeepsFresh(s: State, s': State, pc: Pc)
    requires SameRegistered(s, s') && s'.taps == s.taps && s'.orphans == s.orphans
    ensures StillFresh(s, pc) == StillFresh(s', pc) && NoOrphanIn(s, pc) == NoOrphanIn(s', pc)
    ensures RegisteredSoFar(s, pc) == RegisteredSoFar(s', pc)
  {
  }

  lemma QuietKeepsEvents(s: State, w: nat, s': State)
    requires w < |s.threads| && QuietEvents(s, w, s') && LockInv(s) && LockMove(s, w, s')
    requires EventInv(s) && Complete(s)
    requires s'.threads[w].pc.Fault? ==> s.orphans != {}
    ensures EventInv(s') && Complete(s')
  {
    assert StillFresh(s', s'.threads[w].pc) && RegisteredSoFar(s', s'.threads[w].pc);
    forall q, e | 0 <= q < |s'.polls| && e in s'.polls[q].registered ensures Known(s', q, e) {
      QuietKeepsKnown(s, w, s', q, e);
    }
    forall o | o in s'.orphans ensures Foreign(s', o) {
      assert Foreign(s, o);
    }
    assert NoOrphanIn(s', s'.threads[w].pc);
    hide Known, Foreign, NoOrphanIn, StillFresh, RegisteredSoFar, LockMove, LockInv;
    forall v | 0 <= v < |s'.threads|
      ensures StillFresh(s', s'.threads[v].pc) && RegisteredSoFar(s', s'.threads[v].pc)
      ensures NoOrphanIn(s', s'.threads[v].pc)
    {
      QuietKeepsFresh(s, s', s.threads[v].pc);
    }
    CompleteKept(s, s');
  }

  // ----- Creating a tap -----

  /** A tap step is taken by the writer, so no other worker is registering. */
  ghost predicate SoleRegistrar(s: State, w: nat)
    requires w < |s.threads|
  {
    && s.lock.writer == Some(w)
    && forall v :: 0 <= v < |s.threads| && v != w ==> !s.threads[v].pc.Register?
  }

  lemma WriterIsSole(s: State, w: nat)
    requires LockInv(s) && w < |s.threads| && Holding(s.threads[w].pc) == Exclusive
    ensures SoleRegistrar(s, w)
  {
    assert Agrees(s.lock, w, s.threads[w].pc);
    forall v | 0 <= v < |s.threads| && v != w ensures !s.threads[v].pc.Register? {
      OthersHoldNothing(s, w, v);
    }
  }

  lemma CreateKeepsEvents(s: State, w: nat, created: Option<seq<int>>)
    requires Enabled(s, w, CreateTap(created)) && SoleRegistrar(s, w) && EventInv(s) && Complete(s)
    requires |s.polls| == |s.threads|
    ensures EventInv(Apply(s, w, CreateTap(created))) && Complete(Apply(s, w, CreateTap(created)))
  {
    var s' := Apply(s, w, CreateTap(created));
    assert SameRegistered(s, s') && s'.orphans == s.orphans;
    assert s'.taps == s.taps && s'.cfg == s.cfg && s'.lock == s.lock;
    assert StillFresh(s', s'.threads[w].pc) && RegisteredSoFar(s', s'.threads[w].pc);
    forall q, e | 0 <= q < |s'.polls| && e in s'.polls[q].registered ensures Known(s', q, e) {
      assert Known(s, q, e);
    }
    forall o | o in s'.orphans ensures Foreign(s', o) {
      assert Foreign(s, o);
    }
    assert NoOrphanIn(s', s'.threads[w].pc);
    hide StillFresh, RegisteredSoFar, Known, Foreign, NoOrphanIn;
    forall v | 0 <= v < |s'.threads|
      ensures StillFresh(s', s'.threads[v].pc) && RegisteredSoFar(s', s'.threads[v].pc)
      ensures NoOrphanIn(s', s'.threads[v].pc)
    {
      QuietKeepsFresh(s, s', s.threads[v].pc);
    }
    CompleteKept(s, s');
  }

  lemma RegisterKeepsKnown(s: State, w: nat, ok: bool, q: nat, e: Event)
    requires Enabled(s, w, RegisterFd(ok)) && SoleRegistrar(s, w) && EventInv(s)
    requires q < |s.polls| && e in Apply(s, w, RegisterFd(ok)).polls[q].registered
    ensures Known(Apply(s, w, RegisterFd(ok)), q, e)
  {
    if e in s.polls[q].registered {
      assert Known(s, q, e);
    }
  }

  lemma RegisterKeepsFresh(s: State, w: nat, ok: bool)
    requires Enabled(s, w, RegisterFd(ok)) && StillFresh(s, s.threads[w].pc) && RegisteredSoFar(s, s.threads[w].pc)
    ensures var s' := Apply(s, w, RegisterFd(ok));
            StillFresh(s', s'.threads[w].pc) && RegisteredSoFar(s', s'.threads[w].pc) && RegisteredGrows(s, s')
  {
  }

  lemma RegisterKeepsForeign(s: State, w: nat, ok: bool, o: Orphan)
    requires Enabled(s, w, RegisterFd(ok)) && SoleRegistrar(s, w) && EventInv(s)
    requires RegisteredSoFar(s, s.threads[w].pc) && o in Apply(s, w, RegisterFd(ok)).orphans
    ensures Foreign(Apply(s, w, RegisterFd(ok)), o)
  {
    if o in s.orphans {
      assert Foreign(s, o);
    }
  }

  lemma RegisterKeepsForeigners(s: State, w: nat, ok: bool)
    requires Enabled(s, w, RegisterFd(ok)) && SoleRegistrar(s, w) && EventInv(s)
    requires RegisteredSoFar(s, s.threads[w].pc)
    ensures var s' := Apply(s, w, RegisterFd(ok));
            && (forall o :: o in s'.orphans ==> Foreign(s', o))
            && forall v :: 0 <= v < |s'.threads| ==> NoOrphanIn(s', s'.threads[v].pc)
  {
    var s' := Apply(s, w, RegisterFd(ok));
    forall o | o in s'.orphans ensures Foreign(s', o) {
      RegisterKeepsForeign(s, w, ok, o);
    }
    hide Foreign;
    assert NoOrphanIn(s, s.threads[w].pc);
  }

  lemma RegisterKeepsEvents(s: State, w: nat, ok: bool)
    requires Enabled(s, w, RegisterFd(ok)) && SoleRegistrar(s, w) && EventInv(s) && Complete(s)
    ensures EventInv(Apply(s, w, RegisterFd(ok))) && Complete(Apply(s, w, RegisterFd(ok)))
  {
    var s' := Apply(s, w, RegisterFd(ok));
    assert StillFresh(s, s.threads[w].pc) && RegisteredSoFar(s, s.threads[w].pc);
    RegisterKeepsFresh(s, w, ok);
    RegisterKeepsForeigners(s, w, ok);
    forall q, e | 0 <= q < |s'.polls| && e in s'.polls[q].registered ensures Known(s', q, e) {
      RegisterKeepsKnown(s, w, ok, q, e);
    }
    hide Known, RegisteredGrows, Complete, Foreign, NoOrphanIn;
    CompleteKept(s, s');
  }

  lemma PublishKeepsEvents(s: State, w: nat)
    requires Enabled(s, w, Publish) && SoleRegistrar(s, w) && EventInv(s) && Complete(s)
    requires |s.threads[w].pc.fds| == |s.polls|
    ensures EventInv(Apply(s, w, Publish)) && Complete(Apply(s, w, Publish))
  {
    var s' := Apply(s, w, Publish);
    assert RegisteredSoFar(s, s.threads[w].pc);
    forall q, e | 0 <= q < |s'.polls| && e in s'.polls[q].registered ensures Known(s', q, e) {
      assert Known(s, q, e);
    }
    forall o | o in s'.orphans ensures Foreign(s', o) {
      assert Foreign(s, o) && NoOrphanIn(s, s.threads[w].pc);
    }
    assert NewTapRegistered(s, s') && RegisteredGrows(s, s');
    hide Known, Complete, Foreign;
    CompleteKept(s, s');
  }
}
