/** Lock discipline: what each worker holds at each point, and that no state is stuck. */
module WorkerLock {
  import opened EndpointTable
  import opened Worker
  import opened Wrappers

  /** What a worker holds at a program point. */
  datatype Hold = Nothing | ReadOrWrite | Exclusive

  function Holding(pc: Pc): Hold {
    match pc
    case Boot => Nothing
    case Polling => Nothing
    case Exited => Nothing
    case EnterBatch => Nothing
    case Upgrade(_) => Nothing
    case Downgrade(_, _) => Nothing
    case Recheck(_) => Exclusive
    case Allocate(_) => Exclusive
    case Register(_, _, _) => Exclusive
    case MapAdd(_, _) => Exclusive
    case Rebuild(_, _, _) => Exclusive
    case Unwrite(_, _) => Exclusive
    case _ => ReadOrWrite
  }

  ghost predicate Agrees(lock: Lock, w: nat, pc: Pc) {
    match Holding(pc)
    case Nothing => !lock.Held(w)
    case ReadOrWrite => lock.Held(w)
    case Exclusive => lock.writer == Some(w)
  }

  /** Readers and a writer exclude each other, and every worker holds exactly what its program point
      says. */
  ghost predicate LockInv(s: State) {
    && (s.lock.writer.Some? ==> s.lock.readers == {} && s.lock.writer.value < |s.threads|)
    && (forall w :: w in s.lock.readers ==> w < |s.threads|)
    && forall w :: 0 <= w < |s.threads| ==> Agrees(s.lock, w, s.threads[w].pc)
  }

  /** The ways a step can move a worker with respect to the lock. */
  ghost predicate LockMove(s: State, w: nat, s': State)
    requires w < |s.threads|
  {
    && |s'.threads| == |s.threads|
    && s'.threads == s.threads[w := s'.threads[w]]
    && var was, now := Holding(s.threads[w].pc), Holding(s'.threads[w].pc);
    || (s'.lock == s.lock && (was == now || (was == Exclusive && now == ReadOrWrite)))
    || (s'.lock == Lock(s.lock.readers + {w}, None) && s.lock.writer.None? && was == Nothing && now == ReadOrWrite)
    || (s'.lock == Lock({}, Some(w)) && s.lock == Lock({}, None) && was == Nothing && now == Exclusive)
    || (s'.lock == Lock(s.lock.readers, None) && s.lock.writer == Some(w) && was != Nothing && now == Nothing)
    || (s'.lock == Lock(s.lock.readers - {w}, s.lock.writer) && w in s.lock.readers
        && s.lock.writer != Some(w) && was != Nothing && now == Nothing)
  }

  /** Only the locking steps touch the lock; every other step leaves its worker's hold as it was or
      stops needing it to be exclusive. */
  ghost predicate LockUntouched(s: State, w: nat, s': State)
    requires w < |s.threads|
  {
    && |s'.threads| == |s.threads| && s'.lock == s.lock
    && s'.threads == s.threads[w := s'.threads[w]]
    && var was, now := Holding(s.threads[w].pc), Holding(s'.threads[w].pc);
    was == now || (was == Exclusive && now == ReadOrWrite)
  }

  lemma LockingMovesLock(s: State, w: nat, a: Action)
    requires Enabled(s, w, a) && PhaseOf(a) == Locking && Agrees(s.lock, w, s.threads[w].pc)
    requires s.lock.writer.Some? ==> s.lock.readers == {}
    ensures LockMove(s, w, Apply(s, w, a))
  {
  }

  lemma EventsLeaveLock(s: State, w: nat, a: Action)
    requires Enabled(s, w, a) && PhaseOf(a) == Events
    ensures LockUntouched(s, w, Apply(s, w, a))
  {
    hide BatchReady, Elements;
  }

  lemma TransferLeavesLock(s: State, w: nat, a: Action)
    requires Enabled(s, w, a) && PhaseOf(a) == Transfer
    ensures LockUntouched(s, w, Apply(s, w, a))
  {
  }

  lemma CountingLeavesLock(s: State, w: nat, a: Action)
    requires Enabled(s, w, a) && (PhaseOf(a) == Counting || PhaseOf(a) == Resolving)
    ensures LockUntouched(s, w, Apply(s, w, a))
  {
    hide FindIn, Allowed;
  }

  lemma AllocatingLeavesLock(s: State, w: nat, a: Action)
    requires Enabled(s, w, a) && PhaseOf(a) == Allocating
    ensures LockUntouched(s, w, Apply(s, w, a))
  {
    hide FreshFds;
  }

  lemma MappingLeavesLock(s: State, w: nat, a: Action)
    requires Enabled(s, w, a) && PhaseOf(a) == Mapping
    ensures LockUntouched(s, w, Apply(s, w, a))
  {
    hide TryInsert, Attempt, Cleared;
  }

  lemma StepMovesLock(s: State, w: nat, a: Action)
    requires Enabled(s, w, a) && LockInv(s)
    ensures LockMove(s, w, Apply(s, w, a))
  {
    assert Agrees(s.lock, w, s.threads[w].pc);
    hide Enabled, Apply;
    match PhaseOf(a)
    case Locking => LockingMovesLock(s, w, a);
    case Events => EventsLeaveLock(s, w, a);
    case Transfer => TransferLeavesLock(s, w, a);
    case Counting => CountingLeavesLock(s, w, a);
    case Resolving => CountingLeavesLock(s, w, a);
    case Allocating => AllocatingLeavesLock(s, w, a);
    case Mapping => MappingLeavesLock(s, w, a);
  }

  lemma MoveKeepsLockInv(s: State, w: nat, s': State)
    requires w < |s.threads| && LockInv(s) && LockMove(s, w, s')
    ensures LockInv(s')
  {
    assert Agrees(s.lock, w, s.threads[w].pc);
    forall v | 0 <= v < |s'.threads| ensures Agrees(s'.lock, v, s'.threads[v].pc) {
      assert Agrees(s.lock, v, s.threads[v].pc);
    }
  }

  /** While one worker is at a point that needs the write hold, every other holds nothing. */
  lemma WriterAlone(s: State, w: nat, v: nat)
    requires LockInv(s) && w < |s.threads| && v < |s.threads| && v != w
    requires Holding(s.threads[w].pc) == Exclusive
    ensures Holding(s.threads[v].pc) == Nothing
  {
    assert Agrees(s.lock, w, s.threads[w].pc) && Agrees(s.lock, v, s.threads[v].pc);
  }

  lemma InitLock(s: State)
    requires Init(s)
    ensures LockInv(s)
  {
  }

  // ----- Mutation only under the write hold -----

  /** A step that changes the table, the taps or the tap array is taken by a worker holding the lock
      for writing. */
  lemma SharedWritesAreExclusive(s: State, w: nat, a: Action)
    requires Enabled(s, w, a) && LockInv(s)
    ensures var s' := Apply(s, w, a);
            s'.table != s.table || s'.taps != s.taps || s'.generation != s.generation || s'.slots != s.slots
            ==> s.lock == Lock({}, Some(w))
  {
    assert Agrees(s.lock, w, s.threads[w].pc);
  }

  // ----- Progress -----

  predicate Waiting(pc: Pc) {
    pc.EnterBatch? || pc.Upgrade? || pc.Downgrade?
  }

  /** The request the worker is making can be granted now. */
  predicate Grantable(s: State, w: nat)
    requires w < |s.threads| && Waiting(s.threads[w].pc)
  {
    s.lock.writer.None? && (s.threads[w].pc.Upgrade? ==> s.lock.readers == {})
  }

  ghost predicate CanStep(s: State, w: nat) {
    exists a :: Enabled(s, w, a)
  }

  /** The indices a running worker uses are in range. */
  ghost predicate Indexed(s: State) {
    && |s.polls| == |s.received| == |s.threads|
    && forall w :: 0 <= w < |s.threads| ==>
         && (s.threads[w].pc.Register? ==>
               |s.threads[w].pc.fds| == |s.threads| && s.threads[w].pc.done <= |s.threads|)
  }

  /** A worker that neither waits for the lock nor has ended always has a step. */
  lemma NotWaitingCanStep(s: State, w: nat)
    requires !s.aborted && Indexed(s) && w < |s.threads|
    requires !Waiting(s.threads[w].pc) && !s.threads[w].pc.Exited? && !s.threads[w].pc.Fault?
    ensures CanStep(s, w)
  {
    var a := match s.threads[w].pc
      case Boot => Start
      case Polling => Quit
      case Dispatch => NextEvent
      case TapRead => TapNothing
      case TapSend(_, _, _) => SendTo(None)
      case UdpRecv => UdpNothing
      case Find(_) => LookUp
      case Recheck(_) => LookUpAgain
      case Allocate(_) => CreateTap(None)
      case Register(_, fds, done) => if done < |fds| then RegisterFd(true) else Publish
      case MapAdd(_, _) => AddFirst(seq(|s.table.entries|, _ => BLANK))
      case Rebuild(_, _, _) => AddAttempt(0, 0, s.table)
      case Deliver(_, _) => WriteTap(None)
      case Load(_, _, _) => LoadCounter
      case Store(_, _, _, _) => StoreCounter
      case Rearm => RearmFd(true)
      case _ => ReleaseLock;
    assert Enabled(s, w, a);
  }

  /** No deadlock: a request that cannot be granted is blocked by another worker that holds the lock
      and is not itself waiting for it. */
  lemma BlockedByRunner(s: State, w: nat) returns (v: nat)
    requires Indexed(s) && LockInv(s) && w < |s.threads| && Waiting(s.threads[w].pc)
    ensures s.aborted ==> forall u: nat :: !CanStep(s, u)
    ensures !s.aborted && Grantable(s, w) ==> v == w && CanStep(s, w)
    ensures !s.aborted && !Grantable(s, w) ==>
              v != w && v < |s.threads| && s.lock.Held(v) && (CanStep(s, v) <==> !s.threads[v].pc.Fault?)
  {
    assert Agrees(s.lock, w, s.threads[w].pc);
    v := w;
    if s.aborted {
    } else if Grantable(s, w) {
      assert Enabled(s, w, if s.threads[w].pc.Upgrade? then AcquireWrite else AcquireRead);
    } else {
      if s.lock.writer.Some? {
        v := s.lock.writer.value;
      } else {
        v :| v in s.lock.readers;
      }
      assert Agrees(s.lock, v, s.threads[v].pc);
      if !s.threads[v].pc.Fault? {
        NotWaitingCanStep(s, v);
      }
    }
  }
}
