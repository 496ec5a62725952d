/** How a tunnel admits a source: the runs that give an allowed source its tap, add it to the table and
    deliver its datagram, and the one that ends the program instead when the source has port 0. */
module WorkerAdmission {
  import opened IpAddr
  import opened Worker
  import opened Wrappers
  import opened WorkerLock
  import opened WorkerDirectory
  import opened WorkerSafety
  import opened WorkerTheorems
  import opened WorkerBlocked

  // ----- Descriptors -----

  lemma {:induction false} BoundEvents(events: set<Event>) returns (bound: int)
    ensures forall e :: e in events ==> e.fd < bound
  {
    if events == {} {
      bound := 0;
    } else {
      var e :| e in events;
      bound := BoundEvents(events - {e});
      if bound <= e.fd {
        bound := e.fd + 1;
      }
    }
  }

  lemma {:induction false} BoundPolls(polls: seq<Poll>) returns (bound: int)
    ensures forall q, e :: 0 <= q < |polls| && e in polls[q].registered ==> e.fd < bound
  {
    if polls == [] {
      bound := 0;
    } else {
      var last := |polls| - 1;
      bound := BoundPolls(polls[..last]);
      var other := BoundEvents(polls[last].registered);
      if bound < other {
        bound := other;
      }
    }
  }

  /** Fresh descriptors always exist. */
  lemma FreshFdsExist(s: State) returns (fds: seq<int>)
    ensures FreshFds(s, fds)
  {
    var bound := BoundPolls(s.polls);
    fds := seq(|s.threads|, i => bound + i);
  }

  // ----- Stages of a run of one worker -----

  const FREE := Lock({}, None)

  /** What a worker handling event e leaves alone. */
  ghost predicate Kept(s: State, m: State, w: nat, e: Event)
    requires w < |s.threads|
  {
    && |m.threads| == |s.threads| && |m.polls| == |s.polls| && |m.received| == |s.received|
    && m.cfg == s.cfg && !m.aborted && s.orphans <= m.orphans
    && forall q :: 0 <= q < |s.polls| ==>
         s.polls[q].armed - (if q == s.threads[w].queue then {e} else {}) <= m.polls[q].armed
  }

  ghost predicate SameMaps(s: State, m: State) {
    && m.table == s.table && m.taps == s.taps && |m.polls| == |s.polls|
    && forall q :: 0 <= q < |s.polls| ==> m.polls[q].registered == s.polls[q].registered
  }

  /** The worker has come to pc while handling event e alone. */
  ghost predicate At(s: State, m: State, w: nat, e: Event, pc: Pc, lock: Lock) {
    && w < |s.threads| == |m.threads| && Kept(s, m, w, e) && m.lock == lock
    && m.threads[w] == s.threads[w].(pc := pc, batch := [e], next := 0)
  }

  /** A worker waiting for events, with its socket armed and the lock free. */
  ghost predicate Ready(s: State, w: nat, e: Event) {
    && !s.aborted && w < |s.threads| && |s.received| == |s.threads| == |s.polls|
    && s.threads[w].pc.Polling? && s.lock == FREE
    && s.threads[w].queue < |s.polls| && e in s.polls[s.threads[w].queue].armed && e.UdpReady?
  }

  /** A source without a tap, allowed to have one. */
  ghost predicate Admissible(s: State, k: Endpoint) {
    FindIn(s.table, k) < 0 && Allowed(s.cfg, k.addr)
  }

  lemma PollsSocket(s: State, w: nat, e: Event) returns (m: State)
    requires Ready(s, w, e)
    ensures Enabled(s, w, PollEvents([e])) && m == Apply(s, w, PollEvents([e]))
    ensures At(s, m, w, e, EnterBatch, FREE) && SameMaps(s, m)
  {
    DistinctOne(e);
    hide Distinct, Elements;
    m := Apply(s, w, PollEvents([e]));
  }

  lemma EntersBatch(s: State, w: nat, e: Event, m: State) returns (m': State)
    requires At(s, m, w, e, EnterBatch, FREE) && SameMaps(s, m)
    ensures Enabled(m, w, AcquireRead) && m' == Apply(m, w, AcquireRead)
    ensures At(s, m', w, e, Dispatch, Lock({w}, None)) && SameMaps(s, m')
  {
    m' := Apply(m, w, AcquireRead);
  }

  lemma DispatchesSocket(s: State, w: nat, e: Event, m: State) returns (m': State)
    requires At(s, m, w, e, Dispatch, Lock({w}, None)) && SameMaps(s, m) && e.UdpReady?
    ensures Enabled(m, w, NextEvent) && m' == Apply(m, w, NextEvent)
    ensures At(s, m', w, e, UdpRecv, Lock({w}, None)) && SameMaps(s, m')
  {
    m' := Apply(m, w, NextEvent);
  }

  lemma TakesUpSocket(s: State, w: nat, e: Event) returns (moves: seq<Move>, m: State)
    requires Ready(s, w, e)
    ensures Leads(s, moves, m) && At(s, m, w, e, UdpRecv, Lock({w}, None)) && SameMaps(s, m)
  {
    hide Leads, At, SameMaps, Enabled, Apply;
    var m1 := PollsSocket(s, w, e);
    OneMove(s, Move(w, PollEvents([e])), m1);
    var m2 := EntersBatch(s, w, e, m1);
    LeadsOn(s, [Move(w, PollEvents([e]))], m1, Move(w, AcquireRead), m2);
    moves := [Move(w, PollEvents([e]))] + [Move(w, AcquireRead)];
    m := DispatchesSocket(s, w, e, m2);
    LeadsOn(s, moves, m2, Move(w, NextEvent), m);
    moves := moves + [Move(w, NextEvent)];
  }

  lemma ReceivesAndMisses(s: State, w: nat, e: Event, p: Packet, moves: seq<Move>, m: State)
    returns (moves': seq<Move>, m': State)
    requires Leads(s, moves, m) && At(s, m, w, e, UdpRecv, Lock({w}, None)) && SameMaps(s, m) && w < |s.received|
    requires Admissible(s, p.from)
    ensures Leads(s, moves', m') && At(s, m', w, e, Release(p), Lock({w}, None)) && SameMaps(s, m')
  {
    hide Leads, FindIn, Allowed;
    var m1 := Advance(s, moves, m, Move(w, UdpPacket(p)));
    m' := Advance(s, moves + [Move(w, UdpPacket(p))], m1, Move(w, LookUp));
    moves' := moves + [Move(w, UdpPacket(p))] + [Move(w, LookUp)];
  }

  lemma UpgradesAndMisses(s: State, w: nat, e: Event, p: Packet, moves: seq<Move>, m: State)
    returns (moves': seq<Move>, m': State)
    requires Leads(s, moves, m) && At(s, m, w, e, Release(p), Lock({w}, None)) && SameMaps(s, m)
    requires Admissible(s, p.from)
    ensures Leads(s, moves', m') && At(s, m', w, e, Allocate(p), Lock({}, Some(w))) && SameMaps(s, m')
  {
    hide Leads, FindIn, Allowed;
    var m1 := Advance(s, moves, m, Move(w, ReleaseLock));
    assert m1.lock == FREE;
    moves' := moves + [Move(w, ReleaseLock)];
    var m2 := Advance(s, moves', m1, Move(w, AcquireWrite));
    moves' := moves' + [Move(w, AcquireWrite)];
    m' := Advance(s, moves', m2, Move(w, LookUpAgain));
    moves' := moves' + [Move(w, LookUpAgain)];
  }

  /** An allowed unknown source whose datagram reaches a waiting worker comes to have a tap created. */
  lemma ReachesAllocation(s: State, w: nat, e: Event, p: Packet) returns (moves: seq<Move>, m: State)
    requires Ready(s, w, e) && Admissible(s, p.from)
    ensures Leads(s, moves, m) && At(s, m, w, e, Allocate(p), Lock({}, Some(w))) && SameMaps(s, m)
  {
    hide Leads, At, Admissible, SameMaps;
    moves, m := TakesUpSocket(s, w, e);
    moves, m := ReceivesAndMisses(s, w, e, p, moves, m);
    moves, m := UpgradesAndMisses(s, w, e, p, moves, m);
  }

  /** A run of one worker registering the descriptors of its new tap. */
  ghost predicate Registering(s: State, m: State, w: nat, e: Event, p: Packet, fds: seq<int>, done: nat) {
    && At(s, m, w, e, Register(p, fds, done), Lock({}, Some(w)))
    && m.table == s.table && m.taps == s.taps && done <= |fds| == |m.polls|
  }

  lemma CreatesTap(s: State, w: nat, e: Event, p: Packet, fds: seq<int>, moves: seq<Move>, m: State)
    returns (m': State)
    requires Leads(s, moves, m) && At(s, m, w, e, Allocate(p), Lock({}, Some(w))) && SameMaps(s, m)
    requires p.from.port != 0 && FreshFds(s, fds) && |s.taps| < MAX_TAPS && |s.polls| == |s.threads|
    ensures Leads(s, moves + [Move(w, CreateTap(Some(fds)))], m') && Registering(s, m', w, e, p, fds, 0)
  {
    hide Leads, FindIn, Allowed;
    assert FreshFds(m, fds);
    m' := Advance(s, moves, m, Move(w, CreateTap(Some(fds))));
  }

  lemma RegistersOne(s: State, w: nat, e: Event, p: Packet, fds: seq<int>, done: nat, moves: seq<Move>, m: State)
    returns (m': State)
    requires Leads(s, moves, m) && Registering(s, m, w, e, p, fds, done) && done < |fds|
    ensures Leads(s, moves + [Move(w, RegisterFd(true))], m') && Registering(s, m', w, e, p, fds, done + 1)
    ensures done < |m'.polls| && TapReady(|s.taps|, fds[done]) in m'.polls[done].armed
  {
    hide Leads, FindIn, Allowed;
    m' := Advance(s, moves, m, Move(w, RegisterFd(true)));
  }

  lemma {:induction false} RegistersAll(s: State, w: nat, e: Event, p: Packet, fds: seq<int>, done: nat,
                                        moves: seq<Move>, m: State)
    returns (moves': seq<Move>, m': State)
    requires Leads(s, moves, m) && Registering(s, m, w, e, p, fds, done) && done <= |fds|
    ensures Leads(s, moves', m') && Registering(s, m', w, e, p, fds, |fds|)
    decreases |fds| - done
  {
    hide Leads, Registering;
    if done == |fds| {
      moves', m' := moves, m;
    } else {
      var m1 := RegistersOne(s, w, e, p, fds, done, moves, m);
      moves', m' := RegistersAll(s, w, e, p, fds, done + 1, moves + [Move(w, RegisterFd(true))], m1);
    }
  }

  /** The tap is counted and its endpoint is about to be added to the table. */
  ghost predicate Admitted(s: State, s': State, w: nat, e: Event, p: Packet, fds: seq<int>) {
    && At(s, s', w, e, MapAdd(p, |s.taps|), Lock({}, Some(w)))
    && s'.table == s.table && s'.taps == s.taps + [Tap(p.from, fds)]
  }

  lemma Publishes(s: State, w: nat, e: Event, p: Packet, fds: seq<int>, moves: seq<Move>, m: State) returns (m': State)
    requires Leads(s, moves, m) && Registering(s, m, w, e, p, fds, |fds|)
    ensures Leads(s, moves + [Move(w, Publish)], m') && Admitted(s, m', w, e, p, fds)
  {
    hide Leads, FindIn, Allowed;
    m' := Advance(s, moves, m, Move(w, Publish));
  }

  lemma CreatesAndPublishes(s: State, w: nat, e: Event, p: Packet, moves: seq<Move>, m: State)
    returns (moves': seq<Move>, m': State, fds: seq<int>)
    requires Leads(s, moves, m) && At(s, m, w, e, Allocate(p), Lock({}, Some(w))) && SameMaps(s, m)
    requires p.from.port != 0 && |s.taps| < MAX_TAPS && |s.polls| == |s.threads|
    ensures Leads(s, moves', m') && Admitted(s, m', w, e, p, fds)
  {
    hide Leads, At, FreshFds, Registering, SameMaps, Admitted;
    fds := FreshFdsExist(s);
    m' := CreatesTap(s, w, e, p, fds, moves, m);
    moves', m' := RegistersAll(s, w, e, p, fds, 0, moves + [Move(w, CreateTap(Some(fds)))], m');
    m' := Publishes(s, w, e, p, fds, moves', m');
    moves' := moves' + [Move(w, Publish)];
  }

  lemma Aborts(s: State, w: nat, e: Event, p: Packet, moves: seq<Move>, m: State) returns (s': State)
    requires Leads(s, moves, m) && At(s, m, w, e, Allocate(p), Lock({}, Some(w))) && p.from.port == 0
    ensures Leads(s, moves + [Move(w, CreateTap(None))], s') && s'.aborted
  {
    hide Leads;
    s' := Advance(s, moves, m, Move(w, CreateTap(None)));
  }

  /** From a free lock, an allowed unknown source whose datagram reaches a waiting worker can be given the
      next tap; but if its port is 0 the program can be ended instead. */
  lemma SourceGetsTap(s: State, w: nat, e: Event, p: Packet) returns (moves: seq<Move>, s': State, fds: seq<int>)
    requires Ready(s, w, e) && Admissible(s, p.from) && |s.taps| < MAX_TAPS
    ensures Leads(s, moves, s')
    ensures if p.from.port == 0 then s'.aborted else Admitted(s, s', w, e, p, fds)
  {
    hide Leads, At, SameMaps, Admissible, Admitted;
    var m;
    moves, m := ReachesAllocation(s, w, e, p);
    if p.from.port == 0 {
      s' := Aborts(s, w, e, p, moves, m);
      moves, fds := moves + [Move(w, CreateTap(None))], [];
    } else {
      moves, s', fds := CreatesAndPublishes(s, w, e, p, moves, m);
    }
  }

  // ----- Delivering and waiting again -----

  /** The datagram is written to the tap. */
  lemma Writes(s: State, w: nat, e: Event, p: Packet, id: nat, m: State) returns (m': State, pc: Pc)
    requires At(s, m, w, e, Deliver(p, id), Lock({}, Some(w))) && id < |m.taps|
    ensures Leads(m, [Move(w, WriteTap(Some(0)))], m') && At(s, m', w, e, pc, Lock({}, Some(w))) && SameMaps(m, m')
    ensures pc == Load(Rx, id, 0) && m'.stats == m.stats
  {
    m' := Apply(m, w, WriteTap(Some(0)));
    pc := Load(Rx, id, 0);
    OneMove(m, Move(w, WriteTap(Some(0))), m');
    hide Leads;
  }

  lemma Loads(s: State, w: nat, e: Event, id: nat, m: State) returns (m': State, loaded: nat)
    requires At(s, m, w, e, Load(Rx, id, 0), Lock({}, Some(w))) && HasSlot(m, id, m.threads[w].queue)
    ensures Enabled(m, w, LoadCounter) && m' == Apply(m, w, LoadCounter)
    ensures At(s, m', w, e, Store(Rx, id, 0, loaded), Lock({}, Some(w))) && SameMaps(m, m') && m'.stats == m.stats
  {
    m' := Apply(m, w, LoadCounter);
    loaded := m.stats[id][m.threads[w].queue].Get(Rx);
  }

  lemma Stores(s: State, w: nat, e: Event, id: nat, loaded: nat, m: State) returns (m': State)
    requires At(s, m, w, e, Store(Rx, id, 0, loaded), Lock({}, Some(w)))
    requires HasSlot(m, id, m.threads[w].queue) && e.UdpReady?
    ensures Enabled(m, w, StoreCounter) && m' == Apply(m, w, StoreCounter)
    ensures At(s, m', w, e, UdpRecv, Lock({}, Some(w))) && SameMaps(m, m')
  {
    m' := Apply(m, w, StoreCounter);
  }

  lemma FindsEmpty(s: State, w: nat, e: Event, m: State) returns (m': State)
    requires At(s, m, w, e, UdpRecv, Lock({}, Some(w)))
    ensures Enabled(m, w, UdpNothing) && m' == Apply(m, w, UdpNothing)
    ensures At(s, m', w, e, Rearm, Lock({}, Some(w))) && SameMaps(m, m')
  {
    m' := Apply(m, w, UdpNothing);
  }

  lemma SameQueue(s: State, m: State, m': State, w: nat, e: Event, pc: Pc, pc': Pc, lock: Lock, id: nat)
    requires At(s, m, w, e, pc, lock) && At(s, m', w, e, pc', lock) && m'.stats == m.stats
    requires HasSlot(m, id, m.threads[w].queue)
    ensures w < |m'.threads| && HasSlot(m', id, m'.threads[w].queue)
  {
    hide Kept;
  }

  lemma SameMapsOnward(s: State, m: State, m': State)
    requires SameMaps(s, m) && SameMaps(m, m')
    ensures SameMaps(s, m')
  {
  }

  /** It is counted, and the socket is found empty. */
  lemma CountsAndFindsEmpty(s: State, w: nat, e: Event, id: nat, m: State) returns (moves: seq<Move>, m': State)
    requires At(s, m, w, e, Load(Rx, id, 0), Lock({}, Some(w))) && HasSlot(m, id, m.threads[w].queue) && e.UdpReady?
    ensures Leads(m, moves, m') && At(s, m', w, e, Rearm, Lock({}, Some(w))) && SameMaps(m, m')
  {
    var m1, loaded := Loads(s, w, e, id, m);
    SameQueue(s, m, m1, w, e, Load(Rx, id, 0), Store(Rx, id, 0, loaded), Lock({}, Some(w)), id);
    hide At, SameMaps, Enabled, Apply, Leads;
    OneMove(m, Move(w, LoadCounter), m1);
    var m2 := Stores(s, w, e, id, loaded, m1);
    LeadsOn(m, [Move(w, LoadCounter)], m1, Move(w, StoreCounter), m2);
    SameMapsOnward(m, m1, m2);
    moves := [Move(w, LoadCounter)] + [Move(w, StoreCounter)];
    m' := FindsEmpty(s, w, e, m2);
    LeadsOn(m, moves, m2, Move(w, UdpNothing), m');
    SameMapsOnward(m, m2, m');
    moves := moves + [Move(w, UdpNothing)];
  }

  lemma Delivers(s: State, w: nat, e: Event, p: Packet, id: nat, m: State) returns (moves: seq<Move>, m': State)
    requires Reachable(m) && At(s, m, w, e, Deliver(p, id), Lock({}, Some(w))) && e.UdpReady?
    ensures Leads(m, moves, m') && At(s, m', w, e, Rearm, Lock({}, Some(w))) && SameMaps(m, m')
  {
    HasOwnSlot(m, w);
    hide Leads, Reachable;
    var m1, pc := Writes(s, w, e, p, id, m);
    SameQueue(s, m, m1, w, e, Deliver(p, id), pc, Lock({}, Some(w)), id);
    hide Kept, SameMaps;
    moves, m' := CountsAndFindsEmpty(s, w, e, id, m1);
    LeadsOnward(m, [Move(w, WriteTap(Some(0)))], m1, moves, m');
    SameMapsOnward(m, m1, m');
    moves := [Move(w, WriteTap(Some(0)))] + moves;
  }

  lemma HasOwnSlot(s: State, w: nat)
    requires Reachable(s) && w < |s.threads| && s.threads[w].pc.Deliver?
    ensures s.threads[w].pc.tapId < |s.taps| && HasSlot(s, s.threads[w].pc.tapId, s.threads[w].queue)
  {
    ReachableDirectory(s);
    QueueInRange(s, w);
    assert PcFits(s, s.threads[w].pc);
    hide Reachable, LockInv, Settled;
  }

  lemma Rearms(s: State, w: nat, e: Event, m: State) returns (m': State)
    requires At(s, m, w, e, Rearm, Lock({}, Some(w))) && s.threads[w].queue < |s.polls|
    ensures Enabled(m, w, RearmFd(true)) && m' == Apply(m, w, RearmFd(true))
    ensures m' == m.(threads := m'.threads, polls := m'.polls) && |m'.threads| == |m.threads|
    ensures m'.threads[w] == s.threads[w].(pc := Dispatch, batch := [e], next := 1)
    ensures m'.polls == m.polls[s.threads[w].queue :=
                          m.polls[s.threads[w].queue].(armed := m.polls[s.threads[w].queue].armed + {e})]
  {
    m' := Apply(m, w, RearmFd(true));
  }

  lemma EndsBatch(s: State, w: nat, e: Event, m: State) returns (moves: seq<Move>, m': State)
    requires !m.aborted && w < |m.threads| && w < |s.threads| && m.lock == Lock({}, Some(w))
    requires m.threads[w] == s.threads[w].(pc := Dispatch, batch := [e], next := 1)
    ensures Leads(m, moves, m') && m' == m.(threads := m'.threads, lock := FREE) && |m'.threads| == |m.threads|
    ensures m'.threads[w] == s.threads[w].(pc := Polling, batch := [], next := 0)
  {
    assert Leads(m, [], m);
    hide Leads, FindIn, Allowed;
    var m1 := Advance(m, [], m, Move(w, NextEvent));
    moves := [] + [Move(w, NextEvent)];
    m' := Advance(m, moves, m1, Move(w, ReleaseLock));
    moves := moves + [Move(w, ReleaseLock)];
  }

  /** The event is re-armed, the batch ends and the lock is given up. */
  lemma WaitsAgain(s: State, w: nat, e: Event, m: State) returns (moves: seq<Move>, m': State)
    requires At(s, m, w, e, Rearm, Lock({}, Some(w))) && s.threads[w].queue < |s.polls|
    ensures Leads(m, moves, m') && SameMaps(m, m') && Kept(s, m', w, e)
    ensures w < |m'.threads| && m'.threads[w] == s.threads[w].(pc := Polling, batch := [], next := 0) && m'.lock == FREE
    ensures e in m'.polls[s.threads[w].queue].armed && m'.orphans == m.orphans
    ensures forall q :: 0 <= q < |m.polls| ==> m.polls[q].armed <= m'.polls[q].armed
  {
    hide Leads, Enabled, Apply;
    var m1 := Rearms(s, w, e, m);
    OneMove(m, Move(w, RearmFd(true)), m1);
    moves, m' := EndsBatch(s, w, e, m1);
    LeadsOnward(m, [Move(w, RearmFd(true))], m1, moves, m');
    moves := [Move(w, RearmFd(true))] + moves;
  }

  /** The worker is back waiting, its socket armed and the lock free, and nothing that was armed or left
      behind is lost. */
  ghost predicate Back(s: State, s': State, w: nat, e: Event) {
    && Ready(s, w, e) && Ready(s', w, e) && s'.cfg == s.cfg
    && |s'.threads| == |s.threads| && s'.threads[w].queue == s.threads[w].queue && s.orphans <= s'.orphans
    && forall q :: 0 <= q < |s.polls| ==> s.polls[q].armed <= s'.polls[q].armed
  }

  lemma DeliversAndWaits(s: State, w: nat, e: Event, p: Packet, id: nat, m: State) returns (moves: seq<Move>, s': State)
    requires Ready(s, w, e) && Reachable(m) && At(s, m, w, e, Deliver(p, id), Lock({}, Some(w)))
    ensures Leads(m, moves, s') && Back(s, s', w, e) && s'.table == m.table && s'.taps == m.taps
  {
    hide Leads, Reachable;
    var m1, more;
    moves, m1 := Delivers(s, w, e, p, id, m);
    more, s' := WaitsAgain(s, w, e, m1);
    LeadsOnward(m, moves, m1, more, s');
    moves := moves + more;
  }

  // ----- Serving a source -----

  /** The state after a source has been given its tap, added to the table and served. */
  ghost predicate Serves(s: State, s': State, w: nat, e: Event, k: Endpoint) {
    && Back(s, s', w, e)
    && |s'.taps| == |s.taps| + 1 && s.taps < s'.taps && s'.taps[|s.taps|].endpoint == k
    && (s.table.count < |s.table.entries| ==> |s'.table.entries| == |s.table.entries|)
  }

  lemma AddsAndServes(s: State, w: nat, e: Event, p: Packet, fds: seq<int>, m: State)
    returns (moves: seq<Move>, s': State)
    requires Ready(s, w, e) && Reachable(m) && Admitted(s, m, w, e, p, fds) && !CannotAdd(m.table, p.from)
    ensures Leads(m, moves, s') && Serves(s, s', w, e, p.from)
  {
    AdderIsAlone(m, w);
    hide CannotAdd, Leads, Reachable;
    var m1, more;
    moves, m1 := AdditionCompletes(m, w, p, |s.taps|);
    ReachableOnward(m, moves, m1);
    assert At(s, m1, w, e, Deliver(p, |s.taps|), Lock({}, Some(w)));
    hide Ready, At, Kept;
    more, s' := DeliversAndWaits(s, w, e, p, |s.taps|, m1);
    LeadsOnward(m, moves, m1, more, s');
    moves := moves + more;
  }

  /** An allowed unknown source with a port can be served, unless it cannot be added to the table. */
  lemma SourceIsServed(s: State, w: nat, e: Event, p: Packet) returns (moves: seq<Move>, s': State)
    requires Reachable(s) && Ready(s, w, e) && Admissible(s, p.from) && |s.taps| < MAX_TAPS && p.from.port != 0
    requires !CannotAdd(s.table, p.from)
    ensures Leads(s, moves, s') && Reachable(s') && Serves(s, s', w, e, p.from)
  {
    hide CannotAdd, Leads, Reachable, Ready, Admissible, Serves;
    var m, fds, more;
    moves, m, fds := SourceGetsTap(s, w, e, p);
    ReachableOnward(s, moves, m);
    more, s' := AddsAndServes(s, w, e, p, fds, m);
    LeadsOnward(s, moves, m, more, s');
    moves := moves + more;
    ReachableOnward(s, moves, s');
  }

  // ----- The third IPv4 peer on a port -----

  /** One datagram can stop a tunnel: with two IPv4 peers of one port served and a small table, a third,
      allowed, whose datagram reaches a waiting worker, leads to a state from which nothing is received,
      answered or forwarded, whatever happens afterwards. */
  lemma ThirdIpv4PeerCanStopTunnel(s: State, w: nat, e: Event, p: Packet, i: nat, j: nat)
    returns (moves: seq<Move>, s': State)
    requires Reachable(s) && Ready(s, w, e) && Admissible(s, p.from) && |s.taps| < MAX_TAPS && StaysSmall(s.table)
    requires i < |s.taps| && j < |s.taps| && p.from.port != 0
    requires PortMates(s.taps[i].endpoint, s.taps[j].endpoint)
    requires PortMates(s.taps[i].endpoint, p.from) && PortMates(s.taps[j].endpoint, p.from)
    ensures Leads(s, moves, s')
    ensures forall more: seq<Move>, s'': State :: Leads(s', more, s'') ==>
              s''.lock == Lock({}, Some(w)) && Dormant(s', s'')
  {
    hide Ready, Admissible, PortMates, StaysSmall, Dormant, Reachable, Leads;
    var fds;
    moves, s', fds := SourceGetsTap(s, w, e, p);
    ReachableOnward(s, moves, s');
    assert s'.taps[i] == s.taps[i] && s'.taps[j] == s.taps[j];
    forall more: seq<Move>, s'': State | Leads(s', more, s'')
      ensures s''.lock == Lock({}, Some(w)) && Dormant(s', s'')
    {
      ThirdIpv4PeerBlocksTunnel(s', w, i, j, more, s'');
    }
  }
}
