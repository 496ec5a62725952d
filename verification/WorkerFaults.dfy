/** What a tap abandoned half registered leads to: an event that makes a worker follow a pointer to freed
    descriptors, or, once another tap has been given the abandoned id, an event that names that tap with the
    descriptor of the abandoned one. */
module WorkerFaults {
  import opened IpAddr
  import opened Worker
  import opened Wrappers
  import opened WorkerEvents
  import opened WorkerTheorems
  import opened WorkerBlocked
  import opened WorkerAdmission

  /** A tap has been abandoned after its first descriptor was registered, with queue 0, whose worker waits. */
  ghost predicate Abandoned(s: State, s': State, w: nat, e: Event, left: Event) {
    && Back(s, s', w, e) && s'.table == s.table && s'.taps == s.taps
    && s'.threads[w].queue == 0 && |s'.polls| > 0
    && left.TapReady? && left.tapId == |s.taps|
    && left in s'.polls[0].armed && Orphan(0, left) in s'.orphans
  }

  lemma GivesUp(s: State, w: nat, e: Event, p: Packet, fds: seq<int>, moves: seq<Move>, m: State)
    returns (moves': seq<Move>, m': State)
    requires Leads(s, moves, m) && Registering(s, m, w, e, p, fds, 1) && |fds| >= 2
    requires TapReady(|s.taps|, fds[0]) in m.polls[0].armed
    ensures Leads(s, moves', m') && At(s, m', w, e, Rearm, Lock({}, Some(w)))
    ensures m'.table == s.table && m'.taps == s.taps && |m'.polls| == |m.polls|
    ensures TapReady(|s.taps|, fds[0]) in m'.polls[0].armed && Orphan(0, TapReady(|s.taps|, fds[0])) in m'.orphans
  {
    hide Leads, FindIn, Allowed;
    var m1 := Advance(s, moves, m, Move(w, RegisterFd(false)));
    assert Orphan(0, TapReady(|s.taps|, fds[0])) in Registered(|s.taps|, fds, 1);
    moves' := moves + [Move(w, RegisterFd(false))];
    m' := Advance(s, moves', m1, Move(w, UdpNothing));
    moves' := moves' + [Move(w, UdpNothing)];
  }

  lemma AllocatesAndGivesUp(s: State, w: nat, e: Event, p: Packet) returns (moves: seq<Move>, m: State, left: Event)
    requires Ready(s, w, e) && Admissible(s, p.from)
    requires |s.threads| >= 2 && p.from.port != 0 && |s.taps| < MAX_TAPS
    ensures Leads(s, moves, m) && At(s, m, w, e, Rearm, Lock({}, Some(w)))
    ensures m.table == s.table && m.taps == s.taps && left.TapReady? && left.tapId == |s.taps|
    ensures |m.polls| == |s.threads| && left in m.polls[0].armed && Orphan(0, left) in m.orphans
  {
    var fds := FreshFdsExist(s);
    left := TapReady(|s.taps|, fds[0]);
    hide Leads, Admissible, FreshFds;
    moves, m := ReachesAllocation(s, w, e, p);
    m := CreatesTap(s, w, e, p, fds, moves, m);
    moves := moves + [Move(w, CreateTap(Some(fds)))];
    m := RegistersOne(s, w, e, p, fds, 0, moves, m);
    moves := moves + [Move(w, RegisterFd(true))];
    moves, m := GivesUp(s, w, e, p, fds, moves, m);
  }

  lemma AbandonsTap(s: State, w: nat, e: Event, p: Packet) returns (moves: seq<Move>, s': State, left: Event)
    requires Ready(s, w, e) && Admissible(s, p.from) && s.threads[w].queue == 0
    requires |s.threads| >= 2 && p.from.port != 0 && |s.taps| < MAX_TAPS
    ensures Leads(s, moves, s') && Abandoned(s, s', w, e, left)
  {
    hide Leads, Admissible;
    var m, more;
    moves, m, left := AllocatesAndGivesUp(s, w, e, p);
    more, s' := WaitsAgain(s, w, e, m);
    LeadsOnward(s, moves, m, more, s');
    moves := moves + more;
  }

  /** The worker takes up the event left behind. */
  lemma TakesUpLeftEvent(s: State, w: nat, e: Event, left: Event) returns (moves: seq<Move>, s': State)
    requires Ready(s, w, e) && left.TapReady? && left in s.polls[s.threads[w].queue].armed
    ensures Leads(s, moves, s') && w < |s'.threads| && !s'.aborted && s'.taps == s.taps
    ensures s'.threads[w] == s.threads[w].(pc := TapRead, batch := [left], next := 0)
  {
    moves, s' := TakesUpEvent(s, w, left);
  }

  /** Some run ends in a fault: with two workers or more, an allowed source whose tap is abandoned after its
      first descriptor leaves an event through which the worker of queue 0 reads descriptors that were freed. */
  lemma AbandonedTapCanFault(s: State, w: nat, e: Event, p: Packet) returns (moves: seq<Move>, s': State)
    requires Ready(s, w, e) && Admissible(s, p.from) && s.threads[w].queue == 0
    requires |s.threads| >= 2 && p.from.port != 0 && |s.taps| < MAX_TAPS
    ensures Leads(s, moves, s') && w < |s'.threads| && s'.threads[w].pc.Fault?
  {
    var m, left, more;
    moves, m, left := AbandonsTap(s, w, e, p);
    var m1;
    more, m1 := TakesUpLeftEvent(m, w, e, left);
    LeadsOnward(s, moves, m, more, m1);
    moves := moves + more;
    hide Leads, Ready, Admissible;
    s' := Advance(s, moves, m1, Move(w, TapNothing));
    moves := moves + [Move(w, TapNothing)];
  }

  /** Once the next source has been given the abandoned id, the same event names a counted tap, but with a
      descriptor that is not that tap's: there is no fault, but the worker reads the named tap's device, and
      the one that had something to read is not read. */
  lemma AbandonedTapCanMislead(s: State, w: nat, e: Event, p: Packet, p': Packet) returns (moves: seq<Move>, s': State)
    requires Reachable(s) && Ready(s, w, e) && Admissible(s, p.from) && s.threads[w].queue == 0
    requires Admissible(s, p'.from) && p'.from.port != 0 && !CannotAdd(s.table, p'.from)
    requires |s.threads| >= 2 && p.from.port != 0 && |s.taps| < MAX_TAPS
    ensures Leads(s, moves, s') && Reachable(s') && w < |s'.threads| && s'.threads[w].pc.TapRead?
    ensures var t := s'.threads[w];
            && |t.batch| == 1 && t.next == 0 && t.batch[0].TapReady? && t.batch[0].tapId == |s.taps| < |s'.taps|
            && !OwnFd(s', t.queue, t.batch[0].tapId, t.batch[0].fd)
  {
    hide Reachable, CannotAdd, Admissible, Leads;
    var m, left, more, m1;
    moves, m, left := AbandonsTap(s, w, e, p);
    ReachableOnward(s, moves, m);
    assert Admissible(m, p'.from) by { StillAdmissible(s, m, p'.from); }
    more, m1 := SourceIsServed(m, w, e, p');
    LeadsOnward(s, moves, m, more, m1);
    moves := moves + more;
    more, s' := TakesUpLeftEvent(m1, w, e, left);
    LeadsOnward(s, moves, m1, more, s');
    moves := moves + more;
    ReachableOnward(s, moves, s');
    ReachableOnward(m1, more, s');
    OrphansStay(m1, more, s');
    EventsCarryOwnDescriptorIff(s', w);
  }

  lemma StillAdmissible(s: State, s': State, k: Endpoint)
    requires Admissible(s, k) && s'.table == s.table && s'.cfg == s.cfg
    ensures Admissible(s', k)
  {
  }

  /** What was left behind stays left behind. */
  lemma {:induction false} OrphansStay(s: State, moves: seq<Move>, s': State)
    requires Reachable(s) && Leads(s, moves, s')
    ensures s.orphans <= s'.orphans
    decreases |moves|
  {
    if moves == [] {
    } else {
      var last := |moves| - 1;
      var w, a := moves[last].worker, moves[last].action;
      var mid :| Leads(s, moves[..last], mid) && Enabled(mid, w, a) && s' == Apply(mid, w, a);
      OrphansStay(s, moves[..last], mid);
      ReachableOnward(s, moves[..last], mid);
      hide Reachable, Leads, Enabled, Apply;
      OrphansGrowExactly(mid, w, a);
    }
  }
}
