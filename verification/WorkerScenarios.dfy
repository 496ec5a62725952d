/** Runs from the very beginning: a tunnel created without a default endpoint, and what some datagrams lead it
    to. They also show that the conditions of the theorems about reachable states can be met. */
module WorkerScenarios {
  import opened Bits
  import opened IpAddr
  import opened EndpointTable
  import opened Worker
  import opened Wrappers
  import opened WorkerLock
  import opened WorkerDirectory
  import opened WorkerEvents
  import opened WorkerSafety
  import opened WorkerBlocked
  import opened WorkerAdmission
  import opened WorkerFaults

  /** A tunnel just created, with no default endpoint. */
  function FirstState(cfg: Config, nonceA: u32, nonceB: u32): State {
    var n := |cfg.udpFds|;
    State(cfg, seq(n, _ => Thread(0, Boot, [], 0)), 0, FREE, Cleared(32, nonceA, nonceB), [], [], 0, 0,
          seq(n, q requires 0 <= q < n => Poll({UdpReady(cfg.udpFds[q])}, {UdpReady(cfg.udpFds[q])}, {})),
          false, {}, [], [], seq(n, _ => []))
  }

  lemma FirstStateIsInit(cfg: Config, nonceA: u32, nonceB: u32)
    requires |cfg.udpFds| >= 1
    ensures Init(FirstState(cfg, nonceA, nonceB)) && FirstState(cfg, nonceA, nonceB).taps == []
  {
    var s := FirstState(cfg, nonceA, nonceB);
    assert FirstTableWith(s, nonceA, nonceB);
  }

  /** The first worker has started and waits on queue 0, and nothing else has happened. */
  ghost predicate Begun(s: State, e: Event) {
    && Reachable(s) && Ready(s, 0, e) && s.threads[0].queue == 0 && s.taps == []
    && |s.table.entries| == 32
  }

  lemma Begins(s: State) returns (moves: seq<Move>, s': State)
    requires Init(s) && s.taps == []
    ensures Leads(s, moves, s') && Begun(s', UdpReady(s.cfg.udpFds[0]))
    ensures s'.cfg == s.cfg && |s'.threads| == |s.threads|
  {
    moves := [Move(0, Start)];
    var a: u32, b: u32 :| FirstTableWith(s, a, b);
    hide FirstTable;
    assert s.polls[0] == FirstPoll(s, 0);
    s' := Apply(s, 0, Start);
    OneMove(s, Move(0, Start), s');
    assert Reachable(s) by {
      assert Leads(s, [], s);
    }
    hide Leads;
    ReachableOnward(s, moves, s');
  }

  /** With the lock free, an allowed source that has no tap is admissible. */
  lemma UnknownIsAdmissible(s: State, k: Endpoint)
    requires Reachable(s) && s.lock == FREE && Unknown(s.taps, k) && Allowed(s.cfg, k.addr)
    ensures Admissible(s, k)
    ensures Valid(s.table) && s.table.count == |Overlay(s.table.entries)| == |s.taps|
  {
    var first := ReachableInv(s);
    assert LockInv(s) && DirInv(s);
    hide Inv, Reachable;
    FreeIsSettled(s);
    SettledLookup(s, k);
    CountIsTaps(s);
  }

  /** The first two sources of a tunnel can be served. */
  lemma ServesAnother(s: State, e: Event, p: Packet) returns (moves: seq<Move>, s': State)
    requires Reachable(s) && Ready(s, 0, e) && |s.taps| <= 1 && |s.table.entries| == 32
    requires Unknown(s.taps, p.from) && Allowed(s.cfg, p.from.addr) && p.from.port != 0
    ensures Leads(s, moves, s') && Reachable(s') && Serves(s, s', 0, e, p.from) && |s'.table.entries| == 32
  {
    UnknownIsAdmissible(s, p.from);
    SecondKeyCanBeAdded(s.table, p.from);
    hide Valid, CannotAdd, Reachable, Leads, Unknown, Allowed, Admissible;
    moves, s' := SourceIsServed(s, 0, e, p);
  }

  lemma ServesTwo(s: State, p: Packet, q: Packet) returns (moves: seq<Move>, s': State, e: Event)
    requires Init(s) && s.taps == [] && PortMates(p.from, q.from) && p.from.port != 0
    requires Allowed(s.cfg, p.from.addr) && Allowed(s.cfg, q.from.addr)
    ensures Leads(s, moves, s') && Reachable(s') && Ready(s', 0, e) && s'.cfg == s.cfg
    ensures |s'.table.entries| == 32 && |s'.taps| == 2
    ensures s'.taps[0].endpoint == p.from && s'.taps[1].endpoint == q.from
  {
    hide Init, Reachable, Leads, Allowed;
    e := UdpReady(s.cfg.udpFds[0]) by { HasSocket(s); }
    var m, more, m1;
    moves, m := Begins(s);
    more, m1 := ServesAnother(m, e, p);
    LeadsOnward(s, moves, m, more, m1);
    moves := moves + more;
    more, s' := ServesAnother(m1, e, q);
    LeadsOnward(s, moves, m1, more, s');
    moves := moves + more;
  }

  lemma HasSocket(s: State)
    requires Init(s)
    ensures |s.cfg.udpFds| == |s.threads| >= 1
  {
  }

  /** Three datagrams can stop a tunnel for good: if the allow list admits three IPv4 peers using one port,
      a datagram from each leads to a state after which no run receives, answers or forwards anything. */
  lemma ThreeIpv4PeersStopTunnel(s: State, p: Packet, q: Packet, r: Packet) returns (moves: seq<Move>, s': State)
    requires Init(s) && s.taps == [] && p.from.port != 0
    requires PortMates(p.from, q.from) && PortMates(p.from, r.from) && PortMates(q.from, r.from)
    requires Allowed(s.cfg, p.from.addr) && Allowed(s.cfg, q.from.addr) && Allowed(s.cfg, r.from.addr)
    ensures Leads(s, moves, s')
    ensures forall more: seq<Move>, s'': State :: Leads(s', more, s'') ==>
              s''.lock == Lock({}, Some(0)) && Dormant(s', s'')
  {
    hide Init, Reachable, Leads, Allowed, Dormant;
    var m, e, more;
    moves, m, e := ServesTwo(s, p, q);
    assert Unknown(m.taps, r.from);
    UnknownIsAdmissible(m, r.from);
    hide Valid, Admissible, PortMates, Unknown;
    more, s' := ThirdIpv4PeerCanStopTunnel(m, 0, e, r, 0, 1);
    LeadsOnward(s, moves, m, more, s');
    moves := moves + more;
  }

  /** One datagram can end the program: one from port 0 of an allowed address. */
  lemma PortZeroCanEndProgram(s: State, p: Packet) returns (moves: seq<Move>, s': State)
    requires Init(s) && s.taps == [] && Allowed(s.cfg, p.from.addr) && p.from.port == 0
    ensures Leads(s, moves, s') && s'.aborted
  {
    hide Init, Reachable, Leads, Allowed;
    var m, more, fds;
    moves, m := Begins(s);
    UnknownIsAdmissible(m, p.from);
    hide Valid, Admissible;
    more, s', fds := SourceGetsTap(m, 0, UdpReady(s.cfg.udpFds[0]), p) by { HasSocket(s); }
    LeadsOnward(s, moves, m, more, s');
    moves := moves + more;
  }

  /** One datagram and one failed registration can lead a worker to a dangling pointer. */
  lemma HalfRegistrationCanFault(s: State, p: Packet) returns (moves: seq<Move>, s': State)
    requires Init(s) && s.taps == [] && |s.threads| >= 2 && Allowed(s.cfg, p.from.addr) && p.from.port != 0
    ensures Leads(s, moves, s') && |s'.threads| > 0 && s'.threads[0].pc.Fault?
  {
    hide Init, Reachable, Leads, Allowed;
    HasSocket(s);
    var m, more;
    moves, m := Begins(s);
    UnknownIsAdmissible(m, p.from);
    hide Valid, Admissible;
    more, s' := AbandonedTapCanFault(m, 0, UdpReady(s.cfg.udpFds[0]), p);
    LeadsOnward(s, moves, m, more, s');
    moves := moves + more;
  }

  /** Followed by a datagram that succeeds, it can leave an event that names a counted tap but carries the
      descriptor of the abandoned one. */
  lemma HalfRegistrationCanMislead(s: State, p: Packet) returns (moves: seq<Move>, s': State)
    requires Init(s) && s.taps == [] && |s.threads| >= 2 && Allowed(s.cfg, p.from.addr) && p.from.port != 0
    ensures Leads(s, moves, s') && Reachable(s') && |s'.threads| > 0 && s'.threads[0].pc.TapRead?
    ensures var t := s'.threads[0];
            && |t.batch| == 1 && t.next == 0 && t.batch[0].TapReady? && t.batch[0].tapId < |s'.taps|
            && !OwnFd(s', t.queue, t.batch[0].tapId, t.batch[0].fd)
  {
    hide Init, Reachable, Leads, Allowed;
    HasSocket(s);
    var m, more;
    moves, m := Begins(s);
    UnknownIsAdmissible(m, p.from);
    SecondKeyCanBeAdded(m.table, p.from);
    hide Valid, Admissible, CannotAdd;
    more, s' := AbandonedTapCanMislead(m, 0, UdpReady(s.cfg.udpFds[0]), p, p);
    LeadsOnward(s, moves, m, more, s');
    moves := moves + more;
  }
}
