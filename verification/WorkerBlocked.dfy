/** A tunnel that stops for good: an addition no nonces can complete is retried forever under the write
    lock. Three IPv4 peers on one port are such an addition, as long as the table is small. */
module WorkerBlocked {
  import opened Bits
  import opened IpAddr
  import opened EndpointHash
  import opened EndpointTable
  import opened EndpointRebuild
  import opened EndpointMap
  import opened Worker
  import opened Wrappers
  import opened WorkerLock
  import opened WorkerDirectory
  import opened WorkerSafety

  // ----- Additions that never complete -----

  /** No nonces let the saved entries and the key be placed. */
  ghost predicate Hopeless(saved: seq<Entry>, k: Endpoint) {
    forall a: u32, b: u32 :: !Rebuilds(saved, k, |saved|, a, b)
  }

  /** The key cannot be inserted directly, and the rebuild this brings about is hopeless. */
  ghost predicate CannotAdd(t: Table, k: Endpoint) {
    && !Direct(t, k)
    && forall newHalf: seq<Entry> :: |newHalf| == |t.entries| && Clear(newHalf) ==> Hopeless(Saved(t, newHalf), k)
  }

  /** Worker w holds the write lock and is adding a key that cannot be added; nobody else is past the
      lock. */
  ghost predicate Stuck(s: State, w: nat, p: Packet, id: nat) {
    && w < |s.threads| && s.lock == Lock({}, Some(w))
    && (forall v :: 0 <= v < |s.threads| && v != w ==> Holding(s.threads[v].pc) == Nothing)
    && var pc := s.threads[w].pc;
    || (pc == MapAdd(p, id) && CannotAdd(s.table, p.from))
    || (pc.Rebuild? && pc.packet == p && pc.tapId == id && Hopeless(pc.saved, p.from))
  }

  /** Nothing is forwarded, answered or allocated. */
  ghost predicate Dormant(s: State, s': State) {
    s'.log == s.log && s'.history == s.history && s'.taps == s.taps && s'.received == s.received
  }

  /** Workers outside the lock cannot pass it. */
  lemma OthersStayOut(s: State, w: nat, p: Packet, id: nat, v: nat, a: Action)
    requires Stuck(s, w, p, id) && Enabled(s, v, a) && v != w
    ensures Stuck(Apply(s, v, a), w, p, id) && Dormant(s, Apply(s, v, a))
  {
    hide CannotAdd, Hopeless, BatchReady, Elements;
    assert Holding(s.threads[v].pc) == Nothing;
    assert a.Start? || a.PollEvents? || a.Quit?;
  }

  lemma FirstTryFails(s: State, w: nat, p: Packet, id: nat, newHalf: seq<Entry>)
    requires Stuck(s, w, p, id) && Enabled(s, w, AddFirst(newHalf))
    ensures Stuck(Apply(s, w, AddFirst(newHalf)), w, p, id) && Dormant(s, Apply(s, w, AddFirst(newHalf)))
  {
    hide Hopeless;
    var t := s.table;
    assert Hopeless(Saved(t, newHalf), p.from);
    if t.InBounds() && t.count < |t.entries| {
      assert TryInsert(t, p.from, id).Taken?;
    }
  }

  lemma RetryFails(s: State, w: nat, p: Packet, id: nat, na: u32, nb: u32, debris: Table)
    requires Stuck(s, w, p, id) && Enabled(s, w, AddAttempt(na, nb, debris))
    ensures Stuck(Apply(s, w, AddAttempt(na, nb, debris)), w, p, id)
    ensures Dormant(s, Apply(s, w, AddAttempt(na, nb, debris)))
  {
    hide CannotAdd;
    var saved := s.threads[w].pc.saved;
    assert !Rebuilds(saved, p.from, |saved|, na, nb);
    if Cleared(|saved|, na, nb).InBounds() {
      AttemptShape(saved, |saved|, na, nb, p.from, id);
      hide Cleared, Attempt, Rebuilds, Hopeless;
    }
  }

  lemma StuckActions(s: State, w: nat, p: Packet, id: nat, a: Action)
    requires Stuck(s, w, p, id) && Enabled(s, w, a)
    ensures a.AddFirst? || a.AddAttempt?
  {
    hide CannotAdd, Hopeless, BatchReady, Elements, FreshFds;
  }

  lemma StepStaysStuck(s: State, w: nat, p: Packet, id: nat, v: nat, a: Action)
    requires Stuck(s, w, p, id) && Enabled(s, v, a)
    ensures Stuck(Apply(s, v, a), w, p, id) && Dormant(s, Apply(s, v, a))
  {
    if v != w {
      OthersStayOut(s, w, p, id, v, a);
    } else {
      StuckActions(s, w, p, id, a);
      hide Stuck, Enabled, Apply, Dormant;
      if a.AddFirst? {
        FirstTryFails(s, w, p, id, a.newHalf);
      } else {
        RetryFails(s, w, p, id, a.nonceA, a.nonceB, a.debris);
      }
    }
  }

  /** An addition that cannot complete blocks the whole tunnel: whatever the workers do from then on,
      the lock stays held and no datagram is received, answered or forwarded. */
  lemma {:induction false} HopelessAdditionBlocks(s: State, w: nat, p: Packet, id: nat, moves: seq<Move>, s': State)
    requires Stuck(s, w, p, id) && Leads(s, moves, s')
    ensures Stuck(s', w, p, id) && Dormant(s, s')
    decreases |moves|
  {
    if moves == [] {
    } else {
      var last := |moves| - 1;
      var v, a := moves[last].worker, moves[last].action;
      var mid :| Leads(s, moves[..last], mid) && Enabled(mid, v, a) && s' == Apply(mid, v, a);
      hide Stuck, Enabled, Apply, Leads;
      HopelessAdditionBlocks(s, w, p, id, moves[..last], mid);
      StepStaysStuck(mid, w, p, id, v, a);
    }
  }

  // ----- Additions that can complete -----

  /** The worker's addition cannot complete under any random numbers. */
  ghost predicate Blocked(s: State, w: nat)
    requires w < |s.threads|
  {
    match s.threads[w].pc
    case MapAdd(p, id) => CannotAdd(s.table, p.from)
    case Rebuild(p, id, saved) => Hopeless(saved, p.from)
    case _ => false
  }

  /** Some run takes the worker on to delivering its datagram. */
  ghost predicate CanComplete(s: State, w: nat, p: Packet, id: nat) {
    exists moves: seq<Move>, s': State ::
      Leads(s, moves, s') && w < |s'.threads| && s'.threads[w].pc == Deliver(p, id)
  }

  /** A turn of the retry loop does not depend on what the turns before it left in the table. */
  lemma TurnForgets(s: State, w: nat, a: Action, left: Table)
    requires Enabled(s, w, a) && a.AddAttempt?
    ensures Enabled(s.(table := left), w, a) && Apply(s.(table := left), w, a) == Apply(s, w, a)
  {
    hide Attempt, Cleared;
  }

  lemma RebuildCompletes(s: State, w: nat, p: Packet, id: nat, saved: seq<Entry>) returns (m: Move, s': State)
    requires !s.aborted && w < |s.threads| && s.threads[w].pc == Rebuild(p, id, saved) && !Hopeless(saved, p.from)
    ensures Enabled(s, m.worker, m.action) && s' == Apply(s, m.worker, m.action)
    ensures s' == Delivering(s, w, p, id, s'.table) && |s'.table.entries| == |saved|
  {
    var a: u32, b: u32 :| Rebuilds(saved, p.from, |saved|, a, b);
    AttemptShape(saved, |saved|, a, b, p.from, id);
    m := Move(w, AddAttempt(a, b, s.table));
    hide Attempt, Rebuilds, Hopeless;
    s' := Apply(s, m.worker, m.action);
  }

  lemma InsertCompletes(s: State, w: nat, p: Packet, id: nat) returns (m: Move, s': State)
    requires !s.aborted && w < |s.threads| && s.threads[w].pc == MapAdd(p, id) && Direct(s.table, p.from)
    ensures Enabled(s, m.worker, m.action) && s' == Apply(s, m.worker, m.action)
    ensures s' == Delivering(s, w, p, id, s'.table) && |s'.table.entries| == |s.table.entries|
  {
    m := Move(w, AddFirst(seq(|s.table.entries|, _ => BLANK)));
    assert TryInsert(s.table, p.from, id).Put?;
    hide Saved;
    s' := Apply(s, m.worker, m.action);
  }

  /** A table that is full, or whose two slots for the key are taken, is handed to the rebuild. */
  lemma GoesOnToRebuild(s: State, w: nat, p: Packet, id: nat, newHalf: seq<Entry>) returns (s': State)
    requires !s.aborted && w < |s.threads| && s.threads[w].pc == MapAdd(p, id) && s.table.InBounds()
    requires !Direct(s.table, p.from) && |newHalf| == |s.table.entries| && Clear(newHalf)
    ensures Enabled(s, w, AddFirst(newHalf)) && s' == Apply(s, w, AddFirst(newHalf))
    ensures s' == To(s, w, Rebuild(p, id, Saved(s.table, newHalf))).(table := s'.table)
  {
    s' := Apply(s, w, AddFirst(newHalf));
    if s.table.count < |s.table.entries| {
      assert TryInsert(s.table, p.from, id).Taken?;
    }
  }

  lemma AddsDirectly(s: State, w: nat, p: Packet, id: nat) returns (moves: seq<Move>, s': State)
    requires !s.aborted && w < |s.threads| && s.threads[w].pc == MapAdd(p, id) && Direct(s.table, p.from)
    ensures Leads(s, moves, s') && s' == Delivering(s, w, p, id, s'.table) && |s'.table.entries| == |s.table.entries|
  {
    var m;
    m, s' := InsertCompletes(s, w, p, id);
    hide Leads, Direct, Enabled, Apply, Delivering;
    OneMove(s, m, s');
    moves := [m];
  }

  lemma AddsByRebuild(s: State, w: nat, p: Packet, id: nat, newHalf: seq<Entry>) returns (moves: seq<Move>, s': State)
    requires !s.aborted && w < |s.threads| && s.threads[w].pc == MapAdd(p, id) && s.table.InBounds()
    requires !Direct(s.table, p.from) && |newHalf| == |s.table.entries| && Clear(newHalf)
    requires !Hopeless(Saved(s.table, newHalf), p.from)
    ensures Leads(s, moves, s') && s' == Delivering(s, w, p, id, s'.table)
    ensures |s'.table.entries| == |Saved(s.table, newHalf)|
  {
    hide Leads, Direct, Hopeless, Saved, Enabled, Apply;
    var mid := GoesOnToRebuild(s, w, p, id, newHalf);
    OneMove(s, Move(w, AddFirst(newHalf)), mid);
    var m;
    m, s' := RebuildCompletes(mid, w, p, id, Saved(s.table, newHalf));
    LeadsOn(s, [Move(w, AddFirst(newHalf))], mid, m, s');
    moves := [Move(w, AddFirst(newHalf))] + [m];
  }

  lemma AdditionCompletes(s: State, w: nat, p: Packet, id: nat) returns (moves: seq<Move>, s': State)
    requires !s.aborted && w < |s.threads| && s.threads[w].pc == MapAdd(p, id) && s.table.InBounds()
    requires !CannotAdd(s.table, p.from)
    ensures Leads(s, moves, s') && s' == Delivering(s, w, p, id, s'.table)
    ensures s.table.count < |s.table.entries| ==> |s'.table.entries| == |s.table.entries|
  {
    hide Leads, Direct, Hopeless, Delivering;
    if Direct(s.table, p.from) {
      moves, s' := AddsDirectly(s, w, p, id);
    } else {
      var newHalf: seq<Entry> :|
        |newHalf| == |s.table.entries| && Clear(newHalf) && !Hopeless(Saved(s.table, newHalf), p.from);
      moves, s' := AddsByRebuild(s, w, p, id, newHalf);
    }
  }

  /** In a reachable state an addition can complete exactly when it is not blocked. */
  lemma AdditionCompletesIff(s: State, w: nat, p: Packet, id: nat)
    requires Reachable(s) && !s.aborted && w < |s.threads| && MidUpdate(s.threads[w].pc)
    requires s.threads[w].pc.packet == p && s.threads[w].pc.tapId == id
    ensures CanComplete(s, w, p, id) <==> !Blocked(s, w)
  {
    AdderIsAlone(s, w);
    hide Reachable, Hopeless, CannotAdd, Leads;
    if Blocked(s, w) {
      assert Stuck(s, w, p, id);
      forall moves: seq<Move>, s': State | Leads(s, moves, s') ensures Stuck(s', w, p, id) {
        HopelessAdditionBlocks(s, w, p, id, moves, s');
      }
    } else if s.threads[w].pc.MapAdd? {
      var moves, s' := AdditionCompletes(s, w, p, id);
    } else {
      var m, s' := RebuildCompletes(s, w, p, id, s.threads[w].pc.saved);
      OneMove(s, m, s');
    }
  }

  lemma AdderIsAlone(s: State, w: nat)
    requires Reachable(s) && w < |s.threads| && MidUpdate(s.threads[w].pc)
    ensures s.lock == Lock({}, Some(w))
    ensures forall v :: 0 <= v < |s.threads| && v != w ==> Holding(s.threads[v].pc) == Nothing
    ensures s.threads[w].pc.MapAdd? ==> s.table.InBounds()
  {
    ReachableDirectory(s);
    assert PcFits(s, s.threads[w].pc);
    hide Awaiting, LockInv, Reachable;
    AloneAtWrite(s, w);
  }

  lemma AloneAtWrite(s: State, w: nat)
    requires LockInv(s) && w < |s.threads| && Holding(s.threads[w].pc) == Exclusive
    ensures s.lock == Lock({}, Some(w))
    ensures forall v :: 0 <= v < |s.threads| && v != w ==> Holding(s.threads[v].pc) == Nothing
  {
    assert Agrees(s.lock, w, s.threads[w].pc);
    forall v | 0 <= v < |s.threads| && v != w ensures Holding(s.threads[v].pc) == Nothing {
      WriterAlone(s, w, v);
    }
  }

  /** Two keys always fit: nonces with a nonzero spread place them. */
  lemma TwoKeysAreHopeful(saved: seq<Entry>, k: Endpoint)
    requires PowerOfTwo(|saved|) && 32 <= |saved| <= 0x1_0000_0000 && |Keys(saved) + {k}| <= 2
    ensures !Hopeless(saved, k)
  {
    var keys := Keys(saved) + {k};
    forall x | x in keys ensures |Rivals(keys, x, 1, |saved|)| <= 2 {
      SubsetSize(Rivals(keys, x, 1, |saved|), keys);
    }
    SomeNoncesIff(saved, k, |saved|);
    assert Fits(keys, 1, |saved|);
  }

  lemma SecondKeyCanBeAdded(t: Table, k: Endpoint)
    requires Valid(t) && t.count < |t.entries| <= 0x1_0000_0000 && |Overlay(t.entries)| <= 1
    ensures !CannotAdd(t, k)
  {
    var newHalf := seq(|t.entries|, _ => BLANK);
    assert Saved(t, newHalf) == t.entries && Clear(newHalf);
    assert |Keys(t.entries) + {k}| <= 2 by { UnionSize(Keys(t.entries), k); }
    hide Overlay, Valid, Hopeless, Direct;
    assert PowerOfTwo(|t.entries|) && |t.entries| >= 32 by { ValidCapacity(t); }
    TwoKeysAreHopeful(t.entries, k);
  }

  lemma ValidCapacity(t: Table)
    requires Valid(t)
    ensures PowerOfTwo(|t.entries|) && |t.entries| >= 32
  {
  }

  lemma UnionSize(keys: set<Endpoint>, k: Endpoint)
    ensures |keys + {k}| <= |keys| + 1
  {
  }

  // ----- Three IPv4 peers on one port -----

  /** Two endpoints with IPv4 addresses and one port. */
  predicate PortMates(x: Endpoint, y: Endpoint) {
    x != y && x.port == y.port && Ipv4Mapped(x.addr) && Ipv4Mapped(y.addr)
  }

  lemma ThirdMateIsHopeless(saved: seq<Entry>, k: Endpoint, x: Endpoint, y: Endpoint)
    requires PowerOfTwo(|saved|) && 32 <= |saved| <= 256
    requires x in Keys(saved) && y in Keys(saved) && PortMates(x, y) && PortMates(x, k) && PortMates(y, k)
    ensures Hopeless(saved, k)
  {
    forall a: u32, b: u32 ensures !Rebuilds(saved, k, |saved|, a, b) {
      ThirdIpv4PeerHangs(saved, k, |saved|, x, y, a, b);
    }
  }

  /** The table an addition would have to fit into has at most 256 slots. */
  predicate StaysSmall(t: Table) {
    |t.entries| <= if t.count >= |t.entries| then 128 else 256
  }

  lemma ThirdMateCannotBeAdded(t: Table, k: Endpoint, x: Endpoint, y: Endpoint)
    requires Valid(t) && StaysSmall(t)
    requires x in Keys(t.entries) && y in Keys(t.entries) && PortMates(x, y) && PortMates(x, k) && PortMates(y, k)
    ensures CannotAdd(t, k)
  {
    if Direct(t, k) {
      InsertAgrees(t, k, 0);
      Ipv4FoldIsPort(x, y, |t.entries|);
      Ipv4FoldIsPort(y, k, |t.entries|);
      AtMostTwoPerFold(TryInsert(t, k, 0).table, x, y, k);
    }
    DoubledPower(t);
    forall newHalf: seq<Entry> | |newHalf| == |t.entries| && Clear(newHalf) ensures Hopeless(Saved(t, newHalf), k) {
      OverlayAppend(t.entries, newHalf);
      ThirdMateIsHopeless(Saved(t, newHalf), k, x, y);
    }
  }

  /** From the moment the third IPv4 peer on one port has its tap, in a table that stays at 256 slots
      or below, nothing is received, answered or forwarded any more. */
  lemma ThirdIpv4PeerBlocksTunnel(s: State, w: nat, i: nat, j: nat, moves: seq<Move>, s': State)
    requires Reachable(s) && w < |s.threads| && s.threads[w].pc.MapAdd? && StaysSmall(s.table)
    requires i < s.threads[w].pc.tapId < |s.taps| && j < s.threads[w].pc.tapId
    requires var k := s.threads[w].pc.packet.from;
             && PortMates(s.taps[i].endpoint, s.taps[j].endpoint)
             && PortMates(s.taps[i].endpoint, k) && PortMates(s.taps[j].endpoint, k)
    requires Leads(s, moves, s')
    ensures s'.lock == Lock({}, Some(w)) && Dormant(s, s')
    ensures w < |s'.threads| && (s'.threads[w].pc.MapAdd? || s'.threads[w].pc.Rebuild?)
  {
    ThirdMateIsStuck(s, w, i, j);
    HopelessAdditionBlocks(s, w, s.threads[w].pc.packet, s.threads[w].pc.tapId, moves, s');
    hide Leads, CannotAdd, Hopeless;
  }

  lemma ThirdMateIsStuck(s: State, w: nat, i: nat, j: nat)
    requires Reachable(s) && w < |s.threads| && s.threads[w].pc.MapAdd? && StaysSmall(s.table)
    requires i < s.threads[w].pc.tapId < |s.taps| && j < s.threads[w].pc.tapId
    requires var k := s.threads[w].pc.packet.from;
             && PortMates(s.taps[i].endpoint, s.taps[j].endpoint)
             && PortMates(s.taps[i].endpoint, k) && PortMates(s.taps[j].endpoint, k)
    ensures Stuck(s, w, s.threads[w].pc.packet, s.threads[w].pc.tapId)
  {
    hide Reachable, CannotAdd, Valid, Overlay, PortMates, StaysSmall;
    ReachableDirectory(s);
    assert PcFits(s, s.threads[w].pc);
    hide LockInv;
    ThirdMateCannotBeAdded(s.table, s.threads[w].pc.packet.from, s.taps[i].endpoint, s.taps[j].endpoint);
    AloneAtWrite(s, w);
  }

  /** So a working tunnel with a small table serves at most two IPv4 peers on any one port. */
  lemma TwoIpv4PeersPerPort(s: State, h: nat, i: nat, j: nat)
    requires Reachable(s) && NobodyMidUpdate(s) && |s.table.entries| <= 256
    requires h < i < j < |s.taps|
    requires PortMates(s.taps[h].endpoint, s.taps[i].endpoint)
    ensures !PortMates(s.taps[i].endpoint, s.taps[j].endpoint)
  {
    ReachableDirectory(s);
    var x, y, z := s.taps[h].endpoint, s.taps[i].endpoint, s.taps[j].endpoint;
    assert Settled(s) && x != z;
    hide PcFits, LockInv, Reachable;
    if PortMates(y, z) {
      Ipv4FoldIsPort(x, y, |s.table.entries|);
      Ipv4FoldIsPort(y, z, |s.table.entries|);
      AtMostTwoPerFold(s.table, x, y, z);
    }
  }
}
