/** The endpoint table and the tap array are inverse to each other, and every id a worker carries is
    good when it is used. */
module WorkerDirectory {
  import opened Bits
  import opened IpAddr
  import opened EndpointHash
  import opened EndpointTable
  import opened EndpointMap
  import opened Worker
  import opened Wrappers
  import opened WorkerLock

  // ----- Invariant -----

  /** The map binds exactly the endpoints of the first n taps, each to its position. */
  ghost predicate Mirror(m: map<Endpoint, int>, taps: seq<Tap>, n: nat)
    requires n <= |taps|
  {
    && (forall i :: 0 <= i < n ==> taps[i].endpoint in m && m[taps[i].endpoint] == i)
    && (forall k :: k in m ==> 0 <= m[k] < n && taps[m[k]].endpoint == k)
  }

  predicate Names(taps: seq<Tap>, id: nat, k: Endpoint) {
    id < |taps| && taps[id].endpoint == k
  }

  predicate Unknown(taps: seq<Tap>, k: Endpoint) {
    forall i :: 0 <= i < |taps| ==> taps[i].endpoint != k
  }

  predicate MidUpdate(pc: Pc) {
    pc.MapAdd? || pc.Rebuild?
  }

  /** The newest tap is not in the map yet; the map mirrors the ones before it. */
  ghost predicate Awaiting(m: map<Endpoint, int>, taps: seq<Tap>, id: nat, k: Endpoint) {
    id + 1 == |taps| && taps[id].endpoint == k && Mirror(m, taps, id)
  }

  /** What a worker's locals mean at each program point. */
  ghost predicate PcFits(s: State, pc: Pc) {
    match pc
    case Allocate(p) => Unknown(s.taps, p.from)
    case Register(p, fds, done) =>
      Unknown(s.taps, p.from) && |fds| == |s.threads| && done <= |fds| && |s.taps| < MAX_TAPS && |s.taps| < s.slots
    case MapAdd(p, id) => Valid(s.table) && Awaiting(Overlay(s.table.entries), s.taps, id, p.from)
    case Rebuild(p, id, saved) =>
      PowerOfTwo(|saved|) && |saved| >= 32 && Awaiting(Overlay(saved), s.taps, id, p.from)
    case Unwrite(p, id) => Names(s.taps, id, p.from)
    case Downgrade(p, id) => Names(s.taps, id, p.from)
    case Deliver(p, id) => Names(s.taps, id, p.from)
    case TapSend(id, generation, _) => id < |s.taps| && generation == s.generation
    case Load(_, id, _) => id < |s.taps|
    case Store(_, id, _, _) => id < |s.taps|
    case _ => true
  }

  ghost predicate Shape(s: State) {
    && |s.polls| == |s.received| == |s.threads|
    && |s.stats| == |s.taps| <= MAX_TAPS && |s.taps| <= s.slots
    && (forall i :: 0 <= i < |s.taps| ==> |s.taps[i].fds| == |s.stats[i]| == |s.threads|)
    && (forall i, j :: 0 <= i < j < |s.taps| ==> s.taps[i].endpoint != s.taps[j].endpoint)
  }

  ghost predicate Settled(s: State) {
    Valid(s.table) && Mirror(Overlay(s.table.entries), s.taps, |s.taps|)
  }

  ghost predicate NobodyMidUpdate(s: State) {
    forall w :: 0 <= w < |s.threads| ==> !MidUpdate(s.threads[w].pc)
  }

  ghost predicate DirInv(s: State) {
    && Shape(s)
    && (forall w :: 0 <= w < |s.threads| ==> PcFits(s, s.threads[w].pc))
    && (NobodyMidUpdate(s) ==> Settled(s))
  }

  // ----- Steps that leave the directory alone -----

  ghost predicate OnlyMoves(s: State, w: nat, s': State)
    requires w < |s.threads|
  {
    && |s'.threads| == |s.threads|
    && s'.threads == s.threads[w := s'.threads[w]]
    && |s'.polls| == |s.polls| && |s'.received| == |s.received|
  }

  ghost predicate SameDirectory(s: State, s': State) {
    && s'.table == s.table && s'.taps == s.taps && s'.generation == s.generation && s'.slots == s.slots
    && |s'.stats| == |s.stats| && forall i :: 0 <= i < |s.stats| ==> |s'.stats[i]| == |s.stats[i]|
  }

  lemma SamePcFits(s: State, s': State, pc: Pc)
    requires SameDirectory(s, s') && |s'.threads| == |s.threads|
    ensures PcFits(s, pc) == PcFits(s', pc)
  {
  }

  lemma QuietStep(s: State, w: nat, s': State)
    requires w < |s.threads| && DirInv(s) && OnlyMoves(s, w, s') && SameDirectory(s, s')
    requires PcFits(s, s'.threads[w].pc)
    requires !MidUpdate(s.threads[w].pc) && !MidUpdate(s'.threads[w].pc)
    ensures DirInv(s')
  {
    hide PcFits, Valid, MidUpdate;
    forall v | 0 <= v < |s'.threads| ensures PcFits(s', s'.threads[v].pc) {
      SamePcFits(s, s', s'.threads[v].pc);
    }
    if NobodyMidUpdate(s') {
      forall v | 0 <= v < |s.threads| ensures !MidUpdate(s.threads[v].pc) {
        if v != w {
          assert s'.threads[v] == s.threads[v];
        }
      }
    }
  }

  lemma EventsFit(s: State, w: nat, a: Action)
    requires Enabled(s, w, a) && PhaseOf(a) == Events
    ensures var s' := Apply(s, w, a);
            && OnlyMoves(s, w, s') && SameDirectory(s, s') && PcFits(s, s'.threads[w].pc)
            && !MidUpdate(s.threads[w].pc) && !MidUpdate(s'.threads[w].pc)
  {
    hide BatchReady, Elements;
  }

  lemma LockingFit(s: State, w: nat, a: Action)
    requires Enabled(s, w, a) && PhaseOf(a) == Locking && PcFits(s, s.threads[w].pc)
    ensures var s' := Apply(s, w, a);
            && OnlyMoves(s, w, s') && SameDirectory(s, s') && PcFits(s, s'.threads[w].pc)
            && !MidUpdate(s.threads[w].pc) && !MidUpdate(s'.threads[w].pc)
  {
    hide Valid, Overlay, Awaiting, Mirror, Unknown, PowerOfTwo;
  }

  lemma TransferFits(s: State, w: nat, a: Action)
    requires Enabled(s, w, a) && PhaseOf(a) == Transfer && PcFits(s, s.threads[w].pc)
    ensures var s' := Apply(s, w, a);
            && OnlyMoves(s, w, s') && SameDirectory(s, s') && PcFits(s, s'.threads[w].pc)
            && !MidUpdate(s.threads[w].pc) && !MidUpdate(s'.threads[w].pc)
  {
    hide Valid, Overlay, Awaiting, Mirror, Unknown, PowerOfTwo;
  }

  lemma CountingFits(s: State, w: nat, a: Action)
    requires Enabled(s, w, a) && PhaseOf(a) == Counting && PcFits(s, s.threads[w].pc)
    ensures var s' := Apply(s, w, a);
            && OnlyMoves(s, w, s') && SameDirectory(s, s') && PcFits(s, s'.threads[w].pc)
            && !MidUpdate(s.threads[w].pc) && !MidUpdate(s'.threads[w].pc)
  {
    hide Valid, Overlay, Awaiting, Mirror, Unknown, PowerOfTwo;
  }

  // ----- Lookups -----

  /** While some worker holds the lock outside the update of the table, nobody is updating it. */
  lemma HolderSeesSettled(s: State, w: nat)
    requires LockInv(s) && DirInv(s) && w < |s.threads|
    requires Holding(s.threads[w].pc) != Nothing && !MidUpdate(s.threads[w].pc)
    ensures Settled(s) && NobodyMidUpdate(s)
  {
    forall v | 0 <= v < |s.threads| ensures !MidUpdate(s.threads[v].pc) {
      if MidUpdate(s.threads[v].pc) && v != w {
        WriterAlone(s, v, w);
      }
    }
  }

  /** In a settled state a lookup finds the tap of the endpoint, or reports that there is none. */
  lemma SettledLookup(s: State, k: Endpoint)
    requires Settled(s)
    ensures FindIn(s.table, k) >= 0 <==> !Unknown(s.taps, k)
    ensures FindIn(s.table, k) >= 0 ==> Names(s.taps, FindIn(s.table, k), k)
  {
    LookupAgrees(s.table, k);
    if !Unknown(s.taps, k) {
      var i :| 0 <= i < |s.taps| && s.taps[i].endpoint == k;
      assert k in Overlay(s.table.entries);
    }
  }

  lemma {:induction false} MirrorSize(m: map<Endpoint, int>, taps: seq<Tap>, n: nat)
    requires n <= |taps| && Mirror(m, taps, n)
    requires forall i, j :: 0 <= i < j < |taps| ==> taps[i].endpoint != taps[j].endpoint
    ensures |m| == n
  {
    if n == 0 {
      assert forall k :: k !in m;
    } else {
      var k := taps[n - 1].endpoint;
      MirrorSize(m - {k}, taps, n - 1);
      assert m.Keys == (m - {k}).Keys + {k};
    }
  }

  /** In a settled state the table counts the taps. */
  lemma CountIsTaps(s: State)
    requires Shape(s) && Settled(s)
    ensures s.table.count == |Overlay(s.table.entries)| == |s.taps|
  {
    CountIsSize(s.table.entries);
    MirrorSize(Overlay(s.table.entries), s.taps, |s.taps|);
  }

  /** With the lock free, nobody is updating the table. */
  lemma FreeIsSettled(s: State)
    requires LockInv(s) && DirInv(s) && s.lock == Lock({}, None)
    ensures Settled(s) && NobodyMidUpdate(s)
  {
    forall v | 0 <= v < |s.threads| ensures !MidUpdate(s.threads[v].pc) {
      assert Agrees(s.lock, v, s.threads[v].pc);
    }
  }

  lemma ResolvingFits(s: State, w: nat, a: Action)
    requires Enabled(s, w, a) && PhaseOf(a) == Resolving && LockInv(s) && DirInv(s)
    ensures var s' := Apply(s, w, a);
            && OnlyMoves(s, w, s') && SameDirectory(s, s') && PcFits(s, s'.threads[w].pc)
            && !MidUpdate(s.threads[w].pc) && !MidUpdate(s'.threads[w].pc)
  {
    hide FindIn, Valid, Overlay, Allowed;
    HolderSeesSettled(s, w);
    SettledLookup(s, s.threads[w].pc.packet.from);
  }

  // ----- Creating and publishing a tap -----

  /** Only a worker waiting to take the read lock again carries an id without holding the lock. */
  lemma NothingHeldFits(s: State, s': State, pc: Pc)
    requires PcFits(s, pc) && Holding(pc) == Nothing && s.taps <= s'.taps
    ensures PcFits(s', pc)
  {
  }

  lemma OthersHoldNothing(s: State, w: nat, v: nat)
    requires LockInv(s) && w < |s.threads| && v < |s.threads| && v != w
    requires Holding(s.threads[w].pc) == Exclusive
    ensures Holding(s.threads[v].pc) == Nothing && !MidUpdate(s.threads[v].pc)
  {
    WriterAlone(s, w, v);
  }

  /** What a step of the lock's writer must establish. */
  ghost predicate WriterReady(s: State, w: nat, s': State)
    requires w < |s.threads|
  {
    && OnlyMoves(s, w, s') && Holding(s.threads[w].pc) == Exclusive
    && Shape(s') && s.taps <= s'.taps && PcFits(s', s'.threads[w].pc)
    && (MidUpdate(s'.threads[w].pc) || Settled(s'))
  }

  /** Then every other worker's locals stay meaningful. */
  lemma WriterStep(s: State, w: nat, s': State)
    requires w < |s.threads| && LockInv(s) && DirInv(s) && WriterReady(s, w, s')
    ensures DirInv(s')
  {
    hide PcFits, Valid, Settled;
    forall v | 0 <= v < |s'.threads| ensures PcFits(s', s'.threads[v].pc) {
      if v != w {
        OthersHoldNothing(s, w, v);
        NothingHeldFits(s, s', s.threads[v].pc);
      }
    }
  }

  lemma CreateFits(s: State, w: nat, created: Option<seq<int>>)
    requires Enabled(s, w, CreateTap(created)) && Shape(s) && Settled(s) && PcFits(s, s.threads[w].pc)
    ensures WriterReady(s, w, Apply(s, w, CreateTap(created)))
  {
    hide Valid, Overlay;
  }

  lemma RegisterFits(s: State, w: nat, ok: bool)
    requires Enabled(s, w, RegisterFd(ok)) && Shape(s) && Settled(s) && PcFits(s, s.threads[w].pc)
    ensures WriterReady(s, w, Apply(s, w, RegisterFd(ok)))
  {
    hide Valid, Overlay;
  }

  lemma PublishFits(s: State, w: nat)
    requires Enabled(s, w, Publish) && Shape(s) && Settled(s) && PcFits(s, s.threads[w].pc)
    ensures WriterReady(s, w, Apply(s, w, Publish))
  {
    hide Valid, Overlay;
  }

  // ----- Adding to the map -----

  /** Binding the newest tap's endpoint completes the mirror. */
  lemma MirrorGrows(m: map<Endpoint, int>, taps: seq<Tap>, id: nat, k: Endpoint)
    requires Awaiting(m, taps, id, k)
    requires forall i, j :: 0 <= i < j < |taps| ==> taps[i].endpoint != taps[j].endpoint
    ensures Mirror(m[k := id], taps, |taps|)
  {
  }

  ghost predicate DistinctTaps(taps: seq<Tap>) {
    |taps| <= MAX_TAPS && forall i, j :: 0 <= i < j < |taps| ==> taps[i].endpoint != taps[j].endpoint
  }

  lemma GrownTable(t: Table, newHalf: seq<Entry>, taps: seq<Tap>, id: nat, k: Endpoint)
    requires Valid(t) && Awaiting(Overlay(t.entries), taps, id, k) && t.count >= |t.entries|
    requires |newHalf| == |t.entries| && forall i :: 0 <= i < |newHalf| ==> !newHalf[i].present
    ensures var saved := Saved(t, newHalf);
            PowerOfTwo(|saved|) && |saved| >= 32 && Awaiting(Overlay(saved), taps, id, k)
  {
    OverlayAppend(t.entries, newHalf);
    OverlayAbsent(newHalf);
    assert Overlay(t.entries) + map[] == Overlay(t.entries);
    DoubledPower(t);
  }

  lemma InsertedTable(t: Table, taps: seq<Tap>, id: nat, k: Endpoint)
    requires Valid(t) && Awaiting(Overlay(t.entries), taps, id, k) && DistinctTaps(taps)
    ensures match TryInsert(t, k, id)
            case Put(u) => Valid(u) && Mirror(Overlay(u.entries), taps, |taps|)
            case Taken => PowerOfTwo(|t.entries|) && |t.entries| >= 32
  {
    InsertAgrees(t, k, id);
    Field31Exact(id);
    MirrorGrows(Overlay(t.entries), taps, id, k);
  }

  lemma AttemptedTable(saved: seq<Entry>, na: u32, nb: u32, taps: seq<Tap>, id: nat, k: Endpoint)
    requires PowerOfTwo(|saved|) && |saved| >= 32 && Awaiting(Overlay(saved), taps, id, k) && DistinctTaps(taps)
    ensures Cleared(|saved|, na, nb).InBounds()
    ensures match Attempt(saved, |saved|, na, nb, k, id)
            case Put(u) => Valid(u) && Mirror(Overlay(u.entries), taps, |taps|)
            case Taken => true
  {
    AttemptAgrees(saved, |saved|, na, nb, k, id);
    Field31Exact(id);
    MirrorGrows(Overlay(saved), taps, id, k);
  }

  lemma GrowFits(s: State, w: nat, newHalf: seq<Entry>)
    requires Enabled(s, w, AddFirst(newHalf)) && Shape(s) && PcFits(s, s.threads[w].pc)
    requires s.table.count >= |s.table.entries|
    ensures WriterReady(s, w, Apply(s, w, AddFirst(newHalf)))
  {
    var pc := s.threads[w].pc;
    GrownTable(s.table, newHalf, s.taps, pc.tapId, pc.packet.from);
    hide Overlay, Valid, Awaiting, Mirror, Saved, TryInsert, PowerOfTwo, Shape;
  }

  /** The state once the addition is done. */
  function Delivering(s: State, w: nat, p: Packet, id: nat, u: Table): State
    requires w < |s.threads|
  {
    To(s, w, Deliver(p, id)).(table := u)
  }

  lemma PutFits(s: State, w: nat, newHalf: seq<Entry>)
    requires Enabled(s, w, AddFirst(newHalf)) && Shape(s) && PcFits(s, s.threads[w].pc)
    requires s.table.count < |s.table.entries| && s.table.InBounds()
    requires TryInsert(s.table, s.threads[w].pc.packet.from, s.threads[w].pc.tapId).Put?
    ensures WriterReady(s, w, Apply(s, w, AddFirst(newHalf)))
  {
    var pc := s.threads[w].pc;
    var u := TryInsert(s.table, pc.packet.from, pc.tapId).table;
    InsertedTable(s.table, s.taps, pc.tapId, pc.packet.from);
    assert Names(s.taps, pc.tapId, pc.packet.from);
    hide Overlay, Valid, Mirror, Awaiting, Saved, TryInsert;
    assert Apply(s, w, AddFirst(newHalf)) == Delivering(s, w, s.threads[w].pc.packet, s.threads[w].pc.tapId, u);
    hide Apply, Enabled;
    DeliveringFits(s, w, u);
  }

  lemma DeliveringFits(s: State, w: nat, u: Table)
    requires w < |s.threads| && s.threads[w].pc.MapAdd? && Shape(s)
    requires Names(s.taps, s.threads[w].pc.tapId, s.threads[w].pc.packet.from)
    requires Valid(u) && Mirror(Overlay(u.entries), s.taps, |s.taps|)
    ensures WriterReady(s, w, Delivering(s, w, s.threads[w].pc.packet, s.threads[w].pc.tapId, u))
  {
    hide Overlay, Valid, Mirror;
  }

  lemma TakenFits(s: State, w: nat, newHalf: seq<Entry>)
    requires Enabled(s, w, AddFirst(newHalf)) && Shape(s) && PcFits(s, s.threads[w].pc)
    requires s.table.count < |s.table.entries| && s.table.InBounds()
    requires TryInsert(s.table, s.threads[w].pc.packet.from, s.threads[w].pc.tapId).Taken?
    ensures WriterReady(s, w, Apply(s, w, AddFirst(newHalf)))
  {
    hide Overlay, Awaiting, TryInsert, PowerOfTwo;
  }

  lemma InsertFits(s: State, w: nat, newHalf: seq<Entry>)
    requires Enabled(s, w, AddFirst(newHalf)) && Shape(s) && PcFits(s, s.threads[w].pc)
    requires s.table.count < |s.table.entries|
    ensures WriterReady(s, w, Apply(s, w, AddFirst(newHalf)))
  {
    assert s.table.InBounds();
    hide Enabled, Apply, WriterReady, Shape, PcFits, TryInsert;
    if TryInsert(s.table, s.threads[w].pc.packet.from, s.threads[w].pc.tapId).Put? {
      PutFits(s, w, newHalf);
    } else {
      TakenFits(s, w, newHalf);
    }
  }

  lemma AttemptFits(s: State, w: nat, na: u32, nb: u32, debris: Table)
    requires Enabled(s, w, AddAttempt(na, nb, debris)) && Shape(s) && PcFits(s, s.threads[w].pc)
    ensures WriterReady(s, w, Apply(s, w, AddAttempt(na, nb, debris)))
  {
    var pc := s.threads[w].pc;
    AttemptedTable(pc.saved, na, nb, s.taps, pc.tapId, pc.packet.from);
    hide Overlay, Valid, Awaiting, Mirror, Attempt, Cleared, PowerOfTwo;
  }

  // ----- Every step -----

  lemma StepKeepsDirectory(s: State, w: nat, a: Action)
    requires Enabled(s, w, a) && LockInv(s) && DirInv(s)
    ensures DirInv(Apply(s, w, a))
  {
    if PhaseOf(a) == Allocating || PhaseOf(a) == Mapping {
      WriterStepFits(s, w, a);
      WriterStep(s, w, Apply(s, w, a));
    } else {
      QuietStepFits(s, w, a);
    }
  }

  lemma WriterStepFits(s: State, w: nat, a: Action)
    requires Enabled(s, w, a) && LockInv(s) && DirInv(s)
    requires PhaseOf(a) == Allocating || PhaseOf(a) == Mapping
    ensures WriterReady(s, w, Apply(s, w, a))
  {
    assert PcFits(s, s.threads[w].pc);
    if PhaseOf(a) == Allocating {
      HolderSeesSettled(s, w);
    }
    hide Apply, PcFits, WriterReady, Settled, LockInv;
    match a
    case CreateTap(created) => CreateFits(s, w, created);
    case RegisterFd(ok) => RegisterFits(s, w, ok);
    case Publish => PublishFits(s, w);
    case AddFirst(newHalf) =>
      if s.table.count >= |s.table.entries| {
        GrowFits(s, w, newHalf);
      } else {
        InsertFits(s, w, newHalf);
      }
    case AddAttempt(na, nb, debris) => AttemptFits(s, w, na, nb, debris);
  }

  lemma QuietStepFits(s: State, w: nat, a: Action)
    requires Enabled(s, w, a) && LockInv(s) && DirInv(s)
    requires PhaseOf(a) != Allocating && PhaseOf(a) != Mapping
    ensures DirInv(Apply(s, w, a))
  {
    assert PcFits(s, s.threads[w].pc);
    hide Enabled, Apply, PcFits, OnlyMoves, SameDirectory, Settled;
    match PhaseOf(a) {
      case Events => EventsFit(s, w, a);
      case Locking => LockingFit(s, w, a);
      case Transfer => TransferFits(s, w, a);
      case Counting => CountingFits(s, w, a);
      case _ => ResolvingFits(s, w, a);
    }
    QuietStep(s, w, Apply(s, w, a));
  }
}
