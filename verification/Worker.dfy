/** The worker protocol of src/tunnel.c as a step machine.

Any number of workers share one endpoint table, one array of taps and one read/write lock. A step is
one lock operation, one table lookup, one system call, one counter load or store, or one turn of the
endpoint table's retry loop. Everything the machine cannot know, such as which events arrive, what a
read returns, whether a call fails, which random numbers come, is chosen by the action. */
module Worker {
  import opened Bits
  import opened IpAddr
  import opened EndpointTable
  import opened EndpointMap
  import Cidr
  import CidrList
  import opened Wrappers

  const U64: nat := 0x1_0000_0000_0000_0000

  /** Ids are stored in 31-bit signed fields. */
  const MAX_TAPS: nat := 0x4000_0000

  // ----- Shared structures -----

  /** The data of an epoll event: which tap, if any, and the descriptor. */
  datatype Event = UdpReady(fd: int) | TapReady(tapId: nat, fd: int)

  datatype Packet = Packet(from: Endpoint, len: nat)

  datatype Tap = Tap(endpoint: Endpoint, fds: seq<int>)

  datatype Counter = Tx | Rx | Errors

  datatype Stats = Stats(tx: nat, rx: nat, errors: nat) {
    function Get(c: Counter): nat {
      match c case Tx => tx case Rx => rx case Errors => errors
    }

    function Set(c: Counter, v: nat): (s: Stats)
      ensures s.Get(c) == v && forall d :: d != c ==> s.Get(d) == Get(d)
    {
      match c case Tx => this.(tx := v) case Rx => this.(rx := v) case Errors => this.(errors := v)
    }
  }

  const ZERO_STATS := Stats(0, 0, 0)

  datatype Lock = Lock(readers: set<nat>, writer: Option<nat>) {
    predicate Held(w: nat) {
      w in readers || writer == Some(w)
    }
  }

  /** One worker's epoll instance. Events are one-shot: delivery disarms them. An event whose
      re-arming failed is dropped. */
  datatype Poll = Poll(registered: set<Event>, armed: set<Event>, dropped: set<Event>)

  /** What a worker is about to do, with the locals it still needs. */
  datatype Pc =
    | Boot
    | Polling
    | Exited
    | EnterBatch
    | Dispatch
    | TapRead
    | TapSend(tapId: nat, generation: nat, len: nat)
    | UdpRecv
    | Find(packet: Packet)
    | Release(packet: Packet)
    | Upgrade(packet: Packet)
    | Recheck(packet: Packet)
    | Allocate(packet: Packet)
    | Register(packet: Packet, fds: seq<int>, done: nat)
    | MapAdd(packet: Packet, tapId: nat)
    | Rebuild(packet: Packet, tapId: nat, saved: seq<Entry>)
    | Unwrite(packet: Packet, tapId: nat)
    | Downgrade(packet: Packet, tapId: nat)
    | Deliver(packet: Packet, tapId: nat)
    | Load(counter: Counter, tapId: nat, amount: nat)
    | Store(counter: Counter, tapId: nat, amount: nat, loaded: nat)
    | Rearm
    | LeaveBatch
    | Fault

  datatype Thread = Thread(queue: nat, pc: Pc, batch: seq<Event>, next: nat)

  datatype Config = Config(udpFds: seq<int>, allowed: Option<seq<Cidr.Entry>>)

  // ----- History, for stating properties -----

  /** A frame sent to an endpoint, or a datagram written to a tap. */
  datatype Kind = Sent | Written

  /** What a send or a tap write did, by which worker: bytes moved, or one error, against which tap and for
      whom. */
  datatype Effect =
    Effect(worker: nat, queue: nat, kind: Kind, tapId: nat, counter: Counter, amount: nat, peer: Endpoint)

  datatype Outcome = Got(tapId: nat) | Fresh(tapId: nat) | Refused | NoTap

  /** An event left registered with a queue when the tap it names was abandoned. */
  datatype Orphan = Orphan(queue: nat, event: Event)

  /** The answer given to one datagram's source. */
  datatype Resolution = Resolution(worker: nat, from: Endpoint, outcome: Outcome)

  datatype State = State(
    cfg: Config,
    threads: seq<Thread>,
    nextQueue: nat,
    lock: Lock,
    table: Table,
    taps: seq<Tap>,
    stats: seq<seq<Stats>>,
    slots: nat,          // allocated length of the tap array
    generation: nat,     // how often the tap array has been reallocated
    polls: seq<Poll>,
    aborted: bool,       // the assertion on the port failed
    orphans: set<Orphan>,// events left registered for taps that were abandoned
    log: seq<Effect>,
    history: seq<Resolution>,
    received: seq<seq<Endpoint>> // sources of the datagrams received, by worker, in order
  )

  datatype Action =
    | Start
    | PollEvents(batch: seq<Event>)
    | Quit
    | AcquireRead
    | AcquireWrite
    | ReleaseLock
    | NextEvent
    | TapNothing
    | TapFrame(len: nat)
    | SendTo(sent: Option<nat>)
    | UdpNothing
    | UdpOther
    | UdpPacket(packet: Packet)
    | LookUp
    | LookUpAgain
    | CreateTap(created: Option<seq<int>>)
    | RegisterFd(ok: bool)
    | Publish
    | AddFirst(newHalf: seq<Entry>)
    | AddAttempt(nonceA: u32, nonceB: u32, debris: Table)
    | WriteTap(sent: Option<nat>)
    | LoadCounter
    | StoreCounter
    | RearmFd(ok: bool)

  /** What part of the worker loop an action belongs to. */
  datatype Phase = Events | Locking | Transfer | Counting | Resolving | Allocating | Mapping

  function PhaseOf(a: Action): Phase {
    if a.Start? || a.PollEvents? || a.Quit? || a.NextEvent? || a.RearmFd? then Events
    else if a.AcquireRead? || a.AcquireWrite? || a.ReleaseLock? then Locking
    else if a.LoadCounter? || a.StoreCounter? then Counting
    else if a.LookUp? || a.LookUpAgain? then Resolving
    else if a.CreateTap? || a.RegisterFd? || a.Publish? then Allocating
    else if a.AddFirst? || a.AddAttempt? then Mapping
    else Transfer
  }

  // ----- Small helpers -----

  function Workers(s: State): nat {
    |s.threads|
  }

  predicate Allowed(cfg: Config, a: Addr) {
    cfg.allowed.Some? && CidrList.Allows(cfg.allowed.value, a)
  }

  ghost function FindIn(t: Table, k: Endpoint): int {
    if t.InBounds() then Lookup(t, k) else -1
  }

  predicate Distinct<T(==)>(xs: seq<T>) {
    forall i, j :: 0 <= i < j < |xs| ==> xs[i] != xs[j]
  }

  function Elements<T>(xs: seq<T>): set<T> {
    set x | x in xs
  }

  /** A batch holds distinct armed events of the worker's own epoll instance. */
  predicate BatchReady(p: Poll, batch: seq<Event>) {
    0 < |batch| <= 64 && Distinct(batch) && Elements(batch) <= p.armed
  }

  /** Newly opened descriptors differ from each other and from every registered one. */
  predicate FreshFds(s: State, fds: seq<int>) {
    && |fds| == Workers(s) && Distinct(fds)
    && forall q, e :: 0 <= q < |s.polls| && e in s.polls[q].registered ==> e.fd !in fds
  }

  function To(s: State, w: nat, pc: Pc): State
    requires w < |s.threads|
  {
    s.(threads := s.threads[w := s.threads[w].(pc := pc)])
  }

  function Resolved(s: State, w: nat, from: Endpoint, o: Outcome, pc: Pc): State
    requires w < |s.threads|
  {
    To(s, w, pc).(history := s.history + [Resolution(w, from, o)])
  }

  /** Recording an effect and going on to count it. */
  function Counted(s: State, w: nat, e: Effect): State
    requires w < |s.threads|
  {
    To(s, w, Load(e.counter, e.tapId, e.amount)).(log := s.log + [e])
  }

  /** The effect of a system call: the bytes it moved on the counter of its kind, or one error. */
  function EffectOf(s: State, w: nat, kind: Kind, tapId: nat, moved: Option<nat>, peer: Endpoint): Effect
    requires w < |s.threads|
  {
    match moved
    case None => Effect(w, s.threads[w].queue, kind, tapId, Errors, 1, peer)
    case Some(n) => Effect(w, s.threads[w].queue, kind, tapId, if kind.Sent? then Tx else Rx, n, peer)
  }

  // ----- Steps -----

  ghost predicate Enabled(s: State, w: nat, a: Action) {
    && !s.aborted && w < |s.threads|
    && var t := s.threads[w];
    match a
    case Start => t.pc.Boot?
    case PollEvents(batch) => t.pc.Polling? && t.queue < |s.polls| && BatchReady(s.polls[t.queue], batch)
    case Quit => t.pc.Polling?
    case AcquireRead => (t.pc.EnterBatch? || t.pc.Downgrade?) && s.lock.writer.None?
    case AcquireWrite => t.pc.Upgrade? && s.lock.writer.None? && s.lock.readers == {}
    case ReleaseLock => t.pc.Release? || t.pc.Unwrite? || t.pc.LeaveBatch?
    case NextEvent => t.pc.Dispatch?
    case TapNothing => t.pc.TapRead?
    case TapFrame(_) => t.pc.TapRead?
    case SendTo(_) => t.pc.TapSend?
    case UdpNothing => t.pc.UdpRecv?
    case UdpOther => t.pc.UdpRecv?
    case UdpPacket(_) => t.pc.UdpRecv? && w < |s.received|
    case LookUp => t.pc.Find?
    case LookUpAgain => t.pc.Recheck?
    case CreateTap(created) =>
      t.pc.Allocate? && (created.Some? ==> FreshFds(s, created.value) && |s.taps| < MAX_TAPS)
    case RegisterFd(_) =>
      t.pc.Register? && t.pc.done < |t.pc.fds| == |s.polls|
    case Publish => t.pc.Register? && t.pc.done == |t.pc.fds|
    case AddFirst(newHalf) =>
      t.pc.MapAdd? && |newHalf| == |s.table.entries| && Clear(newHalf)
    case AddAttempt(_, _, _) => t.pc.Rebuild?
    case WriteTap(_) => t.pc.Deliver?
    case LoadCounter => t.pc.Load?
    case StoreCounter => t.pc.Store?
    case RearmFd(_) => t.pc.Rearm?
  }

  ghost function Apply(s: State, w: nat, a: Action): State
    requires Enabled(s, w, a)
  {
    match a
    case Start => DoStart(s, w)
    case PollEvents(batch) => DoPoll(s, w, batch)
    case Quit => To(s, w, Exited)
    case AcquireRead => DoAcquireRead(s, w)
    case AcquireWrite =>
      To(s, w, Recheck(s.threads[w].pc.packet)).(lock := Lock({}, Some(w)))
    case ReleaseLock => DoRelease(s, w)
    case NextEvent => DoNextEvent(s, w)
    case TapNothing => if TapNamed(s, w).Some? then To(s, w, Rearm) else To(s, w, Fault)
    case TapFrame(len) =>
      (match TapNamed(s, w)
       case Some(id) => To(s, w, TapSend(id, s.generation, len))
       case None => To(s, w, Fault))
    case SendTo(sent) => DoSend(s, w, sent)
    case UdpNothing => To(s, w, Rearm)
    case UdpOther => s
    case UdpPacket(p) => To(s, w, Find(p)).(received := s.received[w := s.received[w] + [p.from]])
    case LookUp => DoLookUp(s, w)
    case LookUpAgain => DoLookUpAgain(s, w)
    case CreateTap(created) => DoCreate(s, w, created)
    case RegisterFd(ok) => DoRegister(s, w, ok)
    case Publish => DoPublish(s, w)
    case AddFirst(newHalf) => DoAddFirst(s, w, newHalf)
    case AddAttempt(na, nb, debris) => DoAttempt(s, w, na, nb, debris)
    case WriteTap(sent) => DoWrite(s, w, sent)
    case LoadCounter => DoLoad(s, w)
    case StoreCounter => DoStore(s, w)
    case RearmFd(ok) => DoRearm(s, w, ok)
  }

  /** Taking a queue id: fetch-and-add, then remainder. */
  function DoStart(s: State, w: nat): State
    requires w < |s.threads|
  {
    s.(threads := s.threads[w := s.threads[w].(pc := Polling, queue := s.nextQueue % |s.threads|)],
       nextQueue := s.nextQueue + 1)
  }

  function DoPoll(s: State, w: nat, batch: seq<Event>): State
    requires w < |s.threads| && s.threads[w].queue < |s.polls|
  {
    var q := s.threads[w].queue;
    s.(threads := s.threads[w := s.threads[w].(pc := EnterBatch, batch := batch, next := 0)],
       polls := s.polls[q := s.polls[q].(armed := s.polls[q].armed - Elements(batch))])
  }

  function DoAcquireRead(s: State, w: nat): State
    requires w < |s.threads| && (s.threads[w].pc.EnterBatch? || s.threads[w].pc.Downgrade?)
  {
    var pc := s.threads[w].pc;
    To(s, w, if pc.EnterBatch? then Dispatch else Deliver(pc.packet, pc.tapId))
      .(lock := s.lock.(readers := s.lock.readers + {w}))
  }

  /** The unlock gives up whichever hold the worker has; with none, the C library call is undefined. */
  function DoRelease(s: State, w: nat): State
    requires w < |s.threads|
    requires s.threads[w].pc.Release? || s.threads[w].pc.Unwrite? || s.threads[w].pc.LeaveBatch?
  {
    var pc := s.threads[w].pc;
    if !s.lock.Held(w) then To(s, w, Fault)
    else
      var lock := if s.lock.writer == Some(w) then s.lock.(writer := None)
                  else s.lock.(readers := s.lock.readers - {w});
      var pc' := match pc
                 case Release(p) => Upgrade(p)
                 case Unwrite(p, id) => Downgrade(p, id)
                 case _ => Polling;
      To(s, w, pc').(lock := lock)
  }

  function DoNextEvent(s: State, w: nat): State
    requires w < |s.threads|
  {
    var t := s.threads[w];
    if t.next < |t.batch| then
      To(s, w, if t.batch[t.next].TapReady? then TapRead else UdpRecv)
    else
      s.(threads := s.threads[w := t.(pc := LeaveBatch, batch := [], next := 0)])
  }

  /** The tap named by the current event, when it is a counted one; the entries beyond hold pointers to
      freed memory, or none. */
  function TapNamed(s: State, w: nat): Option<nat>
    requires w < |s.threads|
  {
    var t := s.threads[w];
    if t.next < |t.batch| && t.batch[t.next].TapReady? && t.batch[t.next].tapId < |s.taps|
    then Some(t.batch[t.next].tapId) else None
  }

  /** Sending a frame to the endpoint read through the tap pointer, which must not be stale. */
  function DoSend(s: State, w: nat, sent: Option<nat>): State
    requires w < |s.threads| && s.threads[w].pc.TapSend?
  {
    var pc := s.threads[w].pc;
    if pc.generation != s.generation || pc.tapId >= |s.taps| then To(s, w, Fault)
    else
      Counted(s, w, EffectOf(s, w, Sent, pc.tapId, sent, s.taps[pc.tapId].endpoint))
  }

  ghost function DoLookUp(s: State, w: nat): State
    requires w < |s.threads| && s.threads[w].pc.Find?
  {
    var p := s.threads[w].pc.packet;
    var id := FindIn(s.table, p.from);
    if id >= 0 then Resolved(s, w, p.from, Got(id), Deliver(p, id))
    else if Allowed(s.cfg, p.from.addr) then To(s, w, Release(p))
    else Resolved(s, w, p.from, Refused, UdpRecv)
  }

  ghost function DoLookUpAgain(s: State, w: nat): State
    requires w < |s.threads| && s.threads[w].pc.Recheck?
  {
    var p := s.threads[w].pc.packet;
    var id := FindIn(s.table, p.from);
    if id >= 0 then Resolved(s, w, p.from, Got(id), Unwrite(p, id))
    else To(s, w, Allocate(p))
  }

  /** Growing the tap array when it is full. */
  function Grown(s: State): State {
    if |s.taps| >= s.slots
    then s.(slots := if s.slots == 0 then 1 else 2 * s.slots, generation := s.generation + 1)
    else s
  }

  function DoCreate(s: State, w: nat, created: Option<seq<int>>): State
    requires w < |s.threads| && s.threads[w].pc.Allocate?
  {
    var p := s.threads[w].pc.packet;
    if p.from.port == 0 then Grown(s).(aborted := true)
    else
      match created
      case None => Resolved(Grown(s), w, p.from, NoTap, UdpRecv)
      case Some(fds) => To(Grown(s), w, Register(p, fds, 0))
  }

  /** The events of the first done descriptors of a tap. */
  function Registered(id: nat, fds: seq<int>, done: nat): set<Orphan>
    requires done <= |fds|
  {
    set q | 0 <= q < done :: Orphan(q, TapReady(id, fds[q]))
  }

  /** Registering one descriptor with its worker. A failure abandons the tap and leaves the events
      registered so far. */
  function DoRegister(s: State, w: nat, ok: bool): State
    requires w < |s.threads| && s.threads[w].pc.Register?
    requires s.threads[w].pc.done < |s.threads[w].pc.fds| == |s.polls|
  {
    var pc := s.threads[w].pc;
    if ok then
      var q, e := pc.done, TapReady(|s.taps|, pc.fds[pc.done]);
      To(s, w, pc.(done := q + 1))
        .(polls := s.polls[q := s.polls[q].(registered := s.polls[q].registered + {e},
                                            armed := s.polls[q].armed + {e})])
    else
      Resolved(s, w, pc.packet.from, NoTap, UdpRecv)
        .(orphans := s.orphans + Registered(|s.taps|, pc.fds, pc.done))
  }

  /** Zeroing the counters and counting the tap. */
  function DoPublish(s: State, w: nat): State
    requires w < |s.threads| && s.threads[w].pc.Register?
  {
    var pc, id := s.threads[w].pc, |s.taps|;
    Resolved(s, w, pc.packet.from, Fresh(id), MapAdd(pc.packet, id))
      .(taps := s.taps + [Tap(pc.packet.from, pc.fds)],
        stats := s.stats + [seq(|s.threads|, _ => ZERO_STATS)])
  }

  /** The first half of adding to the endpoint table: grow it when full, otherwise try to insert. */
  ghost function DoAddFirst(s: State, w: nat, newHalf: seq<Entry>): State
    requires w < |s.threads| && s.threads[w].pc.MapAdd?
  {
    var p, id, t := s.threads[w].pc.packet, s.threads[w].pc.tapId, s.table;
    if t.count >= |t.entries| || !t.InBounds() then
      To(s, w, Rebuild(p, id, Saved(t, newHalf))).(table := t.(entries := Saved(t, newHalf)))
    else
      match TryInsert(t, p.from, id)
      case Put(u) => To(s, w, Deliver(p, id)).(table := u)
      case Taken => To(s, w, Rebuild(p, id, t.entries))
  }

  /** One turn of the retry loop; a failed one leaves a partly filled table. */
  ghost function DoAttempt(s: State, w: nat, na: u32, nb: u32, debris: Table): State
    requires w < |s.threads| && s.threads[w].pc.Rebuild?
  {
    var p, id, saved := s.threads[w].pc.packet, s.threads[w].pc.tapId, s.threads[w].pc.saved;
    if Cleared(|saved|, na, nb).InBounds() then
      match Attempt(saved, |saved|, na, nb, p.from, id)
      case Put(u) => To(s, w, Deliver(p, id)).(table := u)
      case Taken => s.(table := debris)
    else s.(table := debris)
  }

  function DoWrite(s: State, w: nat, sent: Option<nat>): State
    requires w < |s.threads| && s.threads[w].pc.Deliver?
  {
    var p, id := s.threads[w].pc.packet, s.threads[w].pc.tapId;
    if id >= |s.taps| then To(s, w, Fault)
    else
      Counted(s, w, EffectOf(s, w, Written, id, sent, p.from))
  }

  predicate HasSlot(s: State, id: nat, q: nat) {
    id < |s.stats| && q < |s.stats[id]|
  }

  function DoLoad(s: State, w: nat): State
    requires w < |s.threads| && s.threads[w].pc.Load?
  {
    var pc, q := s.threads[w].pc, s.threads[w].queue;
    if HasSlot(s, pc.tapId, q)
    then To(s, w, Store(pc.counter, pc.tapId, pc.amount, s.stats[pc.tapId][q].Get(pc.counter)))
    else To(s, w, Fault)
  }

  /** Writing back the sum, modulo the width of the counter, and resuming the loop of the event. */
  function DoStore(s: State, w: nat): State
    requires w < |s.threads| && s.threads[w].pc.Store?
  {
    var t := s.threads[w];
    var pc, q := t.pc, t.queue;
    if HasSlot(s, pc.tapId, q) then
      var row := s.stats[pc.tapId];
      To(s, w, if t.next < |t.batch| && t.batch[t.next].TapReady? then TapRead else UdpRecv)
        .(stats := s.stats[pc.tapId := row[q := row[q].Set(pc.counter, (pc.loaded + pc.amount) % U64)]])
    else To(s, w, Fault)
  }

  /** Re-arming the event just handled. A failure ends the batch: this event and the rest stay
      disarmed. */
  function DoRearm(s: State, w: nat, ok: bool): State
    requires w < |s.threads|
  {
    var t := s.threads[w];
    var q := t.queue;
    if t.next >= |t.batch| || q >= |s.polls| then To(s, w, Fault)
    else if ok then
      s.(threads := s.threads[w := t.(pc := Dispatch, next := t.next + 1)],
         polls := s.polls[q := s.polls[q].(armed := s.polls[q].armed + {t.batch[t.next]})])
    else
      s.(threads := s.threads[w := t.(pc := LeaveBatch, batch := [], next := 0)],
         polls := s.polls[q := s.polls[q].(dropped := s.polls[q].dropped + Elements(t.batch[t.next..]))])
  }

  // ----- Initial states and runs -----

  /** The state built by tunnel_create: nothing mapped, or the default endpoint mapped to tap 0, whose
      descriptors are already registered. */
  ghost predicate Init(s: State) {
    var n := |s.threads|;
    && n >= 1 && |s.cfg.udpFds| == n && |s.polls| == n && |s.received| == n
    && (forall w :: 0 <= w < n ==> s.threads[w] == Thread(0, Boot, [], 0) && s.received[w] == [])
    && s.nextQueue == 0 && s.lock == Lock({}, None)
    && !s.aborted && s.orphans == {} && s.log == [] && s.history == []
    && s.generation == s.slots == |s.taps| == |s.stats| <= 1
    && (forall q :: 0 <= q < n ==> s.polls[q] == FirstPoll(s, q))
    && FirstTable(s)
  }

  function FirstPoll(s: State, q: nat): Poll
    requires q < |s.cfg.udpFds|
  {
    var udp := {UdpReady(s.cfg.udpFds[q])};
    var all := if |s.taps| > 0 && q < |s.taps[0].fds| then udp + {TapReady(0, s.taps[0].fds[q])} else udp;
    Poll(all, all, {})
  }

  ghost predicate FirstTable(s: State) {
    exists a: u32, b: u32 :: FirstTableWith(s, a, b)
  }

  ghost predicate FirstTableWith(s: State, a: u32, b: u32) {
    var t := Cleared(32, a, b);
    if |s.taps| == 0 then s.table == t
    else
      && |s.taps[0].fds| == |s.threads| && |s.stats| > 0
      && s.stats[0] == seq(|s.threads|, _ => ZERO_STATS)
      && t.InBounds() && TryInsert(t, s.taps[0].endpoint, 0) == Put(s.table)
  }

  datatype Move = Move(worker: nat, action: Action)

  /** The moves lead from s to s', each enabled where it is taken. */
  ghost predicate Leads(s: State, moves: seq<Move>, s': State) {
    if moves == [] then s' == s
    else
      var last := |moves| - 1;
      exists mid: State ::
        && Leads(s, moves[..last], mid)
        && Enabled(mid, moves[last].worker, moves[last].action)
        && s' == Apply(mid, moves[last].worker, moves[last].action)
  }

  ghost predicate Reachable(s: State) {
    exists s0: State, moves: seq<Move> :: Init(s0) && Leads(s0, moves, s)
  }

  /** Extending a run by one move. */
  lemma Advance(s: State, moves: seq<Move>, mid: State, m: Move) returns (s': State)
    requires Leads(s, moves, mid) && Enabled(mid, m.worker, m.action)
    ensures s' == Apply(mid, m.worker, m.action) && Leads(s, moves + [m], s')
  {
    s' := Apply(mid, m.worker, m.action);
    LeadsOn(s, moves, mid, m, s');
  }

  lemma LeadsOn(s: State, moves: seq<Move>, mid: State, m: Move, s': State)
    requires Leads(s, moves, mid) && Enabled(mid, m.worker, m.action) && s' == Apply(mid, m.worker, m.action)
    ensures Leads(s, moves + [m], s')
  {
    var longer := moves + [m];
    assert longer[..|longer| - 1] == moves && longer[|longer| - 1] == m;
  }

  lemma OneMove(s: State, m: Move, s': State)
    requires Enabled(s, m.worker, m.action) && s' == Apply(s, m.worker, m.action)
    ensures Leads(s, [m], s')
  {
    assert Leads(s, [], s);
    LeadsOn(s, [], s, m, s');
    assert [] + [m] == [m];
  }

  /** Runs are determined by their moves. */
  lemma {:induction false} LeadsOnce(s: State, moves: seq<Move>, s': State, s'': State)
    requires Leads(s, moves, s') && Leads(s, moves, s'')
    ensures s' == s''
    decreases |moves|
  {
    if moves == [] {
    } else {
      var last := |moves| - 1;
      var w, a := moves[last].worker, moves[last].action;
      var mid' :| Leads(s, moves[..last], mid') && Enabled(mid', w, a) && s' == Apply(mid', w, a);
      var mid'' :| Leads(s, moves[..last], mid'') && Enabled(mid'', w, a) && s'' == Apply(mid'', w, a);
      LeadsOnce(s, moves[..last], mid', mid'');
    }
  }

  lemma {:induction false} LeadsOnward(s: State, moves: seq<Move>, m: State, more: seq<Move>, s': State)
    requires Leads(s, moves, m) && Leads(m, more, s')
    ensures Leads(s, moves + more, s')
    decreases |more|
  {
    hide Enabled, Apply;
    if more == [] {
      assert moves + more == moves;
    } else {
      var last := |more| - 1;
      var mid :| && Leads(m, more[..last], mid)
                 && Enabled(mid, more[last].worker, more[last].action)
                 && s' == Apply(mid, more[last].worker, more[last].action);
      LeadsOnward(s, moves, m, more[..last], mid);
      LeadsOn(s, moves + more[..last], mid, more[last], s');
      assert moves + more == moves + more[..last] + [more[last]];
    }
  }

  lemma ReachableOnward(s: State, moves: seq<Move>, s': State)
    requires Reachable(s) && Leads(s, moves, s')
    ensures Reachable(s')
  {
    var s0, before :| Init(s0) && Leads(s0, before, s);
    LeadsOnward(s0, before, s, moves, s');
  }
}
