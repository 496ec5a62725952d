/** What the workers did over a run, told from the system calls themselves: which frames were read, which
    calls moved how many bytes, and that the log and the counters say the same. */
module WorkerTrace {
  import opened IpAddr
  import opened EndpointTable
  import opened EndpointMap
  import opened Worker
  import opened Wrappers
  import opened WorkerLock
  import opened WorkerDirectory
  import opened WorkerQueues
  import opened WorkerHistory
  import opened WorkerTotals
  import opened WorkerSafety
  import opened WorkerTheorems

  // ----- Runs, state by state -----

  ghost predicate Trace(ss: seq<State>, moves: seq<Move>) {
    && |ss| == |moves| + 1
    && forall i :: 0 <= i < |moves| ==>
         && Enabled(ss[i], moves[i].worker, moves[i].action)
         && ss[i + 1] == Apply(ss[i], moves[i].worker, moves[i].action)
  }

  /** Every run has its states. */
  lemma {:induction false} TraceOf(s: State, moves: seq<Move>, s': State) returns (ss: seq<State>)
    requires Leads(s, moves, s')
    ensures |ss| == |moves| + 1 && Trace(ss, moves) && ss[0] == s && ss[|moves|] == s'
    decreases |moves|
  {
    if moves == [] {
      ss := [s];
    } else {
      var last := |moves| - 1;
      var w, a := moves[last].worker, moves[last].action;
      var mid :| Leads(s, moves[..last], mid) && Enabled(mid, w, a) && s' == Apply(mid, w, a);
      hide Leads, Enabled, Apply, Trace;
      var before := TraceOf(s, moves[..last], mid);
      TraceOnward(before, moves, s');
      ss := before + [s'];
    }
  }

  lemma TraceOnward(ss: seq<State>, moves: seq<Move>, s': State)
    requires moves != [] && |ss| == |moves| && Trace(ss, moves[..|moves| - 1])
    requires var m, mid := moves[|moves| - 1], ss[|moves| - 1];
             Enabled(mid, m.worker, m.action) && s' == Apply(mid, m.worker, m.action)
    ensures Trace(ss + [s'], moves) && (ss + [s'])[0] == ss[0]
  {
    hide Enabled, Apply;
    var longer, last := ss + [s'], |moves| - 1;
    forall i | 0 <= i < |moves|
      ensures Enabled(longer[i], moves[i].worker, moves[i].action)
      ensures longer[i + 1] == Apply(longer[i], moves[i].worker, moves[i].action)
    {
      if i < last {
        assert moves[..last][i] == moves[i] && longer[i] == ss[i] && longer[i + 1] == ss[i + 1];
      }
    }
  }

  lemma TracePrefix(ss: seq<State>, moves: seq<Move>, n: nat)
    requires Trace(ss, moves) && n <= |moves|
    ensures Trace(ss[..n + 1], moves[..n]) && ss[..n + 1][n] == ss[n]
  {
    hide Enabled, Apply;
  }

  lemma {:induction false} TraceReachable(ss: seq<State>, moves: seq<Move>, n: nat)
    requires Trace(ss, moves) && Init(ss[0]) && n <= |moves|
    ensures Reachable(ss[n])
    decreases n
  {
    hide Init, Enabled, Apply;
    if n == 0 {
      assert Leads(ss[0], [], ss[0]);
    } else {
      TraceReachable(ss, moves, n - 1);
      hide Reachable, Leads;
      OneMove(ss[n - 1], moves[n - 1], ss[n]);
      ReachableOnward(ss[n - 1], [moves[n - 1]], ss[n]);
    }
  }

  // ----- What a call is about -----

  /** The source of the datagram a worker received last. */
  function Source(s: State, w: nat): Option<Endpoint> {
    if w < |s.received| && s.received[w] != [] then Some(s.received[w][|s.received[w]| - 1]) else None
  }

  /** A worker about to send a frame read it from the tap its event names. */
  lemma FrameInHand(s: State, w: nat)
    requires Reachable(s) && w < |s.threads| && s.threads[w].pc.TapSend?
    ensures var t := s.threads[w];
            t.next < |t.batch| && t.batch[t.next].TapReady? && t.batch[t.next].tapId == t.pc.tapId < |s.taps|
    ensures s.threads[w].pc.generation == s.generation
  {
    ReachableBatch(s, w);
    CarriedIdsAreGood(s, w);
    hide Reachable, Distinct;
  }

  lemma ReachableBatch(s: State, w: nat)
    requires Reachable(s) && w < |s.threads|
    ensures BatchOk(s.threads[w])
  {
    var first := ReachableInv(s);
    hide BatchOk;
  }

  /** A worker about to write a datagram holds the one it received last, and the id of its source's tap. */
  lemma DatagramInHand(s: State, w: nat)
    requires Reachable(s) && w < |s.threads| && s.threads[w].pc.Deliver?
    ensures Source(s, w) == Some(s.threads[w].pc.packet.from)
    ensures Names(s.taps, s.threads[w].pc.tapId, s.threads[w].pc.packet.from)
  {
    CarriedIdsAreGood(s, w);
    ReachableHistory(s, w);
    hide Reachable, PcFits, Settled, Names;
    LastReceived(s.cfg, s.history, s.received[w], w, s.threads[w].pc);
    hide PcHistoryAt, PcHistory;
  }

  lemma LastReceived(cfg: Config, history: seq<Resolution>, received: seq<Endpoint>, w: nat, pc: Pc)
    requires PcHistory(cfg, history, received, w, pc) && pc.Deliver?
    ensures received != [] && received[|received| - 1] == pc.packet.from
  {
    LastSource(history, w);
    hide SourcesBy, LastBy, Allowed;
  }

  /** The last source a worker has answered is that of its last answer. */
  lemma {:induction false} LastSource(history: seq<Resolution>, w: nat)
    ensures LastBy(history, w).Some? ==>
              SourcesBy(history, w) != []
              && SourcesBy(history, w)[|SourcesBy(history, w)| - 1] == LastBy(history, w).value.from
  {
    if history == [] {
    } else {
      LastSource(history[..|history| - 1], w);
    }
  }

  // ----- What each step logs -----

  /** A send is logged against the tap its event names and goes to that tap's endpoint: the bytes sent, or one
      error. */
  lemma SendStep(s: State, w: nat, sent: Option<nat>)
    requires Reachable(s) && Enabled(s, w, SendTo(sent))
    ensures var s' := Apply(s, w, SendTo(sent));
            && |s'.log| == |s.log| + 1 && s.log < s'.log
            && var e := s'.log[|s.log|];
            && e.worker == w && e.kind == Sent && Handled(s, w) == Some(e.tapId)
            && e.tapId < |s.taps| && e.peer == s.taps[e.tapId].endpoint
            && match sent
               case None => e.counter == Errors && e.amount == 1
               case Some(n) => e.counter == Tx && e.amount == n
  {
    FrameInHand(s, w);
    hide Reachable;
  }

  /** A write is logged against the tap of the source of the datagram last received. */
  lemma WriteStep(s: State, w: nat, sent: Option<nat>)
    requires Reachable(s) && Enabled(s, w, WriteTap(sent))
    ensures var s' := Apply(s, w, WriteTap(sent));
            && |s'.log| == |s.log| + 1 && s.log < s'.log
            && var e := s'.log[|s.log|];
            && e.worker == w && e.kind == Written && Source(s, w) == Some(e.peer)
            && e.tapId < |s.taps| && s.taps[e.tapId].endpoint == e.peer
            && match sent
               case None => e.counter == Errors && e.amount == 1
               case Some(n) => e.counter == Rx && e.amount == n
  {
    DatagramInHand(s, w);
    hide Reachable, Source;
  }

  lemma OtherStepsLogNothing(s: State, w: nat, a: Action)
    requires Enabled(s, w, a) && !a.SendTo? && !a.WriteTap?
    ensures Apply(s, w, a).log == s.log
  {
    hide FindIn, Allowed, BatchReady, Elements, FreshFds, TryInsert, Attempt, Cleared, Saved, Registered;
  }

  // ----- Frames -----

  /** The taps a worker has read frames from, in order, each as its event names it. A read through an event
      that names no counted tap is a fault and brings no frame. */
  ghost function FramesRead(ss: seq<State>, moves: seq<Move>, w: nat): seq<nat>
    requires |ss| == |moves| + 1
    decreases |moves|
  {
    if moves == [] then []
    else
      var last := |moves| - 1;
      FramesRead(ss[..last + 1], moves[..last], w)
        + if moves[last].worker == w && moves[last].action.TapFrame? then FrameOf(ss[last], w) else []
  }

  function FrameOf(s: State, w: nat): seq<nat> {
    match Handled(s, w)
    case Some(id) => if id < |s.taps| then [id] else []
    case None => []
  }

  /** The taps a worker has sent frames for, in order. */
  function SendsBy(log: seq<Effect>, w: nat): seq<nat> {
    if log == [] then []
    else
      var e := log[|log| - 1];
      SendsBy(log[..|log| - 1], w) + if e.worker == w && e.kind.Sent? then [e.tapId] else []
  }

  lemma SendsAppend(log: seq<Effect>, e: Effect, w: nat)
    ensures SendsBy(log + [e], w) == SendsBy(log, w) + if e.worker == w && e.kind.Sent? then [e.tapId] else []
  {
    assert (log + [e])[..|log|] == log;
  }

  function FrameHeld(pc: Pc): seq<nat> {
    if pc.TapSend? then [pc.tapId] else []
  }

  /** Frames sent and held, for one worker. */
  ghost function FramesOut(s: State, w: nat): seq<nat>
    requires w < |s.threads|
  {
    SendsBy(s.log, w) + FrameHeld(s.threads[w].pc)
  }

  lemma FrameStep(s: State, v: nat, a: Action, w: nat)
    requires Reachable(s) && Enabled(s, v, a) && w < |s.threads|
    ensures |Apply(s, v, a).threads| == |s.threads|
    ensures FramesOut(Apply(s, v, a), w)
         == FramesOut(s, w) + if v == w && a.TapFrame? then FrameOf(s, w) else []
  {
    ThreadsElsewhere(s, v, a);
    assert v < |s.threads|;
    hide Reachable, Enabled, Apply, FramesOut, FrameOf;
    if a.SendTo? {
      SendingFrames(s, v, a.sent, w);
    } else if a.WriteTap? {
      WritingFrames(s, v, a.sent, w);
    } else {
      OtherFrames(s, v, a, w);
    }
  }

  lemma SendingFrames(s: State, v: nat, sent: Option<nat>, w: nat)
    requires Reachable(s) && Enabled(s, v, SendTo(sent)) && w < |s.threads|
    requires var s' := Apply(s, v, SendTo(sent));
             |s'.threads| == |s.threads| && s'.threads == s.threads[v := s'.threads[v]]
    ensures FramesOut(Apply(s, v, SendTo(sent)), w) == FramesOut(s, w)
  {
    var s' := Apply(s, v, SendTo(sent));
    SendStep(s, v, sent);
    FrameInHand(s, v);
    assert s'.log == s.log + [s'.log[|s.log|]];
    SendsAppend(s.log, s'.log[|s.log|], w);
    assert FrameHeld(s.threads[v].pc) == [s'.log[|s.log|].tapId] && FrameHeld(s'.threads[v].pc) == [];
    hide Reachable, SendsBy, Enabled, Apply, FrameHeld;
  }

  lemma WritingFrames(s: State, v: nat, sent: Option<nat>, w: nat)
    requires Reachable(s) && Enabled(s, v, WriteTap(sent)) && w < |s.threads|
    requires var s' := Apply(s, v, WriteTap(sent));
             |s'.threads| == |s.threads| && s'.threads == s.threads[v := s'.threads[v]]
    ensures FramesOut(Apply(s, v, WriteTap(sent)), w) == FramesOut(s, w)
  {
    var s' := Apply(s, v, WriteTap(sent));
    WriteStep(s, v, sent);
    WriteHolds(s, v, WriteTap(sent));
    hide Reachable, Enabled, Apply, FrameHeld;
    assert s'.log == s.log + [s'.log[|s.log|]];
    SendsAppend(s.log, s'.log[|s.log|], w);
    hide SendsBy;
  }

  lemma OtherFrames(s: State, v: nat, a: Action, w: nat)
    requires Reachable(s) && Enabled(s, v, a) && w < |s.threads| && !a.SendTo? && !a.WriteTap?
    requires var s' := Apply(s, v, a);
             |s'.threads| == |s.threads| && s'.threads == s.threads[v := s'.threads[v]]
    ensures FramesOut(Apply(s, v, a), w)
         == FramesOut(s, w) + if v == w && a.TapFrame? then FrameOf(s, w) else []
  {
    OtherStepsLogNothing(s, v, a);
    hide Enabled, Apply, FrameHeld, FrameOf, SendsBy;
    if a.TapFrame? {
      FrameTaken(s, v, a);
    } else {
      OthersHoldNoFrame(s, v, a);
    }
    hide Reachable;
  }

  lemma ThreadsElsewhere(s: State, v: nat, a: Action)
    requires Reachable(s) && Enabled(s, v, a)
    ensures var s' := Apply(s, v, a);
            |s'.threads| == |s.threads| && s'.threads == s.threads[v := s'.threads[v]]
  {
    ReachableDirectory(s);
    hide Reachable, DirInv, Enabled, Apply;
    StepMovesLock(s, v, a);
  }

  lemma FrameTaken(s: State, w: nat, a: Action)
    requires Reachable(s) && Enabled(s, w, a) && a.TapFrame?
    ensures w < |Apply(s, w, a).threads| && FrameHeld(s.threads[w].pc) == []
    ensures FrameHeld(Apply(s, w, a).threads[w].pc) == FrameOf(s, w)
  {
    ReachableBatch(s, w);
    hide Reachable, Distinct;
  }

  lemma WriteHolds(s: State, w: nat, a: Action)
    requires Enabled(s, w, a) && a.WriteTap?
    ensures w < |Apply(s, w, a).threads|
    ensures FrameHeld(s.threads[w].pc) == [] && FrameHeld(Apply(s, w, a).threads[w].pc) == []
  {
  }

  lemma OthersHoldNoFrame(s: State, w: nat, a: Action)
    requires Enabled(s, w, a) && !a.SendTo? && !a.TapFrame?
    ensures w < |Apply(s, w, a).threads|
    ensures FrameHeld(s.threads[w].pc) == [] && FrameHeld(Apply(s, w, a).threads[w].pc) == []
  {
    if PhaseOf(a) == Allocating || PhaseOf(a) == Mapping || PhaseOf(a) == Transfer {
      UdpHoldsNoFrame(s, w, a);
    } else {
      LoopHoldsNoFrame(s, w, a);
    }
    hide Enabled, Apply;
  }

  lemma UdpHoldsNoFrame(s: State, w: nat, a: Action)
    requires Enabled(s, w, a) && !a.SendTo? && !a.TapFrame?
    requires PhaseOf(a) == Allocating || PhaseOf(a) == Mapping || PhaseOf(a) == Transfer
    ensures w < |Apply(s, w, a).threads|
    ensures FrameHeld(s.threads[w].pc) == [] && FrameHeld(Apply(s, w, a).threads[w].pc) == []
  {
    hide FreshFds, TryInsert, Attempt, Cleared, Saved, Registered;
  }

  lemma LoopHoldsNoFrame(s: State, w: nat, a: Action)
    requires Enabled(s, w, a) && PhaseOf(a) != Allocating && PhaseOf(a) != Mapping && PhaseOf(a) != Transfer
    ensures w < |Apply(s, w, a).threads|
    ensures FrameHeld(s.threads[w].pc) == [] && FrameHeld(Apply(s, w, a).threads[w].pc) == []
  {
    hide FindIn, Allowed, BatchReady, Elements;
  }

  /** Each worker has sent, in order, exactly the frames it has read, less the one it may be holding, each for the
      tap its event named when it was read: none is rerouted, dropped or sent twice. */
  lemma {:induction false} ReadIsSentOnce(ss: seq<State>, moves: seq<Move>, w: nat)
    requires Trace(ss, moves) && Init(ss[0]) && w < |ss[0].threads|
    ensures |ss[|moves|].threads| == |ss[0].threads|
    ensures SendsBy(ss[|moves|].log, w) + FrameHeld(ss[|moves|].threads[w].pc) == FramesRead(ss, moves, w)
    decreases |moves|
  {
    if moves == [] {
      hide FirstTable;
    } else {
      var last := |moves| - 1;
      TracePrefix(ss, moves, last);
      ReadIsSentOnce(ss[..last + 1], moves[..last], w);
      TraceReachable(ss, moves, last);
      assert ss[..last + 1][0] == ss[0];
      hide Init, Enabled, Apply, Reachable, SendsBy;
      FrameStep(ss[last], moves[last].worker, moves[last].action, w);
    }
  }

  // ----- Bytes -----

  /** The bytes moved for a tap by the sends of a run: over the events that name it. */
  ghost function BytesSent(ss: seq<State>, moves: seq<Move>, id: nat): nat
    requires |ss| == |moves| + 1
    decreases |moves|
  {
    if moves == [] then 0
    else
      var last := |moves| - 1;
      var m := moves[last];
      BytesSent(ss[..last + 1], moves[..last], id)
        + match m.action
          case SendTo(Some(n)) => if Handled(ss[last], m.worker) == Some(id) then n else 0
          case _ => 0
  }

  /** The bytes of one endpoint's datagrams written by the writes of a run. */
  ghost function BytesWritten(ss: seq<State>, moves: seq<Move>, k: Endpoint): nat
    requires |ss| == |moves| + 1
    decreases |moves|
  {
    if moves == [] then 0
    else
      var last := |moves| - 1;
      var m := moves[last];
      BytesWritten(ss[..last + 1], moves[..last], k)
        + match m.action
          case WriteTap(Some(n)) => if Source(ss[last], m.worker) == Some(k) then n else 0
          case _ => 0
  }

  /** The sends for a tap and the writes for its endpoint that failed. */
  ghost function Failures(ss: seq<State>, moves: seq<Move>, id: nat, k: Endpoint): nat
    requires |ss| == |moves| + 1
    decreases |moves|
  {
    if moves == [] then 0
    else
      var last := |moves| - 1;
      var m := moves[last];
      Failures(ss[..last + 1], moves[..last], id, k)
        + match m.action
          case SendTo(None) => if Handled(ss[last], m.worker) == Some(id) then 1 else 0
          case WriteTap(None) => if Source(ss[last], m.worker) == Some(k) then 1 else 0
          case _ => 0
  }

  lemma TapTallyAppend(log: seq<Effect>, e: Effect, id: nat, c: Counter)
    ensures TapTally(log + [e], id, c)
         == TapTally(log, id, c) + if e.tapId == id && e.counter == c then e.amount else 0
  {
    assert (log + [e])[..|log|] == log;
  }

  /** What one step adds to the tallies of the tap of endpoint k. */
  ghost predicate Tallied(s: State, s': State, id: nat, tx: nat, rx: nat, errors: nat) {
    && TapTally(s'.log, id, Tx) == TapTally(s.log, id, Tx) + tx
    && TapTally(s'.log, id, Rx) == TapTally(s.log, id, Rx) + rx
    && TapTally(s'.log, id, Errors) == TapTally(s.log, id, Errors) + errors
  }

  /** The tap, now or once it is counted, is the one of endpoint k. */
  ghost predicate BelongsTo(s: State, id: nat, k: Endpoint) {
    forall j :: 0 <= j < |s.taps| ==> (s.taps[j].endpoint == k <==> j == id)
  }

  lemma SendTallies(s: State, w: nat, sent: Option<nat>, id: nat)
    requires Reachable(s) && Enabled(s, w, SendTo(sent))
    ensures var mine := Handled(s, w) == Some(id);
            Tallied(s, Apply(s, w, SendTo(sent)), id,
                    if mine && sent.Some? then sent.value else 0, 0, if mine && sent.None? then 1 else 0)
  {
    var s' := Apply(s, w, SendTo(sent));
    SendStep(s, w, sent);
    hide Reachable, Enabled, Apply, Handled, TapTally;
    var e := s'.log[|s.log|];
    assert s'.log == s.log + [e];
    TapTallyAppend(s.log, e, id, Tx);
    TapTallyAppend(s.log, e, id, Rx);
    TapTallyAppend(s.log, e, id, Errors);
  }

  lemma WriteTallies(s: State, w: nat, sent: Option<nat>, id: nat, k: Endpoint)
    requires Reachable(s) && Enabled(s, w, WriteTap(sent)) && BelongsTo(s, id, k)
    ensures var mine := Source(s, w) == Some(k);
            Tallied(s, Apply(s, w, WriteTap(sent)), id,
                    0, if mine && sent.Some? then sent.value else 0, if mine && sent.None? then 1 else 0)
  {
    var s' := Apply(s, w, WriteTap(sent));
    WriteStep(s, w, sent);
    hide Reachable, Enabled, Apply, Source, TapTally;
    var e := s'.log[|s.log|];
    assert s'.log == s.log + [e];
    TapTallyAppend(s.log, e, id, Tx);
    TapTallyAppend(s.log, e, id, Rx);
    TapTallyAppend(s.log, e, id, Errors);
  }

  /** A tap's endpoint belongs to it in every earlier state of a run. */
  lemma BelongsBefore(s: State, moves: seq<Move>, s': State, id: nat)
    requires Reachable(s') && Leads(s, moves, s') && id < |s'.taps|
    ensures BelongsTo(s, id, s'.taps[id].endpoint)
  {
    AssignmentsNeverChange(s, moves, s');
    ReachableDirectory(s');
    hide Reachable, Leads, LockInv;
    assert Shape(s');
    hide DirInv;
    forall j | 0 <= j < |s.taps| ensures s.taps[j].endpoint == s'.taps[id].endpoint <==> j == id {
      assert s'.taps[j] == s.taps[j];
    }
  }

  lemma {:induction false} TraceLeads(ss: seq<State>, moves: seq<Move>, n: nat)
    requires Trace(ss, moves) && n <= |moves|
    ensures Leads(ss[n], moves[n..], ss[|moves|])
    decreases |moves| - n
  {
    hide Enabled, Apply;
    if n == |moves| {
      assert moves[n..] == [];
    } else {
      TraceLeads(ss, moves, n + 1);
      OneMove(ss[n], moves[n], ss[n + 1]);
      hide Leads, Trace;
      LeadsOnward(ss[n], [moves[n]], ss[n + 1], moves[n + 1..], ss[|moves|]);
      assert [moves[n]] + moves[n + 1..] == moves[n..];
    }
  }

  ghost predicate TalliesMatch(ss: seq<State>, moves: seq<Move>, id: nat, k: Endpoint)
    requires |ss| == |moves| + 1
  {
    && TapTally(ss[|moves|].log, id, Tx) == BytesSent(ss, moves, id)
    && TapTally(ss[|moves|].log, id, Rx) == BytesWritten(ss, moves, k)
    && TapTally(ss[|moves|].log, id, Errors) == Failures(ss, moves, id, k)
  }

  lemma StepTallies(s: State, m: Move, s': State, id: nat, k: Endpoint)
    requires Reachable(s) && Enabled(s, m.worker, m.action) && s' == Apply(s, m.worker, m.action) && BelongsTo(s, id, k)
    ensures var handled, mine := Handled(s, m.worker) == Some(id), Source(s, m.worker) == Some(k);
            match m.action
            case SendTo(Some(n)) => Tallied(s, s', id, if handled then n else 0, 0, 0)
            case SendTo(None) => Tallied(s, s', id, 0, 0, if handled then 1 else 0)
            case WriteTap(Some(n)) => Tallied(s, s', id, 0, if mine then n else 0, 0)
            case WriteTap(None) => Tallied(s, s', id, 0, 0, if mine then 1 else 0)
            case _ => Tallied(s, s', id, 0, 0, 0)
  {
    hide Reachable, Enabled, Apply, Handled, Source, TapTally, BelongsTo;
    if m.action.SendTo? {
      SendTallies(s, m.worker, m.action.sent, id);
    } else if m.action.WriteTap? {
      WriteTallies(s, m.worker, m.action.sent, id, k);
    } else {
      OtherStepsLogNothing(s, m.worker, m.action);
    }
  }

  lemma TalliesOnward(ss: seq<State>, moves: seq<Move>, id: nat, k: Endpoint)
    requires |ss| == |moves| + 1 && moves != []
    requires TalliesMatch(ss[..|moves|], moves[..|moves| - 1], id, k)
    requires var m, s, s' := moves[|moves| - 1], ss[|moves| - 1], ss[|moves|];
             var handled, mine := Handled(s, m.worker) == Some(id), Source(s, m.worker) == Some(k);
             match m.action
             case SendTo(Some(n)) => Tallied(s, s', id, if handled then n else 0, 0, 0)
             case SendTo(None) => Tallied(s, s', id, 0, 0, if handled then 1 else 0)
             case WriteTap(Some(n)) => Tallied(s, s', id, 0, if mine then n else 0, 0)
             case WriteTap(None) => Tallied(s, s', id, 0, 0, if mine then 1 else 0)
             case _ => Tallied(s, s', id, 0, 0, 0)
    ensures TalliesMatch(ss, moves, id, k)
  {
    assert ss[..|moves|][|moves| - 1] == ss[|moves| - 1];
    hide TapTally, Handled, Source;
  }

  lemma {:induction false} LogTellsTheRun(ss: seq<State>, moves: seq<Move>, n: nat, id: nat, k: Endpoint)
    requires Trace(ss, moves) && Init(ss[0]) && n <= |moves|
    requires forall i :: 0 <= i < n ==> BelongsTo(ss[i], id, k)
    ensures TalliesMatch(ss[..n + 1], moves[..n], id, k)
    decreases n
  {
    hide Init, Reachable, TapTally, Handled, Source, BelongsTo, Tallied, TalliesMatch, Apply, Enabled;
    if n == 0 {
      NothingYet(ss, moves, id, k);
    } else {
      LogTellsTheRun(ss, moves, n - 1, id, k);
      TraceReachable(ss, moves, n - 1);
      assert Enabled(ss[n - 1], moves[n - 1].worker, moves[n - 1].action);
      assert ss[n] == Apply(ss[n - 1], moves[n - 1].worker, moves[n - 1].action);
      hide Trace;
      StepTallies(ss[n - 1], moves[n - 1], ss[n], id, k);
      var ts, ms := ss[..n + 1], moves[..n];
      assert ts[..n] == ss[..n] && ms[..n - 1] == moves[..n - 1] && ms[n - 1] == moves[n - 1];
      assert ts[n - 1] == ss[n - 1] && ts[n] == ss[n];
      TalliesOnward(ts, ms, id, k);
    }
  }

  lemma NothingYet(ss: seq<State>, moves: seq<Move>, id: nat, k: Endpoint)
    requires Trace(ss, moves) && Init(ss[0])
    ensures TalliesMatch(ss[..1], moves[..0], id, k)
  {
    hide FirstTable;
  }

  /** Over every run, the totals printed for a tap in a quiescent state are, modulo 2^64, the bytes its sends moved,
      the bytes of its endpoint's datagrams that were written, and the number of both that failed. */
  lemma PrintedIsWhatHappened(ss: seq<State>, moves: seq<Move>, id: nat)
    requires Trace(ss, moves) && Init(ss[0])
    requires Quiescent(ss[|moves|]) && id < |ss[|moves|].taps|
    ensures var s := ss[|moves|];
            var k := s.taps[id].endpoint;
            && id < |s.stats|
            && Sum(s.stats[id], Tx) % 0x1_0000_0000_0000_0000 == BytesSent(ss, moves, id) % 0x1_0000_0000_0000_0000
            && Sum(s.stats[id], Rx) % 0x1_0000_0000_0000_0000 == BytesWritten(ss, moves, k) % 0x1_0000_0000_0000_0000
            && Sum(s.stats[id], Errors) % 0x1_0000_0000_0000_0000
               == Failures(ss, moves, id, k) % 0x1_0000_0000_0000_0000
  {
    var s := ss[|moves|];
    TraceReachable(ss, moves, |moves|);
    forall i | 0 <= i < |moves| ensures BelongsTo(ss[i], id, s.taps[id].endpoint) {
      TraceLeads(ss, moves, i);
      BelongsBefore(ss[i], moves[i..], s, id);
    }
    LogTellsTheRun(ss, moves, |moves|, id, s.taps[id].endpoint);
    assert ss[..|moves| + 1] == ss && moves[..|moves|] == moves;
    hide Init, Trace, Reachable, BelongsTo, BytesSent, BytesWritten, Failures, TapTally, Sum;
    TotalsAreExact(s, id, Tx);
    TotalsAreExact(s, id, Rx);
    TotalsAreExact(s, id, Errors);
  }

  /** So the totals printed for a tap, added up over its queues in 64-bit words, are what happened. */
  method PrintedTotals(s: State, id: nat, ghost ss: seq<State>, ghost moves: seq<Move>)
    returns (rx: nat, tx: nat, errors: nat)
    requires Trace(ss, moves) && Init(ss[0]) && ss[|moves|] == s
    requires Quiescent(s) && id < |s.taps|
    ensures rx == BytesWritten(ss, moves, s.taps[id].endpoint) % 0x1_0000_0000_0000_0000
    ensures tx == BytesSent(ss, moves, id) % 0x1_0000_0000_0000_0000
    ensures errors == Failures(ss, moves, id, s.taps[id].endpoint) % 0x1_0000_0000_0000_0000
  {
    hide Trace, Init, BytesSent, BytesWritten, Failures, Sum;
    PrintedIsWhatHappened(ss, moves, id);
    rx, tx, errors := SumStats(s.stats[id]);
  }
}
