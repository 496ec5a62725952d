/** The workers together behave like one worker answering datagram sources one at a time.

Each datagram's source is answered once, between its receipt and its delivery: at the first lookup
when that finds a tap or the source is refused, otherwise at the second lookup or at the creation of
the tap, under the write hold. The answers, in order, form a sequential run of lookup-or-allocate. */
module WorkerHistory {
  import opened IpAddr
  import opened EndpointTable
  import opened Worker
  import opened Wrappers
  import opened WorkerLock
  import opened WorkerDirectory

  // ----- The sequential service -----

  /** The endpoints holding taps, in the order of their ids, after one answer. */
  function After(eps: seq<Endpoint>, r: Resolution): seq<Endpoint> {
    if r.outcome.Fresh? then eps + [r.from] else eps
  }

  /** The answers a sequential server may give: the endpoint's id when it has one; otherwise a refusal
      or, for an allowed address, the next id or a failure to create the tap. */
  predicate Answers(cfg: Config, eps: seq<Endpoint>, r: Resolution) {
    match r.outcome
    case Got(id) => id < |eps| && eps[id] == r.from
    case Fresh(id) => id == |eps| && r.from !in eps && Allowed(cfg, r.from.addr)
    case Refused => r.from !in eps && !Allowed(cfg, r.from.addr)
    case NoTap => r.from !in eps && Allowed(cfg, r.from.addr)
  }

  function Served(first: seq<Endpoint>, history: seq<Resolution>): seq<Endpoint> {
    if history == [] then first
    else After(Served(first, history[..|history| - 1]), history[|history| - 1])
  }

  predicate Sequential(cfg: Config, first: seq<Endpoint>, history: seq<Resolution>) {
    history == []
    || var last := |history| - 1;
       && Sequential(cfg, first, history[..last])
       && Answers(cfg, Served(first, history[..last]), history[last])
  }

  // ----- What a sequential run guarantees -----

  function CountFresh(history: seq<Resolution>): nat {
    if history == [] then 0
    else CountFresh(history[..|history| - 1]) + if history[|history| - 1].outcome.Fresh? then 1 else 0
  }

  lemma {:induction false} ServedLength(first: seq<Endpoint>, history: seq<Resolution>)
    ensures |Served(first, history)| == |first| + CountFresh(history)
    ensures first <= Served(first, history)
  {
    if history == [] {
    } else {
      ServedLength(first, history[..|history| - 1]);
    }
  }

  lemma {:induction false} SequentialPrefix(cfg: Config, first: seq<Endpoint>, history: seq<Resolution>, i: nat)
    requires Sequential(cfg, first, history) && i <= |history|
    ensures Sequential(cfg, first, history[..i])
    ensures Served(first, history[..i]) <= Served(first, history)
    decreases |history|
  {
    if i == |history| {
      assert history[..i] == history;
    } else {
      var last := |history| - 1;
      assert history[..last][..i] == history[..i];
      SequentialPrefix(cfg, first, history[..last], i);
    }
  }

  /** Fresh ids are handed out consecutively, in the order of the answers. */
  lemma FreshIdsInOrder(cfg: Config, first: seq<Endpoint>, history: seq<Resolution>, i: nat)
    requires Sequential(cfg, first, history) && i < |history| && history[i].outcome.Fresh?
    ensures history[i].outcome.tapId == |first| + CountFresh(history[..i])
  {
    SequentialPrefix(cfg, first, history, i + 1);
    assert history[..i + 1][..i] == history[..i];
    ServedLength(first, history[..i]);
  }

  /** Once an answer has given an endpoint an id, that id is the endpoint's position ever after. */
  lemma AnsweredIdStays(cfg: Config, first: seq<Endpoint>, history: seq<Resolution>, i: nat, j: nat)
    requires Sequential(cfg, first, history) && i < j <= |history|
    requires history[i].outcome.Got? || history[i].outcome.Fresh?
    ensures var eps, id := Served(first, history[..j]), history[i].outcome.tapId;
            id < |eps| && eps[id] == history[i].from
  {
    SequentialPrefix(cfg, first, history, i + 1);
    assert history[..i + 1][..i] == history[..i];
    assert Served(first, history[..i + 1]) <= Served(first, history[..j]) by {
      SequentialPrefix(cfg, first, history, j);
      assert history[..j][..i + 1] == history[..i + 1];
      SequentialPrefix(cfg, first, history[..j], i + 1);
    }
  }

  /** An endpoint keeps its id: every later answer for it is a lookup that gives the same id, so no
      endpoint is given two taps. */
  lemma OneIdPerEndpoint(cfg: Config, first: seq<Endpoint>, history: seq<Resolution>, i: nat, j: nat)
    requires Sequential(cfg, first, history) && Distinct(first)
    requires i < j < |history| && history[i].from == history[j].from
    requires history[i].outcome.Got? || history[i].outcome.Fresh?
    ensures history[j].outcome == Got(history[i].outcome.tapId)
  {
    AnsweredIdStays(cfg, first, history, i, j);
    SequentialPrefix(cfg, first, history, j);
    ServedDistinct(cfg, first, history[..j]);
    SequentialPrefix(cfg, first, history, j + 1);
    assert history[..j + 1][..j] == history[..j];
  }

  lemma {:induction false} ServedDistinct(cfg: Config, first: seq<Endpoint>, history: seq<Resolution>)
    requires Sequential(cfg, first, history) && Distinct(first)
    ensures Distinct(Served(first, history))
  {
    if history == [] {
    } else {
      ServedDistinct(cfg, first, history[..|history| - 1]);
    }
  }

  // ----- The workers' history -----

  function Endpoints(taps: seq<Tap>): (eps: seq<Endpoint>)
    ensures |eps| == |taps| && forall i :: 0 <= i < |taps| ==> eps[i] == taps[i].endpoint
  {
    seq(|taps|, i requires 0 <= i < |taps| => taps[i].endpoint)
  }

  /** The sources a worker has answered, in order. */
  function SourcesBy(history: seq<Resolution>, w: nat): seq<Endpoint> {
    if history == [] then []
    else
      var r := history[|history| - 1];
      SourcesBy(history[..|history| - 1], w) + if r.worker == w then [r.from] else []
  }

  function LastBy(history: seq<Resolution>, w: nat): Option<Resolution> {
    if history == [] then None
    else if history[|history| - 1].worker == w then Some(history[|history| - 1])
    else LastBy(history[..|history| - 1], w)
  }

  lemma AppendBy(history: seq<Resolution>, r: Resolution, w: nat)
    ensures SourcesBy(history + [r], w) == SourcesBy(history, w) + if r.worker == w then [r.from] else []
    ensures LastBy(history + [r], w) == if r.worker == w then Some(r) else LastBy(history, w)
  {
    assert (history + [r])[..|history|] == history;
  }

  /** Received but not answered yet. */
  predicate Unanswered(pc: Pc) {
    pc.Find? || Contending(pc)
  }

  /** Unknown at the first lookup, and allowed: on the way to a tap of its own. */
  predicate Contending(pc: Pc) {
    pc.Release? || pc.Upgrade? || pc.Recheck? || pc.Allocate? || pc.Register?
  }

  /** Answered with an id, on the way to delivery. */
  predicate Carrying(pc: Pc) {
    pc.MapAdd? || pc.Rebuild? || pc.Unwrite? || pc.Downgrade? || pc.Deliver?
  }

  ghost predicate PcHistory(cfg: Config, history: seq<Resolution>, received: seq<Endpoint>, w: nat, pc: Pc) {
    && SourcesBy(history, w) + (if Unanswered(pc) then [pc.packet.from] else []) == received
    && (Contending(pc) ==> Allowed(cfg, pc.packet.from.addr))
    && (Carrying(pc) ==>
          || LastBy(history, w) == Some(Resolution(w, pc.packet.from, Got(pc.tapId)))
          || LastBy(history, w) == Some(Resolution(w, pc.packet.from, Fresh(pc.tapId))))
  }

  ghost predicate HistoryInv(s: State, first: seq<Endpoint>) {
    && |s.received| == |s.threads|
    && Sequential(s.cfg, first, s.history)
    && Served(first, s.history) == Endpoints(s.taps)
    && forall w :: 0 <= w < |s.threads| ==> PcHistory(s.cfg, s.history, s.received[w], w, s.threads[w].pc)
  }

  // ----- Steps -----

  /** A step either answers its own worker's datagram, in a way the sequential server may, or leaves
      history and taps alone. */
  ghost predicate HistoryStep(s: State, w: nat, s': State)
    requires w < |s.threads|
  {
    && |s'.threads| == |s.threads| && s'.threads == s.threads[w := s'.threads[w]]
    && s'.cfg == s.cfg && |s'.received| == |s.received| == |s.threads|
    && (forall v :: 0 <= v < |s.threads| && v != w ==> s'.received[v] == s.received[v])
    && (s'.history == s.history || Answered(s, w, s'))
    && (s'.history == s.history ==> s'.taps == s.taps)
  }

  ghost predicate Answered(s: State, w: nat, s': State) {
    && |s'.history| == |s.history| + 1 && s'.history[..|s.history|] == s.history
    && var r := s'.history[|s.history|];
    && r.worker == w && Answers(s.cfg, Endpoints(s.taps), r)
    && Endpoints(s'.taps) == After(Endpoints(s.taps), r)
  }

  lemma HistoryStepKeeps(s: State, w: nat, s': State, first: seq<Endpoint>)
    requires w < |s.threads| && HistoryInv(s, first) && HistoryStep(s, w, s')
    requires PcHistory(s'.cfg, s'.history, s'.received[w], w, s'.threads[w].pc)
    ensures HistoryInv(s', first)
  {
    hide Answers, Endpoints;
    forall v | 0 <= v < |s'.threads| ensures PcHistory(s'.cfg, s'.history, s'.received[v], v, s'.threads[v].pc) {
      if v != w {
        assert PcHistory(s.cfg, s.history, s.received[v], v, s.threads[v].pc);
        if s'.history != s.history {
          assert s'.history == s.history + [s'.history[|s.history|]];
          AppendBy(s.history, s'.history[|s.history|], v);
        }
      }
    }
  }

  ghost predicate PcHistoryAt(s: State, w: nat)
    requires w < |s.threads| == |s.received|
  {
    PcHistory(s.cfg, s.history, s.received[w], w, s.threads[w].pc)
  }

  /** A step of a worker that is not answering or delivering leaves everything about the history as it was. */
  ghost predicate Uninvolved(s: State, w: nat, s': State)
    requires w < |s.threads|
  {
    && |s'.threads| == |s.threads| && s'.threads == s.threads[w := s'.threads[w]]
    && s'.cfg == s.cfg && s'.received == s.received && s'.history == s.history && s'.taps == s.taps
    && !Unanswered(s.threads[w].pc) && !Unanswered(s'.threads[w].pc) && !Carrying(s'.threads[w].pc)
  }

  lemma UninvolvedHistory(s: State, w: nat, s': State)
    requires w < |s.threads| == |s.received| && PcHistoryAt(s, w) && Uninvolved(s, w, s')
    ensures HistoryStep(s, w, s') && PcHistoryAt(s', w)
  {
    hide SourcesBy, LastBy, Allowed, Answers, Endpoints;
  }

  lemma EventsUninvolved(s: State, w: nat, a: Action)
    requires Enabled(s, w, a) && PhaseOf(a) == Events
    ensures Uninvolved(s, w, Apply(s, w, a))
  {
    hide BatchReady, Elements;
  }

  lemma CountingUninvolved(s: State, w: nat, a: Action)
    requires Enabled(s, w, a) && PhaseOf(a) == Counting
    ensures Uninvolved(s, w, Apply(s, w, a))
  {
  }

  lemma EventsHistory(s: State, w: nat, a: Action)
    requires Enabled(s, w, a) && (PhaseOf(a) == Events || PhaseOf(a) == Counting)
    requires |s.received| == |s.threads| && PcHistoryAt(s, w)
    ensures HistoryStep(s, w, Apply(s, w, a)) && PcHistoryAt(Apply(s, w, a), w)
  {
    assert w < |s.threads|;
    hide Enabled, Apply, Uninvolved, PcHistoryAt, HistoryStep;
    if PhaseOf(a) == Events {
      EventsUninvolved(s, w, a);
    } else {
      CountingUninvolved(s, w, a);
    }
    UninvolvedHistory(s, w, Apply(s, w, a));
  }

  lemma LockingHistory(s: State, w: nat, a: Action)
    requires Enabled(s, w, a) && PhaseOf(a) == Locking && |s.received| == |s.threads| && PcHistoryAt(s, w)
    requires Agrees(s.lock, w, s.threads[w].pc)
    ensures HistoryStep(s, w, Apply(s, w, a)) && PcHistoryAt(Apply(s, w, a), w)
  {
    hide SourcesBy, LastBy, Allowed;
  }

  lemma ReceivingHistory(s: State, w: nat, a: Action)
    requires Enabled(s, w, a) && (a.TapNothing? || a.TapFrame? || a.UdpNothing? || a.UdpOther? || a.UdpPacket?)
    requires |s.received| == |s.threads| && PcHistoryAt(s, w)
    ensures HistoryStep(s, w, Apply(s, w, a)) && PcHistoryAt(Apply(s, w, a), w)
  {
    hide SourcesBy, LastBy, Allowed, Answers, Endpoints;
  }

  lemma SendingHistory(s: State, w: nat, a: Action)
    requires Enabled(s, w, a) && (a.SendTo? || a.WriteTap?) && |s.received| == |s.threads| && PcHistoryAt(s, w)
    ensures HistoryStep(s, w, Apply(s, w, a)) && PcHistoryAt(Apply(s, w, a), w)
  {
    hide SourcesBy, LastBy, Allowed, Answers, Endpoints;
  }

  lemma MappingHistory(s: State, w: nat, a: Action)
    requires Enabled(s, w, a) && PhaseOf(a) == Mapping && |s.received| == |s.threads| && PcHistoryAt(s, w)
    ensures HistoryStep(s, w, Apply(s, w, a)) && PcHistoryAt(Apply(s, w, a), w)
  {
    hide SourcesBy, LastBy, Allowed, Answers, Endpoints, TryInsert, Attempt, Cleared;
  }

  /** An unknown tap endpoint is one the sequence of endpoints does not contain. */
  lemma UnknownIsNotIn(taps: seq<Tap>, k: Endpoint)
    ensures Unknown(taps, k) <==> k !in Endpoints(taps)
  {
    if k in Endpoints(taps) {
      var i :| 0 <= i < |taps| && Endpoints(taps)[i] == k;
    }
    if i :| 0 <= i < |taps| && taps[i].endpoint == k {
      assert Endpoints(taps)[i] == k;
    }
  }

  /** An answer the sequential server may give, recorded by the worker whose datagram it is. */
  lemma AnswerStep(s: State, w: nat, s': State, k: Endpoint, o: Outcome)
    requires w < |s.threads| == |s.received| && PcHistoryAt(s, w) && Unanswered(s.threads[w].pc)
    requires |s'.threads| == |s.threads| && s'.threads == s.threads[w := s'.threads[w]]
    requires s'.cfg == s.cfg && s'.received == s.received && s'.history == s.history + [Resolution(w, k, o)]
    requires k == s.threads[w].pc.packet.from && Answers(s.cfg, Endpoints(s.taps), Resolution(w, k, o))
    requires Endpoints(s'.taps) == After(Endpoints(s.taps), Resolution(w, k, o))
    requires var pc := s'.threads[w].pc;
             && !Unanswered(pc)
             && (Carrying(pc) ==> pc.packet.from == k && (o == Got(pc.tapId) || o == Fresh(pc.tapId)))
    ensures HistoryStep(s, w, s') && PcHistoryAt(s', w)
  {
    AppendBy(s.history, Resolution(w, k, o), w);
    hide SourcesBy, LastBy, Allowed, Answers, Endpoints;
  }

  lemma LookUpHit(s: State, w: nat)
    requires Enabled(s, w, LookUp) && |s.received| == |s.threads| && PcHistoryAt(s, w) && Settled(s)
    requires FindIn(s.table, s.threads[w].pc.packet.from) >= 0
    ensures HistoryStep(s, w, Apply(s, w, LookUp)) && PcHistoryAt(Apply(s, w, LookUp), w)
  {
    var k, s' := s.threads[w].pc.packet.from, Apply(s, w, LookUp);
    var id := FindIn(s.table, k);
    SettledLookup(s, k);
    hide SourcesBy, LastBy, Allowed, FindIn, Settled, Unknown, PcHistory;
    AnswerStep(s, w, s', k, Got(id));
  }

  lemma LookUpRefusal(s: State, w: nat)
    requires Enabled(s, w, LookUp) && |s.received| == |s.threads| && PcHistoryAt(s, w) && Settled(s)
    requires FindIn(s.table, s.threads[w].pc.packet.from) < 0 && !Allowed(s.cfg, s.threads[w].pc.packet.from.addr)
    ensures HistoryStep(s, w, Apply(s, w, LookUp)) && PcHistoryAt(Apply(s, w, LookUp), w)
  {
    var k, s' := s.threads[w].pc.packet.from, Apply(s, w, LookUp);
    SettledLookup(s, k);
    UnknownIsNotIn(s.taps, k);
    hide SourcesBy, LastBy, Allowed, FindIn, Settled, Unknown, PcHistory;
    AnswerStep(s, w, s', k, Refused);
  }

  lemma LookUpHistory(s: State, w: nat)
    requires Enabled(s, w, LookUp) && |s.received| == |s.threads| && PcHistoryAt(s, w) && Settled(s)
    ensures HistoryStep(s, w, Apply(s, w, LookUp)) && PcHistoryAt(Apply(s, w, LookUp), w)
  {
    var k := s.threads[w].pc.packet.from;
    hide SourcesBy, LastBy, Allowed, FindIn, Settled, Endpoints, Answers;
    if FindIn(s.table, k) >= 0 {
      LookUpHit(s, w);
    } else if !Allowed(s.cfg, k.addr) {
      LookUpRefusal(s, w);
    }
  }

  lemma LookUpAgainHit(s: State, w: nat)
    requires Enabled(s, w, LookUpAgain) && |s.received| == |s.threads| && PcHistoryAt(s, w) && Settled(s)
    requires FindIn(s.table, s.threads[w].pc.packet.from) >= 0
    ensures HistoryStep(s, w, Apply(s, w, LookUpAgain)) && PcHistoryAt(Apply(s, w, LookUpAgain), w)
  {
    var k, s' := s.threads[w].pc.packet.from, Apply(s, w, LookUpAgain);
    SettledLookup(s, k);
    hide SourcesBy, LastBy, Allowed, FindIn, Settled, Unknown, PcHistory;
    AnswerStep(s, w, s', k, Got(FindIn(s.table, k)));
  }

  lemma LookUpAgainHistory(s: State, w: nat)
    requires Enabled(s, w, LookUpAgain) && |s.received| == |s.threads| && PcHistoryAt(s, w) && Settled(s)
    ensures HistoryStep(s, w, Apply(s, w, LookUpAgain)) && PcHistoryAt(Apply(s, w, LookUpAgain), w)
  {
    hide SourcesBy, LastBy, Allowed, FindIn, Settled, Endpoints, Answers;
    if FindIn(s.table, s.threads[w].pc.packet.from) >= 0 {
      LookUpAgainHit(s, w);
    }
  }

  lemma CreateGivesUp(s: State, w: nat)
    requires Enabled(s, w, CreateTap(None)) && |s.received| == |s.threads| && PcHistoryAt(s, w)
    requires PcFits(s, s.threads[w].pc) && s.threads[w].pc.packet.from.port != 0
    ensures HistoryStep(s, w, Apply(s, w, CreateTap(None))) && PcHistoryAt(Apply(s, w, CreateTap(None)), w)
  {
    var k, s' := s.threads[w].pc.packet.from, Apply(s, w, CreateTap(None));
    UnknownIsNotIn(s.taps, k);
    hide SourcesBy, LastBy, Allowed, Unknown, FreshFds, Endpoints, PcHistory;
    assert Allowed(s.cfg, k.addr) by { ContendingAllowed(s, w); }
    AnswerStep(s, w, s', k, NoTap);
  }

  lemma ContendingAllowed(s: State, w: nat)
    requires w < |s.threads| == |s.received| && PcHistoryAt(s, w) && Contending(s.threads[w].pc)
    ensures Allowed(s.cfg, s.threads[w].pc.packet.from.addr)
  {
  }

  lemma CreateHistory(s: State, w: nat, created: Option<seq<int>>)
    requires Enabled(s, w, CreateTap(created)) && |s.received| == |s.threads| && PcHistoryAt(s, w)
    requires PcFits(s, s.threads[w].pc)
    ensures HistoryStep(s, w, Apply(s, w, CreateTap(created))) && PcHistoryAt(Apply(s, w, CreateTap(created)), w)
  {
    hide SourcesBy, LastBy, Allowed, Unknown, FreshFds, Endpoints, Answers, PcFits;
    if s.threads[w].pc.packet.from.port != 0 && created.None? {
      CreateGivesUp(s, w);
    }
  }

  lemma RegisterHistory(s: State, w: nat, ok: bool)
    requires Enabled(s, w, RegisterFd(ok)) && |s.received| == |s.threads| && PcHistoryAt(s, w)
    requires PcFits(s, s.threads[w].pc)
    ensures HistoryStep(s, w, Apply(s, w, RegisterFd(ok))) && PcHistoryAt(Apply(s, w, RegisterFd(ok)), w)
  {
    var k, s' := s.threads[w].pc.packet.from, Apply(s, w, RegisterFd(ok));
    UnknownIsNotIn(s.taps, k);
    hide SourcesBy, LastBy, Allowed, Unknown, Endpoints;
    if !ok {
      AnswerStep(s, w, s', k, NoTap);
    }
  }

  lemma PublishHistory(s: State, w: nat)
    requires Enabled(s, w, Publish) && |s.received| == |s.threads| && PcHistoryAt(s, w)
    requires PcFits(s, s.threads[w].pc)
    ensures HistoryStep(s, w, Apply(s, w, Publish)) && PcHistoryAt(Apply(s, w, Publish), w)
  {
    var k, s' := s.threads[w].pc.packet.from, Apply(s, w, Publish);
    UnknownIsNotIn(s.taps, k);
    assert Endpoints(s'.taps) == Endpoints(s.taps) + [k];
    hide SourcesBy, LastBy, Allowed, Unknown, Endpoints;
    AnswerStep(s, w, s', k, Fresh(|s.taps|));
  }

  lemma StepKeepsHistory(s: State, w: nat, a: Action, first: seq<Endpoint>)
    requires Enabled(s, w, a) && LockInv(s) && DirInv(s) && HistoryInv(s, first)
    ensures HistoryInv(Apply(s, w, a), first)
  {
    assert PcHistoryAt(s, w) && PcFits(s, s.threads[w].pc) && Agrees(s.lock, w, s.threads[w].pc);
    if PhaseOf(a) == Resolving {
      HolderSeesSettled(s, w);
    }
    hide Enabled, Apply, PcHistory, HistoryStep, Settled, PcFits, LockInv, DirInv, Agrees;
    match PhaseOf(a) {
      case Events => EventsHistory(s, w, a);
      case Locking => LockingHistory(s, w, a);
      case Transfer =>
        if a.SendTo? || a.WriteTap? {
          SendingHistory(s, w, a);
        } else {
          ReceivingHistory(s, w, a);
        }
      case Counting => EventsHistory(s, w, a);
      case Mapping => MappingHistory(s, w, a);
      case Resolving =>
        if a == LookUp {
          LookUpHistory(s, w);
        } else {
          assert a == LookUpAgain;
          LookUpAgainHistory(s, w);
        }
      case Allocating =>
        if a.CreateTap? {
          CreateHistory(s, w, a.created);
        } else if a.RegisterFd? {
          RegisterHistory(s, w, a.ok);
        } else {
          PublishHistory(s, w);
        }
    }
    HistoryStepKeeps(s, w, Apply(s, w, a), first);
  }
}
