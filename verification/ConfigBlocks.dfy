/** What a configuration file means: one tunnel for each section block. */
module ConfigBlocks {
  import opened Ini
  import opened IniPrint
  import opened Config
  import opened Strings
  import opened Wrappers

  // ----- Blocks -----

  datatype Pair = Pair(key: string, value: string)

  /** A section name, absent for the settings before the first header, and its settings. */
  datatype Block = Block(name: Option<string>, settings: seq<Pair>)

  /** Splitting the events of a file at its section headers. */
  function Split(events: seq<Event>): (bs: seq<Block>)
    ensures bs != []
  {
    if events == [] then [Block(None, [])]
    else
      var bs := Split(events[..|events| - 1]);
      match events[|events| - 1]
      case Section(name) => bs + [Block(Some(name), [])]
      case Setting(key, value) =>
        var cur := bs[|bs| - 1];
        bs[..|bs| - 1] + [cur.(settings := cur.settings + [Pair(key, value)])]
      case End => bs
  }

  /** The first block with a setting, or the number of blocks. */
  function FirstUsed(bs: seq<Block>): (i: nat)
    ensures i <= |bs|
  {
    if bs == [] || bs[0].settings != [] then 0 else 1 + FirstUsed(bs[1..])
  }

  // ----- What a block describes -----

  /** The value last written for a key. */
  function Last(settings: seq<Pair>, key: string): Option<string> {
    if settings == [] then None
    else if settings[|settings| - 1].key == key then Some(settings[|settings| - 1].value)
    else Last(settings[..|settings| - 1], key)
  }

  function Number(lib: Library, v: Option<string>, default: int): int {
    match v case None => default case Some(s) => lib.atoi(s)
  }

  predicate KnownKey(key: string) {
    || key == "bind_iface" || key == "bind_port" || key == "default_endpoint" || key == "num_queues"
    || key == "tap_base_name" || key == "bridge_name" || key == "mtu" || key == "allowed_remote_hosts"
    || key == "post_exec"
  }

  predicate HasColon(v: string) {
    IndexOf(v, ':') < |v|
  }

  predicate Acceptable(s: Pair) {
    KnownKey(s.key) && (s.key == "default_endpoint" ==> HasColon(s.value))
  }

  predicate AllAcceptable(settings: seq<Pair>) {
    forall i :: 0 <= i < |settings| ==> Acceptable(settings[i])
  }

  /** The tunnel a block describes: each parameter is the value last written in this block, or its
      default. The default for the number of queues is the number of processors in a named section and
      zero without one. */
  function Tunnel(lib: Library, b: Block): Params {
    var endpoint := Last(b.settings, "default_endpoint");
    Params(
      b.name,
      Last(b.settings, "bind_iface"),
      Number(lib, Last(b.settings, "bind_port"), 0),
      match endpoint { case None => None case Some(v) => Some(v[..IndexOf(v, ':')]) },
      match endpoint { case None => 0 case Some(v) => if HasColon(v) then lib.atoi(v[IndexOf(v, ':') + 1..]) else 0 },
      Last(b.settings, "allowed_remote_hosts"),
      Number(lib, Last(b.settings, "num_queues"), if b.name.None? then 0 else lib.defaultQueues),
      Last(b.settings, "tap_base_name"),
      Last(b.settings, "bridge_name"),
      Number(lib, Last(b.settings, "mtu"), 0),
      Last(b.settings, "post_exec"))
  }

  /** That tunnel under its section's name, or "default" when it has none. */
  function Titled(lib: Library, b: Block): Params {
    Tunnel(lib, b).(tunnelName := match b.name { case Some(n) => Some(n) case None => Some("default") })
  }

  lemma NamedIsTitled(lib: Library, b: Block)
    ensures Named(Tunnel(lib, b)) == Titled(lib, b)
  {
    hide Last, Number;
  }

  lemma SetIsLast(lib: Library, b: Block, key: string, value: string)
    requires Acceptable(Pair(key, value))
    ensures Set(lib, Tunnel(lib, b), key, value)
         == (Tunnel(lib, b.(settings := b.settings + [Pair(key, value)])), true)
  {
    var more := b.settings + [Pair(key, value)];
    assert more[..|more| - 1] == b.settings;
  }

  lemma SetRejects(lib: Library, p: Params, key: string, value: string)
    ensures Set(lib, p, key, value).1 == Acceptable(Pair(key, value))
  {
  }

  // ----- The run, block by block -----

  /** The block is acceptable and its tunnel can be created as the n-th. */
  predicate Good(lib: Library, n: nat, b: Block) {
    AllAcceptable(b.settings) && lib.creatable(n, Titled(lib, b))
  }

  predicate GoodFrom(lib: Library, bs: seq<Block>, first: nat) {
    forall i :: first <= i < |bs| ==> Good(lib, i - first, bs[i])
  }

  /** Every block from the first used one on is acceptable and its tunnel can be created in its turn. */
  predicate AllGood(lib: Library, bs: seq<Block>) {
    GoodFrom(lib, bs, FirstUsed(bs))
  }

  function TunnelOfEach(lib: Library, bs: seq<Block>): seq<Params> {
    if bs == [] then [] else TunnelOfEach(lib, bs[..|bs| - 1]) + [Titled(lib, bs[|bs| - 1])]
  }

  /** The tunnels of the blocks from the first used one on, in file order. */
  function Tunnels(lib: Library, bs: seq<Block>): seq<Params> {
    TunnelOfEach(lib, bs[FirstUsed(bs)..])
  }

  lemma {:induction false} FirstUsedAppend(bs: seq<Block>, b: Block)
    ensures FirstUsed(bs + [b])
         == if FirstUsed(bs) < |bs| then FirstUsed(bs) else if b.settings != [] then |bs| else |bs| + 1
  {
    if bs == [] {
      assert (bs + [b])[1..] == [];
    } else if bs[0].settings == [] {
      FirstUsedAppend(bs[1..], b);
      assert (bs + [b])[1..] == bs[1..] + [b];
    }
  }

  lemma TunnelsAppend(lib: Library, bs: seq<Block>, b: Block)
    requires FirstUsed(bs + [b]) <= |bs|
    ensures Tunnels(lib, bs + [b]) == Tunnels(lib, bs) + [Titled(lib, b)]
  {
    hide Titled, Tunnel, FirstUsed, TunnelOfEach;
    FirstUsedAppend(bs, b);
    var first := FirstUsed(bs);
    assert FirstUsed(bs + [b]) == first;
    SuffixAppend(bs, b, first);
    TunnelOfOneMore(lib, bs[first..], b);
  }

  lemma SuffixAppend(bs: seq<Block>, b: Block, first: nat)
    requires first <= |bs|
    ensures (bs + [b])[first..] == bs[first..] + [b]
  {
  }

  lemma {:induction false} OneTunnelEach(lib: Library, bs: seq<Block>)
    ensures |TunnelOfEach(lib, bs)| == |bs|
  {
    if bs == [] {
    } else {
      OneTunnelEach(lib, bs[..|bs| - 1]);
    }
  }

  lemma TunnelOfOneMore(lib: Library, bs: seq<Block>, b: Block)
    ensures TunnelOfEach(lib, bs + [b]) == TunnelOfEach(lib, bs) + [Titled(lib, b)]
  {
    hide Titled, Tunnel;
    assert (bs + [b])[..|bs|] == bs;
  }

  lemma TunnelCount(lib: Library, bs: seq<Block>)
    ensures |Tunnels(lib, bs)| == |bs| - FirstUsed(bs)
  {
    OneTunnelEach(lib, bs[FirstUsed(bs)..]);
  }

  lemma GoodFromAppend(lib: Library, bs: seq<Block>, b: Block, first: nat)
    requires first <= |bs|
    ensures GoodFrom(lib, bs + [b], first) <==> GoodFrom(lib, bs, first) && Good(lib, |bs| - first, b)
  {
    hide Good;
    if GoodFrom(lib, bs + [b], first) {
      assert Good(lib, |bs| - first, (bs + [b])[|bs|]);
      forall i | first <= i < |bs| ensures Good(lib, i - first, bs[i]) {
        assert Good(lib, i - first, (bs + [b])[i]);
      }
    }
  }

  lemma GoodAppend(lib: Library, bs: seq<Block>, b: Block)
    requires FirstUsed(bs + [b]) <= |bs|
    ensures AllGood(lib, bs + [b]) <==> AllGood(lib, bs) && Good(lib, |bs| - FirstUsed(bs), b)
  {
    hide Good, GoodFrom, FirstUsed;
    FirstUsedAppend(bs, b);
    GoodFromAppend(lib, bs, b, FirstUsed(bs));
  }

  lemma NothingUsed(lib: Library, bs: seq<Block>)
    requires FirstUsed(bs) == |bs|
    ensures Tunnels(lib, bs) == [] && AllGood(lib, bs)
  {
  }

  predicate NoEnd(events: seq<Event>) {
    forall i :: 0 <= i < |events| ==> !events[i].End?
  }

  /** The state of the machine in the middle of a file: finished blocks are tunnels, the current one is
      in the parameters. */
  ghost predicate Midway(lib: Library, done: seq<Block>, cur: Block, st: State) {
    && st.seenValues == (FirstUsed(done + [cur]) <= |done|)
    && st.params == Tunnel(lib, cur)
    && st.tunnels == Tunnels(lib, done)
  }

  ghost predicate Accepted(lib: Library, done: seq<Block>, cur: Block) {
    AllGood(lib, done) && AllAcceptable(cur.settings)
  }

  function Done(events: seq<Event>): seq<Block> {
    Split(events)[..|Split(events)| - 1]
  }

  function Current(events: seq<Event>): Block {
    Split(events)[|Split(events)| - 1]
  }

  lemma {:induction false} RunMidway(lib: Library, events: seq<Event>)
    requires NoEnd(events)
    ensures Run(lib, events).1 <==> Accepted(lib, Done(events), Current(events))
    ensures Run(lib, events).1 ==> Midway(lib, Done(events), Current(events), Run(lib, events).0)
  {
    if events == [] {
      assert Done(events) == [];
      NothingUsed(lib, []);
    } else {
      var last := |events| - 1;
      var before := events[..last];
      RunMidway(lib, before);
      hide Accepted, Midway, Step;
      var (st, ok) := Run(lib, before);
      if events[last].Setting? {
        SettingMidway(lib, Done(before), Current(before), st, ok, events[last].key, events[last].value);
        assert Done(events) == Done(before);
      } else {
        SectionMidway(lib, Done(before), Current(before), st, ok, events[last].name);
        assert Split(before) == Done(before) + [Current(before)];
        assert Done(events) == Done(before) + [Current(before)];
      }
    }
  }

  lemma AcceptableAppend(settings: seq<Pair>, s: Pair)
    ensures AllAcceptable(settings + [s]) <==> AllAcceptable(settings) && Acceptable(s)
  {
    if AllAcceptable(settings + [s]) {
      assert Acceptable((settings + [s])[|settings|]);
      forall i | 0 <= i < |settings| ensures Acceptable(settings[i]) {
        assert Acceptable((settings + [s])[i]);
      }
    }
  }

  lemma SettingMidway(lib: Library, done: seq<Block>, cur: Block, st: State, ok: bool, key: string, value: string)
    requires (ok <==> Accepted(lib, done, cur)) && (ok ==> Midway(lib, done, cur, st))
    ensures var cur' := cur.(settings := cur.settings + [Pair(key, value)]);
            var (st', ok') := if ok then Step(lib, st, Setting(key, value)) else (st, false);
            (ok' <==> Accepted(lib, done, cur')) && (ok' ==> Midway(lib, done, cur', st'))
  {
    var cur' := cur.(settings := cur.settings + [Pair(key, value)]);
    FirstUsedAppend(done, cur');
    AcceptableAppend(cur.settings, Pair(key, value));
    SetRejects(lib, st.params, key, value);
    if ok && Acceptable(Pair(key, value)) {
      SetIsLast(lib, cur, key, value);
    }
    hide Set, Tunnel, Acceptable, AllAcceptable, AllGood, Tunnels, FirstUsed;
  }

  lemma FreshBlock(lib: Library, name: string)
    ensures EMPTY.(queues := lib.defaultQueues, tunnelName := Some(name)) == Tunnel(lib, Block(Some(name), []))
  {
  }

  /** Before any setting the parameters hold at most a name and its number of queues. */
  lemma UnusedBlock(lib: Library, b: Block, name: string)
    requires b.settings == []
    ensures Tunnel(lib, b).(queues := lib.defaultQueues, tunnelName := Some(name)) == Tunnel(lib, Block(Some(name), []))
  {
  }

  lemma CommitMidway(lib: Library, done: seq<Block>, cur: Block, st: State, ok: bool)
    requires (ok <==> Accepted(lib, done, cur)) && (ok ==> Midway(lib, done, cur, st))
    ensures var bs := done + [cur];
            var (st', ok') := if ok then Commit(lib, st) else (st, false);
            && (ok' <==> AllGood(lib, bs))
            && (ok' ==> st'.tunnels == Tunnels(lib, bs) && st'.seenValues == (FirstUsed(bs) < |bs|))
            && (ok' ==> st'.params == if st'.seenValues then EMPTY else Tunnel(lib, cur))
  {
    NamedIsTitled(lib, cur);
    hide Titled, Tunnel, Tunnels, AllGood, Named, FirstUsed, AllAcceptable;
    FirstUsedAppend(done, cur);
    if FirstUsed(done + [cur]) <= |done| {
      TunnelsAppend(lib, done, cur);
      GoodAppend(lib, done, cur);
      TunnelCount(lib, done);
    } else {
      NothingUsed(lib, done + [cur]);
      NothingUsed(lib, done);
      NothingAcceptable(cur);
    }
  }

  lemma NothingAcceptable(b: Block)
    requires b.settings == []
    ensures AllAcceptable(b.settings)
  {
  }

  lemma SectionMidway(lib: Library, done: seq<Block>, cur: Block, st: State, ok: bool, name: string)
    requires (ok <==> Accepted(lib, done, cur)) && (ok ==> Midway(lib, done, cur, st))
    ensures var bs, b := done + [cur], Block(Some(name), []);
            var (st', ok') := if ok then Step(lib, st, Section(name)) else (st, false);
            (ok' <==> Accepted(lib, bs, b)) && (ok' ==> Midway(lib, bs, b, st'))
  {
    var bs, b := done + [cur], Block(Some(name), []);
    CommitMidway(lib, done, cur, st, ok);
    hide Commit, Tunnel, Tunnels, AllGood, FirstUsed, AllAcceptable;
    FirstUsedAppend(done, cur);
    FirstUsedAppend(bs, b);
    FreshBlock(lib, name);
    NothingAcceptable(b);
    if FirstUsed(bs) == |bs| {
      UnusedBlock(lib, cur, name);
    }
  }

  // ----- The main results -----

  /** A file is accepted exactly when every block from the first with a setting on is acceptable and can
      be created; it then gives one tunnel for each of those blocks, in file order, with the block's parameters,
      under the block's name, or under "default" when it has none. */
  lemma FileMeansBlocks(lib: Library, events: seq<Event>)
    requires NoEnd(events)
    ensures var (st, ok), bs := Run(lib, events + [End]), Split(events);
            && (ok <==> AllGood(lib, bs))
            && (ok ==> |st.tunnels| == |bs| - FirstUsed(bs) && forall i :: 0 <= i < |st.tunnels| ==>
                  st.tunnels[i] == Titled(lib, bs[FirstUsed(bs) + i]))
  {
    hide Titled, AllGood, Run, Split, Tunnels, FirstUsed, NoEnd;
    FileTunnels(lib, events);
    TunnelCount(lib, Split(events));
    TunnelsAre(lib, Split(events));
  }

  lemma TunnelsAre(lib: Library, bs: seq<Block>)
    ensures |Tunnels(lib, bs)| == |bs| - FirstUsed(bs)
    ensures forall i :: 0 <= i < |Tunnels(lib, bs)| ==> Tunnels(lib, bs)[i] == Titled(lib, bs[FirstUsed(bs) + i])
  {
    TunnelCount(lib, bs);
    hide Titled, FirstUsed, TunnelOfEach;
    forall i | 0 <= i < |bs| - FirstUsed(bs) ensures Tunnels(lib, bs)[i] == Titled(lib, bs[FirstUsed(bs) + i]) {
      TunnelAt(lib, bs[FirstUsed(bs)..], i);
    }
  }

  lemma {:induction false} TunnelAt(lib: Library, bs: seq<Block>, i: nat)
    requires i < |bs|
    ensures |TunnelOfEach(lib, bs)| == |bs| && TunnelOfEach(lib, bs)[i] == Titled(lib, bs[i])
  {
    OneTunnelEach(lib, bs);
    OneTunnelEach(lib, bs[..|bs| - 1]);
    if i == |bs| - 1 {
    } else {
      TunnelAt(lib, bs[..|bs| - 1], i);
    }
  }

  lemma FileTunnels(lib: Library, events: seq<Event>)
    requires NoEnd(events)
    ensures var (st, ok) := Run(lib, events + [End]);
            && (ok <==> AllGood(lib, Split(events)))
            && (ok ==> st.tunnels == Tunnels(lib, Split(events)))
  {
    RunMidway(lib, events);
    RunAppend(lib, events, End);
    CommitMidway(lib, Done(events), Current(events), Run(lib, events).0, Run(lib, events).1);
    assert Split(events) == Done(events) + [Current(events)];
  }

  /** The name of an accepted file's tunnel is its section's; only the first can be without one, when there are
      settings before the first header, and is then called "default". */
  lemma NamesAreSections(lib: Library, events: seq<Event>, i: nat)
    requires NoEnd(events) && Run(lib, events + [End]).1 && i < |Run(lib, events + [End]).0.tunnels|
    ensures var bs := Split(events);
            && FirstUsed(bs) + i < |bs|
            && Run(lib, events + [End]).0.tunnels[i].tunnelName
               == (match bs[FirstUsed(bs) + i].name case Some(n) => Some(n) case None => Some("default"))
            && (bs[FirstUsed(bs) + i].name.None? ==> i == 0 && FirstUsed(bs) == 0)
  {
    hide Run, AllGood, Tunnel, FirstUsed, Split, NoEnd;
    FileMeansBlocks(lib, events);
    var bs := Split(events);
    if bs[FirstUsed(bs) + i].name.None? {
      OnlyFirstUnnamed(events, FirstUsed(bs) + i);
    }
  }

  /** A setting refused leaves the parameters alone, but for an endpoint without a colon, which is kept as the
      host. */
  lemma RefusedSetting(lib: Library, p: Params, key: string, value: string)
    requires !Acceptable(Pair(key, value))
    ensures Set(lib, p, key, value).0 == if key == "default_endpoint" then p.(remoteHost := Some(value)) else p
  {
  }

  /** The first event a file is rejected at leaves exactly the tunnels of the blocks before its own. At a header,
      or at the end, it was the block's tunnel that could not be created, and nothing of the block is kept; at a
      setting the block's parameters stay as they were, but for the host of an endpoint without a colon. */
  lemma RejectedAt(lib: Library, events: seq<Event>, e: Event)
    requires NoEnd(events) && Run(lib, events).1 && !Run(lib, events + [e]).1
    ensures var st, done, cur := Run(lib, events + [e]).0, Done(events), Current(events);
            && st.seenValues && st.tunnels == Tunnels(lib, done)
            && match e
               case Setting(key, value) =>
                 && !Acceptable(Pair(key, value))
                 && st.params == if key == "default_endpoint" then Tunnel(lib, cur).(remoteHost := Some(value))
                                 else Tunnel(lib, cur)
               case _ =>
                 && FirstUsed(done + [cur]) <= |done|
                 && !lib.creatable(|done| - FirstUsed(done), Titled(lib, cur))
                 && st.params == Params(None, None, 0, None, 0, None, 0, None, None, 0, None)
  {
    RunMidway(lib, events);
    RunAppend(lib, events, e);
    var st, cur := Run(lib, events).0, Current(events);
    TunnelCount(lib, Done(events));
    FirstUsedAppend(Done(events), cur);
    NamedIsTitled(lib, cur);
    hide Run, Done, Current, Tunnel, Tunnels, Titled, Named, FirstUsed, NoEnd, Accepted, Acceptable, Set;
    if e.Setting? {
      SetRejects(lib, st.params, e.key, e.value);
      RefusedSetting(lib, st.params, e.key, e.value);
    }
  }

  /** Only the leading block can be unnamed. */
  lemma {:induction false} OnlyFirstUnnamed(events: seq<Event>, i: nat)
    requires i < |Split(events)| && Split(events)[i].name.None?
    ensures i == 0
  {
    if events == [] {
    } else {
      var before := events[..|events| - 1];
      if i < |Split(before)| {
        OnlyFirstUnnamed(before, i);
      }
    }
  }

  lemma {:induction false} EventsNoEnd(items: seq<Item>)
    requires forall i :: 0 <= i < |items| ==> Fits(items[i])
    ensures NoEnd(Events(items))
  {
    if items == [] {
    } else {
      assert Fits(items[0]);
      EventsNoEnd(items[1..]);
    }
  }

  /** From text to tunnels: a printed configuration, whatever its padding and comments, loads exactly
      when its blocks are good, and gives their tunnels. */
  lemma PrintedFileMeansBlocks(lib: Library, items: seq<Item>)
    requires forall i :: 0 <= i < |items| ==> Fits(items[i])
    ensures AllLaid(items)
    ensures var (st, ok) := LoadResult(lib, Print(items));
            && (ok <==> AllGood(lib, Split(Events(items))))
            && (ok ==> st.tunnels == Tunnels(lib, Split(Events(items))))
  {
    RoundTrip(items);
    EventsNoEnd(items);
    FileTunnels(lib, Events(items));
  }
}
