/** The configuration state machine (src/main.c): it turns the parser's events into tunnels.

Creating a tunnel and reading a number are library calls and parameters here: creatable says whether the
tunnel with some parameters can be created when it would be the n-th. */
module Config {
  import opened Ini
  import opened Strings
  import opened Wrappers

  datatype Params = Params(
    tunnelName: Option<string>,
    bindIface: Option<string>,
    bindPort: int,
    remoteHost: Option<string>,
    remotePort: int,
    allowedHosts: Option<string>,
    queues: int,
    tapBaseName: Option<string>,
    bridgeName: Option<string>,
    mtu: int,
    postExec: Option<string>
  )

  const EMPTY := Params(None, None, 0, None, 0, None, 0, None, None, 0, None)

  datatype Library = Library(atoi: string -> int, creatable: (nat, Params) -> bool, defaultQueues: int)

  datatype State = State(seenValues: bool, params: Params, tunnels: seq<Params>)

  const START := State(false, EMPTY, [])

  // ----- The callback, on values -----

  /** One setting. A default endpoint without a colon is stored and then rejected. */
  function Set(lib: Library, p: Params, key: string, value: string): (Params, bool) {
    if key == "bind_iface" then (p.(bindIface := Some(value)), true)
    else if key == "bind_port" then (p.(bindPort := lib.atoi(value)), true)
    else if key == "default_endpoint" then
      var colon := IndexOf(value, ':');
      if colon < |value| then
        (p.(remoteHost := Some(value[..colon]), remotePort := lib.atoi(value[colon + 1..])), true)
      else (p.(remoteHost := Some(value)), false)
    else if key == "num_queues" then (p.(queues := lib.atoi(value)), true)
    else if key == "tap_base_name" then (p.(tapBaseName := Some(value)), true)
    else if key == "bridge_name" then (p.(bridgeName := Some(value)), true)
    else if key == "mtu" then (p.(mtu := lib.atoi(value)), true)
    else if key == "allowed_remote_hosts" then (p.(allowedHosts := Some(value)), true)
    else if key == "post_exec" then (p.(postExec := Some(value)), true)
    else (p, false)
  }

  /** The name used when the section was left out. */
  function Named(p: Params): Params {
    if p.tunnelName.None? then p.(tunnelName := Some("default")) else p
  }

  /** Committing the tunnel described so far, if any value has been seen at all. */
  function Commit(lib: Library, st: State): (State, bool) {
    if !st.seenValues then (st, true)
    else if lib.creatable(|st.tunnels|, Named(st.params)) then
      (st.(params := EMPTY, tunnels := st.tunnels + [Named(st.params)]), true)
    else (st.(params := EMPTY), false)
  }

  function Step(lib: Library, st: State, e: Event): (State, bool) {
    match e
    case Setting(key, value) =>
      var (p, ok) := Set(lib, st.params, key, value);
      (st.(seenValues := true, params := p), ok)
    case Section(name) =>
      var (st', ok) := Commit(lib, st);
      if ok then (st'.(params := st'.params.(queues := lib.defaultQueues, tunnelName := Some(name))), true)
      else (st', false)
    case End => Commit(lib, st)
  }

  /** The state after a sequence of events, stopping at the first rejection. */
  function Run(lib: Library, events: seq<Event>): (State, bool) {
    if events == [] then (START, true)
    else
      var (st, ok) := Run(lib, events[..|events| - 1]);
      if ok then Step(lib, st, events[|events| - 1]) else (st, false)
  }

  lemma RunAppend(lib: Library, events: seq<Event>, e: Event)
    ensures var (st, ok) := Run(lib, events);
            Run(lib, events + [e]) == if ok then Step(lib, st, e) else (st, false)
  {
    assert (events + [e])[..|events|] == events;
  }

  /** A rejection ends the run: the state stays as the rejected event left it. */
  lemma {:induction false} RunStaysRejected(lib: Library, events: seq<Event>, more: seq<Event>)
    requires !Run(lib, events).1
    ensures Run(lib, events + more) == Run(lib, events)
    decreases |more|
  {
    if more == [] {
      assert events + more == events;
    } else {
      var last := |more| - 1;
      RunStaysRejected(lib, events, more[..last]);
      assert events + more == events + more[..last] + [more[last]];
      RunAppend(lib, events + more[..last], more[last]);
    }
  }

  // ----- The callback, in place -----

  class Parser {
    const lib: Library
    var seenValues: bool
    var params: Params
    var tunnels: seq<Params>

    ghost function View(): State
      reads this
    {
      State(seenValues, params, tunnels)
    }

    constructor (lib: Library)
      ensures this.lib == lib && View() == START
    {
      this.lib := lib;
      seenValues := false;
      params := EMPTY;
      tunnels := [];
    }

    method ResetParams()
      modifies this`params
      ensures params == EMPTY
    {
      params := EMPTY;
    }

    method OnSetting(key: string, value: string) returns (ok: bool)
      modifies this`seenValues, this`params
      ensures (View(), ok) == Step(lib, old(View()), Setting(key, value))
    {
      seenValues := true;
      ok := true;
      if key == "bind_iface" {
        params := params.(bindIface := Some(value));
      } else if key == "bind_port" {
        params := params.(bindPort := lib.atoi(value));
      } else if key == "default_endpoint" {
        params := params.(remoteHost := Some(value));
        var colon := IndexOf(value, ':');
        if colon < |value| {
          params := params.(remoteHost := Some(value[..colon]));
          params := params.(remotePort := lib.atoi(value[colon + 1..]));
        } else {
          ok := false;
        }
      } else if key == "num_queues" {
        params := params.(queues := lib.atoi(value));
      } else if key == "tap_base_name" {
        params := params.(tapBaseName := Some(value));
      } else if key == "bridge_name" {
        params := params.(bridgeName := Some(value));
      } else if key == "mtu" {
        params := params.(mtu := lib.atoi(value));
      } else if key == "allowed_remote_hosts" {
        params := params.(allowedHosts := Some(value));
      } else if key == "post_exec" {
        params := params.(postExec := Some(value));
      } else {
        ok := false;
      }
    }

    method OnEvent(e: Event) returns (ok: bool)
      modifies this
      ensures (View(), ok) == Step(lib, old(View()), e)
    {
      if e.Setting? {
        ok := OnSetting(e.key, e.value);
        return;
      }
      if seenValues {
        if params.tunnelName.None? {
          params := params.(tunnelName := Some("default"));
        }
        var created := lib.creatable(|tunnels|, params);
        if !created {
          ResetParams();
          return false;
        }
        tunnels := tunnels + [params];
        ResetParams();
      }
      if e.Section? {
        params := params.(queues := lib.defaultQueues);
        params := params.(tunnelName := Some(e.name));
      }
      return true;
    }
  }

  /** How one line of a text contributes to its events. */
  lemma FirstOfText(text: string)
    requires text != ""
    ensures var n := LineLength(text);
            ParseText(text) ==
              match ParseLine(CutNul(text[..n]))
              case Invalid => ([], false)
              case Blank => ParseText(text[n..])
              case Line(e) => ([e] + ParseText(text[n..]).0, ParseText(text[n..]).1)
  {
  }

  /** A rejected event ends the run whatever would have followed. */
  lemma RejectedHere(lib: Library, fed: seq<Event>, e: Event, after: seq<Event>)
    requires Run(lib, fed).1 && !Step(lib, Run(lib, fed).0, e).1
    ensures Run(lib, fed + ([e] + after)) == Step(lib, Run(lib, fed).0, e)
    ensures Run(lib, fed + ([e] + after) + [End]) == Step(lib, Run(lib, fed).0, e)
  {
    RunAppend(lib, fed, e);
    RunStaysRejected(lib, fed + [e], after);
    RunStaysRejected(lib, fed + [e], after + [End]);
    assert fed + [e] + after == fed + ([e] + after);
    assert fed + [e] + (after + [End]) == fed + ([e] + after) + [End];
  }

  /** What reading a whole text amounts to: the state it is left in, and whether it was accepted. */
  function LoadResult(lib: Library, text: string): (State, bool) {
    var (events, clean) := ParseText(text);
    if clean then Run(lib, events + [End]) else (Run(lib, events).0, false)
  }

  /** The state after the events fed so far, with the rest of the text still to come. */
  ghost predicate Reading(lib: Library, text: string, fed: seq<Event>, rest: string, st: State) {
    && Run(lib, fed) == (st, true)
    && ParseText(text) == (fed + ParseText(rest).0, ParseText(rest).1)
  }

  lemma ReadingStarts(lib: Library, text: string)
    ensures Reading(lib, text, [], text, START)
  {
    assert [] + ParseText(text).0 == ParseText(text).0;
  }

  lemma Regroup(fed: seq<Event>, e: Event, after: seq<Event>)
    ensures fed + ([e] + after) == (fed + [e]) + after
  {
  }

  /** A blank line changes nothing about what is still to come. */
  lemma ReadingSkips(lib: Library, text: string, fed: seq<Event>, rest: string, st: State)
    requires rest != "" && Reading(lib, text, fed, rest, st)
    requires ParseLine(CutNul(rest[..LineLength(rest)])) == Blank
    ensures Reading(lib, text, fed, rest[LineLength(rest)..], st)
  {
    FirstOfText(rest);
    hide ParseText, ParseLine, CutNul, LineLength, Step, Run;
  }

  lemma ReadingFails(lib: Library, text: string, fed: seq<Event>, rest: string, st: State)
    requires rest != "" && Reading(lib, text, fed, rest, st)
    requires ParseLine(CutNul(rest[..LineLength(rest)])) == Invalid
    ensures LoadResult(lib, text) == (st, false)
  {
    FirstOfText(rest);
    hide ParseText, ParseLine, CutNul, LineLength, Step, Run;
    assert fed + [] == fed;
  }

  lemma ReadingAccepts(lib: Library, text: string, fed: seq<Event>, rest: string, st: State, e: Event)
    requires rest != "" && Reading(lib, text, fed, rest, st)
    requires ParseLine(CutNul(rest[..LineLength(rest)])) == Line(e) && Step(lib, st, e).1
    ensures Reading(lib, text, fed + [e], rest[LineLength(rest)..], Step(lib, st, e).0)
  {
    assert Run(lib, fed + [e]) == (Step(lib, st, e).0, true) by {
      RunAppend(lib, fed, e);
      hide ParseText, ParseLine, CutNul, LineLength, Step, Run;
    }
    var after := ParseText(rest[LineLength(rest)..]);
    assert ParseText(text) == ((fed + [e]) + after.0, after.1) by {
      FirstOfText(rest);
      hide ParseText, ParseLine, CutNul, LineLength, Step, Run;
      Regroup(fed, e, after.0);
    }
    hide ParseText, ParseLine, CutNul, LineLength, Step, Run;
  }

  lemma ReadingRejects(lib: Library, text: string, fed: seq<Event>, rest: string, st: State, e: Event)
    requires rest != "" && Reading(lib, text, fed, rest, st)
    requires ParseLine(CutNul(rest[..LineLength(rest)])) == Line(e) && !Step(lib, st, e).1
    ensures LoadResult(lib, text) == Step(lib, st, e)
  {
    FirstOfText(rest);
    hide ParseText, ParseLine, CutNul, LineLength, Step, Run;
    RejectedHere(lib, fed, e, ParseText(rest[LineLength(rest)..]).0);
  }

  lemma ReadingGoesOn(lib: Library, text: string, fed: seq<Event>, rest: string, st: State) returns (fed': seq<Event>)
    requires rest != "" && Reading(lib, text, fed, rest, st)
    ensures var n := LineLength(rest);
            match ParseLine(CutNul(rest[..n]))
            case Invalid => LoadResult(lib, text) == (st, false)
            case Blank => Reading(lib, text, fed', rest[n..], st)
            case Line(e) =>
              var (st', ok) := Step(lib, st, e);
              if ok then Reading(lib, text, fed', rest[n..], st') else LoadResult(lib, text) == (st', false)
  {
    hide Reading, LoadResult, ParseText, ParseLine, CutNul, LineLength, Step, Run;
    fed' := fed;
    match ParseLine(CutNul(rest[..LineLength(rest)]))
    case Invalid => ReadingFails(lib, text, fed, rest, st);
    case Blank => ReadingSkips(lib, text, fed, rest, st);
    case Line(e) =>
      if Step(lib, st, e).1 {
        ReadingAccepts(lib, text, fed, rest, st, e);
        fed' := fed + [e];
      } else {
        ReadingRejects(lib, text, fed, rest, st, e);
      }
  }

  lemma ReadingEnds(lib: Library, text: string, fed: seq<Event>, st: State)
    requires Reading(lib, text, fed, "", st)
    ensures LoadResult(lib, text) == Step(lib, st, End)
  {
    assert fed + [] == fed;
    RunAppend(lib, fed, End);
  }

  /** One turn of the reading loop: the next line is parsed in the buffer and its event, if any, handed
      to the callback. */
  method LoadLine(rest: string, buf: array<char>, parser: Parser) returns (n: nat, ok: bool)
    requires rest != "" && buf.Length == BUFFER
    modifies buf, parser
    ensures n == LineLength(rest)
    ensures match ParseLine(CutNul(rest[..n]))
            case Invalid => !ok && parser.View() == old(parser.View())
            case Blank => ok && parser.View() == old(parser.View())
            case Line(e) => (parser.View(), ok) == Step(parser.lib, old(parser.View()), e)
  {
    hide Step, ParseLine, CutNul, LineLength;
    n := ReadLine(rest, buf);
    var r := ParseInPlace(buf);
    match r
    case Invalid => ok := false;
    case Blank => ok := true;
    case Line(e) => ok := parser.OnEvent(e);
  }

  /** Reading a file: its lines in turn, then the end of the file as an event of its own. */
  method Load(text: string, parser: Parser) returns (ok: bool)
    requires parser.View() == START
    modifies parser
    ensures (parser.View(), ok) == LoadResult(parser.lib, text)
  {
    hide Reading, LoadResult, Step, ParseLine, CutNul, LineLength;
    var buf := new char[BUFFER](_ => NUL);
    var rest := text;
    ghost var fed: seq<Event> := [];
    ReadingStarts(parser.lib, text);
    while rest != ""
      invariant Reading(parser.lib, text, fed, rest, parser.View())
      decreases |rest|
    {
      fed := ReadingGoesOn(parser.lib, text, fed, rest, parser.View());
      var n;
      n, ok := LoadLine(rest, buf, parser);
      if !ok {
        return;
      }
      rest := rest[n..];
    }
    ReadingEnds(parser.lib, text, fed, parser.View());
    ok := parser.OnEvent(End);
  }
}
