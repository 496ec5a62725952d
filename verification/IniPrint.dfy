/** Printing settings and parsing them back. */
module IniPrint {
  import opened Ini
  import opened Strings

  // ----- Lines -----

  predicate Free(s: string, c: char) {
    forall i :: 0 <= i < |s| ==> s[i] != c
  }

  predicate NoSpace(s: string) {
    forall i :: 0 <= i < |s| ==> !IsWhitespace(s[i])
  }

  /** What a name, a key or a value can hold once parsed: no whitespace, comment or terminator. */
  predicate Word(s: string) {
    NoSpace(s) && Free(s, NUL) && Free(s, ';')
  }

  /** A word without brackets. */
  predicate Clean(s: string) {
    Word(s) && Free(s, '[') && Free(s, ']')
  }

  /** What a line can be parsed to. */
  predicate Producible(e: Event) {
    match e
    case Section(name) => Word(name)
    case Setting(key, value) => Clean(key) && Clean(value) && Free(key, '=')
    case End => false
  }

  /** What survives being printed: a section name must not hold the bracket that ends it. */
  predicate Printable(e: Event) {
    Producible(e) && (e.Section? ==> Free(e.name, ']'))
  }

  /** Spaces before and after each word, and what follows them on the line. */
  datatype Layout = Layout(before: string, afterKey: string, beforeValue: string, after: string, comment: string)

  predicate Padding(s: string) {
    AllWhitespace(s) && Free(s, '\n')
  }

  predicate Padded(l: Layout) {
    AllWhitespace(l.before) && AllWhitespace(l.afterKey) && AllWhitespace(l.beforeValue) && AllWhitespace(l.after)
  }

  /** The comment is either absent or starts with a semicolon. */
  predicate Neat(l: Layout) {
    && Padding(l.before) && Padding(l.afterKey) && Padding(l.beforeValue) && Padding(l.after)
    && Free(l.comment, '\n') && (l.comment == "" || l.comment[0] == ';')
  }

  function Body(e: Event, l: Layout): string
    requires !e.End?
  {
    match e
    case Section(name) => l.before + "[" + (l.afterKey + name + l.beforeValue) + "]" + l.after
    case Setting(key, value) => (l.before + key + l.afterKey) + "=" + (l.beforeValue + value + l.after)
  }

  function PrintLine(e: Event, l: Layout): string
    requires !e.End?
  {
    Body(e, l) + l.comment + "\n"
  }

  // ----- Words -----

  /** Trimming a padded text that does not start with whitespace gives the text back exactly when it has no
      whitespace at all: of several words only the first is kept. */
  lemma FirstWordPaddedIff(left: string, text: string, right: string)
    requires AllWhitespace(left) && AllWhitespace(right) && (text == "" || !IsWhitespace(text[0]))
    ensures FirstWord(left + text + right) == text <==> NoSpace(text)
  {
    var s := left + text + right;
    if text == "" {
      SpanIs(s, true, |s|);
      assert s[|s|..] == "";
    } else {
      SpanIs(s, true, |left|);
      var t, k := s[|left|..], Span(text, false);
      assert t == text + right;
      SpanIs(t, false, k);
      assert k == |text| <==> NoSpace(text);
    }
  }

  /** In a value of several words, such as a command with arguments, everything after the first is lost. */
  lemma ValueIsCut(key: string, word: string, rest: string)
    requires Clean(key) && Free(key, '=') && Clean(word) && word != ""
    requires Free(rest, '[') && Free(rest, ']') && Free(rest, ';')
    ensures ParseLine(key + "=" + (word + " " + rest)) == Line(Setting(key, word))
  {
    var value := word + " " + rest;
    var s := key + "=" + value;
    NoneInSetting(key, word, rest, '[');
    NoneInSetting(key, word, rest, ']');
    NoneInSetting(key, word, rest, ';');
    IndexAfter(key, '=', value);
    assert s[..|s|] == s && s[..|key|] == key && s[|key| + 1..] == value;
    FirstWordAlone(key, "");
    FirstWordAlone(word, " " + rest);
    assert key + "" == key && word + (" " + rest) == value;
    hide FirstWord, Clean, Free, AllWhitespace, IndexOf;
  }

  lemma NoneInSetting(key: string, word: string, rest: string, c: char)
    requires Free(key, c) && Free(word, c) && Free(rest, c) && c != '=' && c != ' '
    ensures var s := key + "=" + (word + " " + rest);
            IndexOf(s, c) == |s|
  {
    FreeJoin(word, " ", c);
    FreeJoin(word + " ", rest, c);
    FreeJoin(key, "=", c);
    FreeJoin(key + "=", word + " " + rest, c);
    IndexNone(key + "=" + (word + " " + rest), c);
  }

  lemma FirstWordAlone(word: string, after: string)
    requires NoSpace(word) && (word == "" ==> after == "") && (after == "" || IsWhitespace(after[0]))
    ensures FirstWord(word + after) == word
  {
    var s := word + after;
    SpanIs(s, true, 0);
    assert s[0..] == s;
    SpanIs(s, false, |word|);
  }

  const COMMAND := "addr add 10.0.0.2/24 dev br-fakeveth1"

  /** So of the command that the documentation gives for post_exec only "ip" is run. */
  lemma DocumentedCommandIsCut()
    ensures ParseLine("post_exec" + "=" + ("ip" + " " + COMMAND)) == Line(Setting("post_exec", "ip"))
  {
    assert Free(COMMAND, '[') && Free(COMMAND, ']') && Free(COMMAND, ';');
    assert Clean("post_exec") && Free("post_exec", '=') && Clean("ip");
    hide ParseLine, Free, Clean;
    ValueIsCut("post_exec", "ip", COMMAND);
  }

  lemma WhitespaceFree(s: string, c: char)
    requires AllWhitespace(s) && !IsWhitespace(c)
    ensures Free(s, c)
  {
  }

  lemma WordFree(s: string)
    requires Word(s)
    ensures Free(s, '\n')
  {
  }

  lemma FreeJoin(s: string, t: string, c: char)
    ensures Free(s + t, c) <==> Free(s, c) && Free(t, c)
  {
    if Free(s + t, c) {
      forall i | 0 <= i < |s| ensures s[i] != c { assert (s + t)[i] == s[i]; }
      forall i | 0 <= i < |t| ensures t[i] != c { assert (s + t)[|s| + i] == t[i]; }
    }
  }

  /** Splitting at the only place a character can first occur. */
  lemma IndexAfter(s: string, c: char, t: string)
    requires Free(s, c)
    ensures IndexOf(s + [c] + t, c) == |s|
  {
    IndexIs(s + [c] + t, c, |s|);
  }

  lemma IndexNone(s: string, c: char)
    requires Free(s, c)
    ensures IndexOf(s, c) == |s|
  {
    IndexIs(s, c, |s|);
  }

  // ----- One line -----

  lemma PaddedFree(left: string, word: string, right: string, c: char)
    requires AllWhitespace(left) && AllWhitespace(right) && Free(word, c) && !IsWhitespace(c)
    ensures Free(left + word + right, c)
  {
    WhitespaceFree(left, c);
    WhitespaceFree(right, c);
    FreeJoin(left, word, c);
    FreeJoin(left + word, right, c);
  }

  lemma SettingParses(key: string, value: string, l: Layout)
    requires Clean(key) && Clean(value) && Free(key, '=')
    requires Padded(l)
    ensures ParseBody(Body(Setting(key, value), l)) == Line(Setting(key, value))
    ensures Free(Body(Setting(key, value), l), ';') && Free(Body(Setting(key, value), l), NUL)
  {
    var left, right := l.before + key + l.afterKey, l.beforeValue + value + l.after;
    var s := left + "=" + right;
    SettingFree(l, key, value, '[');
    SettingFree(l, key, value, ']');
    SettingFree(l, key, value, ';');
    SettingFree(l, key, value, NUL);
    IndexNone(s, '[');
    IndexNone(s, ']');
    PaddedFree(l.before, key, l.afterKey, '=');
    IndexAfter(left, '=', right);
    assert s[..|left|] == left && s[|left| + 1..] == right;
    FirstWordPaddedIff(l.before, key, l.afterKey);
    FirstWordPaddedIff(l.beforeValue, value, l.after);
    hide FirstWord, Clean, Free, AllWhitespace, IndexOf;
  }

  lemma SettingFree(l: Layout, key: string, value: string, c: char)
    requires Padded(l)
    requires Free(key, c) && Free(value, c) && c != '=' && !IsWhitespace(c)
    ensures Free(Body(Setting(key, value), l), c)
  {
    var left, right := l.before + key + l.afterKey, l.beforeValue + value + l.after;
    PaddedFree(l.before, key, l.afterKey, c);
    PaddedFree(l.beforeValue, value, l.after, c);
    FreeJoin(left, "=", c);
    FreeJoin(left + "=", right, c);
  }

  lemma SectionBrackets(name: string, l: Layout)
    requires Word(name) && Free(name, ']') && Padded(l)
    ensures var head := l.before + "[" + (l.afterKey + name + l.beforeValue);
            && IndexOf(Body(Section(name), l), '[') == |l.before|
            && IndexOf(Body(Section(name), l), ']') == |head|
  {
    var middle := l.afterKey + name + l.beforeValue;
    var head := l.before + "[" + middle;
    var s := head + "]" + l.after;
    WhitespaceFree(l.before, '[');
    IndexAfter(l.before, '[', middle + "]" + l.after);
    assert s == l.before + "[" + (middle + "]" + l.after);
    SectionHeadFree(l, name, ']');
    IndexAfter(head, ']', l.after);
    hide IndexOf, Free, Word, AllWhitespace;
  }

  lemma SectionParses(name: string, l: Layout)
    requires Word(name) && Free(name, ']') && Padded(l)
    ensures ParseBody(Body(Section(name), l)) == Line(Section(name))
    ensures Free(Body(Section(name), l), ';') && Free(Body(Section(name), l), NUL)
  {
    var middle := l.afterKey + name + l.beforeValue;
    var s, head := Body(Section(name), l), l.before + "[" + middle;
    assert s[|l.before| + 1..|head|] == middle;
    SectionBrackets(name, l);
    FirstWordPaddedIff(l.afterKey, name, l.beforeValue);
    SectionFree(l, name, ';');
    SectionFree(l, name, NUL);
    hide FirstWord, Free, AllWhitespace, IndexOf, Body;
  }

  lemma SectionHeadFree(l: Layout, name: string, c: char)
    requires AllWhitespace(l.before) && AllWhitespace(l.afterKey) && AllWhitespace(l.beforeValue)
    requires Free(name, c) && c != '[' && !IsWhitespace(c)
    ensures Free(l.before + "[" + (l.afterKey + name + l.beforeValue), c)
  {
    WhitespaceFree(l.before, c);
    PaddedFree(l.afterKey, name, l.beforeValue, c);
    FreeJoin(l.before, "[", c);
    FreeJoin(l.before + "[", l.afterKey + name + l.beforeValue, c);
  }

  lemma SectionFree(l: Layout, name: string, c: char)
    requires Padded(l)
    requires Free(name, c) && c != '[' && c != ']' && !IsWhitespace(c)
    ensures Free(Body(Section(name), l), c)
  {
    SectionHeadFree(l, name, c);
    WhitespaceFree(l.after, c);
    var head := l.before + "[" + (l.afterKey + name + l.beforeValue);
    FreeJoin(head, "]", c);
    FreeJoin(head + "]", l.after, c);
  }

  lemma BodyParses(e: Event, l: Layout)
    requires Printable(e)
    requires Padded(l)
    ensures ParseBody(Body(e, l)) == Line(e)
    ensures Free(Body(e, l), ';') && Free(Body(e, l), NUL)
  {
    match e
    case Section(name) => SectionParses(name, l);
    case Setting(key, value) => SettingParses(key, value, l);
  }

  /** Appending a comment to a line changes nothing, whether or not it already has one. */
  lemma CommentIgnored(s: string, text: string)
    ensures ParseLine(s + ";" + text) == ParseLine(s)
  {
    var k := IndexOf(s, ';');
    IndexIs(s + ";" + text, ';', k);
    assert (s + ";" + text)[..k] == s[..k];
  }

  lemma PlainLine(body: string)
    requires Free(body, ';') && Free(body, NUL)
    ensures ParseLine(CutNul(body)) == ParseBody(body)
  {
    IndexNone(body, NUL);
    IndexNone(body, ';');
    assert body[..|body|] == body;
    hide ParseBody, IndexOf, Free;
  }

  lemma CommentedLine(body: string, text: string)
    requires Free(body, ';') && Free(body, NUL)
    ensures ParseLine(CutNul(body + ";" + text)) == ParseBody(body)
  {
    hide ParseBody;
    var line := body + ";" + text;
    var k := IndexOf(line, NUL);
    assert forall i :: 0 <= i <= |body| ==> line[i] != NUL;
    assert CutNul(line) == body + ";" + line[|body| + 1..k];
    CommentIgnored(body, line[|body| + 1..k]);
    IndexNone(body, ';');
    assert body[..|body|] == body;
  }

  lemma LineRoundTrip(e: Event, l: Layout)
    requires Printable(e) && Neat(l)
    ensures ParseLine(CutNul(PrintLine(e, l))) == Line(e)
  {
    hide ParseLine, CutNul, ParseBody;
    if l.comment == "" {
      // The newline ends the padding.
      var l' := l.(after := l.after + "\n");
      BodyParses(e, l');
      assert PrintLine(e, l) == Body(e, l');
      PlainLine(Body(e, l'));
    } else {
      BodyParses(e, l);
      assert PrintLine(e, l) == Body(e, l) + ";" + (l.comment[1..] + "\n");
      CommentedLine(Body(e, l), l.comment[1..] + "\n");
    }
  }

  // ----- What lines can be parsed to -----

  /** The first word is a stretch of the text without whitespace. */
  lemma FirstWordWithin(s: string, c: char)
    requires Free(s, c)
    ensures NoSpace(FirstWord(s)) && Free(FirstWord(s), c)
  {
  }

  /** The text a header's name is taken from. */
  lemma HeaderInner(s: string, name: string) returns (from: nat, to: nat)
    requires ParseBody(s) == Line(Section(name))
    ensures from <= to <= |s| && name == FirstWord(s[from..to])
  {
    var open, close := IndexOf(s, '['), IndexOf(s, ']');
    hide FirstWord;
    from, to := open + 1, if close > open then close else |s|;
  }

  lemma HeaderIsProducible(s: string, name: string)
    requires ParseBody(s) == Line(Section(name)) && Free(s, NUL) && Free(s, ';')
    ensures Word(name)
  {
    var from, to := HeaderInner(s, name);
    assert Free(s[from..to], NUL) && Free(s[from..to], ';');
    hide ParseBody, FirstWord, IndexOf;
    FirstWordWithin(s[from..to], NUL);
    FirstWordWithin(s[from..to], ';');
  }

  lemma PartIsClean(part: string)
    requires Free(part, NUL) && Free(part, ';') && Free(part, '[') && Free(part, ']')
    ensures Clean(FirstWord(part))
  {
    FirstWordWithin(part, NUL);
    FirstWordWithin(part, ';');
    FirstWordWithin(part, '[');
    FirstWordWithin(part, ']');
    hide FirstWord;
  }

  lemma SettingIsProducible(s: string, key: string, value: string)
    requires ParseBody(s) == Line(Setting(key, value)) && Free(s, NUL) && Free(s, ';')
    ensures Clean(key) && Clean(value) && Free(key, '=')
  {
    var eq := IndexOf(s, '=');
    assert Free(s, '[') && Free(s, ']');
    assert Free(s[..eq], '=');
    hide FirstWord, Clean, IndexOf;
    PartIsClean(s[..eq]);
    PartIsClean(s[eq + 1..]);
    FirstWordWithin(s[..eq], '=');
  }

  lemma BodyIsProducible(s: string, e: Event)
    requires ParseBody(s) == Line(e) && Free(s, NUL) && Free(s, ';')
    ensures Producible(e)
  {
    assert !e.End?;
    hide ParseBody, Free, Clean, Word;
    match e
    case Section(name) => HeaderIsProducible(s, name);
    case Setting(key, value) => SettingIsProducible(s, key, value);
  }

  /** Whatever a line is parsed to, names, keys and values are words, and settings are printable. */
  lemma ParsedIsProducible(line: string, e: Event)
    requires ParseLine(CutNul(line)) == Line(e)
    ensures Producible(e)
  {
    var cut := CutNul(line);
    hide ParseBody, Producible;
    BodyIsProducible(cut[..IndexOf(cut, ';')], e);
  }

  /** A header whose opening bracket comes first has a name without closing brackets. */
  lemma HeaderNameEnds(s: string, name: string)
    requires ParseBody(s) == Line(Section(name)) && IndexOf(s, '[') < IndexOf(s, ']')
    ensures Free(name, ']')
  {
    var open, close := IndexOf(s, '['), IndexOf(s, ']');
    FirstWordWithin(s[open + 1..close], ']');
  }

  /** Cutting a line that starts with padding and a bracket leaves that bracket first. */
  lemma BracketFirst(s: string, before: string)
    requires before + "[" <= s && AllWhitespace(before)
    ensures IndexOf(s, '[') == |before| && IndexOf(s, ']') > |before|
  {
    assert forall i :: 0 <= i < |before| ==> s[i] == before[i];
    assert s[|before|] == (before + "[")[|before|];
    IndexIs(s, '[', |before|);
  }

  lemma PrintedHeaderEnds(name: string, l: Layout)
    requires Neat(l) && ParseLine(CutNul(PrintLine(Section(name), l))) == Line(Section(name))
    ensures Free(name, ']')
  {
    var line := PrintLine(Section(name), l);
    HeaderHead(name, l);
    assert AllWhitespace(l.before);
    hide ParseBody, PrintLine, CutNul, IndexOf, Neat, AllWhitespace, Free;
    KeepsHead(line, l.before);
    var s := CutNul(line)[..IndexOf(CutNul(line), ';')];
    BracketFirst(s, l.before);
    HeaderNameEnds(s, name);
  }

  lemma HeaderHead(name: string, l: Layout)
    ensures l.before + "[" <= PrintLine(Section(name), l)
  {
    assert PrintLine(Section(name), l)
        == l.before + "[" + ((l.afterKey + name + l.beforeValue) + "]" + l.after + l.comment + "\n");
  }

  /** Neither the terminator nor a comment comes before the bracket. */
  lemma KeepsHead(line: string, before: string)
    requires before + "[" <= line && AllWhitespace(before)
    ensures before + "[" <= CutNul(line)[..IndexOf(CutNul(line), ';')]
  {
    var head := before + "[";
    assert forall i :: 0 <= i < |head| ==> line[i] == head[i] && head[i] != NUL && head[i] != ';';
    assert head <= CutNul(line);
  }

  /** A printed line parses back to what was printed, whatever the padding and the comment, exactly when the
      names are words and a section name does not hold the bracket that ends it. */
  lemma LineRoundTripIff(e: Event, l: Layout)
    requires !e.End? && Neat(l)
    ensures ParseLine(CutNul(PrintLine(e, l))) == Line(e) <==> Printable(e)
  {
    hide ParseLine, CutNul, PrintLine, Neat;
    if Printable(e) {
      LineRoundTrip(e, l);
    }
    if ParseLine(CutNul(PrintLine(e, l))) == Line(e) {
      ParsedIsProducible(PrintLine(e, l), e);
      if e.Section? {
        PrintedHeaderEnds(e.name, l);
      }
    }
  }

  lemma PrintedHeaderParses(name: string, l: Layout)
    requires Word(name) && Neat(l)
    ensures ParseLine(CutNul(PrintLine(Section(name), l))).Line?
  {
    hide ParseLine, CutNul, ParseBody, Word, Free;
    var e := Section(name);
    if l.comment == "" {
      var l' := l.(after := l.after + "\n");
      HeaderParses(name, l');
      assert PrintLine(e, l) == Body(e, l');
      PlainLine(Body(e, l'));
    } else {
      HeaderParses(name, l);
      assert PrintLine(e, l) == Body(e, l) + ";" + (l.comment[1..] + "\n");
      CommentedLine(Body(e, l), l.comment[1..] + "\n");
    }
  }

  /** A printed line of words is parsed to something, if not to what was printed. */
  lemma ProducibleParses(e: Event, l: Layout)
    requires Producible(e) && Neat(l)
    ensures ParseLine(CutNul(PrintLine(e, l))).Line?
  {
    hide ParseLine, CutNul, PrintLine, Neat, Word, Clean, Free;
    match e
    case Section(name) => PrintedHeaderParses(name, l);
    case Setting(key, value) => LineRoundTrip(e, l);
  }

  lemma HeaderParses(name: string, l: Layout)
    requires Word(name) && Padded(l)
    ensures ParseBody(Body(Section(name), l)).Line?
    ensures Free(Body(Section(name), l), ';') && Free(Body(Section(name), l), NUL)
  {
    var s := Body(Section(name), l);
    var head := l.before + "[" + (l.afterKey + name + l.beforeValue);
    assert s[|l.before|] == '[' && s[|head|] == ']';
    SectionFree(l, name, ';');
    SectionFree(l, name, NUL);
    hide FirstWord;
  }

  // ----- Whole files -----

  /** A line of a file: a section or a setting, or nothing but whitespace and perhaps a comment. */
  datatype Item = Item(event: Event, layout: Layout) | Filler(space: string, comment: string)

  predicate Remark(comment: string) {
    Free(comment, '\n') && (comment == "" || comment[0] == ';')
  }

  function PrintItem(it: Item): string
    requires it.Item? ==> !it.event.End?
  {
    match it
    case Item(e, l) => PrintLine(e, l)
    case Filler(space, comment) => space + comment + "\n"
  }

  /** A line that fits the buffer. */
  predicate Laid(it: Item) {
    && (match it
        case Item(e, l) => !e.End? && Neat(l)
        case Filler(space, comment) => Padding(space) && Remark(comment))
    && |PrintItem(it)| < 2048
  }

  predicate Kept(it: Item) {
    it.Item? ==> Printable(it.event)
  }

  predicate Fits(it: Item) {
    Laid(it) && Kept(it)
  }

  predicate AllLaid(items: seq<Item>) {
    forall i :: 0 <= i < |items| ==> Laid(items[i])
  }

  function Print(items: seq<Item>): string
    requires AllLaid(items)
  {
    if items == [] then "" else assert Laid(items[0]); PrintItem(items[0]) + Print(items[1..])
  }

  function Events(items: seq<Item>): seq<Event> {
    if items == [] then [] else (if items[0].Item? then [items[0].event] else []) + Events(items[1..])
  }

  /** The only newline of a printed line is its last character. */
  lemma OneNewline(e: Event, l: Layout)
    requires Producible(e) && Neat(l)
    ensures Free(Body(e, l) + l.comment, '\n')
  {
    assert Free(Body(e, l), '\n') by {
      match e {
        case Section(name) => WordFree(name);
        case Setting(key, value) =>
          WordFree(key);
          WordFree(value);
      }
    }
    FreeJoin(Body(e, l), l.comment, '\n');
  }

  lemma FirstLine(e: Event, l: Layout, rest: string)
    requires Producible(e) && Neat(l) && |PrintLine(e, l)| < 2048
    ensures LineLength(PrintLine(e, l) + rest) == |PrintLine(e, l)|
  {
    OneNewline(e, l);
    var head := Body(e, l) + l.comment;
    IndexAfter(head, '\n', rest);
    assert PrintLine(e, l) + rest == head + "\n" + rest;
  }

  /** A text that starts with a printed line of words: its first event is that line's. */
  lemma PrintedFirst(it: Item, rest: string)
    requires Laid(it) && it.Item? && Producible(it.event)
    ensures var line := PrintLine(it.event, it.layout);
            && ParseLine(CutNul(line)).Line?
            && ParseText(line + rest) == ([ParseLine(CutNul(line)).event] + ParseText(rest).0, ParseText(rest).1)
  {
    var e, l := it.event, it.layout;
    var line := PrintLine(e, l);
    FirstLine(e, l, rest);
    ProducibleParses(e, l);
    assert (line + rest)[..|line|] == line && (line + rest)[|line|..] == rest;
    hide PrintLine, ParseLine, CutNul, LineLength, Producible;
  }

  /** A line of whitespace, with or without a comment, is skipped. */
  lemma FillerIsBlank(space: string, comment: string)
    requires Padding(space) && Remark(comment)
    ensures ParseLine(CutNul(space + comment + "\n")) == Blank
  {
    var line := space + comment + "\n";
    var k := IndexOf(line, NUL);
    hide ParseLine;
    if comment == "" {
      assert forall i :: 0 <= i < |line| ==> IsBlank(line[i]);
      assert k == |line| && CutNul(line) == line + "";
      LineVerdict(line, "");
    } else {
      assert forall i :: 0 <= i < |space| ==> line[i] == space[i] && IsBlank(space[i]);
      assert line[|space|] == ';' && k > |space|;
      assert CutNul(line) == space + line[|space|..k];
      LineVerdict(space, line[|space|..k]);
    }
  }

  lemma FillerFirst(it: Item, rest: string)
    requires Laid(it) && it.Filler?
    ensures ParseText(PrintItem(it) + rest) == ParseText(rest)
  {
    var head, line := it.space + it.comment, PrintItem(it);
    FreeJoin(it.space, it.comment, '\n');
    IndexAfter(head, '\n', rest);
    assert line + rest == head + "\n" + rest;
    assert LineLength(line + rest) == |line|;
    FillerIsBlank(it.space, it.comment);
    assert (line + rest)[..|line|] == line && (line + rest)[|line|..] == rest;
    hide ParseLine, CutNul, LineLength, Padding, Remark;
  }

  /** The first line of a printed text gives its event, if it has one, and the rest follows. */
  lemma ItemFirst(it: Item, rest: string)
    requires Fits(it)
    ensures ParseText(PrintItem(it) + rest)
         == ((if it.Item? then [it.event] else []) + ParseText(rest).0, ParseText(rest).1)
  {
    if it.Item? {
      LineRoundTrip(it.event, it.layout);
      PrintedFirst(it, rest);
    } else {
      FillerFirst(it, rest);
      assert [] + ParseText(rest).0 == ParseText(rest).0;
    }
    hide PrintLine, ParseLine, CutNul, ParseText, Printable, Producible;
  }

  /** Any list of sections and settings, printed one to a line with blank lines and comments anywhere between,
      parses back to exactly that list. */
  lemma {:induction false} RoundTrip(items: seq<Item>)
    requires forall i :: 0 <= i < |items| ==> Fits(items[i])
    ensures AllLaid(items) && ParseText(Print(items)) == (Events(items), true)
  {
    if items == [] {
    } else {
      assert Fits(items[0]);
      hide ParseText, PrintItem, Laid, Kept;
      RoundTrip(items[1..]);
      ItemFirst(items[0], Print(items[1..]));
    }
  }

  lemma {:induction false} TextIsProducible(text: string, i: nat)
    requires i < |ParseText(text).0|
    ensures Producible(ParseText(text).0[i])
    decreases |text|
  {
    var n := LineLength(text);
    hide LineLength, ParseLine, CutNul, Producible;
    match ParseLine(CutNul(text[..n])) {
      case Blank => TextIsProducible(text[n..], i);
      case Line(e) =>
        if i == 0 {
          ParsedIsProducible(text[..n], e);
        } else {
          TextIsProducible(text[n..], i - 1);
        }
    }
  }

  /** If a printed file parses back to what was printed, so does its first line and what follows it. */
  lemma ReadBackFirst(items: seq<Item>)
    requires AllLaid(items) && items != [] && ParseText(Print(items)).0 == Events(items)
    ensures Kept(items[0]) && AllLaid(items[1..])
    ensures ParseText(Print(items[1..])).0 == Events(items[1..])
  {
    var it, rest := items[0], Print(items[1..]);
    assert Laid(it) && Print(items) == PrintItem(it) + rest;
    if it.Filler? {
      FillerFirst(it, rest);
      assert [] + Events(items[1..]) == Events(items[1..]);
    } else {
      assert Events(items) == [it.event] + Events(items[1..]);
      ReadBackLine(items, it, rest);
    }
  }

  lemma ReadBackLine(items: seq<Item>, it: Item, rest: string)
    requires AllLaid(items) && Laid(it) && it.Item? && items != [] && Print(items) == PrintItem(it) + rest
    requires ParseText(Print(items)).0 == Events(items) == [it.event] + Events(items[1..])
    ensures Printable(it.event) && ParseText(rest).0 == Events(items[1..])
  {
    hide PrintLine, ParseLine, CutNul, LineLength, Laid, Printable, Producible, ParseText, Print, Events;
    assert Producible(it.event) by {
      TextIsProducible(Print(items), 0);
    }
    PrintedFirst(it, rest);
    LaidIsNeat(it);
    var first := ParseLine(CutNul(PrintLine(it.event, it.layout))).event;
    SameHead(first, ParseText(rest).0, it.event, Events(items[1..]));
    LineRoundTripIff(it.event, it.layout);
  }

  lemma LaidIsNeat(it: Item)
    requires Laid(it) && it.Item?
    ensures !it.event.End? && Neat(it.layout)
  {
  }

  lemma SameHead(x: Event, xs: seq<Event>, y: Event, ys: seq<Event>)
    requires [x] + xs == [y] + ys
    ensures x == y && xs == ys
  {
    assert ([x] + xs)[0] == x && ([y] + ys)[0] == y;
    assert ([x] + xs)[1..] == xs && ([y] + ys)[1..] == ys;
  }

  /** So everything in it was printable. */
  lemma {:induction false} ReadBackIsPrintable(items: seq<Item>, i: nat)
    requires AllLaid(items) && ParseText(Print(items)).0 == Events(items) && i < |items|
    ensures Kept(items[i])
  {
    hide Kept, ParseText, Events, AllLaid, Print;
    ReadBackFirst(items);
    if i == 0 {
    } else {
      assert items[1..][i - 1] == items[i];
      ReadBackIsPrintable(items[1..], i - 1);
    }
  }

  /** A file of lines within the buffer, with blank lines and comments anywhere, parses back to what was printed
      exactly when every section and setting is printable. */
  lemma RoundTripIff(items: seq<Item>)
    requires AllLaid(items)
    ensures ParseText(Print(items)) == (Events(items), true)
       <==> forall i :: 0 <= i < |items| && items[i].Item? ==> Printable(items[i].event)
  {
    hide Printable, Laid, ParseText, Events;
    if forall i :: 0 <= i < |items| && items[i].Item? ==> Printable(items[i].event) {
      forall i | 0 <= i < |items| ensures Fits(items[i]) {
        assert Laid(items[i]);
      }
      RoundTrip(items);
    }
    if ParseText(Print(items)) == (Events(items), true) {
      forall i | 0 <= i < |items| && items[i].Item? ensures Printable(items[i].event) {
        ReadBackIsPrintable(items, i);
      }
    }
  }
}
