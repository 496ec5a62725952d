/** The configuration file parser (src/ini.c).

The parser works in place on a line buffer, writing terminators into it. The specification works on
plain strings; the methods are proved to compute it. */
module Ini {
  import opened Strings

  const NUL: char := '\0'

  /** The size of the line buffer. */
  const BUFFER := 2048

  datatype Event = Section(name: string) | Setting(key: string, value: string) | End

  // ----- Specification on strings -----

  predicate IsWhitespace(c: char) {
    c == ' ' || c == '\t' || c == '\n' || c == '\r'
  }

  predicate AllWhitespace(s: string) {
    forall i :: 0 <= i < |s| ==> IsWhitespace(s[i])
  }

  /** The length of the leading run of whitespace, or of anything else. */
  function Span(s: string, white: bool): (k: nat)
    ensures k <= |s| && (k < |s| ==> IsWhitespace(s[k]) != white)
    ensures forall j :: 0 <= j < k ==> IsWhitespace(s[j]) == white
  {
    if s == "" || IsWhitespace(s[0]) != white then 0 else 1 + Span(s[1..], white)
  }

  /** Trimming keeps the first word only. */
  function FirstWord(s: string): string {
    var t := s[Span(s, true)..];
    t[..Span(t, false)]
  }

  datatype Parsed = Blank | Line(event: Event) | Invalid

  /** One line: the comment is cut off, and the rest is classified. */
  function ParseLine(line: string): Parsed {
    ParseBody(line[..IndexOf(line, ';')])
  }

  /** A section header has both brackets, a setting has neither and an equals sign; anything else must
      be blank. */
  function ParseBody(s: string): Parsed {
    var open, close := IndexOf(s, '['), IndexOf(s, ']');
    if open < |s| && close < |s| then
      Line(Section(FirstWord(s[open + 1..if close > open then close else |s|])))
    else if open == |s| && close == |s| then
      var eq := IndexOf(s, '=');
      if eq < |s| then Line(Setting(FirstWord(s[..eq]), FirstWord(s[eq + 1..])))
      else if AllWhitespace(s) then Blank else Invalid
    else Invalid
  }

  /** What fgets takes: up to and including a newline, but no more than fits the buffer. */
  function LineLength(text: string): (n: nat)
    ensures n <= |text| && n < BUFFER && (text != "" ==> n > 0)
  {
    var k := IndexOf(text, '\n');
    var n := if k < |text| then k + 1 else k;
    if n < BUFFER then n else BUFFER - 1
  }

  /** A line as the C string functions see it. */
  function CutNul(line: string): string {
    line[..IndexOf(line, NUL)]
  }

  /** The events of a text up to its first invalid line, and whether there was none. */
  function ParseText(text: string): (seq<Event>, bool)
    decreases |text|
  {
    if text == "" then ([], true)
    else
      var n := LineLength(text);
      match ParseLine(CutNul(text[..n]))
      case Invalid => ([], false)
      case Blank => ParseText(text[n..])
      case Line(e) =>
        var (es, ok) := ParseText(text[n..]);
        ([e] + es, ok)
  }

  // ----- What the specification says -----

  predicate IsBlank(c: char) {
    c == ' ' || c == '\t' || c == '\n' || c == '\r'
  }

  /** The whitespace characters are the space, the tab, the newline and the carriage return: trimming drops these
      before a word, ends the word at them, and keeps every other. */
  lemma TrimsExactly(c: char, d: char)
    ensures FirstWord([c]) == if IsBlank(c) then "" else [c]
    ensures FirstWord([c, d]) == if IsBlank(c) then FirstWord([d]) else if IsBlank(d) then [c] else [c, d]
  {
    OneCharacter(c);
    OneCharacter(d);
    var s := [c, d];
    if IsBlank(c) {
      SpanIs(s, true, if IsBlank(d) then 2 else 1);
      assert s[1..] == [d] && s[2..] == "";
      SpanIs([d], false, if IsBlank(d) then 0 else 1);
    } else {
      SpanIs(s, true, 0);
      assert s[0..] == s;
      SpanIs(s, false, if IsBlank(d) then 1 else 2);
    }
  }

  lemma OneCharacter(c: char)
    ensures FirstWord([c]) == if IsBlank(c) then "" else [c]
  {
    SpanIs([c], true, if IsBlank(c) then 1 else 0);
    assert [c][0..] == [c] && [c][1..] == "";
    SpanIs([c], false, if IsBlank(c) then 0 else 1);
  }

  predicate Has(s: string, c: char) {
    exists i :: 0 <= i < |s| && s[i] == c
  }

  predicate Blanks(s: string) {
    forall i :: 0 <= i < |s| ==> IsBlank(s[i])
  }

  /** The verdict on a line: with s its part before the first semicolon, the line is skipped exactly when s is all
      whitespace, a section header when s has both brackets, a setting when it has neither and an equals sign,
      and an error otherwise. */
  lemma LineVerdict(s: string, comment: string)
    requires !Has(s, ';') && (comment == "" || comment[0] == ';')
    ensures ParseLine(s + comment) == Blank <==> Blanks(s)
    ensures ParseLine(s + comment) == Invalid
       <==> (Has(s, '[') != Has(s, ']')) || (!Has(s, '[') && !Has(s, ']') && !Has(s, '=') && !Blanks(s))
    ensures ParseLine(s + comment).Line? && ParseLine(s + comment).event.Section? <==> Has(s, '[') && Has(s, ']')
    ensures ParseLine(s + comment).Line? && ParseLine(s + comment).event.Setting?
       <==> !Has(s, '[') && !Has(s, ']') && Has(s, '=')
  {
    IndexIs(s + comment, ';', |s|);
    assert (s + comment)[..|s|] == s;
    HasIff(s, '[');
    HasIff(s, ']');
    HasIff(s, '=');
    hide IndexOf, FirstWord, Has;
    assert AllWhitespace(s) <==> Blanks(s);
    BlanksHaveNothing(s);
    hide AllWhitespace, Blanks;
  }

  lemma HasIff(s: string, c: char)
    ensures Has(s, c) <==> IndexOf(s, c) < |s|
  {
  }

  lemma BlanksHaveNothing(s: string)
    ensures Blanks(s) ==> !Has(s, '[') && !Has(s, ']') && !Has(s, '=')
  {
  }

  /** A line ends at its newline, or after 2047 characters when it has none before that. */
  lemma LineEnds(text: string, n: nat)
    requires n <= |text| && forall i :: 0 <= i < n ==> text[i] != '\n'
    ensures n < 2047 && n < |text| && text[n] == '\n' ==> LineLength(text) == n + 1
    ensures n < 2047 && n == |text| ==> LineLength(text) == n
    ensures n >= 2047 ==> LineLength(text) == 2047
  {
    if n == |text| || text[n] == '\n' {
      IndexIs(text, '\n', n);
    }
  }

  // ----- C strings in a buffer -----

  /** The first terminator at or after p. */
  function Terminator(b: seq<char>, p: nat): (k: nat)
    requires p <= |b|
    ensures p <= k <= |b| && (k < |b| ==> b[k] == NUL)
    ensures forall j :: p <= j < k ==> b[j] != NUL
    decreases |b| - p
  {
    if p == |b| || b[p] == NUL then p else Terminator(b, p + 1)
  }

  /** The C string at position p. */
  function CString(b: seq<char>, p: nat): string
    requires p <= |b|
  {
    b[p..Terminator(b, p)]
  }

  predicate Terminated(b: seq<char>, p: nat) {
    p < |b| && Terminator(b, p) < |b|
  }

  lemma TerminatorIs(b: seq<char>, p: nat, k: nat)
    requires p <= k < |b| && b[k] == NUL && forall j :: p <= j < k ==> b[j] != NUL
    ensures Terminator(b, p) == k && CString(b, p) == b[p..k]
  {
  }

  lemma {:induction false} SpanIs(s: string, white: bool, k: nat)
    requires k <= |s| && (k < |s| ==> IsWhitespace(s[k]) != white)
    requires forall j :: 0 <= j < k ==> IsWhitespace(s[j]) == white
    ensures Span(s, white) == k
  {
  }

  /** Writing a terminator into a string leaves the part before it, and the part after it as a string
      of its own. */
  lemma CutString(b: seq<char>, p: nat, i: nat)
    requires Terminated(b, p) && p <= i <= Terminator(b, p)
    ensures Terminated(b[i := NUL], p) && Terminator(b[i := NUL], p) == i
    ensures CString(b[i := NUL], p) == CString(b, p)[..i - p]
  {
    TerminatorIs(b[i := NUL], p, i);
  }

  lemma RestOfString(b: seq<char>, p: nat, q: nat)
    requires Terminated(b, p) && p <= q <= Terminator(b, p)
    ensures Terminated(b, q) && Terminator(b, q) == Terminator(b, p)
    ensures CString(b, q) == CString(b, p)[q - p..]
  {
    TerminatorIs(b, q, Terminator(b, p));
  }

  /** Equal stretches of two buffers hold equal strings. */
  lemma SameString(b: seq<char>, c: seq<char>, p: nat)
    requires Terminated(b, p) && |c| == |b| && forall j :: p <= j <= Terminator(b, p) ==> c[j] == b[j]
    ensures Terminated(c, p) && Terminator(c, p) == Terminator(b, p) && CString(c, p) == CString(b, p)
  {
    TerminatorIs(c, p, Terminator(b, p));
  }

  /** strchr: the position of c in the string at p, or of its terminator. */
  method StrChr(buf: array<char>, p: nat, c: char) returns (i: nat)
    requires Terminated(buf[..], p) && c != NUL
    ensures i == p + IndexOf(CString(buf[..], p), c)
    ensures p <= i <= Terminator(buf[..], p)
    ensures i == Terminator(buf[..], p) <==> buf[i] == NUL
  {
    ghost var b := buf[..];
    i := p;
    while buf[i] != NUL && buf[i] != c
      invariant p <= i <= Terminator(b, p)
      invariant forall j :: p <= j < i ==> b[j] != c
      decreases |b| - i
    {
      i := i + 1;
    }
    IndexIs(CString(b, p), c, i - p);
  }

  /** Advancing past whitespace, or past a word. */
  method Skip(buf: array<char>, p: nat, white: bool) returns (i: nat)
    requires Terminated(buf[..], p)
    ensures p <= i <= Terminator(buf[..], p)
    ensures i == p + Span(CString(buf[..], p), white)
  {
    ghost var b := buf[..];
    i := p;
    while buf[i] != NUL && IsWhitespace(buf[i]) == white
      invariant p <= i <= Terminator(b, p)
      invariant forall j :: p <= j < i ==> IsWhitespace(b[j]) == white
      decreases |b| - i
    {
      i := i + 1;
    }
    SpanIs(CString(b, p), white, i - p);
  }

  /** Terminating the word that starts after the whitespace leaves the first word of the string. */
  lemma Trimmed(b: seq<char>, p: nat, start: nat, cur: nat)
    requires Terminated(b, p) && p <= start <= Terminator(b, p) && Terminated(b, start)
    requires CString(b, start) == CString(b, p)[start - p..] && Terminator(b, start) == Terminator(b, p)
    requires start == p + Span(CString(b, p), true) && cur == start + Span(CString(b, start), false)
    ensures start <= cur <= Terminator(b, p) < |b| && Terminated(b[cur := NUL], start)
    ensures CString(b[cur := NUL], start) == FirstWord(CString(b, p))
    ensures Terminator(b[cur := NUL], start) == cur
  {
    CutString(b, start, cur);
    hide Span, Terminator;
  }

  /** trim_whitespace: the first word of the string at p, terminated in place by one write at or before
      the string's own terminator. */
  method TrimWhitespace(buf: array<char>, p: nat) returns (start: nat)
    requires Terminated(buf[..], p)
    modifies buf
    ensures p <= start < buf.Length && Terminated(buf[..], start)
    ensures CString(buf[..], start) == FirstWord(old(CString(buf[..], p)))
    ensures forall j :: 0 <= j < buf.Length && !(start <= j <= old(Terminator(buf[..], p))) ==> buf[j] == old(buf[j])
    ensures Terminator(buf[..], start) <= old(Terminator(buf[..], p))
  {
    ghost var b := buf[..];
    start := Skip(buf, p, true);
    RestOfString(b, p, start);
    var cur := Skip(buf, start, false);
    Trimmed(b, p, start, cur);
    hide FirstWord, Span, Terminator, CString;
    buf[cur] := NUL;
    assert buf[..] == b[cur := NUL];
  }

  /** The blank check of a line that is neither a header nor a setting. */
  method CheckBlank(buf: array<char>) returns (blank: bool)
    requires Terminated(buf[..], 0)
    ensures blank == AllWhitespace(CString(buf[..], 0))
  {
    ghost var b := buf[..];
    var p := 0;
    while buf[p] != NUL
      invariant p <= Terminator(b, 0)
      invariant forall j :: 0 <= j < p ==> IsWhitespace(b[j])
      decreases |b| - p
    {
      if !IsWhitespace(buf[p]) {
        assert CString(b, 0)[p] == b[p];
        return false;
      }
      p := p + 1;
    }
    return true;
  }

  /** A key and a value on either side of the equals sign at position eq. Trimming the key writes no
      further than the terminator put in place of the equals sign, so the value is not disturbed. */
  method SplitSetting(buf: array<char>, eq: nat) returns (e: Event)
    requires Terminated(buf[..], 0) && eq < Terminator(buf[..], 0)
    modifies buf
    ensures var s := old(CString(buf[..], 0));
            e == Setting(FirstWord(s[..eq]), FirstWord(s[eq + 1..]))
  {
    hide FirstWord, Terminator, CString;
    ghost var b := buf[..];
    buf[eq] := NUL;
    ghost var b0 := buf[..];
    assert b0 == b[eq := NUL];
    CutString(b, 0, eq);
    RestOfString(b, 0, eq + 1);
    SameString(b, b0, eq + 1);
    var key := TrimWhitespace(buf, 0);
    ghost var b1 := buf[..];
    SameString(b0, b1, eq + 1);
    var value := TrimWhitespace(buf, eq + 1);
    SameString(b1, buf[..], key);
    var keyText := TakeString(buf, key);
    var valueText := TakeString(buf, value);
    e := Setting(keyText, valueText);
  }

  /** Reading a C string out of the buffer, as strdup does. */
  method TakeString(buf: array<char>, p: nat) returns (s: string)
    requires Terminated(buf[..], p)
    ensures s == CString(buf[..], p)
  {
    var i := p;
    while buf[i] != NUL
      invariant p <= i <= Terminator(buf[..], p)
      decreases buf.Length - i
    {
      i := i + 1;
    }
    s := buf[p..i];
  }

  /** Both brackets overwritten: what is left at the opening one is the name. */
  lemma SectionString(b: seq<char>, open: nat, close: nat)
    requires Terminated(b, 0) && open < Terminator(b, 0) && close < Terminator(b, 0) && open != close
    ensures var c, s := b[open := NUL][close := NUL], CString(b, 0);
            && Terminated(c, open + 1)
            && CString(c, open + 1) == s[open + 1..if close > open then close else |s|]
  {
    var b0 := b[open := NUL];
    RestOfString(b, 0, open + 1);
    SameString(b, b0, open + 1);
    if close > open {
      CutString(b0, open + 1, close);
    } else {
      SameString(b0, b0[close := NUL], open + 1);
    }
  }

  /** The name between the brackets; a closing bracket before the opening one does not end it. */
  method SplitSection(buf: array<char>, open: nat, close: nat) returns (e: Event)
    requires Terminated(buf[..], 0) && open < Terminator(buf[..], 0) && close < Terminator(buf[..], 0) && open != close
    modifies buf
    ensures var s := old(CString(buf[..], 0));
            e == Section(FirstWord(s[open + 1..if close > open then close else |s|]))
  {
    hide FirstWord, Terminator;
    ghost var b := buf[..];
    SectionString(b, open, close);
    buf[open] := NUL;
    buf[close] := NUL;
    assert buf[..] == b[open := NUL][close := NUL];
    var name := TrimWhitespace(buf, open + 1);
    var text := TakeString(buf, name);
    e := Section(text);
  }

  method StripComment(buf: array<char>)
    requires Terminated(buf[..], 0)
    modifies buf
    ensures Terminated(buf[..], 0)
    ensures var line := old(CString(buf[..], 0));
            CString(buf[..], 0) == line[..IndexOf(line, ';')]
  {
    ghost var b := buf[..];
    var comment := StrChr(buf, 0, ';');
    CutString(b, 0, comment);
    buf[comment] := NUL;
    assert buf[..] == b[comment := NUL];
  }

  /** One turn of the parser's loop on the line in the buffer. */
  method ParseInPlace(buf: array<char>) returns (r: Parsed)
    requires Terminated(buf[..], 0)
    modifies buf
    ensures r == ParseLine(old(CString(buf[..], 0)))
  {
    hide FirstWord, AllWhitespace, Terminator;
    StripComment(buf);
    var open := StrChr(buf, 0, '[');
    var close := StrChr(buf, 0, ']');
    if buf[open] != NUL && buf[close] != NUL {
      var e := SplitSection(buf, open, close);
      r := Line(e);
    } else if buf[open] == NUL && buf[close] == NUL {
      var eq := StrChr(buf, 0, '=');
      if buf[eq] != NUL {
        var e := SplitSetting(buf, eq);
        r := Line(e);
      } else {
        var blank := CheckBlank(buf);
        r := if blank then Blank else Invalid;
      }
    } else {
      r := Invalid;
    }
  }

  /** fgets into the buffer, which keeps whatever it held beyond the terminator. */
  method ReadLine(text: string, buf: array<char>) returns (n: nat)
    requires buf.Length == BUFFER
    modifies buf
    ensures n == LineLength(text) && Terminated(buf[..], 0) && CString(buf[..], 0) == CutNul(text[..n])
  {
    n := LineLength(text);
    var line := text[..n];
    forall i | 0 <= i < n {
      buf[i] := line[i];
    }
    buf[n] := NUL;
    ghost var k := IndexOf(line, NUL);
    TerminatorIs(buf[..], 0, k);
    assert buf[..k] == line[..k];
  }
}
