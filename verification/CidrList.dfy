/** Comma-separated lists of CIDR addresses (src/ip_addr.c, ip_addr_cidr_list_create_from_str). */
module CidrList {
  import opened Bits
  import opened IpAddr
  import opened Cidr
  import opened Strings
  import opened Wrappers

  // ----- One token -----

  /** Undefined marks the inputs on which the C code has no defined behaviour: a token that overflows
      the local buffer, or a prefix length of zero, which shifts a 128-bit word by 128. */
  datatype Parsed = Good(entry: Entry) | Rejected | Undefined

  /** The buffer holds INET6_ADDRSTRLEN characters with the terminator. */
  const TOKEN_BUFFER := 46

  datatype Library = Library(atoi: string -> int, pton: string -> Option<Addr>)

  /** What a token denotes: the prefix length it carries, or 128. */
  ghost predicate Denotes(lib: Library, token: string, r: Parsed) {
    var slash := IndexOf(token, '/');
    var p := if slash < |token| then lib.atoi(token[slash + 1..]) else 128;
    match r
    case Undefined => |token| >= TOKEN_BUFFER || p == 0
    case Rejected => |token| < TOKEN_BUFFER && (p < 0 || p > 128)
    case Good(e) =>
      && |token| < TOKEN_BUFFER && 1 <= p <= 128 && PrefixMask(e.mask, p)
      && e.addr == match lib.pton(token[..slash]) { case Some(a) => a case None => ZERO_ADDR }
  }

  /** Parsing into a zeroed entry. inet_pton reports malformed text by returning 0, and the caller
      looks only for a negative one, so the address then stays zero and the token is accepted. */
  method ParseToken(lib: Library, token: string) returns (r: Parsed)
    ensures Denotes(lib, token, r)
  {
    if |token| >= TOKEN_BUFFER {
      return Undefined;
    }
    var slash := IndexOf(token, '/');
    var p := 128;
    if slash < |token| {
      p := lib.atoi(token[slash + 1..]);
      if p < 0 || p > 128 {
        return Rejected;
      }
      if p == 0 {
        return Undefined;
      }
    }
    var mask := MaskOf(p);
    var found := lib.pton(token[..slash]);
    var addr := match found { case Some(a) => a case None => ZERO_ADDR };
    r := Good(Entry(mask, addr));
  }

  /** A token denotes one thing. */
  lemma DenotesOnce(lib: Library, token: string, r: Parsed, r': Parsed)
    requires Denotes(lib, token, r) && Denotes(lib, token, r')
    ensures r == r'
  {
    if r.Good? && r'.Good? {
      var slash := IndexOf(token, '/');
      var p := if slash < |token| then lib.atoi(token[slash + 1..]) else 128;
      SameMask(r.entry.mask, r'.entry.mask, p);
    }
  }

  lemma SameMask(m: Addr, m': Addr, p: nat)
    requires PrefixMask(m, p) && PrefixMask(m', p)
    ensures m == m'
  {
    forall i | 0 <= i < 16 ensures m[i] == m'[i] {
      forall j: nat | j < 8 ensures Bit(m[i], j) == Bit(m'[i], j) {
        var n := 8 * i + (7 - j);
        assert NetBit(m, n) == NetBit(m', n);
      }
      SameBits(m[i], m'[i], 8);
    }
  }

  lemma {:induction false} SameBits(x: nat, y: nat, n: nat)
    requires x < Pow2(n) && y < Pow2(n) && forall j: nat :: j < n ==> Bit(x, j) == Bit(y, j)
    ensures x == y
  {
    if n == 0 {
    } else {
      assert Bit(x, 0) == Bit(y, 0);
      forall j: nat | j < n - 1 ensures Bit(x / 2, j) == Bit(y / 2, j) {
        assert Bit(x, j + 1) == Bit(y, j + 1);
      }
      SameBits(x / 2, y / 2, n - 1);
    }
  }

  /** The prefix length of a token: the number after its slash, or 128. */
  function TokenPrefix(lib: Library, token: string): int {
    var slash := IndexOf(token, '/');
    if slash < |token| then lib.atoi(token[slash + 1..]) else 128
  }

  /** Of a text, a slash and a number, the number is the prefix length and the text the address; of a text alone the
      prefix length is 128. A text that is no address stands for the zero one. */
  lemma TokenReads(lib: Library, text: string, number: string, e: Entry, e': Entry)
    requires '/' !in text
    requires Denotes(lib, text + "/" + number, Good(e)) && Denotes(lib, text, Good(e'))
    ensures TokenPrefix(lib, text + "/" + number) == lib.atoi(number) && TokenPrefix(lib, text) == 128
    ensures match lib.pton(text)
            case Some(a) => e.addr == a && e'.addr == a
            case None => e.addr == seq(16, _ => 0) && e'.addr == seq(16, _ => 0)
  {
    var token := text + "/" + number;
    assert forall j :: 0 <= j < |text| ==> text[j] in text;
    IndexIs(token, '/', |text|);
    IndexIs(text, '/', |text|);
    assert token[..|text|] == text && token[|text| + 1..] == number && text[..|text|] == text;
    assert ZERO_ADDR == seq(16, _ => 0);
    hide PrefixMask;
  }

  /** A short token with a prefix length of 1 to 128. */
  predicate Acceptable(lib: Library, token: string) {
    |token| < 46 && 1 <= TokenPrefix(lib, token) <= 128
  }

  /** Every such token denotes an entry, and no other does. */
  lemma AcceptedIff(lib: Library, token: string)
    ensures (exists e :: Denotes(lib, token, Good(e))) <==> Acceptable(lib, token)
  {
    if Acceptable(lib, token) {
      var p := TokenPrefix(lib, token);
      var mask := Reverse(Bytes(OnesFrom(128 - p, 128), 16));
      MaskBits(p, mask);
      hide PrefixMask, NetBit, OnesFrom, Bytes, Reverse;
      assert PrefixMask(mask, p) by { IsPrefixMask(mask, p); }
      var slash := IndexOf(token, '/');
      var address := match lib.pton(token[..slash]) { case Some(a) => a case None => ZERO_ADDR };
      assert Denotes(lib, token, Good(Entry(mask, address)));
    }
  }

  lemma IsPrefixMask(mask: Addr, p: nat)
    requires forall n: nat :: n < 128 ==> NetBit(mask, n) == (n < p)
    ensures PrefixMask(mask, p)
  {
    hide NetBit;
  }

  /** What a result of parsing says of its token. */
  lemma DenotesVerdict(lib: Library, token: string, r: Parsed)
    requires Denotes(lib, token, r)
    ensures match r
            case Good(_) => Acceptable(lib, token)
            case Rejected => |token| < 46 && (TokenPrefix(lib, token) < 0 || TokenPrefix(lib, token) > 128)
            case Undefined => |token| >= 46 || TokenPrefix(lib, token) == 0
  {
    hide PrefixMask;
  }

  lemma GoodIff(lib: Library, token: string, r: Parsed)
    requires Denotes(lib, token, r)
    ensures r.Good? <==> Acceptable(lib, token)
  {
    DenotesVerdict(lib, token, r);
  }

  // ----- Splitting -----

  function Commas(s: string): nat {
    if s == [] then 0 else Commas(s[1..]) + (if s[0] == ',' then 1 else 0)
  }

  /** The text between commas, empty stretches included. */
  function Fields(s: string): seq<string>
    decreases |s|
  {
    var e := IndexOf(s, ',');
    if e == |s| then [s] else [s[..e]] + Fields(s[e + 1..])
  }

  function NonEmpty(fs: seq<string>): seq<string> {
    if fs == [] then [] else (if fs[0] == "" then [] else [fs[0]]) + NonEmpty(fs[1..])
  }

  /** The tokens strtok yields: it skips commas, then takes everything up to the next one. */
  function Tokens(s: string): seq<string>
    decreases |s|
  {
    if s == "" then []
    else if s[0] == ',' then Tokens(s[1..])
    else
      var e := IndexOf(s, ',');
      [s[..e]] + if e == |s| then [] else Tokens(s[e + 1..])
  }

  /** Skipping and taking yields exactly the non-empty fields, in order. */
  lemma {:induction false} TokensAreFields(s: string)
    ensures Tokens(s) == NonEmpty(Fields(s))
    decreases |s|
  {
    var e := IndexOf(s, ',');
    if e < |s| {
      TokensAreFields(s[e + 1..]);
      assert Fields(s)[1..] == Fields(s[e + 1..]);
    } else {
      assert Fields(s) == [s] && [s][1..] == [] && s[..|s|] == s;
      assert NonEmpty([s]) == (if s == "" then [] else [s]) + NonEmpty([]);
    }
  }

  lemma {:induction false} FieldsCount(s: string)
    ensures |Fields(s)| == Commas(s) + 1
    decreases |s|
  {
    var e := IndexOf(s, ',');
    CommasBefore(s, e);
    if e == |s| {
    } else {
      FieldsCount(s[e + 1..]);
      assert s[e..][1..] == s[e + 1..];
    }
  }

  lemma {:induction false} CommasBefore(s: string, e: nat)
    requires e <= |s| && forall j :: 0 <= j < e ==> s[j] != ','
    ensures Commas(s) == Commas(s[e..])
  {
    if e > 0 {
      CommasBefore(s[1..], e - 1);
      assert s[1..][e - 1..] == s[e..];
    } else {
      assert s[0..] == s;
    }
  }

  lemma {:induction false} NonEmptyShrinks(fs: seq<string>)
    ensures |NonEmpty(fs)| <= |fs|
  {
    if fs == [] {
    } else {
      NonEmptyShrinks(fs[1..]);
    }
  }

  function Join(tokens: seq<string>): string {
    if tokens == [] then "" else if |tokens| == 1 then tokens[0] else tokens[0] + "," + Join(tokens[1..])
  }

  predicate Word(s: string) {
    s != "" && ',' !in s
  }

  lemma LastWord(t: string)
    requires Word(t)
    ensures Tokens(t) == [t]
  {
    assert forall j :: 0 <= j < |t| ==> t[j] in t;
    IndexIs(t, ',', |t|);
    assert t[0] != ',' && t[..|t|] == t;
  }

  lemma FirstWord(t: string, rest: string)
    requires Word(t)
    ensures Tokens(t + "," + rest) == [t] + Tokens(rest)
  {
    var s := t + "," + rest;
    assert forall j :: 0 <= j < |t| ==> s[j] == t[j] && t[j] in t;
    IndexIs(s, ',', |t|);
    assert s[0] != ',' && s[..|t|] == t && s[|t| + 1..] == rest;
  }

  /** Joining any list of words with commas, and splitting again, gives the words. */
  lemma {:induction false} TokensOfJoin(tokens: seq<string>)
    requires forall i :: 0 <= i < |tokens| ==> Word(tokens[i])
    ensures Tokens(Join(tokens)) == tokens
  {
    if tokens == [] {
    } else {
      hide Tokens, Word;
      assert Word(tokens[0]);
      if |tokens| == 1 {
        LastWord(tokens[0]);
      } else {
        FirstWord(tokens[0], Join(tokens[1..]));
        TokensOfJoin(tokens[1..]);
        assert tokens == [tokens[0]] + tokens[1..];
      }
    }
  }

  /** The capacity counted from the commas is enough for every token. */
  lemma TokensFit(s: string)
    ensures |Tokens(s)| <= Commas(s) + 1
  {
    TokensAreFields(s);
    FieldsCount(s);
    NonEmptyShrinks(Fields(s));
  }

  // ----- The list -----

  datatype Created = List(entries: seq<Entry>) | Failed | Unspecified

  method CountEntries(s: string) returns (count: nat)
    ensures count == Commas(s) + 1
  {
    count := 1;
    var i := 0;
    assert s[0..] == s;
    while i < |s|
      invariant 0 <= i <= |s|
      invariant count + Commas(s[i..]) == Commas(s) + 1
    {
      assert s[i..][1..] == s[i + 1..];
      if s[i] == ',' {
        count := count + 1;
      }
      i := i + 1;
    }
  }

  lemma SkipComma(s: string, b: nat)
    requires b < |s| && s[b] == ','
    ensures Tokens(s[b..]) == Tokens(s[b + 1..])
  {
    assert s[b..][1..] == s[b + 1..];
  }

  lemma NoTokens(s: string)
    ensures Tokens(s[|s|..]) == []
  {
  }

  /** One call of strtok: the next token from position at, and where to resume. */
  method NextToken(s: string, at: nat) returns (token: Option<string>, next: nat)
    requires at <= |s|
    ensures at <= next <= |s|
    ensures match token
            case None => Tokens(s[at..]) == []
            case Some(t) => Tokens(s[at..]) == [t] + Tokens(s[next..]) && at < next
  {
    hide Tokens;
    var b := at;
    while b < |s| && s[b] == ','
      invariant at <= b <= |s|
      invariant Tokens(s[at..]) == Tokens(s[b..])
    {
      SkipComma(s, b);
      b := b + 1;
    }
    if b == |s| {
      NoTokens(s);
      return None, b;
    }
    var e := b + IndexOf(s[b..], ',');
    TokenAt(s, b, e);
    token := Some(s[b..e]);
    next := if e < |s| then e + 1 else e;
  }

  lemma TokenAt(s: string, b: nat, e: nat)
    requires b < |s| && s[b] != ',' && e == b + IndexOf(s[b..], ',')
    ensures Tokens(s[b..]) == [s[b..e]] + Tokens(s[if e < |s| then e + 1 else e..])
  {
    var u := s[b..];
    assert u[..e - b] == s[b..e];
    if e < |s| {
      assert u[e - b + 1..] == s[e + 1..];
    } else {
      assert s[e..] == "";
    }
  }

  /** The first i tokens are in the list and the other entries are as allocated. */
  ghost predicate Filled(lib: Library, tokens: seq<string>, entries: seq<Entry>, i: nat) {
    && i <= |tokens| <= |entries|
    && (forall j :: 0 <= j < i ==> Denotes(lib, tokens[j], Good(entries[j])))
    && forall j :: i <= j < |entries| ==> entries[j] == UNFILLED
  }

  lemma FillOne(lib: Library, tokens: seq<string>, entries: seq<Entry>, i: nat, e: Entry)
    requires Filled(lib, tokens, entries, i) && i < |tokens| && Denotes(lib, tokens[i], Good(e))
    ensures Filled(lib, tokens, entries[i := e], i + 1)
  {
  }

  /** What is left to read, from the token at hand on, is what is left of the tokens. */
  ghost predicate Left(tokens: seq<string>, i: nat, token: Option<string>, rest: string) {
    i <= |tokens| && tokens[i..] == if token.Some? then [token.value] + Tokens(rest) else []
  }

  lemma LeftNext(tokens: seq<string>, i: nat, token: Option<string>, rest: string)
    requires Left(tokens, i, token, rest) && token.Some?
    ensures i < |tokens| && tokens[i] == token.value && tokens[i + 1..] == Tokens(rest)
  {
    assert tokens[i] == tokens[i..][0];
    assert tokens[i + 1..] == tokens[i..][1..];
  }

  lemma LeftIs(tokens: seq<string>, i: nat, token: Option<string>, rest: string)
    requires i <= |tokens| && tokens[i..] == if token.Some? then [token.value] + Tokens(rest) else []
    ensures Left(tokens, i, token, rest)
  {
  }

  /** Creating the list. It has one entry per comma plus one; the entries beyond the tokens keep the
      zero mask they were allocated with, and every write is within the allocation. */
  method Create(lib: Library, s: string) returns (r: Created)
    ensures match r
            case List(es) => |es| == Commas(s) + 1 && Filled(lib, Tokens(s), es, |Tokens(s)|)
            case Failed => exists t :: t in Tokens(s) && Denotes(lib, t, Rejected)
            case Unspecified => exists t :: t in Tokens(s) && Denotes(lib, t, Undefined)
    ensures r.List? <==> forall t :: t in Tokens(s) ==> Acceptable(lib, t)
  {
    hide Denotes, Tokens, Commas, TokenPrefix, Acceptable;
    var count := CountEntries(s);
    TokensFit(s);
    var entries := new Entry[count](_ => UNFILLED);
    ghost var all := Tokens(s);
    var i := 0;
    assert s[0..] == s && all[0..] == all;
    var token, at := NextToken(s, 0);
    while token.Some?
      invariant at <= |s| && entries.Length == count
      invariant Filled(lib, all, entries[..], i) && Left(all, i, token, s[at..])
      decreases token.Some?, |s| - at
    {
      LeftNext(all, i, token, s[at..]);
      hide Filled, Left;
      var parsed := ParseToken(lib, token.value);
      GoodIff(lib, token.value, parsed);
      assert token.value in all;
      if parsed.Rejected? {
        return Failed;
      }
      if parsed.Undefined? {
        return Unspecified;
      }
      FillOne(lib, all, entries[..], i, parsed.entry);
      ghost var filled := entries[..][i := parsed.entry];
      entries[i] := parsed.entry;
      assert entries[..] == filled;
      token, at := NextToken(s, at);
      i := i + 1;
      assert Left(all, i, token, s[at..]) by { LeftIs(all, i, token, s[at..]); }
    }
    hide Filled, Left;
    FilledIsAcceptable(lib, all, entries[..], i, s[at..]);
    r := List(entries[..]);
  }

  lemma FilledIsAcceptable(lib: Library, tokens: seq<string>, entries: seq<Entry>, i: nat, rest: string)
    requires Filled(lib, tokens, entries, i) && Left(tokens, i, None, rest)
    ensures i == |tokens| && forall t :: t in tokens ==> Acceptable(lib, t)
  {
    assert tokens[i..] == [];
    hide Denotes, Acceptable;
    forall j | 0 <= j < |tokens| ensures Acceptable(lib, tokens[j]) {
      assert Denotes(lib, tokens[j], Good(entries[j]));
      DenotesVerdict(lib, tokens[j], Good(entries[j]));
    }
  }

  method ListMatch(entries: seq<Entry>, a: Addr) returns (m: bool)
    ensures m == Allows(entries, a)
  {
    for i := 0 to |entries|
      invariant forall j :: 0 <= j < i ==> !Match(entries[j], a)
    {
      if Match(entries[i], a) {
        return true;
      }
    }
    return false;
  }

  predicate Allows(entries: seq<Entry>, a: Addr) {
    exists i :: 0 <= i < |entries| && Match(entries[i], a)
  }

  /** The address has a set bit within the token's prefix length. */
  ghost predicate TokenAllows(lib: Library, token: string, a: Addr) {
    exists n: nat :: n < 128 && n < TokenPrefix(lib, token) && NetBit(a, n)
  }

  lemma EntryAllows(lib: Library, token: string, e: Entry, a: Addr)
    requires Denotes(lib, token, Good(e))
    ensures Match(e, a) <==> TokenAllows(lib, token, a)
  {
    MatchIsSomePrefixBit(e, TokenPrefix(lib, token), a);
  }

  /** A created list admits an address exactly when some token does: unfilled entries add nothing. */
  lemma ListAllowsIff(lib: Library, tokens: seq<string>, entries: seq<Entry>, a: Addr)
    requires Filled(lib, tokens, entries, |tokens|)
    ensures Allows(entries, a) <==> exists i :: 0 <= i < |tokens| && TokenAllows(lib, tokens[i], a)
  {
    UnfilledMatchesNothing(a);
    forall i | 0 <= i < |tokens| ensures Match(entries[i], a) <==> TokenAllows(lib, tokens[i], a) {
      assert Denotes(lib, tokens[i], Good(entries[i]));
      EntryAllows(lib, tokens[i], entries[i], a);
    }
    if Allows(entries, a) {
      var i :| 0 <= i < |entries| && Match(entries[i], a);
      assert i < |tokens| && TokenAllows(lib, tokens[i], a);
    }
    if i :| 0 <= i < |tokens| && TokenAllows(lib, tokens[i], a) {
      assert Match(entries[i], a);
    }
  }

  /** Of IPv4 peers a list admits all or none: all exactly when some token's prefix is longer than eighty
      bits. */
  lemma ListAllowsIpv4Iff(lib: Library, tokens: seq<string>, entries: seq<Entry>, a: Addr)
    requires Filled(lib, tokens, entries, |tokens|) && Ipv4Mapped(a)
    ensures Allows(entries, a) <==> exists i :: 0 <= i < |tokens| && TokenPrefix(lib, tokens[i]) > 80
  {
    ListAllowsIff(lib, tokens, entries, a);
    forall i | 0 <= i < |tokens| ensures TokenAllows(lib, tokens[i], a) <==> TokenPrefix(lib, tokens[i]) > 80 {
      TokenAllowsIpv4(lib, tokens[i], a);
    }
    hide TokenAllows, TokenPrefix, Filled, Allows, Denotes;
  }

  lemma TokenAllowsIpv4(lib: Library, token: string, a: Addr)
    requires Ipv4Mapped(a)
    ensures TokenAllows(lib, token, a) <==> TokenPrefix(lib, token) > 80
  {
    forall n: nat | n <= 80 ensures NetBit(a, n) <==> n == 80 {
      MappedBits(a, n);
    }
    hide NetBit, TokenPrefix;
    if TokenPrefix(lib, token) > 80 {
      assert NetBit(a, 80);
    }
  }

  lemma PrefixAfterSlash(lib: Library, address: string, length: string)
    requires forall i :: 0 <= i < |address| ==> address[i] != '/'
    ensures TokenPrefix(lib, address + "/" + length) == lib.atoi(length)
  {
    var token := address + "/" + length;
    IndexIs(token, '/', |address|);
    assert token[|address| + 1..] == length;
  }

  /** The two networks of the list given in the documentation. */
  const DOCUMENTED := ["10.0.0.0" + "/" + "8", "192.168.0.0" + "/" + "16"]

  /** That list admits no IPv4 peer at all. */
  lemma DocumentedListAllowsNoIpv4(lib: Library, entries: seq<Entry>, a: Addr)
    requires lib.atoi("8") == 8 && lib.atoi("16") == 16 && Ipv4Mapped(a)
    requires Filled(lib, DOCUMENTED, entries, 2)
    ensures !Allows(entries, a)
  {
    hide TokenPrefix, Filled, Allows;
    PrefixAfterSlash(lib, "10.0.0.0", "8");
    PrefixAfterSlash(lib, "192.168.0.0", "16");
    assert TokenPrefix(lib, DOCUMENTED[0]) == 8 && TokenPrefix(lib, DOCUMENTED[1]) == 16;
    ListAllowsIpv4Iff(lib, DOCUMENTED, entries, a);
  }
}
