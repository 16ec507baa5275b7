/** Finding the ids in a line of EXPLAIN output: a fixed lead directly followed by a run of digits. */
module IdScanner {
  import opened Texts
  import opened Wrappers

  /** A character that stays, or an id with the lead that announces it. */
  datatype Token = Plain(c: char) | Id(lead: string, raw: string)

  /** Which characters are digits, what announces an id after a given character, and what may
      follow its digits. */
  datatype Syntax = Syntax(
    digit: char -> bool, lead: (Option<char>, string) -> bool, closes: Option<char> -> bool)

  /** Decimal digits are digits, and what a lead follows matters only up to the choice of a digit. */
  ghost predicate Sane(x: Syntax) {
    && (forall c :: '0' <= c <= '9' ==> x.digit(c))
    && (forall c, d, u {:trigger x.lead(Some(c), u), x.digit(d)} ::
      x.digit(c) && x.digit(d) ==> x.lead(Some(c), u) == x.lead(Some(d), u))
  }

  // ----- the two expressions

  /** The character classes of the regular expressions. */
  datatype Classes = Classes(digit: char -> bool, space: char -> bool, word: char -> bool)

  ghost predicate SaneClasses(k: Classes) {
    && (forall c :: '0' <= c <= '9' ==> k.digit(c))
    && (forall c :: k.digit(c) ==> k.word(c))
  }

  predicate Blank(s: string, space: char -> bool) {
    forall i :: 0 <= i < |s| ==> space(s[i])
  }

  predicate Boundary(k: Classes, c: Option<char>) {
    c.None? || !k.word(c.value)
  }

  /** `"logical_node_id"\s*:\s*` or `\blogical_node_id=` */
  predicate LogicalLead(k: Classes, previous: Option<char>, u: string) {
    || (Boundary(k, previous) && u == "logical_node_id=")
    || exists n :: 17 <= n < |u| && IsKeyed(k, u, n)
  }

  /** The quoted key, blanks, a colon at `n` and blanks. */
  predicate IsKeyed(k: Classes, u: string, n: nat) {
    && 17 <= n < |u| && u[..17] == "\"logical_node_id\""
    && Blank(u[17..n], k.space) && u[n] == ':' && Blank(u[n + 1..], k.space)
  }

  /** `\bCTE Index:\s*`, with `\b` after the digits */
  predicate CteLead(k: Classes, previous: Option<char>, u: string) {
    Boundary(k, previous) && |u| >= 10 && u[..10] == "CTE Index:" && Blank(u[10..], k.space)
  }

  function LogicalIds(k: Classes): Syntax {
    Syntax(k.digit, (previous, u) => LogicalLead(k, previous, u), _ => true)
  }

  function CteIds(k: Classes): Syntax {
    Syntax(k.digit, (previous, u) => CteLead(k, previous, u), next => Boundary(k, next))
  }

  lemma BothAreSane(k: Classes)
    requires SaneClasses(k)
    ensures Sane(LogicalIds(k)) && Sane(CteIds(k))
  {
  }

  // ----- scanning

  /** The length of the longest prefix of digits, or of other characters. */
  function Span(s: string, digit: char -> bool, want: bool): (n: nat)
    ensures n <= |s|
  {
    if s == [] || digit(s[0]) != want then 0 else 1 + Span(s[1..], digit, want)
  }

  lemma {:induction false} SpanIsLongest(s: string, digit: char -> bool, want: bool)
    ensures var n := Span(s, digit, want);
      (forall i :: 0 <= i < n ==> digit(s[i]) == want) && (n < |s| ==> digit(s[n]) != want)
  {
    if s != [] && digit(s[0]) == want {
      SpanIsLongest(s[1..], digit, want);
      assert forall i :: 1 <= i < |s| ==> s[i] == s[1..][i - 1];
    }
  }

  lemma {:induction false} SpanIs(s: string, n: nat, digit: char -> bool, want: bool)
    requires n <= |s| && (forall i :: 0 <= i < n ==> digit(s[i]) == want)
    requires n < |s| ==> digit(s[n]) != want
    ensures Span(s, digit, want) == n
  {
    SpanIsLongest(s, digit, want);
  }

  function At(s: string, n: nat): Option<char> {
    if n < |s| then Some(s[n]) else None
  }

  /** The length of the lead and of the digits of an id at the start of the text. */
  function Found(x: Syntax, previous: Option<char>, s: string): (r: Option<(nat, nat)>)
    ensures r.Some? ==> r.value.0 > 0 && r.value.1 > 0 && r.value.0 + r.value.1 <= |s|
  {
    var n := Span(s, x.digit, false);
    var m := Span(s[n..], x.digit, true);
    if n > 0 && m > 0 && x.lead(previous, s[..n]) && x.closes(At(s, n + m)) then Some((n, m)) else None
  }

  /** How much of the text the next token takes. */
  function Taken(x: Syntax, previous: Option<char>, s: string): (n: nat)
    requires s != []
    ensures 1 <= n <= |s|
  {
    var found := Found(x, previous, s);
    if found.Some? then found.value.0 + found.value.1 else 1
  }

  function TokenAt(x: Syntax, previous: Option<char>, s: string): Token
    requires s != []
  {
    var found := Found(x, previous, s);
    if found.Some? then Id(s[..found.value.0], s[found.value.0..found.value.0 + found.value.1]) else Plain(s[0])
  }

  /** The tokens of a line: ids are taken from the left, other characters one by one. */
  function Parse(x: Syntax, previous: Option<char>, s: string): seq<Token>
    decreases |s|, 1
  {
    if s == [] then [] else [TokenAt(x, previous, s)] + Later(x, previous, s)
  }

  /** The tokens after the first. */
  function Later(x: Syntax, previous: Option<char>, s: string): seq<Token>
    requires s != []
    decreases |s|, 0
  {
    var n := Taken(x, previous, s);
    Parse(x, Some(s[n - 1]), s[n..])
  }

  function Text(t: Token): string {
    match t case Plain(c) => [c] case Id(lead, raw) => lead + raw
  }

  function Render(tokens: seq<Token>): string {
    if tokens == [] then [] else Text(tokens[0]) + Render(tokens[1..])
  }

  /** Nothing is lost by parsing. */
  lemma {:induction false} ParseCovers(x: Syntax, previous: Option<char>, s: string)
    ensures Render(Parse(x, previous, s)) == s
    decreases |s|
  {
    if s != [] {
      var n := Taken(x, previous, s);
      ParseCovers(x, Some(s[n - 1]), s[n..]);
      ParseCoversOn(x, previous, s, n);
    }
  }

  lemma ParseCoversOn(x: Syntax, previous: Option<char>, s: string, n: nat)
    requires s != [] && n == Taken(x, previous, s) && Render(Later(x, previous, s)) == s[n..]
    ensures Render(Parse(x, previous, s)) == s
  {
    TokenCovers(x, previous, s);
    CoversOn(TokenAt(x, previous, s), Later(x, previous, s), s, n);
  }

  lemma CoversOn(t: Token, rest: seq<Token>, s: string, n: nat)
    requires n <= |s| && Text(t) == s[..n] && Render(rest) == s[n..]
    ensures Render([t] + rest) == s
  {
    RenderCons(t, rest);
    Rejoin(s, n);
  }

  lemma RenderCons(t: Token, rest: seq<Token>)
    ensures Render([t] + rest) == Text(t) + Render(rest)
  {
  }

  lemma TokenCovers(x: Syntax, previous: Option<char>, s: string)
    requires s != []
    ensures Text(TokenAt(x, previous, s)) == s[..Taken(x, previous, s)]
  {
  }

  // ----- well-formed tokens

  predicate Digits(s: string, digit: char -> bool) {
    s != [] && forall i :: 0 <= i < |s| ==> digit(s[i])
  }

  predicate NoDigits(s: string, digit: char -> bool) {
    s != [] && forall i :: 0 <= i < |s| ==> !digit(s[i])
  }

  function First(tokens: seq<Token>): Option<char> {
    if tokens == [] then None else match tokens[0] case Plain(c) => Some(c) case Id(lead, _) => At(lead, 0)
  }

  /** Ids have a lead without digits, a raw text of digits, and no digit after it. */
  predicate WellFormed(tokens: seq<Token>, digit: char -> bool) {
    tokens == []
    || ((tokens[0].Id? ==>
          NoDigits(tokens[0].lead, digit) && Digits(tokens[0].raw, digit)
          && var next := First(tokens[1..]); next.Some? ==> !digit(next.value))
        && WellFormed(tokens[1..], digit))
  }

  lemma ConsIsWellFormed(t: Token, rest: seq<Token>, digit: char -> bool)
    requires WellFormed(rest, digit)
    requires t.Id? ==> NoDigits(t.lead, digit) && Digits(t.raw, digit)
    requires t.Id? && First(rest).Some? ==> !digit(First(rest).value)
    ensures WellFormed([t] + rest, digit)
  {
    assert ([t] + rest)[1..] == rest;
  }

  lemma FirstOfParse(x: Syntax, previous: Option<char>, s: string)
    ensures First(Parse(x, previous, s)) == At(s, 0)
  {
  }

  lemma {:induction false} ParseIsWellFormed(x: Syntax, previous: Option<char>, s: string)
    ensures WellFormed(Parse(x, previous, s), x.digit)
    decreases |s|
  {
    if s != [] {
      var n, t := Taken(x, previous, s), TokenAt(x, previous, s);
      var rest := Parse(x, Some(s[n - 1]), s[n..]);
      ParseIsWellFormed(x, Some(s[n - 1]), s[n..]);
      assert WellFormed([t] + rest, x.digit) by {
        FirstOfParse(x, Some(s[n - 1]), s[n..]);
        TokenIsWellFormed(x, previous, s);
        ConsIsWellFormed(t, rest, x.digit);
      }
    }
  }

  lemma TokenIsWellFormed(x: Syntax, previous: Option<char>, s: string)
    requires s != []
    ensures var t := TokenAt(x, previous, s); var next := At(s[Taken(x, previous, s)..], 0);
      t.Id? ==> NoDigits(t.lead, x.digit) && Digits(t.raw, x.digit) && (next.Some? ==> !x.digit(next.value))
  {
    var found := Found(x, previous, s);
    if found.Some? {
      var (n, m) := found.value;
      SpanIsLongest(s, x.digit, false);
      SpanIsLongest(s[n..], x.digit, true);
      assert s[n..n + m] == s[n..][..m] && (n + m < |s| ==> s[n + m] == s[n..][m]);
    }
  }

  // ----- other digits in the same places

  /** The same text around the ids. */
  predicate SameSkeleton(a: seq<Token>, b: seq<Token>) {
    |a| == |b| && forall i :: 0 <= i < |a| ==>
      a[i] == b[i] || (a[i].Id? && b[i].Id? && a[i].lead == b[i].lead)
  }

  lemma TailsAreAlike(a: seq<Token>, b: seq<Token>)
    requires SameSkeleton(a, b) && a != []
    ensures SameSkeleton(a[1..], b[1..]) && First(a) == First(b)
  {
  }

  lemma FirstOfRender(tokens: seq<Token>, digit: char -> bool)
    requires WellFormed(tokens, digit)
    ensures At(Render(tokens), 0) == First(tokens)
  {
  }

  lemma SkipPlain(c: char, r: string, digit: char -> bool, want: bool)
    requires digit(c) == want
    ensures Span([c] + r, digit, want) == 1 + Span(r, digit, want)
  {
  }

  /** The spans of an id followed by a non-digit. */
  lemma SpansOfId(lead: string, raw: string, r: string, digit: char -> bool)
    requires NoDigits(lead, digit) && Digits(raw, digit) && (At(r, 0).Some? ==> !digit(At(r, 0).value))
    ensures var s := lead + raw + r;
      && Span(s, digit, false) == |lead| && s[..|lead|] == lead && s[|lead|..] == raw + r
      && Span(raw + r, digit, true) == |raw| && At(s, |lead| + |raw|) == At(r, 0)
      && s[|lead|..|lead| + |raw|] == raw && s[|lead| + |raw|..] == r
      && s[|lead| + |raw| - 1] == raw[|raw| - 1]
  {
    var s := lead + raw + r;
    Regroup(lead, raw, r);
    SpanOf(lead, raw + r, digit, false);
    SpanOf(raw, r, digit, true);
    CutsOfId(lead, raw, r);
  }

  lemma SpanOf(a: string, r: string, digit: char -> bool, want: bool)
    requires (forall i :: 0 <= i < |a| ==> digit(a[i]) == want) && (r != [] ==> digit(r[0]) != want)
    ensures Span(a + r, digit, want) == |a|
  {
    SpanIs(a + r, |a|, digit, want);
  }

  lemma CutsOfId(lead: string, raw: string, r: string)
    requires raw != []
    ensures var s := lead + raw + r;
      && s[..|lead|] == lead && s[|lead|..] == raw + r && At(s, |lead| + |raw|) == At(r, 0)
      && s[|lead|..|lead| + |raw|] == raw && s[|lead| + |raw|..] == r && s[|lead| + |raw| - 1] == raw[|raw| - 1]
  {
  }

  /** The same character follows the leading digits, if there are any. */
  predicate SameNext(s: string, t: string, digit: char -> bool) {
    && At(s, Span(s, digit, true)) == At(t, Span(t, digit, true))
    && (Span(s, digit, true) == 0 <==> Span(t, digit, true) == 0)
  }

  lemma SameNextOn(c: char, s: string, t: string, digit: char -> bool)
    requires digit(c) && SameNext(s, t, digit)
    ensures SameNext([c] + s, [c] + t, digit)
  {
    SkipPlain(c, s, digit, true);
    SkipPlain(c, t, digit, true);
  }

  /** What follows the leading digits does not depend on the ids. */
  lemma {:induction false} NextAgrees(a: seq<Token>, b: seq<Token>, digit: char -> bool)
    requires WellFormed(a, digit) && WellFormed(b, digit) && SameSkeleton(a, b)
    ensures SameNext(Render(a), Render(b), digit)
    decreases |a|
  {
    if a != [] {
      TailsAreAlike(a, b);
      if a[0].Plain? && digit(a[0].c) {
        NextAgrees(a[1..], b[1..], digit);
        SameNextOn(a[0].c, Render(a[1..]), Render(b[1..]), digit);
      } else {
        StartsWithoutDigit(a, digit);
        StartsWithoutDigit(b, digit);
      }
    }
  }

  lemma StartsWithoutDigit(tokens: seq<Token>, digit: char -> bool)
    requires WellFormed(tokens, digit) && tokens != [] && !(tokens[0].Plain? && digit(tokens[0].c))
    ensures Span(Render(tokens), digit, true) == 0 && At(Render(tokens), 0) == First(tokens)
  {
    FirstOfRender(tokens, digit);
  }

  /** The character after the first run of digits. */
  function AfterRun(s: string, digit: char -> bool): Option<char> {
    var n := Span(s, digit, false);
    At(s, n + Span(s[n..], digit, true))
  }

  /** Up to the first digit two texts with the same skeleton agree, and after its run too. */
  lemma {:induction false} RunAgrees(a: seq<Token>, b: seq<Token>, digit: char -> bool)
    requires WellFormed(a, digit) && WellFormed(b, digit) && SameSkeleton(a, b)
    ensures var s, t := Render(a), Render(b); var n := Span(s, digit, false);
      n == Span(t, digit, false) && s[..n] == t[..n] && (n < |s| <==> n < |t|)
      && AfterRun(s, digit) == AfterRun(t, digit)
    decreases |a|
  {
    if a != [] {
      TailsAreAlike(a, b);
      if a[0].Id? {
        RunAgreesAtId(a, b, digit);
      } else if digit(a[0].c) {
        NextAgrees(a, b, digit);
        assert Span(Render(a), digit, false) == 0 == Span(Render(b), digit, false);
        assert Render(a)[0..] == Render(a) && Render(b)[0..] == Render(b);
      } else {
        RunAgrees(a[1..], b[1..], digit);
        SkipOther(a[0].c, Render(a[1..]), digit);
        SkipOther(a[0].c, Render(b[1..]), digit);
      }
    }
  }

  lemma SkipOther(c: char, r: string, digit: char -> bool)
    requires !digit(c)
    ensures var s := [c] + r; var n := Span(r, digit, false);
      Span(s, digit, false) == n + 1 && s[..n + 1] == [c] + r[..n] && AfterRun(s, digit) == AfterRun(r, digit)
  {
    var n := Span(r, digit, false);
    SkipPlain(c, r, digit, false);
    assert ([c] + r)[n + 1..] == r[n..];
  }

  /** A text that starts with an id: its lead, and the character after its digits. */
  lemma RunOfId(tokens: seq<Token>, digit: char -> bool)
    requires WellFormed(tokens, digit) && tokens != [] && tokens[0].Id?
    ensures var s, n := Render(tokens), |tokens[0].lead|;
      Span(s, digit, false) == n < |s| && s[..n] == tokens[0].lead && AfterRun(s, digit) == First(tokens[1..])
  {
    FirstOfRender(tokens[1..], digit);
    SpansOfId(tokens[0].lead, tokens[0].raw, Render(tokens[1..]), digit);
  }

  lemma RunAgreesAtId(a: seq<Token>, b: seq<Token>, digit: char -> bool)
    requires WellFormed(a, digit) && WellFormed(b, digit) && SameSkeleton(a, b) && a != [] && a[0].Id?
    ensures var s, t, n := Render(a), Render(b), |a[0].lead|;
      && Span(s, digit, false) == Span(t, digit, false) == n < |s| && n < |t|
      && s[..n] == t[..n] && AfterRun(s, digit) == AfterRun(t, digit)
  {
    RunOfId(a, digit);
    RunOfId(b, digit);
    TailsAreAlike(a, b);
    if |a| > 1 {
      TailsAreAlike(a[1..], b[1..]);
    }
  }

  /** The same character, or a digit for a digit. */
  ghost predicate Alike(c: Option<char>, d: Option<char>, digit: char -> bool) {
    c == d || (c.Some? && d.Some? && digit(c.value) && digit(d.value))
  }

  /** A text in which ids are replaced by digits parses to the replaced tokens. */
  lemma {:induction false} ReplacedParse(x: Syntax, c: Option<char>, d: Option<char>, s: string, b: seq<Token>)
    requires Sane(x) && Alike(c, d, x.digit)
    requires SameSkeleton(Parse(x, c, s), b) && WellFormed(b, x.digit)
    ensures Parse(x, d, Render(b)) == b
    decreases |s|
  {
    if s != [] {
      var t := Render(b);
      ReplacedTail(x, c, d, s, b, t);
      var n, m := Taken(x, c, s), Taken(x, d, t);
      ReplacedParse(x, Some(s[n - 1]), Some(t[m - 1]), s[n..], b[1..]);
      ParseStep(x, d, t, b);
    }
  }

  /** After the first token the rest of the text is the rest of the tokens. */
  lemma ReplacedTail(x: Syntax, c: Option<char>, d: Option<char>, s: string, b: seq<Token>, t: string)
    requires Sane(x) && Alike(c, d, x.digit) && s != [] && t == Render(b)
    requires SameSkeleton(Parse(x, c, s), b) && WellFormed(b, x.digit)
    ensures t != [] && b != [] && TokenAt(x, d, t) == b[0] && WellFormed(b[1..], x.digit)
    ensures var n, m := Taken(x, c, s), Taken(x, d, t);
      && t[m..] == Render(b[1..]) && Alike(Some(s[n - 1]), Some(t[m - 1]), x.digit)
      && SameSkeleton(Parse(x, Some(s[n - 1]), s[n..]), b[1..])
  {
    var n := Taken(x, c, s);
    SkeletonOfCons(TokenAt(x, c, s), Later(x, c, s), b);
    SameToken(x, c, d, s, b);
    EndsAlike(x, c, d, s, t);
  }

  lemma EndsAlike(x: Syntax, c: Option<char>, d: Option<char>, s: string, t: string)
    requires s != [] && t != []
    requires var a, b := TokenAt(x, c, s), TokenAt(x, d, t); a == b || (a.Id? && b.Id?)
    ensures Alike(Some(s[Taken(x, c, s) - 1]), Some(t[Taken(x, d, t) - 1]), x.digit)
  {
    TokenEnds(x, c, s);
    TokenEnds(x, d, t);
  }

  lemma ParseStep(x: Syntax, d: Option<char>, t: string, b: seq<Token>)
    requires t != [] && b != [] && TokenAt(x, d, t) == b[0] && Later(x, d, t) == b[1..]
    ensures Parse(x, d, t) == b
  {
    Cons(b);
  }

  lemma SkeletonOfCons(t: Token, rest: seq<Token>, b: seq<Token>)
    requires SameSkeleton([t] + rest, b)
    ensures b != [] && SameSkeleton(rest, b[1..]) && (t == b[0] || (t.Id? && b[0].Id? && t.lead == b[0].lead))
  {
  }

  lemma TokenEnds(x: Syntax, c: Option<char>, s: string)
    requires s != []
    ensures var t, last := TokenAt(x, c, s), s[Taken(x, c, s) - 1];
      if t.Id? then x.digit(last) else last == t.c
  {
    TokenIsWellFormed(x, c, s);
    var t := TokenAt(x, c, s);
    assert t.Id? ==> t.raw[|t.raw| - 1] == s[Taken(x, c, s) - 1];
  }

  /** The replaced text starts with the replaced token. */
  lemma SameToken(x: Syntax, c: Option<char>, d: Option<char>, s: string, b: seq<Token>)
    requires Sane(x) && Alike(c, d, x.digit) && s != []
    requires SameSkeleton(Parse(x, c, s), b) && WellFormed(b, x.digit)
    ensures var t := Render(b);
      t != [] && TokenAt(x, d, t) == b[0] && t[Taken(x, d, t)..] == Render(b[1..])
  {
    var a, t := Parse(x, c, s), Render(b);
    ParseIsWellFormed(x, c, s);
    ParseCovers(x, c, s);
    RunAgrees(a, b, x.digit);
    SameLead(x, c, d, s, t);
    assert a[0] == TokenAt(x, c, s);
    Cons(b);
    RenderCons(b[0], b[1..]);
    ReadsToken(x, d, b[0], b[1..]);
  }

  lemma ReadsToken(x: Syntax, d: Option<char>, token: Token, rest: seq<Token>)
    requires WellFormed([token] + rest, x.digit) && WellFormed(rest, x.digit)
    requires Found(x, d, Text(token) + Render(rest)).Some? <==> token.Id?
    ensures var t := Text(token) + Render(rest);
      t != [] && TokenAt(x, d, t) == token && t[Taken(x, d, t)..] == Render(rest)
  {
    if token.Id? {
      assert ([token] + rest)[0] == token && ([token] + rest)[1..] == rest;
      FirstOfRender(rest, x.digit);
      SpansOfId(token.lead, token.raw, Render(rest), x.digit);
    }
  }

  /** Whether a text starts with an id depends on what its skeleton shows. */
  lemma SameLead(x: Syntax, c: Option<char>, d: Option<char>, s: string, t: string)
    requires Sane(x) && Alike(c, d, x.digit)
    requires var n := Span(s, x.digit, false);
      n == Span(t, x.digit, false) && s[..n] == t[..n] && (n < |s| <==> n < |t|)
    requires AfterRun(s, x.digit) == AfterRun(t, x.digit)
    ensures Found(x, c, s).Some? <==> Found(x, d, t).Some?
  {
    var n := Span(s, x.digit, false);
    assert x.lead(c, s[..n]) == x.lead(d, t[..n]);
    DigitFollows(s, x.digit);
    DigitFollows(t, x.digit);
  }

  lemma DigitFollows(s: string, digit: char -> bool)
    ensures var n := Span(s, digit, false); Span(s[n..], digit, true) > 0 <==> n < |s|
  {
  }
}
