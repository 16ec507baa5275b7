/** What a SQL script is made of, without a scanner: bare characters, comments, quoted texts and quoted names. */
module SqlGrammar {

  datatype Piece =
    | Bare(c: char)
    | LineComment(text: string)      // two dashes, up to and with the newline
    | BlockComment(text: string)     // slash and star, up to star and slash
    | Quoted(text: string)           // single quotes; a quote in the text is doubled
    | Named(text: string)            // double quotes
    | OpenLine(text: string)         // the same without an end, last in a script
    | OpenBlock(text: string)
    | OpenQuote(text: string)
    | OpenName(text: string)

  function Doubled(text: string): string {
    if text == [] then []
    else (if text[0] == '\'' then "''" else [text[0]]) + Doubled(text[1..])
  }

  /** How a piece is written. */
  function Text(p: Piece): string {
    match p
    case Bare(c) => [c]
    case LineComment(text) => "--" + text + "\n"
    case BlockComment(text) => "/*" + text + "*/"
    case Quoted(text) => "'" + Doubled(text) + "'"
    case Named(text) => "\"" + text + "\""
    case OpenLine(text) => "--" + text
    case OpenBlock(text) => "/*" + text
    case OpenQuote(text) => "'" + Doubled(text)
    case OpenName(text) => "\"" + text
  }

  predicate Without(s: string, c: char) {
    forall i :: 0 <= i < |s| ==> s[i] != c
  }

  /** No star and slash in a row. */
  predicate NeverCloses(s: string) {
    forall i :: 0 <= i < |s| - 1 ==> !(s[i] == '*' && s[i + 1] == '/')
  }

  /** The text of a piece does not end it early. */
  predicate WellFormed(p: Piece) {
    match p
    case Bare(c) => c != '\'' && c != '"'
    case LineComment(text) => Without(text, '\n')
    case BlockComment(text) => NeverCloses(text)
    case Quoted(_) => true
    case Named(text) => Without(text, '"')
    case OpenLine(text) => Without(text, '\n')
    case OpenBlock(text) => NeverCloses(text)
    case OpenQuote(_) => true
    case OpenName(text) => Without(text, '"')
  }

  predicate StartsWith(s: string, c: char) {
    s != [] && s[0] == c
  }

  predicate Open(p: Piece) {
    p.OpenLine? || p.OpenBlock? || p.OpenQuote? || p.OpenName?
  }

  /** What may follow a piece: two dashes or slash and star would be a comment, two quotes go on with the text, and
      nothing follows an open piece. */
  predicate MayFollow(p: Piece, rest: string) {
    && (p == Bare('-') ==> !StartsWith(rest, '-'))
    && (p == Bare('/') ==> !StartsWith(rest, '*'))
    && (p.Quoted? ==> !StartsWith(rest, '\''))
    && (Open(p) ==> rest == [])
  }

  function Render(pieces: seq<Piece>): string {
    if pieces == [] then [] else Text(pieces[0]) + Render(pieces[1..])
  }

  predicate Spelled(pieces: seq<Piece>) {
    pieces == [] || (WellFormed(pieces[0]) && MayFollow(pieces[0], Render(pieces[1..])) && Spelled(pieces[1..]))
  }

  /** The pieces spell this script. */
  predicate Spells(pieces: seq<Piece>, script: string) {
    Spelled(pieces) && Render(pieces) == script
  }

  /** The pieces between bare semicolons. */
  function Groups(pieces: seq<Piece>): (groups: seq<seq<Piece>>)
    ensures groups != []
    ensures forall i :: 0 <= i < |groups| ==> Bare(';') !in groups[i]
  {
    if pieces == [] then [[]]
    else
      var rest := Groups(pieces[1..]);
      if pieces[0] == Bare(';') then [[]] + rest else [[pieces[0]] + rest[0]] + rest[1..]
  }

  function Renderings(groups: seq<seq<Piece>>): (texts: seq<string>)
    ensures |texts| == |groups|
  {
    seq(|groups|, i requires 0 <= i < |groups| => Render(groups[i]))
  }

  // ----- every script is spelled by some pieces

  lemma Extend(p: Piece, rest: string, pieces: seq<Piece>) returns (more: seq<Piece>)
    requires WellFormed(p) && MayFollow(p, rest) && Spells(pieces, rest)
    ensures Spells(more, Text(p) + rest)
  {
    more := [p] + pieces;
    assert more[1..] == pieces;
  }

  lemma {:induction false} FindEnd(s: string, c: char) returns (n: nat)
    ensures n <= |s| && Without(s[..n], c) && (n < |s| ==> s[n] == c)
  {
    n := 0;
    while n < |s| && s[n] != c
      invariant n <= |s| && Without(s[..n], c)
    {
      n := n + 1;
    }
  }

  lemma {:induction false} FindClose(s: string) returns (n: nat)
    ensures n <= |s| && NeverCloses(s[..n])
    ensures n < |s| ==> n + 1 < |s| && s[n] == '*' && s[n + 1] == '/'
  {
    n := 0;
    while n < |s| && !(s[n] == '*' && n + 1 < |s| && s[n + 1] == '/')
      invariant n <= |s| && NeverCloses(s[..n])
      invariant 0 < n < |s| ==> !(s[n - 1] == '*' && s[n] == '/')
    {
      n := n + 1;
    }
  }

  lemma DoubledOne(c: char, text: string)
    ensures Doubled([c] + text) == (if c == '\'' then "''" else [c]) + Doubled(text)
  {
    assert ([c] + text)[1..] == text;
  }

  lemma Reassociate(a: string, b: string, c: string, d: string)
    ensures a + (b + c + d) == (a + b) + c + d
  {
  }

  /** Read a quoted text up to a quote that is not doubled. */
  lemma {:induction false} FindQuote(s: string) returns (text: string, closing: string, rest: string)
    ensures closing == "'" || closing == ""
    ensures s == Doubled(text) + closing + rest && |rest| <= |s|
    ensures if closing == "'" then !StartsWith(rest, '\'') else rest == []
    decreases |s|
  {
    if s == [] {
      return [], [], [];
    }
    if s[0] == '\'' && !(|s| > 1 && s[1] == '\'') {
      text, closing, rest := [], "'", s[1..];
      assert s == [] + "'" + s[1..];
    } else {
      var n := if s[0] == '\'' then 2 else 1;
      var more;
      more, closing, rest := FindQuote(s[n..]);
      text := [s[0]] + more;
      DoubledOne(s[0], more);
      assert s == s[..n] + s[n..] && s[..n] == if s[0] == '\'' then "''" else [s[0]];
      Reassociate(s[..n], Doubled(more), closing, rest);
    }
  }

  lemma FirstLine(s: string) returns (p: Piece, rest: string)
    ensures WellFormed(p) && MayFollow(p, rest) && "--" + s == Text(p) + rest && |rest| <= |s|
  {
    var n := FindEnd(s, '\n');
    if n < |s| {
      p, rest := LineComment(s[..n]), s[n + 1..];
      assert s == s[..n] + "\n" + s[n + 1..];
    } else {
      p, rest := OpenLine(s), [];
      assert s[..n] == s;
    }
  }

  lemma FirstBlock(s: string) returns (p: Piece, rest: string)
    ensures WellFormed(p) && MayFollow(p, rest) && "/*" + s == Text(p) + rest && |rest| <= |s|
  {
    var n := FindClose(s);
    if n < |s| {
      p, rest := BlockComment(s[..n]), s[n + 2..];
      assert s == s[..n] + "*/" + s[n + 2..];
    } else {
      p, rest := OpenBlock(s), [];
      assert s[..n] == s;
    }
  }

  lemma FirstQuoted(s: string) returns (p: Piece, rest: string)
    ensures WellFormed(p) && MayFollow(p, rest) && "'" + s == Text(p) + rest && |rest| <= |s|
  {
    var text, closing, left := FindQuote(s);
    rest := left;
    if closing == "'" {
      p := Quoted(text);
      assert "'" + s == "'" + Doubled(text) + "'" + rest;
    } else {
      p := OpenQuote(text);
      assert "'" + s == "'" + Doubled(text) + rest;
    }
  }

  lemma FirstNamed(s: string) returns (p: Piece, rest: string)
    ensures WellFormed(p) && MayFollow(p, rest) && "\"" + s == Text(p) + rest && |rest| <= |s|
  {
    var n := FindEnd(s, '"');
    if n < |s| {
      p, rest := Named(s[..n]), s[n + 1..];
      assert s == s[..n] + "\"" + s[n + 1..];
    } else {
      p, rest := OpenName(s), [];
      assert s[..n] == s;
    }
  }

  lemma FirstPiece(s: string) returns (p: Piece, rest: string)
    requires s != []
    ensures WellFormed(p) && MayFollow(p, rest) && s == Text(p) + rest && |rest| < |s|
  {
    if |s| > 1 && s[0] == '-' && s[1] == '-' {
      assert s == "--" + s[2..];
      p, rest := FirstLine(s[2..]);
    } else if |s| > 1 && s[0] == '/' && s[1] == '*' {
      assert s == "/*" + s[2..];
      p, rest := FirstBlock(s[2..]);
    } else if s[0] == '\'' {
      assert s == "'" + s[1..];
      p, rest := FirstQuoted(s[1..]);
    } else if s[0] == '"' {
      assert s == "\"" + s[1..];
      p, rest := FirstNamed(s[1..]);
    } else {
      p, rest := Bare(s[0]), s[1..];
      assert s == [s[0]] + s[1..];
    }
  }

  /** Every text is a script: some pieces spell it. */
  lemma {:induction false} EveryScriptIsSpelled(s: string) returns (pieces: seq<Piece>)
    ensures Spells(pieces, s)
    decreases |s|
  {
    if s == [] {
      pieces := [];
    } else {
      var p, rest := FirstPiece(s);
      var more := EveryScriptIsSpelled(rest);
      pieces := Extend(p, rest, more);
    }
  }
}
