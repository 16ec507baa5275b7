/** Splitting a SQL script at the semicolons outside quotes and comments. */
module SqlSplitter {
  import opened SqlGrammar
  import opened Texts

  /** What the scanner is inside of. */
  datatype Mode = Plain | Single | Double | Line | Block

  // ----- the scanner

  /** The character after the first, if any. */
  predicate Follows(s: string, c: char) {
    |s| > 1 && s[1] == c
  }

  /** How many characters one turn of the loop takes. */
  function Width(m: Mode, s: string): (n: nat)
    requires s != []
    ensures 1 <= n <= 2 && n <= |s|
  {
    var c := s[0];
    if m == Block && c == '*' && Follows(s, '/') then 2
    else if m == Plain && c == '-' && Follows(s, '-') then 2
    else if m == Plain && c == '/' && Follows(s, '*') then 2
    else if m == Single && c == '\'' && Follows(s, '\'') then 2
    else 1
  }

  /** The mode after that turn. */
  function Turn(m: Mode, s: string): Mode
    requires s != []
  {
    var c := s[0];
    match m
    case Line => if c == '\n' then Plain else Line
    case Block => if Width(m, s) == 2 then Plain else Block
    case Single => if c == '\'' && Width(m, s) == 1 then Plain else Single
    case Double => if c == '"' then Plain else Double
    case Plain =>
      if Width(m, s) == 2 then (if c == '-' then Line else Block)
      else if c == '\'' then Single
      else if c == '"' then Double
      else Plain
  }

  predicate Splits(m: Mode, s: string) {
    s != [] && m == Plain && s[0] == ';'
  }

  /** The mode after a whole text. */
  function After(m: Mode, s: string): Mode
    decreases |s|
  {
    if s == [] then m else After(Turn(m, s), s[Width(m, s)..])
  }

  /** Every semicolon of the text lies in a quote or a comment. */
  predicate Quiet(m: Mode, s: string)
    decreases |s|
  {
    s == [] || (!Splits(m, s) && Quiet(Turn(m, s), s[Width(m, s)..]))
  }

  function Prepend(head: string, chunks: seq<string>): (r: seq<string>)
    requires chunks != []
    ensures |r| == |chunks| && r[0] == head + chunks[0] && r[1..] == chunks[1..]
  {
    [head + chunks[0]] + chunks[1..]
  }

  /** The raw text between splitting semicolons. */
  function Chunks(m: Mode, s: string): (chunks: seq<string>)
    ensures chunks != []
    decreases |s|
  {
    if s == [] then [[]]
    else if Splits(m, s) then [[]] + Chunks(Plain, s[1..])
    else Prepend(s[..Width(m, s)], Chunks(Turn(m, s), s[Width(m, s)..]))
  }

  // ----- trimming

  /** What the scanner relies on in the notion of white space. */
  ghost predicate IsSpace(space: char -> bool) {
    space('\n') && forall c :: c in "-/*'\";" ==> !space(c)
  }

  predicate Blank(s: string, space: char -> bool) {
    forall i :: 0 <= i < |s| ==> space(s[i])
  }

  predicate Trimmed(s: string, space: char -> bool) {
    s == [] || (!space(s[0]) && !space(s[|s| - 1]))
  }

  function StripLeft(s: string, space: char -> bool): string {
    if s != [] && space(s[0]) then StripLeft(s[1..], space) else s
  }

  function StripRight(s: string, space: char -> bool): string {
    if s != [] && space(s[|s| - 1]) then StripRight(s[..|s| - 1], space) else s
  }

  /** `str.strip` */
  function Strip(s: string, space: char -> bool): string {
    StripRight(StripLeft(s, space), space)
  }

  function Kept(chunks: seq<string>, space: char -> bool): seq<string> {
    if chunks == [] then []
    else
      var statement := Strip(chunks[0], space);
      (if statement != [] then [statement] else []) + Kept(chunks[1..], space)
  }

  function Split(script: string, space: char -> bool): seq<string> {
    Kept(Chunks(Plain, script), space)
  }

  function Joined(parts: seq<string>, separator: string): string {
    if parts == [] then []
    else if |parts| == 1 then parts[0]
    else parts[0] + separator + Joined(parts[1..], separator)
  }

  // ----- nothing is lost

  lemma JoinedCut(chunks: seq<string>, separator: string)
    requires chunks != []
    ensures Joined([[]] + chunks, separator) == separator + Joined(chunks, separator)
  {
    assert ([[]] + chunks)[1..] == chunks;
    assert [] + separator + Joined(chunks, separator) == separator + Joined(chunks, separator);
  }

  /** The raw chunks joined with semicolons are the script. */
  lemma {:induction false} ChunksCover(m: Mode, s: string)
    ensures Joined(Chunks(m, s), ";") == s
    decreases |s|
  {
    if s == [] {
    } else if Splits(m, s) {
      ChunksCover(Plain, s[1..]);
      JoinedCut(Chunks(Plain, s[1..]), ";");
      Rejoin(s, 1);
      assert s[..1] == ";";
    } else {
      var n := Width(m, s);
      ChunksCover(Turn(m, s), s[n..]);
      JoinedPrepend(s[..n], Chunks(Turn(m, s), s[n..]), ";");
      Rejoin(s, n);
    }
  }

  lemma JoinedPrepend(head: string, chunks: seq<string>, separator: string)
    requires chunks != []
    ensures Joined(Prepend(head, chunks), separator) == head + Joined(chunks, separator)
  {
  }

  // ----- cutting a text does not change how it reads

  /** Text that may follow without completing a two-character token. */
  predicate Detached(s: string) {
    s != [] ==> s[0] !in "-/*'"
  }

  lemma TurnIgnores(m: Mode, a: string, b: string)
    requires a != [] && (|a| > 1 || Detached(b))
    ensures Width(m, a + b) == Width(m, a) && Turn(m, a + b) == Turn(m, a)
    ensures Splits(m, a + b) == Splits(m, a)
    ensures (a + b)[Width(m, a)..] == a[Width(m, a)..] + b
    ensures (a + b)[..Width(m, a)] == a[..Width(m, a)]
  {
  }

  lemma {:induction false} ReadsOn(m: Mode, a: string, b: string)
    requires Detached(b)
    ensures After(m, a + b) == After(After(m, a), b)
    ensures Quiet(m, a + b) <==> Quiet(m, a) && Quiet(After(m, a), b)
    decreases |a|
  {
    if a == [] {
      assert a + b == b;
    } else {
      TurnIgnores(m, a, b);
      ReadsOn(Turn(m, a), a[Width(m, a)..], b);
    }
  }

  lemma {:induction false} ChunksReadOn(m: Mode, a: string, b: string)
    requires Detached(b) && Quiet(m, a)
    ensures Chunks(m, a + b) == Prepend(a, Chunks(After(m, a), b))
    decreases |a|
  {
    if a == [] {
      assert a + b == b;
      PrependNothing(Chunks(m, b));
    } else {
      var n := Width(m, a);
      TurnIgnores(m, a, b);
      ChunksReadOn(Turn(m, a), a[n..], b);
      PrependTwice(a[..n], a[n..], Chunks(After(m, a), b));
      assert a[..n] + a[n..] == a;
    }
  }

  lemma PrependNothing(chunks: seq<string>)
    requires chunks != []
    ensures Prepend([], chunks) == chunks
  {
    assert [] + chunks[0] == chunks[0];
  }

  lemma PrependTwice(a: string, b: string, chunks: seq<string>)
    requires chunks != []
    ensures Prepend(a, Prepend(b, chunks)) == Prepend(a + b, chunks)
  {
    assert a + (b + chunks[0]) == (a + b) + chunks[0];
  }

  lemma QuietIsOneChunk(m: Mode, s: string)
    requires Quiet(m, s)
    ensures Chunks(m, s) == [s]
  {
    ChunksReadOn(m, s, []);
    assert s + [] == s;
  }

  // ----- the pieces of a script

  /** The scanner takes `a` without a cut and goes on in the mode `next`. */
  ghost predicate Passes(m: Mode, a: string, next: Mode, rest: string) {
    Chunks(m, a + rest) == Prepend(a, Chunks(next, rest))
  }

  lemma PassesOn(m: Mode, a: string, between: Mode, b: string, next: Mode, rest: string)
    requires Passes(m, a, between, b + rest) && Passes(between, b, next, rest)
    ensures Passes(m, a + b, next, rest)
  {
    assert (a + b) + rest == a + (b + rest);
    PrependTwice(a, b, Chunks(next, rest));
  }

  lemma PassesNothing(m: Mode, rest: string)
    ensures Passes(m, [], m, rest)
  {
    assert [] + rest == rest;
    PrependNothing(Chunks(m, rest));
  }

  /** One turn. */
  lemma PassesTurn(m: Mode, a: string, rest: string)
    requires a != [] && !Splits(m, a + rest) && Width(m, a + rest) == |a|
    ensures Passes(m, a, Turn(m, a + rest), rest)
  {
    assert (a + rest)[..|a|] == a && (a + rest)[|a|..] == rest;
  }

  lemma {:induction false} PassesLine(text: string, rest: string)
    requires Without(text, '\n')
    ensures Passes(Line, text, Line, rest)
  {
    if text == [] {
      PassesNothing(Line, rest);
    } else {
      PassesTurn(Line, text[..1], text[1..] + rest);
      PassesLine(text[1..], rest);
      PassesOn(Line, text[..1], Line, text[1..], Line, rest);
      assert text[..1] + text[1..] == text;
    }
  }

  /** The text of a block comment, before its end or before the end of the script. */
  lemma {:induction false} PassesBlock(text: string, rest: string)
    requires NeverCloses(text) && !StartsWith(rest, '/')
    ensures Passes(Block, text, Block, rest)
  {
    if text == [] {
      PassesNothing(Block, rest);
    } else {
      PassesTurn(Block, text[..1], text[1..] + rest);
      PassesBlock(text[1..], rest);
      PassesOn(Block, text[..1], Block, text[1..], Block, rest);
      assert text[..1] + text[1..] == text;
    }
  }

  lemma {:induction false} PassesQuoted(text: string, rest: string)
    ensures Passes(Single, Doubled(text), Single, rest)
  {
    if text == [] {
      PassesNothing(Single, rest);
    } else {
      var first := if text[0] == '\'' then "''" else [text[0]];
      PassesTurn(Single, first, Doubled(text[1..]) + rest);
      PassesQuoted(text[1..], rest);
      PassesOn(Single, first, Single, Doubled(text[1..]), Single, rest);
    }
  }

  lemma {:induction false} PassesNamed(text: string, rest: string)
    requires Without(text, '"')
    ensures Passes(Double, text, Double, rest)
  {
    if text == [] {
      PassesNothing(Double, rest);
    } else {
      PassesTurn(Double, text[..1], text[1..] + rest);
      PassesNamed(text[1..], rest);
      PassesOn(Double, text[..1], Double, text[1..], Double, rest);
      assert text[..1] + text[1..] == text;
    }
  }

  /** An opening, a text and, unless the script ends first, a closing. */
  lemma PassesEnclosed(opening: string, text: string, closing: string, m: Mode, rest: string)
    requires Passes(Plain, opening, m, text + (closing + rest)) && Passes(m, text, m, closing + rest)
    requires Passes(m, closing, Plain, rest)
    ensures Passes(Plain, opening + text + closing, Plain, rest)
  {
    assert text + (closing + rest) == (text + closing) + rest;
    PassesOn(m, text, m, closing, Plain, rest);
    PassesOn(Plain, opening, m, text + closing, Plain, rest);
    assert opening + (text + closing) == opening + text + closing;
  }

  lemma PassesOpen(opening: string, text: string, m: Mode)
    requires Passes(Plain, opening, m, text) && Passes(m, text, m, [])
    ensures Passes(Plain, opening + text, Plain, [])
  {
    assert text + [] == text && (opening + text) + [] == opening + text;
    PassesOn(Plain, opening, m, text, m, []);
  }

  lemma PassesLineComment(text: string, rest: string)
    requires Without(text, '\n')
    ensures Passes(Plain, "--" + text + "\n", Plain, rest)
    ensures Passes(Plain, "--" + text, Plain, [])
  {
    PassesTurn(Plain, "--", text + ("\n" + rest));
    PassesTurn(Plain, "--", text);
    PassesTurn(Line, "\n", rest);
    PassesLine(text, "\n" + rest);
    PassesLine(text, []);
    PassesEnclosed("--", text, "\n", Line, rest);
    PassesOpen("--", text, Line);
  }

  lemma PassesBlockComment(text: string, rest: string)
    requires NeverCloses(text)
    ensures Passes(Plain, "/*" + text + "*/", Plain, rest)
    ensures Passes(Plain, "/*" + text, Plain, [])
  {
    PassesTurn(Plain, "/*", text + ("*/" + rest));
    PassesTurn(Plain, "/*", text);
    PassesTurn(Block, "*/", rest);
    PassesBlock(text, "*/" + rest);
    PassesBlock(text, []);
    PassesEnclosed("/*", text, "*/", Block, rest);
    PassesOpen("/*", text, Block);
  }

  lemma PassesQuote(text: string, rest: string)
    ensures !StartsWith(rest, '\'') ==> Passes(Plain, "'" + Doubled(text) + "'", Plain, rest)
    ensures Passes(Plain, "'" + Doubled(text), Plain, [])
  {
    PassesTurn(Plain, "'", Doubled(text) + ("'" + rest));
    PassesTurn(Plain, "'", Doubled(text));
    PassesQuoted(text, "'" + rest);
    PassesQuoted(text, []);
    if !StartsWith(rest, '\'') {
      PassesTurn(Single, "'", rest);
      PassesEnclosed("'", Doubled(text), "'", Single, rest);
    }
    PassesOpen("'", Doubled(text), Single);
  }

  lemma PassesName(text: string, rest: string)
    requires Without(text, '"')
    ensures Passes(Plain, "\"" + text + "\"", Plain, rest)
    ensures Passes(Plain, "\"" + text, Plain, [])
  {
    PassesTurn(Plain, "\"", text + ("\"" + rest));
    PassesTurn(Plain, "\"", text);
    PassesTurn(Double, "\"", rest);
    PassesNamed(text, "\"" + rest);
    PassesNamed(text, []);
    PassesEnclosed("\"", text, "\"", Double, rest);
    PassesOpen("\"", text, Double);
  }

  /** Every piece but a bare semicolon is taken whole. */
  lemma PassesPiece(p: Piece, rest: string)
    requires WellFormed(p) && MayFollow(p, rest) && p != Bare(';')
    ensures Passes(Plain, Text(p), Plain, rest)
  {
    match p
    case Bare(c) => PassesTurn(Plain, [c], rest);
    case LineComment(text) => PassesLineComment(text, rest);
    case BlockComment(text) => PassesBlockComment(text, rest);
    case Quoted(text) => PassesQuote(text, rest);
    case Named(text) => PassesName(text, rest);
    case OpenLine(text) => PassesLineComment(text, rest);
    case OpenBlock(text) => PassesBlockComment(text, rest);
    case OpenQuote(text) => PassesQuote(text, rest);
    case OpenName(text) => PassesName(text, rest);
  }

  lemma RenderingsOfCut(groups: seq<seq<Piece>>)
    ensures Renderings([[]] + groups) == [[]] + Renderings(groups)
  {
  }

  lemma RenderingsOfMore(p: Piece, groups: seq<seq<Piece>>)
    requires groups != []
    ensures Renderings([[p] + groups[0]] + groups[1..]) == Prepend(Text(p), Renderings(groups))
  {
    assert ([p] + groups[0])[1..] == groups[0];
  }

  /** The script is cut exactly at its bare semicolons, and every other piece stays whole. */
  lemma {:induction false} CutsAtSemicolons(pieces: seq<Piece>)
    requires Spelled(pieces)
    ensures Chunks(Plain, Render(pieces)) == Renderings(Groups(pieces))
  {
    if pieces != [] {
      var p, rest := pieces[0], pieces[1..];
      var text, groups := Render(rest), Groups(rest);
      CutsAtSemicolons(rest);
      if p == Bare(';') {
        assert (";" + text)[1..] == text;
        RenderingsOfCut(groups);
      } else {
        PassesPiece(p, text);
        RenderingsOfMore(p, groups);
      }
    }
  }

  // ----- what a chunk is

  /** The chunks are quiet, and all but the last end outside quotes and comments. */
  ghost predicate WellCut(m: Mode, chunks: seq<string>)
    decreases |chunks|
  {
    chunks != [] && Quiet(m, chunks[0])
    && (|chunks| > 1 ==> After(m, chunks[0]) == Plain && WellCut(Plain, chunks[1..]))
  }

  lemma FirstChunkIsPrefix(m: Mode, s: string)
    ensures var c := Chunks(m, s)[0];
      c <= s && (c == [] ==> s == [] || s[0] == ';')
  {
    ChunksCover(m, s);
  }

  lemma {:induction false} ChunksAreWellCut(m: Mode, s: string)
    ensures WellCut(m, Chunks(m, s))
    decreases |s|
  {
    if s == [] {
    } else if Splits(m, s) {
      ChunksAreWellCut(Plain, s[1..]);
      assert Chunks(m, s)[1..] == Chunks(Plain, s[1..]);
    } else {
      var n := Width(m, s);
      var rest := Chunks(Turn(m, s), s[n..]);
      ChunksAreWellCut(Turn(m, s), s[n..]);
      FirstChunkIsPrefix(Turn(m, s), s[n..]);
      SameTurn(m, s, rest[0]);
      var c := s[..n] + rest[0];
      assert c[n..] == rest[0];
    }
  }

  /** A turn reads the same in the chunk as in the script. */
  lemma SameTurn(m: Mode, s: string, chunk: string)
    requires s != [] && !Splits(m, s)
    requires var rest := s[Width(m, s)..]; chunk <= rest && (chunk == [] ==> rest == [] || rest[0] == ';')
    ensures var c := s[..Width(m, s)] + chunk;
      c != [] && !Splits(m, c) && Width(m, c) == Width(m, s) && Turn(m, c) == Turn(m, s)
  {
  }

  // ----- white space at the ends

  lemma {:induction false} StripLeftParts(s: string, space: char -> bool) returns (lead: string)
    ensures s == lead + StripLeft(s, space) && Blank(lead, space)
    ensures StripLeft(s, space) != [] ==> !space(StripLeft(s, space)[0])
  {
    if s != [] && space(s[0]) {
      var tail := StripLeftParts(s[1..], space);
      lead := [s[0]] + tail;
    } else {
      lead := [];
    }
  }

  lemma {:induction false} StripRightParts(s: string, space: char -> bool) returns (trail: string)
    ensures s == StripRight(s, space) + trail && Blank(trail, space)
    ensures StripRight(s, space) != [] ==> !space(StripRight(s, space)[|StripRight(s, space)| - 1])
  {
    if s != [] && space(s[|s| - 1]) {
      var head := StripRightParts(s[..|s| - 1], space);
      trail := head + [s[|s| - 1]];
    } else {
      trail := [];
    }
  }

  lemma StripParts(s: string, space: char -> bool) returns (lead: string, trail: string)
    ensures s == lead + (Strip(s, space) + trail)
    ensures Blank(lead, space) && Blank(trail, space) && Trimmed(Strip(s, space), space)
  {
    lead := StripLeftParts(s, space);
    trail := StripRightParts(StripLeft(s, space), space);
  }

  lemma {:induction false} StripRightUndoes(s: string, trail: string, space: char -> bool)
    requires Trimmed(s, space) && Blank(trail, space)
    ensures StripRight(s + trail, space) == s
    decreases |trail|
  {
    var n := |trail|;
    if n > 0 {
      assert (s + trail)[..|s + trail| - 1] == s + trail[..n - 1];
      StripRightUndoes(s, trail[..n - 1], space);
    } else {
      assert s + trail == s;
    }
  }

  lemma StripUndoes(s: string, trail: string, space: char -> bool)
    requires s != [] && Trimmed(s, space) && Blank(trail, space)
    ensures Strip(s + trail, space) == s
  {
    assert (s + trail)[0] == s[0];
    StripRightUndoes(s, trail, space);
  }

  lemma {:induction false} BlankIsPlain(w: string, x: string, space: char -> bool)
    requires Blank(w, space) && IsSpace(space)
    ensures After(Plain, w + x) == After(Plain, x) && Quiet(Plain, w + x) == Quiet(Plain, x)
    decreases |w|
  {
    if w == [] {
      assert w + x == x;
    } else {
      assert (w + x)[0] == w[0] && (w + x)[1..] == w[1..] + x;
      BlankIsPlain(w[1..], x, space);
    }
  }

  /** White space leaves quotes and block comments alone, and only closes line comments. */
  lemma {:induction false} BlankKeeps(m: Mode, w: string, space: char -> bool)
    requires Blank(w, space) && IsSpace(space)
    ensures After(m, w) == m || (m == Line && After(m, w) == Plain)
    decreases |w|
  {
    if w != [] {
      BlankKeeps(Turn(m, w), w[1..], space);
    }
  }

  /** A trimmed chunk is as quiet as the chunk, and a newline closes it if the chunk was closed. */
  lemma TrimmingKeeps(chunk: string, space: char -> bool)
    requires Quiet(Plain, chunk) && IsSpace(space)
    ensures Quiet(Plain, Strip(chunk, space))
    ensures After(Plain, chunk) == Plain ==> After(Plain, Strip(chunk, space)) in {Plain, Line}
  {
    var lead, trail := StripParts(chunk, space);
    var core := Strip(chunk, space);
    BlankIsPlain(lead, core + trail, space);
    assert Detached(trail);
    ReadsOn(Plain, core, trail);
    BlankKeeps(After(Plain, core), trail, space);
  }

  // ----- re-splitting

  /** What a list of statements must satisfy to survive: each is trimmed and quiet, and each but
      the last is closed by a newline. */
  ghost predicate Statements(list: seq<string>, space: char -> bool) {
    && (forall i :: 0 <= i < |list| ==> list[i] != [] && Trimmed(list[i], space) && Quiet(Plain, list[i]))
    && (forall i :: 0 <= i < |list| - 1 ==> After(Plain, list[i]) in {Plain, Line})
  }

  lemma StatementsGrow(first: string, rest: seq<string>, space: char -> bool)
    requires first != [] && Trimmed(first, space) && Quiet(Plain, first) && Statements(rest, space)
    requires rest != [] ==> After(Plain, first) in {Plain, Line}
    ensures Statements([first] + rest, space)
  {
  }

  lemma {:induction false} KeptAreStatements(chunks: seq<string>, space: char -> bool)
    requires WellCut(Plain, chunks) && IsSpace(space)
    ensures Statements(Kept(chunks, space), space)
    decreases |chunks|
  {
    TrimmingKeeps(chunks[0], space);
    var lead, trail := StripParts(chunks[0], space);
    var first, rest := Strip(chunks[0], space), Kept(chunks[1..], space);
    if |chunks| > 1 {
      KeptAreStatements(chunks[1..], space);
    } else {
      assert rest == [];
    }
    if first != [] {
      StatementsGrow(first, rest, space);
    } else {
      assert [] + rest == rest;
    }
  }

  /** Every produced statement is trimmed, not empty, and holds no splitting semicolon. */
  lemma SplitGivesStatements(script: string, space: char -> bool)
    requires IsSpace(space)
    ensures Statements(Split(script, space), space)
  {
    ChunksAreWellCut(Plain, script);
    KeptAreStatements(Chunks(Plain, script), space);
  }

  lemma ClosingNewline(m: Mode, rest: string)
    requires m == Plain || m == Line
    ensures Chunks(m, "\n;" + rest) == ["\n"] + Chunks(Plain, rest)
  {
    var s := "\n;" + rest;
    assert s[0] == '\n' && s[1..] == ";" + rest && (";" + rest)[1..] == rest;
    assert Width(m, s) == 1 && Turn(m, s) == Plain;
    assert Chunks(Plain, ";" + rest) == [[]] + Chunks(Plain, rest);
    assert s[..1] == "\n" && "\n" + [] == "\n";
  }

  lemma {:induction false} StatementsSurvive(list: seq<string>, space: char -> bool)
    requires IsSpace(space) && Statements(list, space)
    ensures Split(Joined(list, "\n;"), space) == list
    decreases |list|
  {
    if list == [] {
      KeptOne([], space);
    } else if |list| == 1 {
      QuietIsOneChunk(Plain, list[0]);
      KeptOne(list[0], space);
      StripUndoes(list[0], [], space);
      assert list[0] + [] == list[0] && list == [list[0]];
    } else {
      FirstSurvives(list[0], Joined(list[1..], "\n;"), space);
      StatementsSurvive(list[1..], space);
      assert list == [list[0]] + list[1..];
    }
  }

  lemma KeptOne(chunk: string, space: char -> bool)
    ensures Kept([chunk], space) == if Strip(chunk, space) != [] then [Strip(chunk, space)] else []
  {
  }

  lemma FirstSurvives(t: string, rest: string, space: char -> bool)
    requires IsSpace(space) && t != [] && Trimmed(t, space) && Quiet(Plain, t)
    requires After(Plain, t) == Plain || After(Plain, t) == Line
    ensures Split(t + "\n;" + rest, space) == [t] + Split(rest, space)
  {
    assert t + "\n;" + rest == t + ("\n;" + rest);
    ChunksReadOn(Plain, t, "\n;" + rest);
    ClosingNewline(After(Plain, t), rest);
    assert Chunks(Plain, t + ("\n;" + rest))[1..] == Chunks(Plain, rest);
    StripUndoes(t, "\n", space);
  }

  /** Splitting the statements again, joined with a newline and a semicolon, changes nothing. */
  lemma ResplitIsStable(script: string, space: char -> bool)
    requires IsSpace(space)
    ensures Split(Joined(Split(script, space), "\n;"), space) == Split(script, space)
  {
    SplitGivesStatements(script, space);
    StatementsSurvive(Split(script, space), space);
  }

  // ----- the loop

  /** Every script is spelled by pieces, and its statements are the trimmed texts between bare semicolons. */
  lemma SplitsPieces(script: string, space: char -> bool)
    ensures exists pieces :: Spells(pieces, script)
    ensures forall pieces :: Spells(pieces, script) ==> Split(script, space) == Kept(Renderings(Groups(pieces)), space)
  {
    var some := EveryScriptIsSpelled(script);
    forall pieces | Spells(pieces, script) ensures Split(script, space) == Kept(Renderings(Groups(pieces)), space) {
      CutsAtSemicolons(pieces);
    }
  }

  /** What the loop still owes after reading `i` characters. */
  ghost function Owed(current: string, m: Mode, rest: string, space: char -> bool): seq<string> {
    Kept(Prepend(current, Chunks(m, rest)), space)
  }

  lemma TakesTurn(current: string, m: Mode, rest: string, space: char -> bool)
    requires rest != [] && !Splits(m, rest)
    ensures var n := Width(m, rest);
      Owed(current, m, rest, space) == Owed(current + rest[..n], Turn(m, rest), rest[n..], space)
  {
    var n := Width(m, rest);
    PrependTwice(current, rest[..n], Chunks(Turn(m, rest), rest[n..]));
  }

  /** The list with a statement added, unless it is empty. */
  function Added(statements: seq<string>, statement: string): seq<string> {
    if statement != [] then statements + [statement] else statements
  }

  lemma TakesSplit(statements: seq<string>, current: string, rest: string, space: char -> bool)
    requires Splits(Plain, rest)
    ensures statements + Owed(current, Plain, rest, space)
      == Added(statements, Strip(current, space)) + Owed([], Plain, rest[1..], space)
  {
    var later := Chunks(Plain, rest[1..]);
    assert Prepend(current, [[]] + later) == [current] + later by { assert current + [] == current; }
    assert ([current] + later)[1..] == later;
    PrependNothing(later);
    assert Owed(current, Plain, rest, space) == Kept([current] + later, space);
  }

  lemma TakesEnd(statements: seq<string>, current: string, m: Mode, space: char -> bool)
    ensures statements + Owed(current, m, [], space) == Added(statements, Strip(current, space))
  {
    assert Prepend(current, [[]]) == [current] by { assert current + [] == current; }
    KeptOne(current, space);
  }

  /** The four flags of the loop; at most one is up. */
  datatype Flags = Flags(single: bool, double: bool, line: bool, block: bool)

  function FlagsOf(m: Mode): Flags {
    Flags(m == Single, m == Double, m == Line, m == Block)
  }

  /** One turn of the loop: the flags after it, how far it reads and whether it ends a statement. */
  method TakeTurn(script: string, i: nat, flags: Flags, ghost m: Mode) returns (next: Flags, n: nat, closes: bool)
    requires i < |script| && flags == FlagsOf(m)
    ensures n == Width(m, script[i..]) && next == FlagsOf(Turn(m, script[i..])) && closes == Splits(m, script[i..])
  {
    var c := script[i];
    var following := if i + 1 < |script| then script[i + 1..i + 2] else "";
    next, n, closes := flags, 1, false;
    if flags.line {
      next := next.(line := c != '\n');
    } else if flags.block {
      if c == '*' && following == "/" {
        next, n := next.(block := false), 2;
      }
    } else if !flags.single && !flags.double && c == '-' && following == "-" {
      next, n := next.(line := true), 2;
    } else if !flags.single && !flags.double && c == '/' && following == "*" {
      next, n := next.(block := true), 2;
    } else if c == '\'' && !flags.double {
      if flags.single && following == "\'" {
        n := 2;
      } else {
        next := next.(single := !flags.single);
      }
    } else if c == '"' && !flags.single {
      next := next.(double := !flags.double);
    } else if c == ';' && !flags.single && !flags.double {
      closes := true;
    }
  }

  /** `_split_sql_statements` */
  method SplitStatements(script: string, space: char -> bool) returns (statements: seq<string>)
    ensures statements == Split(script, space)
    ensures exists pieces :: Spells(pieces, script)
    ensures forall pieces :: Spells(pieces, script) ==> statements == Kept(Renderings(Groups(pieces)), space)
  {
    SplitsPieces(script, space);
    statements := [];
    var current, i, flags := "", 0, FlagsOf(Plain);
    ghost var m := Plain;
    PrependNothing(Chunks(Plain, script));
    assert script[0..] == script;
    while i < |script|
      invariant i <= |script| && flags == FlagsOf(m)
      invariant Split(script, space) == statements + Owed(current, m, script[i..], space)
    {
      ghost var rest := script[i..];
      var next, n, closes := TakeTurn(script, i, flags, m);
      if closes {
        TakesSplit(statements, current, rest, space);
        statements := Added(statements, Strip(current, space));
        current := "";
      } else {
        TakesTurn(current, m, rest, space);
        assert rest[..n] == script[i..i + n];
        current := current + script[i..i + n];
      }
      assert rest[n..] == script[i + n..];
      flags, i, m := next, i + n, Turn(m, rest);
    }
    TakesEnd(statements, current, m, space);
    assert script[i..] == [];
    statements := Added(statements, Strip(current, space));
  }
}
