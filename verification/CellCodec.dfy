/** The row codec of result transcripts: cells as escaped tokens, a row as tokens between tabs. */
module CellCodec {
  import opened Wrappers

  /** A value as fetched: SQL NULL, a string, or anything else; `normalized` is its normalized text. */
  datatype Raw = Null | Text(text: string, normalized: string) | Other(normalized: string)

  /** What a transcript must preserve of a value. */
  function Meaning(raw: Raw): Option<string> {
    match raw
    case Null => None
    case Text(text, normalized) => if text == "" then Some("") else Some(normalized)
    case Other(normalized) => Some(normalized)
  }

  predicate Reserved(s: string) { s == "NULL" || s == "(empty)" }

  // ----- texts

  /** `str.replace` of one character */
  function Replace(s: string, c: char, substitute: string): string {
    if s == [] then [] else (if s[0] == c then substitute else [s[0]]) + Replace(s[1..], c, substitute)
  }

  /** `_encode_text`: four replacements, one after the other */
  function EncodeText(s: string): string {
    Replace(Replace(Replace(Replace(s, '\\', "\\\\"), '\t', "\\t"), '\n', "\\n"), '\r', "\\r")
  }

  function Unescaped(c: char): char {
    match c case 't' => '\t' case 'n' => '\n' case 'r' => '\r' case _ => c
  }

  /** How many characters the next decoded one was written with: a lone last backslash stands for itself. */
  function Taken(s: string): (n: nat)
    requires s != []
    ensures 1 <= n <= 2 && n <= |s|
  {
    if s[0] == '\\' && |s| > 1 then 2 else 1
  }

  function Next(s: string): char
    requires s != []
  {
    if Taken(s) == 2 then Unescaped(s[1]) else s[0]
  }

  /** `_decode_text`, read from the left */
  function Decoded(s: string): string {
    if s == [] then [] else [Next(s)] + Decoded(s[Taken(s)..])
  }

  method DecodeText(s: string) returns (result: string)
    ensures result == Decoded(s)
  {
    result := "";
    var i := 0;
    while i < |s|
      invariant i <= |s|
      invariant Decoded(s) == result + Decoded(s[i..])
    {
      ghost var rest := s[i..];
      DecodedStep(result, rest);
      TakenAt(s, i);
      if s[i] != '\\' || i + 1 >= |s| {
        result := result + [s[i]];
        i := i + 1;
      } else {
        result := result + [Unescaped(s[i + 1])];
        i := i + 2;
      }
    }
  }

  lemma DecodedStep(done: string, s: string)
    requires s != []
    ensures done + Decoded(s) == done + [Next(s)] + Decoded(s[Taken(s)..])
  {
  }

  lemma TakenAt(s: string, i: nat)
    requires i < |s|
    ensures Taken(s[i..]) == (if s[i] == '\\' && i + 1 < |s| then 2 else 1)
    ensures Next(s[i..]) == if s[i] == '\\' && i + 1 < |s| then Unescaped(s[i + 1]) else s[i]
    ensures s[i..][Taken(s[i..])..] == s[i + Taken(s[i..])..]
  {
  }

  /** What the four replacements make of one character. */
  function EscapeChar(c: char): (e: string)
    ensures 1 <= |e| <= 2
    ensures |e| == 1 <==> c !in "\\\t\n\r"
    ensures |e| == 2 ==> e[0] == '\\' && Unescaped(e[1]) == c
  {
    match c case '\\' => "\\\\" case '\t' => "\\t" case '\n' => "\\n" case '\r' => "\\r" case _ => [c]
  }

  lemma {:induction false} ReplaceConcat(a: string, b: string, c: char, substitute: string)
    ensures Replace(a + b, c, substitute) == Replace(a, c, substitute) + Replace(b, c, substitute)
    decreases |a|
  {
    if a == [] {
      assert a + b == b;
    } else {
      assert (a + b)[1..] == a[1..] + b && (a + b)[0] == a[0];
      ReplaceConcat(a[1..], b, c, substitute);
    }
  }

  lemma EncodeConcat(a: string, b: string)
    ensures EncodeText(a + b) == EncodeText(a) + EncodeText(b)
  {
    var a1, b1 := Replace(a, '\\', "\\\\"), Replace(b, '\\', "\\\\");
    var a2, b2 := Replace(a1, '\t', "\\t"), Replace(b1, '\t', "\\t");
    var a3, b3 := Replace(a2, '\n', "\\n"), Replace(b2, '\n', "\\n");
    ReplaceConcat(a, b, '\\', "\\\\");
    ReplaceConcat(a1, b1, '\t', "\\t");
    ReplaceConcat(a2, b2, '\n', "\\n");
    ReplaceConcat(a3, b3, '\r', "\\r");
  }

  lemma ReplaceOne(c: char, d: char, substitute: string)
    ensures Replace([c], d, substitute) == if c == d then substitute else [c]
  {
  }

  /** No replacement touches what an earlier one wrote. */
  lemma ReplaceTwo(e: string, d: char, substitute: string)
    requires |e| == 2 && d !in e
    ensures Replace(e, d, substitute) == e
  {
    assert e == [e[0]] + [e[1]];
    ReplaceConcat([e[0]], [e[1]], d, substitute);
    ReplaceOne(e[0], d, substitute);
    ReplaceOne(e[1], d, substitute);
  }

  lemma EncodeOne(c: char)
    ensures EncodeText([c]) == EscapeChar(c)
  {
    ReplaceOne(c, '\\', "\\\\");
    ReplaceOne(c, '\t', "\\t");
    ReplaceOne(c, '\n', "\\n");
    ReplaceOne(c, '\r', "\\r");
    ReplaceTwo("\\\\", '\t', "\\t");
    ReplaceTwo("\\\\", '\n', "\\n");
    ReplaceTwo("\\\\", '\r', "\\r");
    ReplaceTwo("\\t", '\n', "\\n");
    ReplaceTwo("\\t", '\r', "\\r");
    ReplaceTwo("\\n", '\r', "\\r");
  }

  /** The sequential replacements work character by character. */
  lemma EncodeStep(s: string)
    requires s != []
    ensures EncodeText(s) == EscapeChar(s[0]) + EncodeText(s[1..])
  {
    assert s == [s[0]] + s[1..];
    EncodeConcat([s[0]], s[1..]);
    EncodeOne(s[0]);
  }

  /** The wire form of every character: four are escaped, all others stand for themselves. */
  lemma WireForm(c: char)
    ensures c == '\\' ==> EncodeText([c]) == "\\\\"
    ensures c == '\t' ==> EncodeText([c]) == "\\t"
    ensures c == '\n' ==> EncodeText([c]) == "\\n"
    ensures c == '\r' ==> EncodeText([c]) == "\\r"
    ensures c !in "\\\t\n\r" ==> EncodeText([c]) == [c]
  {
    EncodeOne(c);
  }

  predicate OneLineOneCell(s: string) {
    forall i :: 0 <= i < |s| ==> s[i] !in "\t\n\r"
  }

  lemma {:induction false} TextRoundTrip(s: string)
    ensures Decoded(EncodeText(s)) == s
    ensures OneLineOneCell(EncodeText(s))
  {
    if s != [] {
      EncodeStep(s);
      TextRoundTrip(s[1..]);
      var e, rest := EscapeChar(s[0]), EncodeText(s[1..]);
      assert (e + rest)[|e|..] == rest && (e + rest)[0] == e[0];
      assert |e| == 2 ==> (e + rest)[1] == e[1];
      assert s == [s[0]] + s[1..];
    }
  }

  /** A text without special characters is its own encoding, and no other text has that encoding. */
  lemma PlainTokens(s: string, t: string)
    requires forall i :: 0 <= i < |t| ==> t[i] !in "\\\t\n\r"
    ensures EncodeText(s) == t <==> s == t
  {
    TextRoundTrip(s);
    PlainIsItself(t);
    TextRoundTrip(t);
  }

  lemma {:induction false} PlainIsItself(t: string)
    requires forall i :: 0 <= i < |t| ==> t[i] !in "\\\t\n\r"
    ensures EncodeText(t) == t
  {
    if t != [] {
      EncodeStep(t);
      PlainIsItself(t[1..]);
      assert t == [t[0]] + t[1..];
    }
  }

  /** The encoder writes a backslash only before a backslash, t, n or r. */
  lemma BackslashIsFollowed(s: string)
    ensures var e := EncodeText(s); e != [] && e[0] == '\\' ==> |e| > 1 && e[1] in "\\tnr"
  {
    if s != [] {
      EncodeStep(s);
    }
  }

  // ----- cells

  /** `encode_cell` */
  function EncodeCell(raw: Raw): string {
    if raw.Null? then "NULL"
    else if raw.Text? && raw.text == "" then "(empty)"
    else
      var encoded := EncodeText(raw.normalized);
      if Reserved(encoded) then "\\" + encoded else encoded
  }

  /** `decode_cell` */
  function DecodeCell(token: string): Option<string> {
    if token == "NULL" then None
    else if token == "(empty)" then Some("")
    else if token == "\\NULL" then Some("NULL")
    else if token == "\\(empty)" then Some("(empty)")
    else Some(Decoded(token))
  }

  lemma ReservedIsPlain(s: string)
    ensures Reserved(EncodeText(s)) <==> Reserved(s)
    ensures Reserved(s) ==> EncodeText(s) == s
  {
    PlainTokens(s, "NULL");
    PlainTokens(s, "(empty)");
  }

  lemma ReservedRoundTrip(text: string)
    requires Reserved(text)
    ensures DecodeCell("\\" + text) == Some(text) && OneLineOneCell("\\" + text)
  {
  }

  /** Every value comes back: NULL, the empty string, and every other text, reserved or not. */
  lemma CellRoundTrip(raw: Raw)
    ensures DecodeCell(EncodeCell(raw)) == Meaning(raw)
    ensures OneLineOneCell(EncodeCell(raw))
  {
    if !raw.Null? && !(raw.Text? && raw.text == "") {
      var text := raw.normalized;
      ReservedIsPlain(text);
      if Reserved(text) {
        ReservedRoundTrip(text);
        assert EncodeCell(raw) == "\\" + text;
      } else {
        FallbackRoundTrip(text);
        assert EncodeCell(raw) == EncodeText(text);
      }
      assert Meaning(raw) == Some(text);
    }
  }

  /** A text written without its raw value comes back if and only if it is no reserved token. */
  lemma FallbackRoundTrip(text: string)
    ensures DecodeCell(EncodeText(text)) == Some(text) <==> !Reserved(text)
    ensures OneLineOneCell(EncodeText(text))
  {
    TextRoundTrip(text);
    BackslashIsFollowed(text);
    PlainTokens(text, "NULL");
    PlainTokens(text, "(empty)");
  }

  // ----- rows

  function JoinTabs(tokens: seq<string>): string {
    if tokens == [] then [] else if |tokens| == 1 then tokens[0] else tokens[0] + "\t" + JoinTabs(tokens[1..])
  }

  function Prepend(c: char, parts: seq<string>): (r: seq<string>)
    requires parts != []
    ensures r != []
  {
    [[c] + parts[0]] + parts[1..]
  }

  /** `line.split("\t")` */
  function SplitTabs(line: string): (parts: seq<string>)
    ensures parts != []
  {
    if line == [] then [[]]
    else if line[0] == '\t' then [[]] + SplitTabs(line[1..])
    else Prepend(line[0], SplitTabs(line[1..]))
  }

  lemma {:induction false} SplitOne(token: string)
    requires OneLineOneCell(token)
    ensures SplitTabs(token) == [token]
  {
    if token != [] {
      assert token[0] !in "\t\n\r";
      SplitOne(token[1..]);
      assert token == [token[0]] + token[1..];
    }
  }

  lemma {:induction false} SplitFirst(token: string, rest: string)
    requires OneLineOneCell(token)
    ensures SplitTabs(token + "\t" + rest) == [token] + SplitTabs(rest)
    decreases |token|
  {
    var line := token + "\t" + rest;
    if token == [] {
      assert line[1..] == rest;
    } else {
      assert token[0] !in "\t\n\r";
      assert line[0] == token[0] && line[1..] == token[1..] + "\t" + rest;
      SplitFirst(token[1..], rest);
      assert token == [token[0]] + token[1..];
    }
  }

  /** Splitting at tabs undoes joining with tabs, for at least one token. */
  lemma {:induction false} TokensRoundTrip(tokens: seq<string>)
    requires tokens != [] && forall i :: 0 <= i < |tokens| ==> OneLineOneCell(tokens[i])
    ensures SplitTabs(JoinTabs(tokens)) == tokens
  {
    if |tokens| == 1 {
      SplitOne(tokens[0]);
    } else {
      SplitFirst(tokens[0], JoinTabs(tokens[1..]));
      TokensRoundTrip(tokens[1..]);
      assert tokens == [tokens[0]] + tokens[1..];
    }
  }

  /** One output row: normalized texts, and the raw values of a prefix of them. */
  datatype Output = Output(normalized: seq<string>, raw: seq<Raw>)

  function Token(row: Output, i: nat): string
    requires i < |row.normalized|
  {
    if i < |row.raw| then EncodeCell(row.raw[i]) else EncodeText(row.normalized[i])
  }

  function Tokens(row: Output): seq<string> {
    seq(|row.normalized|, i requires 0 <= i < |row.normalized| => Token(row, i))
  }

  /** `_encode_row` */
  method EncodeRow(row: Output) returns (line: string)
    ensures line == JoinTabs(Tokens(row))
  {
    var tokens: seq<string> := [];
    for i := 0 to |row.normalized|
      invariant |tokens| == i && forall j :: 0 <= j < i ==> tokens[j] == Token(row, j)
    {
      if i < |row.raw| {
        tokens := tokens + [EncodeCell(row.raw[i])];
      } else {
        tokens := tokens + [EncodeText(row.normalized[i])];
      }
    }
    assert tokens == Tokens(row);
    line := JoinTabs(tokens);
  }

  /** `_decode_row_tokens` of a split line */
  function DecodeRow(line: string): seq<Option<string>> {
    var tokens := SplitTabs(line);
    seq(|tokens|, i requires 0 <= i < |tokens| => DecodeCell(tokens[i]))
  }

  /** What the row says: the raw value where there is one, the normalized text elsewhere. */
  function Said(row: Output): seq<Option<string>> {
    seq(|row.normalized|, i requires 0 <= i < |row.normalized| =>
      if i < |row.raw| then Meaning(row.raw[i]) else Some(row.normalized[i]))
  }

  ghost predicate Ambiguous(row: Output, i: nat) {
    |row.raw| <= i < |row.normalized| && Reserved(row.normalized[i])
  }

  lemma TokenRoundTrip(row: Output, i: nat)
    requires i < |row.normalized|
    ensures OneLineOneCell(Token(row, i))
    ensures DecodeCell(Token(row, i)) == Said(row)[i] <==> !Ambiguous(row, i)
  {
    if i < |row.raw| {
      CellRoundTrip(row.raw[i]);
    } else {
      FallbackRoundTrip(row.normalized[i]);
    }
  }

  /** A row of at least one cell comes back from its line if and only if every reserved text in it
      has its raw value. */
  lemma RowRoundTrip(row: Output)
    requires row.normalized != []
    ensures DecodeRow(JoinTabs(Tokens(row))) == Said(row) <==>
      forall i: nat :: i < |row.normalized| ==> !Ambiguous(row, i)
  {
    var tokens := Tokens(row);
    forall i: nat | i < |tokens|
      ensures OneLineOneCell(tokens[i]) && (DecodeCell(tokens[i]) == Said(row)[i] <==> !Ambiguous(row, i))
    {
      TokenRoundTrip(row, i);
    }
    TokensRoundTrip(tokens);
    var decoded := DecodeRow(JoinTabs(tokens));
    assert |decoded| == |tokens| == |Said(row)|;
    assert forall i: nat :: i < |tokens| ==> decoded[i] == DecodeCell(tokens[i]);
    if decoded == Said(row) {
      forall i: nat | i < |row.normalized| ensures !Ambiguous(row, i) { assert decoded[i] == Said(row)[i]; }
    }
  }

  /** Rows whose values were all fetched always come back. */
  lemma FetchedRowRoundTrip(row: Output)
    requires row.normalized != [] && |row.raw| >= |row.normalized|
    ensures DecodeRow(JoinTabs(Tokens(row))) == Said(row)
    ensures forall i :: 0 <= i < |row.normalized| ==> Said(row)[i] == Meaning(row.raw[i])
  {
    RowRoundTrip(row);
  }

  /** A missing raw value turns the text NULL into SQL NULL. */
  lemma FallbackLosesReserved()
    ensures DecodeRow(JoinTabs(Tokens(Output(["NULL"], [])))) != Said(Output(["NULL"], []))
  {
    var row := Output(["NULL"], []);
    assert Ambiguous(row, 0);
    RowRoundTrip(row);
  }

  /** A row of no cells reads back as one empty string. */
  lemma EmptyRow(raw: seq<Raw>)
    ensures DecodeRow(JoinTabs(Tokens(Output([], raw)))) == [Some("")]
  {
  }
}
