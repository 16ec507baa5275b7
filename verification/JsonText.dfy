/** Compact JSON, as `json.dumps` writes it with the separators of evidence, and a reader after RFC 8259 without
    white space and numbers: what is written reads back, whatever follows it. */
module JsonText {
  import opened Numerals
  import opened Texts
  import opened Wrappers

  // ----- hexadecimal

  /** The lowest `width` hexadecimal digits, most significant first. */
  function HexDigits(n: nat, width: nat): (s: string)
    ensures |s| == width
  {
    if width == 0 then [] else HexDigits(n / 16, width - 1) + [Digit(n % 16)]
  }

  function Pow16(k: nat): nat {
    if k == 0 then 1 else 16 * Pow16(k - 1)
  }

  // ----- writing

  datatype Json = JsonString(text: string) | JsonBool(flag: bool) | JsonArray(items: seq<Json>)

  function EscapeChar(c: char): (s: string)
    ensures 1 <= |s| <= 6 && s[0] != '"'
  {
    match c
    case '"' => "\\\""
    case '\\' => "\\\\"
    case '\n' => "\\n"
    case '\r' => "\\r"
    case '\t' => "\\t"
    case '\U{0C}' => "\\f"
    case '\U{08}' => "\\b"
    case _ => if c as int < 32 then "\\u" + HexDigits(c as int, 4) else [c]
  }

  function Escape(s: string): string {
    if s == [] then [] else EscapeChar(s[0]) + Escape(s[1..])
  }

  function Quoted(s: string): string {
    "\"" + Escape(s) + "\""
  }

  /** `json.dumps(value, ensure_ascii=False, separators=(",", ":"))` */
  function Dump(j: Json): string {
    match j
    case JsonString(s) => Quoted(s)
    case JsonBool(b) => if b then "true" else "false"
    case JsonArray(items) => "[" + DumpItems(items, "")
  }

  function DumpItems(items: seq<Json>, separator: string): string {
    if items == [] then "]" else separator + Dump(items[0]) + DumpItems(items[1..], ",")
  }

  // ----- the reader

  function HexValue(c: char): Option<nat> {
    if '0' <= c <= '9' then Some(c as int - '0' as int)
    else if 'a' <= c <= 'f' then Some(10 + c as int - 'a' as int)
    else if 'A' <= c <= 'F' then Some(10 + c as int - 'A' as int)
    else None
  }

  function HexNumber(s: string): Option<nat> {
    if s == [] then Some(0)
    else
      var high, low := HexNumber(s[..|s| - 1]), HexValue(s[|s| - 1]);
      if high.Some? && low.Some? then Some(16 * high.value + low.value) else None
  }

  /** The character a two-character escape stands for. */
  function ShortEscape(c: char): Option<char> {
    match c
    case '"' => Some('"')
    case '\\' => Some('\\')
    case '/' => Some('/')
    case 'b' => Some('\U{08}')
    case 'f' => Some('\U{0C}')
    case 'n' => Some('\n')
    case 'r' => Some('\r')
    case 't' => Some('\t')
    case _ => None
  }

  /** The next character of a string, and how many were read for it. */
  function ReadChar(s: string): (r: Option<(char, nat)>)
    requires s != []
    ensures r.Some? ==> 1 <= r.value.1 <= |s|
  {
    if s[0] != '\\' then (if s[0] as int < 32 then None else Some((s[0], 1)))
    else if |s| == 1 then None
    else if s[1] == 'u' then
      if |s| < 6 then None
      else
        var code := HexNumber(s[2..6]);
        if code.Some? && code.value < 0xD800 then Some((code.value as char, 6)) else None
    else
      var c := ShortEscape(s[1]);
      if c.Some? then Some((c.value, 2)) else None
  }

  /** The rest of a string after its opening quote, and the text after its closing one. */
  function ReadString(s: string): (r: Option<(string, string)>)
    ensures r.Some? ==> |r.value.1| < |s|
    decreases |s|
  {
    if s == [] then None
    else if s[0] == '"' then Some(([], s[1..]))
    else
      var first := ReadChar(s);
      if first.None? then None
      else
        var rest := ReadString(s[first.value.1..]);
        if rest.None? then None else Some(([first.value.0] + rest.value.0, rest.value.1))
  }

  predicate StartsWith(s: string, t: string) {
    |t| <= |s| && s[..|t|] == t
  }

  /** A value, and the text after it. */
  function Read(s: string): (r: Option<(Json, string)>)
    ensures r.Some? ==> |r.value.1| < |s|
    decreases |s|, 0
  {
    if s == [] then None
    else if s[0] == '"' then
      var text := ReadString(s[1..]);
      if text.None? then None else Some((JsonString(text.value.0), text.value.1))
    else if StartsWith(s, "true") then Some((JsonBool(true), s[4..]))
    else if StartsWith(s, "false") then Some((JsonBool(false), s[5..]))
    else if s[0] == '[' then
      if StartsWith(s, "[]") then Some((JsonArray([]), s[2..]))
      else
        var items := ReadItems(s[1..]);
        if items.None? then None else Some((JsonArray(items.value.0), items.value.1))
    else None
  }

  /** At least one value, values between commas, and the closing bracket. */
  function ReadItems(s: string): (r: Option<(seq<Json>, string)>)
    ensures r.Some? ==> |r.value.1| < |s|
    decreases |s|, 1
  {
    var first := Read(s);
    if first.None? || first.value.1 == [] then None
    else
      var (item, after) := first.value;
      if after[0] == ']' then Some(([item], after[1..]))
      else if after[0] != ',' then None
      else
        var rest := ReadItems(after[1..]);
        if rest.None? then None else Some(([item] + rest.value.0, rest.value.1))
  }

  // ----- reading what was written

  /** The rest of a quoted text and what follows it. */
  function Closed(s: string, x: string): string {
    Escape(s) + "\"" + x
  }

  lemma QuotedStep(s: string, x: string)
    requires s != []
    ensures Closed(s, x) == EscapeChar(s[0]) + Closed(s[1..], x)
  {
  }

  lemma FirstOfEscaped(s: string, x: string)
    ensures Closed(s, x) != []
    ensures Closed(s, x)[0] == '"' <==> s == []
    ensures s == [] ==> Closed(s, x) == "\"" + x
  {
  }

  lemma FirstOfItems(items: seq<Json>, separator: string, x: string)
    requires separator == "" || separator == ","
    ensures DumpItems(items, separator) != []
    ensures (DumpItems(items, separator) + x)[0] == ']' <==> items == []
  {
  }

  lemma {:induction false} HexDigitsHaveValue(n: nat, width: nat)
    requires n < Pow16(width)
    ensures HexNumber(HexDigits(n, width)) == Some(n)
    decreases width
  {
    if width > 0 {
      HexDigitsHaveValue(n / 16, width - 1);
      var s := HexDigits(n, width);
      assert s[..width - 1] == HexDigits(n / 16, width - 1) && s[width - 1] == Digit(n % 16);
      DigitHasValue(n % 16);
    }
  }

  lemma DigitHasValue(d: nat)
    requires d < 16
    ensures HexValue(Digit(d)) == Some(d)
  {
  }

  lemma ReadsChar(c: char, x: string)
    ensures EscapeChar(c)[0] != '"'
    ensures ReadChar(EscapeChar(c) + x) == Some((c, |EscapeChar(c)|))
  {
    var e := EscapeChar(c);
    var s := e + x;
    assert s[0] == e[0] && (|e| > 1 ==> s[1] == e[1]);
    if |e| == 6 {
      assert s[2..6] == HexDigits(c as int, 4) by { assert e == "\\u" + HexDigits(c as int, 4); }
      assert Pow16(4) == 65536 by { FourDigits(); }
      HexDigitsHaveValue(c as int, 4);
    }
  }

  lemma FourDigits()
    ensures Pow16(4) == 65536
  {
    assert Pow16(1) == 16 && Pow16(2) == 256 && Pow16(3) == 4096;
  }

  lemma {:induction false} ReadsString(s: string, x: string)
    ensures ReadString(Closed(s, x)) == Some((s, x))
  {
    if s == [] {
      FirstOfEscaped(s, x);
    } else {
      QuotedStep(s, x);
      var e, rest := EscapeChar(s[0]), Closed(s[1..], x);
      ReadsChar(s[0], rest);
      ReadsString(s[1..], x);
      assert (e + rest)[0] == e[0] && (e + rest)[|e|..] == rest;
      Cons(s);
    }
  }

  lemma ReadsQuoted(text: string, x: string)
    ensures Read(Dump(JsonString(text)) + x) == Some((JsonString(text), x))
  {
    assert Dump(JsonString(text)) + x == "\"" + Closed(text, x);
    ReadsString(text, x);
    assert ("\"" + Closed(text, x))[1..] == Closed(text, x);
  }

  lemma ReadsArray(items: seq<Json>, x: string)
    requires items != [] ==> ReadItems(DumpItems(items, "") + x) == Some((items, x))
    ensures Read(Dump(JsonArray(items)) + x) == Some((JsonArray(items), x))
  {
    var s := Dump(JsonArray(items)) + x;
    if items == [] {
      assert s == "[]" + x;
      ReadsEmpty(s, x);
    } else {
      Opens(items, x);
      ReadsOpened(s, items, x);
    }
  }

  lemma ReadsEmpty(s: string, x: string)
    requires s == "[]" + x
    ensures Read(s) == Some((JsonArray([]), x))
  {
    assert s[0] == '[' && s[..2] == "[]" && s[2..] == x;
    NoLiteral(s);
  }

  lemma ReadsOpened(s: string, items: seq<Json>, x: string)
    requires s != [] && s[0] == '[' && !StartsWith(s, "[]") && ReadItems(s[1..]) == Some((items, x))
    ensures Read(s) == Some((JsonArray(items), x))
  {
    NoLiteral(s);
  }

  lemma NoLiteral(s: string)
    requires s != [] && s[0] == '['
    ensures !StartsWith(s, "true") && !StartsWith(s, "false")
  {
    assert |s| >= 4 ==> s[..4][0] == '[';
    assert |s| >= 5 ==> s[..5][0] == '[';
  }

  /** Every written value reads back, and what follows it is left over. */
  lemma {:induction false} ReadsBack(j: Json, x: string)
    ensures Read(Dump(j) + x) == Some((j, x))
    decreases j, 0
  {
    match j
    case JsonString(text) => ReadsQuoted(text, x);
    case JsonBool(flag) => ReadsBool(flag, x);
    case JsonArray(items) =>
      if items != [] {
        ReadsItems(items, x);
      }
      ReadsArray(items, x);
  }

  lemma ReadsBool(flag: bool, x: string)
    ensures Read(Dump(JsonBool(flag)) + x) == Some((JsonBool(flag), x))
  {
    var s := Dump(JsonBool(flag)) + x;
    if flag {
      assert s[..4] == "true" && s[4..] == x;
    } else {
      assert s[..5] == "false" && s[5..] == x;
    }
  }

  lemma Opens(items: seq<Json>, x: string)
    requires items != []
    ensures var s := Dump(JsonArray(items)) + x;
      s != [] && s[0] == '[' && !StartsWith(s, "[]") && s[1..] == DumpItems(items, "") + x
  {
    FirstOfItems(items, "", x);
    Regroup("[", DumpItems(items, ""), x);
    OpensWith(DumpItems(items, "") + x);
  }

  lemma OpensWith(rest: string)
    requires rest != [] && rest[0] != ']'
    ensures ("[" + rest)[0] == '[' && ("[" + rest)[1..] == rest && !StartsWith("[" + rest, "[]")
  {
    assert ("[" + rest)[..2][1] == rest[0];
  }

  lemma {:induction false} ReadsItems(items: seq<Json>, x: string)
    requires items != []
    ensures ReadItems(DumpItems(items, "") + x) == Some((items, x))
    decreases items, 1
  {
    var rest := items[1..];
    var after := DumpItems(rest, ",") + x;
    assert DumpItems(items, "") + x == Dump(items[0]) + after;
    ReadsBack(items[0], after);
    Cons(items);
    if rest == [] {
      assert after == "]" + x && items == [items[0]];
      ReadsLast(Dump(items[0]) + after, items[0], after, x);
    } else {
      Commas(rest, x);
      ReadsItems(rest, x);
      ReadsMore(Dump(items[0]) + after, items[0], after, rest, x);
    }
  }

  lemma ReadsLast(s: string, item: Json, after: string, x: string)
    requires Read(s) == Some((item, after)) && after == "]" + x
    ensures ReadItems(s) == Some(([item], x))
  {
    assert after[1..] == x;
  }

  lemma ReadsMore(s: string, item: Json, after: string, rest: seq<Json>, x: string)
    requires Read(s) == Some((item, after)) && after != [] && after[0] == ','
    requires ReadItems(after[1..]) == Some((rest, x))
    ensures ReadItems(s) == Some(([item] + rest, x))
  {
  }

  lemma Commas(items: seq<Json>, x: string)
    requires items != []
    ensures var after := DumpItems(items, ",") + x;
      after != [] && after[0] == ',' && after[1..] == DumpItems(items, "") + x
  {
    assert DumpItems(items, ",") + x == "," + (DumpItems(items, "") + x);
  }

  /** Written JSON is a prefix code: what follows a value never changes how it reads. */
  lemma DumpIsPrefixCode(j: Json, k: Json, x: string, y: string)
    requires Dump(j) + x == Dump(k) + y
    ensures j == k && x == y
  {
    ReadsBack(j, x);
    ReadsBack(k, y);
  }
}
