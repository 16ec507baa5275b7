/** The canonical evidence encoding of result rows: a tagged JSON value written without spaces. */
module Evidence {
  import opened ExactValues
  import opened JsonText
  import opened Numerals
  import opened Texts
  import opened Wrappers

  // ----- values

  const UNIT: nat := 0x10_0000_0000_0000

  /** A finite double: a significand of 53 bits and an exponent. */
  datatype Double = Double(negative: bool, significand: nat, exponent: int)

  datatype Value = Null | Boolean(flag: bool) | Exact(number: Fraction) | Float(double: Double) | Text(text: string)

  type Row = seq<Value>

  /** The doubles a result may hold: one representation each, and one zero. */
  predicate CanonicalDouble(d: Double) {
    && d.significand < 2 * UNIT
    && (d.significand < UNIT ==> d.exponent == -1022)
    && (d.significand == 0 ==> !d.negative)
  }

  ghost predicate Canonical(v: Value) {
    && (v.Exact? ==> Reduced(v.number))
    && (v.Float? ==> CanonicalDouble(v.double))
  }

  ghost predicate CanonicalRow(row: Row) {
    forall i :: 0 <= i < |row| ==> Canonical(row[i])
  }

  function HexBody(lead: char, part: string, exponent: string): string {
    "0x" + [lead] + "." + part + "p" + exponent
  }

  function HexExponent(e: int): string {
    if e < 0 then Numeral(e) else "+" + Numeral(e)
  }

  /** `float.hex` */
  function HexText(d: Double): string {
    HexTextOf(d, 13)
  }

  function HexTextOf(d: Double, width: nat): string {
    if d.significand == 0 then "0x0.0p+0"
    else
      var lead := Digit(if d.significand < UNIT then 0 else 1);
      var body := HexBody(lead, HexDigits(d.significand % UNIT, width), HexExponent(d.exponent));
      if d.negative then "-" + body else body
  }

  // ----- evidence

  /** `evidence_value` of a scalar */
  function EvidenceOf(v: Value): Json {
    match v
    case Null => JsonArray([JsonString("null")])
    case Boolean(b) => JsonArray([JsonString("boolean"), JsonBool(b)])
    case Exact(f) =>
      JsonArray([JsonString("exact"), JsonString(Numeral(f.numerator)), JsonString(Numeral(f.denominator))])
    case Float(d) => JsonArray([JsonString("binary-float"), JsonString(HexText(d))])
    case Text(s) => JsonArray([JsonString("text"), JsonString(s)])
  }

  /** `evidence_value` of a row */
  function RowEvidence(row: Row): Json {
    JsonArray([JsonString("row"), JsonArray(EvidenceAll(row))])
  }

  function EvidenceAll(row: Row): seq<Json> {
    seq(|row|, i requires 0 <= i < |row| => EvidenceOf(row[i]))
  }

  /** `evidence_bytes`, before UTF-8 */
  function EvidenceText(row: Row): string {
    Dump(RowEvidence(row))
  }

  // ----- reading evidence

  /** An exponent with its sign. */
  function ReadExponent(s: string): Option<int> {
    if s != [] && s[0] == '+' && IsDecimal(s[1..]) then Some(ValueOf(s[1..]))
    else if s != [] && s[0] == '-' then IntOf(s)
    else None
  }

  function Significand(whole: nat, part: nat): nat {
    whole * UNIT + part
  }

  /** A hexadecimal float without its sign: one digit, a point, thirteen digits and a power of two. */
  function ReadMagnitude(s: string): Option<(nat, int)> {
    if |s| < 18 || s[..2] != "0x" || s[3] != '.' || s[17] != 'p' then None
    else
      var whole, part, exponent := HexNumber(s[2..3]), HexNumber(s[4..17]), ReadExponent(s[18..]);
      if whole.Some? && part.Some? && exponent.Some? then Some((Significand(whole.value, part.value), exponent.value))
      else None
  }

  function ReadHex(s: string): Option<Double> {
    if s == "0x0.0p+0" then Some(Double(false, 0, -1022))
    else
      var negative := s != [] && s[0] == '-';
      var magnitude := ReadMagnitude(if negative then s[1..] else s);
      if magnitude.Some? then Some(Double(negative, magnitude.value.0, magnitude.value.1)) else None
  }

  /** A tagged value. */
  function ReadValue(j: Json): Option<Value> {
    if !j.JsonArray? || j.items == [] || !j.items[0].JsonString? then None
    else
      var tag, n := j.items[0].text, |j.items|;
      if tag == "null" && n == 1 then Some(Null)
      else if tag == "boolean" && n == 2 && j.items[1].JsonBool? then Some(Boolean(j.items[1].flag))
      else if tag == "text" && n == 2 && j.items[1].JsonString? then Some(Text(j.items[1].text))
      else if tag == "binary-float" && n == 2 && j.items[1].JsonString? then
        var double := ReadHex(j.items[1].text);
        if double.Some? then Some(Float(double.value)) else None
      else if tag == "exact" && n == 3 && j.items[1].JsonString? && j.items[2].JsonString? then
        var numerator, denominator := IntOf(j.items[1].text), IntOf(j.items[2].text);
        if numerator.Some? && denominator.Some? then Some(Exact(Fraction(numerator.value, denominator.value))) else None
      else None
  }

  function ReadValues(items: seq<Json>): Option<Row> {
    if items == [] then Some([])
    else
      var first, rest := ReadValue(items[0]), ReadValues(items[1..]);
      if first.Some? && rest.Some? then Some([first.value] + rest.value) else None
  }

  /** A row and the text after it. */
  function ReadRow(s: string): Option<(Row, string)> {
    var j := Read(s);
    if j.Some? && j.value.0.JsonArray? && |j.value.0.items| == 2 && j.value.0.items[0] == JsonString("row")
       && j.value.0.items[1].JsonArray? then
      var row := ReadValues(j.value.0.items[1].items);
      if row.Some? then Some((row.value, j.value.1)) else None
    else None
  }

  // ----- what is written reads back

  lemma ThirteenDigits()
    ensures Pow16(13) == UNIT
  {
  }

  lemma ExponentReadsBack(e: int)
    ensures ReadExponent(HexExponent(e)) == Some(e)
  {
    if e < 0 {
      NumeralHasValue(e);
      assert Numeral(e)[0] == '-';
    } else {
      DecimalsHaveValue(Magnitude(e));
      assert HexExponent(e)[0] == '+' && HexExponent(e)[1..] == Decimals(Magnitude(e));
    }
  }

  lemma HexParts(lead: char, part: string, exponent: string)
    requires |part| == 13
    ensures var s := HexBody(lead, part, exponent);
      && |s| >= 18 && s[..2] == "0x" && s[2..3] == [lead] && s[3] == '.' && s[4..17] == part && s[17] == 'p'
      && s[18..] == exponent && s[0] == '0'
  {
  }

  lemma OneDigit(d: nat)
    requires d < 2
    ensures HexNumber([Digit(d)]) == Some(d)
  {
    DigitHasValue(d);
    assert [Digit(d)][..0] == [];
  }

  lemma BodyReadsBack(whole: nat, part: string, p: nat, exponent: int)
    requires whole < 2 && |part| == 13 && HexNumber(part) == Some(p)
    ensures var s := HexBody(Digit(whole), part, HexExponent(exponent));
      ReadMagnitude(s) == Some((Significand(whole, p), exponent)) && s[0] == '0' && |s| >= 18
  {
    HexParts(Digit(whole), part, HexExponent(exponent));
    OneDigit(whole);
    ExponentReadsBack(exponent);
  }

  lemma SignedReadsBack(negative: bool, whole: nat, part: string, p: nat, exponent: int)
    requires whole < 2 && |part| == 13 && HexNumber(part) == Some(p)
    ensures var s := HexBody(Digit(whole), part, HexExponent(exponent));
      ReadHex(if negative then "-" + s else s) == Some(Double(negative, Significand(whole, p), exponent))
  {
    var s := HexBody(Digit(whole), part, HexExponent(exponent));
    BodyReadsBack(whole, part, p, exponent);
    assert ("-" + s)[0] == '-' && ("-" + s)[1..] == s;
  }

  lemma PartHasValue(significand: nat, width: nat)
    requires width == 13
    ensures HexNumber(HexDigits(significand % UNIT, width)) == Some(significand % UNIT)
  {
    ThirteenDigits();
    HexDigitsHaveValue(significand % UNIT, width);
  }

  lemma Recombines(significand: nat)
    requires significand < 2 * UNIT
    ensures Significand(if significand < UNIT then 0 else 1, significand % UNIT) == significand
  {
  }

  /** A double reads back from its hexadecimal text. */
  lemma HexReadsBack(d: Double, width: nat)
    requires CanonicalDouble(d) && width == 13
    ensures ReadHex(HexTextOf(d, width)) == Some(d)
  {
    if d.significand != 0 {
      var whole, part := if d.significand < UNIT then 0 else 1, HexDigits(d.significand % UNIT, width);
      var body := HexBody(Digit(whole), part, HexExponent(d.exponent));
      PartHasValue(d.significand, width);
      Recombines(d.significand);
      var text := if d.negative then "-" + body else body;
      assert ReadHex(text) == Some(d) by {
        SignedReadsBack(d.negative, whole, part, d.significand % UNIT, d.exponent);
      }
      assert HexTextOf(d, width) == text;
    }
  }

  /** Every canonical scalar reads back from its evidence. */
  lemma ValueReadsBack(v: Value)
    requires Canonical(v)
    ensures ReadValue(EvidenceOf(v)) == Some(v)
  {
    match v
    case Null =>
    case Boolean(_) =>
    case Exact(f) => ExactReadsBack(f);
    case Float(d) => FloatReadsBack(d, HexText(d));
    case Text(_) =>
  }

  lemma ExactReadsBack(f: Fraction)
    ensures ReadValue(EvidenceOf(Exact(f))) == Some(Exact(f))
  {
    NumeralHasValue(f.numerator);
    NumeralHasValue(f.denominator);
  }

  lemma FloatReadsBack(d: Double, text: string)
    requires CanonicalDouble(d) && text == HexText(d)
    ensures ReadValue(JsonArray([JsonString("binary-float"), JsonString(text)])) == Some(Float(d))
  {
    HexReadsBack(d, 13);
  }

  lemma {:induction false} ValuesReadBack(row: Row)
    requires CanonicalRow(row)
    ensures ReadValues(EvidenceAll(row)) == Some(row)
  {
    if row != [] {
      ValueReadsBack(row[0]);
      ValuesReadBack(row[1..]);
      assert EvidenceAll(row)[1..] == EvidenceAll(row[1..]);
      Cons(row);
    }
  }

  /** A canonical row reads back from its evidence, whatever follows it. */
  lemma RowReadsBack(row: Row, x: string)
    requires CanonicalRow(row)
    ensures ReadRow(EvidenceText(row) + x) == Some((row, x))
  {
    ReadsBack(RowEvidence(row), x);
    ValuesReadBack(row);
  }

  lemma EvidenceInjective(v: Value, w: Value)
    requires Canonical(v) && Canonical(w)
    ensures EvidenceOf(v) == EvidenceOf(w) <==> v == w
  {
    ValueReadsBack(v);
    ValueReadsBack(w);
  }

  /** Rows can be told apart in a stream, whatever follows them. */
  lemma EvidenceIsPrefixCode(row: Row, other: Row, x: string, y: string)
    requires CanonicalRow(row) && CanonicalRow(other)
    requires EvidenceText(row) + x == EvidenceText(other) + y
    ensures row == other && x == y
  {
    RowReadsBack(row, x);
    RowReadsBack(other, y);
  }
}
