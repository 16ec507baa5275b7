/** The text fed to the hash of a result: distinct rows in evidence order with their counts. */
module DigestStream {
  import opened Texts
  import opened ExactValues
  import opened Evidence
  import opened Numerals

  /** A distinct row and how often it occurs. */
  datatype Entry = Entry(row: Row, count: nat)

  // ----- Python equality and one schema

  datatype Kind = BooleanKind | ExactKind | FloatKind | TextKind

  ghost predicate Fits(v: Value, kind: Kind) {
    match v
    case Null => true
    case Boolean(_) => kind.BooleanKind?
    case Exact(_) => kind.ExactKind?
    case Float(_) => kind.FloatKind?
    case Text(_) => kind.TextKind?
  }

  const ZERO: Double := Double(false, 0, -1022)
  const ONE: Double := Double(false, UNIT, 0)

  /** Booleans equal the floats 0.0 and 1.0 in Python. */
  ghost predicate PythonEqual(v: Value, w: Value) {
    || (v.Exact? && w.Exact? && SameRational(v.number, w.number))
    || (!v.Exact? && v == w)
    || (v.Boolean? && w.Float? && w.double == if v.flag then ONE else ZERO)
    || (w.Boolean? && v.Float? && v.double == if w.flag then ONE else ZERO)
  }

  /** In rows of one schema equal values are the same value. */
  lemma SchemaEquality(v: Value, w: Value, kind: Kind)
    requires Canonical(v) && Canonical(w) && Fits(v, kind) && Fits(w, kind)
    ensures PythonEqual(v, w) <==> v == w
  {
    if v.Exact? && w.Exact? {
      ReducedIsCanonical(v.number, w.number);
    }
  }

  /** A boolean and the float it equals. */
  predicate BooleanAndFloat(v: Value, w: Value) {
    v.Boolean? && w == Float(if v.flag then ONE else ZERO)
  }

  /** Canonical values are equal without being the same exactly for a boolean and its float. */
  lemma PythonEqualDiffers(v: Value, w: Value)
    requires Canonical(v) && Canonical(w)
    ensures PythonEqual(v, w) && v != w <==> BooleanAndFloat(v, w) || BooleanAndFloat(w, v)
  {
    if v.Exact? && w.Exact? {
      ReducedIsCanonical(v.number, w.number);
    }
  }

  ghost predicate FitsRow(row: Row, schema: seq<Kind>) {
    |row| == |schema| && forall i :: 0 <= i < |row| ==> Fits(row[i], schema[i])
  }

  ghost predicate EqualRows(row: Row, other: Row) {
    |row| == |other| && forall i :: 0 <= i < |row| ==> PythonEqual(row[i], other[i])
  }

  lemma RowSchemaEquality(row: Row, other: Row, schema: seq<Kind>)
    requires CanonicalRow(row) && CanonicalRow(other) && FitsRow(row, schema) && FitsRow(other, schema)
    ensures EqualRows(row, other) <==> row == other
  {
    forall i | 0 <= i < |schema|
      ensures PythonEqual(row[i], other[i]) <==> row[i] == other[i]
    {
      SchemaEquality(row[i], other[i], schema[i]);
    }
  }

  /** How often a row occurs up to Python equality: what a Counter stores for it. */
  ghost function PythonCount(rows: seq<Row>, row: Row): nat {
    if rows == [] then 0 else (if EqualRows(rows[0], row) then 1 else 0) + PythonCount(rows[1..], row)
  }

  ghost predicate OfSchema(rows: seq<Row>, schema: seq<Kind>) {
    forall i :: 0 <= i < |rows| ==> CanonicalRow(rows[i]) && FitsRow(rows[i], schema)
  }

  lemma {:induction false} PythonCountIsMultiplicity(rows: seq<Row>, row: Row, schema: seq<Kind>)
    requires OfSchema(rows, schema) && CanonicalRow(row) && FitsRow(row, schema)
    ensures PythonCount(rows, row) == multiset(rows)[row]
  {
    if rows != [] {
      RowSchemaEquality(rows[0], row, schema);
      PythonCountIsMultiplicity(rows[1..], row, schema);
      Cons(rows);
    }
  }

  /** `Counter(a) == Counter(b)` */
  ghost predicate CountersEqual(a: seq<Row>, b: seq<Row>) {
    forall row :: row in a || row in b ==> PythonCount(a, row) == PythonCount(b, row)
  }

  /** For rows of one schema equal counters are equal multisets. */
  lemma CountersAreBags(a: seq<Row>, b: seq<Row>, schema: seq<Kind>)
    requires OfSchema(a, schema) && OfSchema(b, schema)
    ensures CountersEqual(a, b) <==> multiset(a) == multiset(b)
  {
    forall row | row in a || row in b
      ensures PythonCount(a, row) == multiset(a)[row] && PythonCount(b, row) == multiset(b)[row]
    {
      PythonCountIsMultiplicity(a, row, schema);
      PythonCountIsMultiplicity(b, row, schema);
    }
    if CountersEqual(a, b) {
      forall row
        ensures multiset(a)[row] == multiset(b)[row]
      {
        assert row in multiset(a) <==> row in a;
        assert row in multiset(b) <==> row in b;
      }
    }
  }

  /** Across schemas they need not be: True and 1.0 are equal and have different evidence. */
  lemma MixedKindsDiffer()
    ensures PythonEqual(Boolean(true), Float(ONE)) && Canonical(Float(ONE))
    ensures EvidenceText([Boolean(true)]) != EvidenceText([Float(ONE)])
  {
    if EvidenceText([Boolean(true)]) == EvidenceText([Float(ONE)]) {
      EvidenceIsPrefixCode([Boolean(true)], [Float(ONE)], "", "");
    }
  }

  // ----- records

  function Record(e: Entry): string {
    EvidenceText(e.row) + "\0" + Decimals(e.count) + "\n"
  }

  /** Everything `_counter_digest` hashes. */
  function Stream(entries: seq<Entry>): string {
    if entries == [] then [] else Record(entries[0]) + Stream(entries[1..])
  }

  ghost predicate CanonicalEntries(entries: seq<Entry>) {
    forall i :: 0 <= i < |entries| ==> CanonicalRow(entries[i].row)
  }

  predicate NoNewline(s: string) {
    forall i :: 0 <= i < |s| ==> s[i] != '\n'
  }

  lemma LinesArePrefixCode(s: string, t: string, x: string, y: string)
    requires NoNewline(s) && NoNewline(t) && s + "\n" + x == t + "\n" + y
    ensures s == t && x == y
  {
    FirstNewline(s, x, |t|);
    FirstNewline(t, y, |s|);
    Cut(s + "\n", x, t + "\n", y);
    Cut(s, "\n", t, "\n");
  }

  lemma FirstNewline(s: string, x: string, k: nat)
    requires NoNewline(s)
    ensures (s + "\n" + x)[|s|] == '\n'
    ensures k < |s + "\n" + x| && (s + "\n" + x)[k] == '\n' ==> |s| <= k
  {
  }

  lemma DecimalsHaveNoNewline(n: nat)
    ensures NoNewline(Decimals(n))
  {
  }

  lemma RecordsArePrefixCode(e: Entry, f: Entry, x: string, y: string)
    requires CanonicalRow(e.row) && CanonicalRow(f.row) && Record(e) + x == Record(f) + y
    ensures e == f && x == y
  {
    var s, t := Decimals(e.count), Decimals(f.count);
    RegroupRecord(EvidenceText(e.row), s, x);
    RegroupRecord(EvidenceText(f.row), t, y);
    EvidenceIsPrefixCode(e.row, f.row, "\0" + (s + "\n" + x), "\0" + (t + "\n" + y));
    Cut("\0", s + "\n" + x, "\0", t + "\n" + y);
    DecimalsHaveNoNewline(e.count);
    DecimalsHaveNoNewline(f.count);
    LinesArePrefixCode(s, t, x, y);
    DecimalsInjective(e.count, f.count);
  }

  lemma RegroupRecord(evidence: string, count: string, x: string)
    ensures evidence + "\0" + count + "\n" + x == evidence + ("\0" + (count + "\n" + x))
  {
  }

  /** The framing can be undone: the stream determines its entries. */
  lemma {:induction false} StreamInjective(a: seq<Entry>, b: seq<Entry>)
    requires CanonicalEntries(a) && CanonicalEntries(b) && Stream(a) == Stream(b)
    ensures a == b
    decreases |a|
  {
    NotEmpty(a);
    NotEmpty(b);
    if a != [] {
      RecordsArePrefixCode(a[0], b[0], Stream(a[1..]), Stream(b[1..]));
      StreamInjective(a[1..], b[1..]);
      Cons(a);
      Cons(b);
    }
  }

  lemma NotEmpty(entries: seq<Entry>)
    ensures Stream(entries) == [] <==> entries == []
  {
  }

  // ----- sorted entries

  ghost predicate Ascending(entries: seq<Entry>) {
    forall i, j :: 0 <= i < j < |entries| ==>
      TextLess(EvidenceText(entries[i].row), EvidenceText(entries[j].row))
  }

  ghost predicate HoldsRow(entries: seq<Entry>, row: Row) {
    exists i :: 0 <= i < |entries| && entries[i].row == row
  }

  /** Every row of the bag is listed once with its count, and nothing else is. */
  ghost predicate Lists(entries: seq<Entry>, bag: multiset<Row>) {
    && (forall i :: 0 <= i < |entries| ==> entries[i].count == bag[entries[i].row] > 0)
    && (forall row :: row in bag ==> HoldsRow(entries, row))
  }

  /** What `_counter_digest` hashes for these rows. */
  ghost predicate IsStreamOf(stream: string, rows: seq<Row>) {
    exists entries :: Ascending(entries) && Lists(entries, multiset(rows)) && stream == Stream(entries)
  }

  ghost predicate CanonicalRows(rows: seq<Row>) {
    forall i :: 0 <= i < |rows| ==> CanonicalRow(rows[i])
  }

  lemma ListedIsCanonical(entries: seq<Entry>, rows: seq<Row>)
    requires CanonicalRows(rows) && Lists(entries, multiset(rows))
    ensures CanonicalEntries(entries)
  {
  }

  lemma EntryOf(entries: seq<Entry>, others: seq<Entry>, bag: multiset<Row>, i: nat) returns (j: nat)
    requires Lists(entries, bag) && Lists(others, bag) && i < |entries|
    ensures j < |others| && others[j] == entries[i]
  {
    assert entries[i].row in bag;
    j :| j < |others| && others[j].row == entries[i].row;
  }

  /** Sorting leaves one list: entry by entry, two ascending lists of a bag agree. */
  lemma {:induction false} ListsAgreeUpTo(a: seq<Entry>, b: seq<Entry>, bag: multiset<Row>, k: nat)
    requires Ascending(a) && Ascending(b) && Lists(a, bag) && Lists(b, bag)
    requires k <= |a| && k <= |b|
    ensures a[..k] == b[..k]
  {
    if k > 0 {
      ListsAgreeUpTo(a, b, bag, k - 1);
      NextAgrees(a, b, bag, k - 1);
      assert a[..k] == a[..k - 1] + [a[k - 1]] && b[..k] == b[..k - 1] + [b[k - 1]];
    }
  }

  lemma NextAgrees(a: seq<Entry>, b: seq<Entry>, bag: multiset<Row>, k: nat)
    requires Ascending(a) && Ascending(b) && Lists(a, bag) && Lists(b, bag)
    requires k < |a| && k < |b| && a[..k] == b[..k]
    ensures a[k] == b[k]
  {
    var i := EntryOf(a, b, bag, k);
    var j := EntryOf(b, a, bag, k);
    NoEarlier(a, b, k, i);
    NoEarlier(b, a, k, j);
    Between(a, b, k, i, j);
  }

  /** An entry is not found among those already matched. */
  lemma NoEarlier(a: seq<Entry>, b: seq<Entry>, k: nat, i: nat)
    requires Ascending(a) && k < |a| && k <= |b| && a[..k] == b[..k]
    requires i < |b| && b[i] == a[k]
    ensures i >= k
  {
    if i < k {
      assert a[i] == a[..k][i] == b[..k][i] == a[k];
      TextTrichotomy(EvidenceText(a[i].row), EvidenceText(a[k].row));
    }
  }

  lemma Between(a: seq<Entry>, b: seq<Entry>, k: nat, i: nat, j: nat)
    requires Ascending(a) && Ascending(b) && k < |a| && k < |b|
    requires k <= i < |b| && b[i] == a[k] && k <= j < |a| && a[j] == b[k]
    ensures a[k] == b[k]
  {
    TextTrichotomy(EvidenceText(a[k].row), EvidenceText(b[k].row));
  }

  lemma OneListing(a: seq<Entry>, b: seq<Entry>, bag: multiset<Row>)
    requires Ascending(a) && Ascending(b) && Lists(a, bag) && Lists(b, bag)
    ensures a == b
  {
    var k := if |a| < |b| then |a| else |b|;
    ListsAgreeUpTo(a, b, bag, k);
    if k < |a| {
      var i := EntryOf(a, b, bag, k);
      NoEarlier(a, b, k, i);
    } else if k < |b| {
      var i := EntryOf(b, a, bag, k);
      NoEarlier(b, a, k, i);
    } else {
      assert a[..k] == a && b[..k] == b;
    }
  }

  /** The entries determine the bag. */
  lemma BagOf(entries: seq<Entry>, bag: multiset<Row>, other: multiset<Row>)
    requires Lists(entries, bag) && Lists(entries, other)
    ensures bag == other
  {
  }

  /** For results of one schema, streams agree exactly when their counters do. */
  lemma StreamsAgreeWithCounters(a: seq<Row>, b: seq<Row>, s: string, t: string, schema: seq<Kind>)
    requires OfSchema(a, schema) && OfSchema(b, schema) && IsStreamOf(s, a) && IsStreamOf(t, b)
    ensures s == t <==> CountersEqual(a, b)
  {
    StreamsAgreeWithBags(a, b, s, t);
    CountersAreBags(a, b, schema);
  }

  /** Two results have the same stream exactly when they are equal as multisets. */
  lemma StreamsAgreeWithBags(a: seq<Row>, b: seq<Row>, s: string, t: string)
    requires CanonicalRows(a) && CanonicalRows(b) && IsStreamOf(s, a) && IsStreamOf(t, b)
    ensures s == t <==> multiset(a) == multiset(b)
  {
    var d :| Ascending(d) && Lists(d, multiset(a)) && s == Stream(d);
    var e :| Ascending(e) && Lists(e, multiset(b)) && t == Stream(e);
    if s == t {
      ListedIsCanonical(d, a);
      ListedIsCanonical(e, b);
      StreamInjective(d, e);
      BagOf(d, multiset(a), multiset(b));
    }
    if multiset(a) == multiset(b) {
      OneListing(d, e, multiset(a));
    }
  }

  // ----- computing the stream

  /** `Counter(rows)` */
  method CountRows(rows: seq<Row>) returns (counter: map<Row, nat>)
    ensures forall row :: row in counter <==> row in multiset(rows)
    ensures forall row :: row in counter ==> counter[row] == multiset(rows)[row]
  {
    counter := map[];
    for i := 0 to |rows|
      invariant forall row :: row in counter <==> row in multiset(rows[..i])
      invariant forall row :: row in counter ==> counter[row] == multiset(rows[..i])[row]
    {
      assert rows[..i + 1] == rows[..i] + [rows[i]];
      var count := if rows[i] in counter then counter[rows[i]] else 0;
      counter := counter[rows[i] := count + 1];
    }
    assert rows[..|rows|] == rows;
  }

  /** Where a row belongs among ascending entries that do not hold it. */
  method Position(entries: seq<Entry>, row: Row) returns (k: nat)
    requires Ascending(entries)
    requires forall i :: 0 <= i < |entries| ==> EvidenceText(entries[i].row) != EvidenceText(row)
    ensures k <= |entries|
    ensures forall i :: 0 <= i < k ==> TextLess(EvidenceText(entries[i].row), EvidenceText(row))
    ensures forall i :: k <= i < |entries| ==> TextLess(EvidenceText(row), EvidenceText(entries[i].row))
  {
    k := 0;
    var text := EvidenceText(row);
    while k < |entries| && TextLess(EvidenceText(entries[k].row), text)
      invariant k <= |entries|
      invariant forall i :: 0 <= i < k ==> TextLess(EvidenceText(entries[i].row), text)
    {
      k := k + 1;
    }
    forall i | k <= i < |entries|
      ensures TextLess(text, EvidenceText(entries[i].row))
    {
      TextTrichotomy(EvidenceText(entries[k].row), text);
      if k < i {
        TextTransitive(text, EvidenceText(entries[k].row), EvidenceText(entries[i].row));
      }
    }
  }

  lemma InsertedAscends(entries: seq<Entry>, k: nat, e: Entry)
    requires Ascending(entries) && k <= |entries|
    requires forall i :: 0 <= i < k ==> TextLess(EvidenceText(entries[i].row), EvidenceText(e.row))
    requires forall i :: k <= i < |entries| ==> TextLess(EvidenceText(e.row), EvidenceText(entries[i].row))
    ensures Ascending(entries[..k] + [e] + entries[k..])
  {
  }

  lemma InsertedHolds(entries: seq<Entry>, k: nat, e: Entry, row: Row)
    requires k <= |entries|
    ensures HoldsRow(entries[..k] + [e] + entries[k..], row) <==> row == e.row || HoldsRow(entries, row)
  {
    var grown := entries[..k] + [e] + entries[k..];
    assert grown[k] == e;
    if HoldsRow(entries, row) {
      var i :| 0 <= i < |entries| && entries[i].row == row;
      assert grown[if i < k then i else i + 1] == entries[i];
    }
    if HoldsRow(grown, row) {
      var i :| 0 <= i < |grown| && grown[i].row == row;
      assert i != k ==> grown[i] == entries[if i < k then i else i - 1];
    }
  }

  /** The items of the counter, sorted by their evidence. */
  method SortedItems(counter: map<Row, nat>) returns (entries: seq<Entry>)
    requires forall row :: row in counter ==> CanonicalRow(row)
    ensures Ascending(entries)
    ensures forall i :: 0 <= i < |entries| ==> entries[i].row in counter && entries[i].count == counter[entries[i].row]
    ensures forall row :: row in counter ==> HoldsRow(entries, row)
  {
    entries := [];
    var rest := counter.Keys;
    while rest != {}
      invariant rest <= counter.Keys
      invariant Ascending(entries)
      invariant forall i :: 0 <= i < |entries| ==>
        entries[i].row in counter.Keys - rest && entries[i].count == counter[entries[i].row]
      invariant forall row :: row in counter.Keys - rest ==> HoldsRow(entries, row)
      decreases |rest|
    {
      var row :| row in rest;
      forall i | 0 <= i < |entries|
        ensures EvidenceText(entries[i].row) != EvidenceText(row)
      {
        Distinguish(entries[i].row, row);
      }
      var k := Position(entries, row);
      var e := Entry(row, counter[row]);
      InsertedAscends(entries, k, e);
      forall other { InsertedHolds(entries, k, e, other); }
      entries := entries[..k] + [e] + entries[k..];
      rest := rest - {row};
    }
  }

  lemma Distinguish(row: Row, other: Row)
    requires CanonicalRow(row) && CanonicalRow(other)
    ensures EvidenceText(row) == EvidenceText(other) <==> row == other
  {
    if EvidenceText(row) == EvidenceText(other) {
      EvidenceIsPrefixCode(row, other, "", "");
    }
  }

  /** `multiset_digest`, up to the hash itself */
  method MultisetStream(rows: seq<Row>) returns (stream: string)
    requires CanonicalRows(rows)
    ensures IsStreamOf(stream, rows)
  {
    var counter := CountRows(rows);
    var entries := SortedItems(counter);
    assert Lists(entries, multiset(rows));
    stream := "";
    for i := 0 to |entries|
      invariant stream == Stream(entries[..i])
    {
      StreamStep(entries, i);
      stream := stream + Record(entries[i]);
    }
    assert entries[..|entries|] == entries;
  }

  lemma StreamStep(entries: seq<Entry>, i: nat)
    requires i < |entries|
    ensures Stream(entries[..i + 1]) == Stream(entries[..i]) + Record(entries[i])
  {
    assert entries[..i + 1] == entries[..i] + [entries[i]];
    StreamGrows(entries[..i], entries[i]);
  }

  lemma {:induction false} StreamGrows(entries: seq<Entry>, e: Entry)
    ensures Stream(entries + [e]) == Stream(entries) + Record(e)
  {
    if entries == [] {
      assert [e][1..] == [];
    } else {
      assert (entries + [e])[0] == entries[0] && (entries + [e])[1..] == entries[1..] + [e];
      StreamGrows(entries[1..], e);
      Regroup(Record(entries[0]), Stream(entries[1..]), Record(e));
    }
  }

  // ----- ordered results

  /** Everything `sequence_digest` hashes. */
  function SequenceStream(rows: seq<Row>): string {
    if rows == [] then [] else EvidenceText(rows[0]) + "\n" + SequenceStream(rows[1..])
  }

  /** The stream of an ordered result determines its rows and their order. */
  lemma {:induction false} SequenceStreamInjective(a: seq<Row>, b: seq<Row>)
    requires CanonicalRows(a) && CanonicalRows(b)
    ensures SequenceStream(a) == SequenceStream(b) <==> a == b
    decreases |a|
  {
    if a != [] && b != [] {
      var x, y := SequenceStream(a[1..]), SequenceStream(b[1..]);
      if SequenceStream(a) == SequenceStream(b) {
        assert EvidenceText(a[0]) + "\n" + x == EvidenceText(a[0]) + ("\n" + x);
        assert EvidenceText(b[0]) + "\n" + y == EvidenceText(b[0]) + ("\n" + y);
        EvidenceIsPrefixCode(a[0], b[0], "\n" + x, "\n" + y);
        Cut("\n", x, "\n", y);
        SequenceStreamInjective(a[1..], b[1..]);
        assert a == [a[0]] + a[1..] && b == [b[0]] + b[1..];
      }
    }
  }
}
