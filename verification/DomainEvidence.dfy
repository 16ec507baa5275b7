/** Evidence about the values of a column, and the rules that carry it through filters and joins. */
module DomainEvidence {
  import opened BagOracle
  import opened Wrappers

  /** An operation that raises gives no evidence. */
  datatype Result<T> = Ok(value: T) | Invalid

  datatype Status = ObservedFull | ObservedPartial | Derived | Unknown

  datatype Coverage = Finite(share: real) | NotFinite

  datatype Evidence<V(==)> = Evidence(
    column: string, values: set<Cell<V>>, status: Status, condition: Option<string>, coverage: Coverage)

  const EQUALITY_JOIN := "equality_join"

  /** `validate` */
  predicate Valid<V(==)>(e: Evidence<V>) {
    && e.column != ""
    && e.coverage.Finite? && 0.0 <= e.coverage.share <= 1.0
    && (e.status == ObservedFull ==> e.coverage.share == 1.0)
    && (e.status == ObservedFull || e.status == Derived ==> e.coverage.share != 0.0)
  }

  function Validated<V(==)>(e: Evidence<V>): Result<Evidence<V>> {
    if Valid(e) then Ok(e) else Invalid
  }

  function ObservedDomain<V(==)>(values: set<Cell<V>>, column: string, condition: Option<string>): Result<Evidence<V>> {
    Validated(Evidence(column, values, ObservedFull, condition, Finite(1.0)))
  }

  function PartialDomain<V(==)>(values: set<Cell<V>>, column: string, coverage: Coverage, condition: Option<string>)
    : Result<Evidence<V>>
  {
    Validated(Evidence(column, values, ObservedPartial, condition, coverage))
  }

  function DerivedDomain<V(==)>(values: set<Cell<V>>, column: string, condition: Option<string>): Result<Evidence<V>> {
    Validated(Evidence(column, values, Derived, condition, Finite(1.0)))
  }

  function UnknownDomain<V(==)>(column: string): Evidence<V> {
    Evidence(column, {}, Unknown, None, Finite(0.0))
  }

  /** `filter_domain` */
  function FilterDomain<V(==)>(e: Evidence<V>, allowed: set<Cell<V>>, condition: string): Result<Evidence<V>> {
    if !Valid(e) then Invalid
    else if e.condition == Some(condition) then Ok(e)
    else if e.status != ObservedFull then Ok(UnknownDomain(e.column))
    else Validated(Evidence(e.column, e.values * allowed, ObservedFull, Some(condition), Finite(1.0)))
  }

  /** `equality_join_domain` */
  function EqualityJoinDomain<V(==)>(left: Evidence<V>, right: Evidence<V>): Result<Evidence<V>> {
    if !Valid(left) || !Valid(right) then Invalid
    else if left.status != ObservedFull || right.status != ObservedFull then Ok(UnknownDomain(left.column))
    else Ok(Evidence(left.column, left.values * right.values - {Null}, ObservedFull, Some(EQUALITY_JOIN), Finite(1.0)))
  }

  // ----- rows

  /** A row of an intermediate result: a base row, or a pair of rows that joined. */
  datatype Tuple<V> = Leaf(row: Row<V>) | Pair(left: Tuple<V>, right: Tuple<V>)

  /** A joined row keeps the column of its left part. */
  function KeyOf<V>(t: Tuple<V>, column: string): Cell<V> {
    match t
    case Leaf(row) => Get(row, column)
    case Pair(l, _) => KeyOf(l, column)
  }

  function Key<V>(column: string): Tuple<V> -> Cell<V> {
    (t: Tuple<V>) => KeyOf(t, column)
  }

  ghost function Values<V>(tuples: seq<Tuple<V>>, column: string): set<Cell<V>> {
    set t | t in tuples :: KeyOf(t, column)
  }

  datatype Truth = True | False | Undecided

  /** `sql_filter` */
  function SqlFilter<T>(rows: seq<T>, holds: T -> Truth): seq<T> {
    if rows == [] then []
    else (if holds(rows[0]) == True then [rows[0]] else []) + SqlFilter(rows[1..], holds)
  }

  function Within<V(==)>(allowed: set<Cell<V>>, column: string): Tuple<V> -> Truth {
    (t: Tuple<V>) => if KeyOf(t, column) in allowed then True else False
  }

  lemma {:induction false} FilterKeeps<T>(rows: seq<T>, holds: T -> Truth, t: T)
    ensures t in SqlFilter(rows, holds) <==> t in rows && holds(t) == True
  {
    if rows != [] {
      FilterKeeps(rows[1..], holds, t);
      assert rows == [rows[0]] + rows[1..];
    }
  }

  lemma FilterValues<V(!new)>(tuples: seq<Tuple<V>>, column: string, allowed: set<Cell<V>>)
    ensures Values(SqlFilter(tuples, Within(allowed, column)), column) == Values(tuples, column) * allowed
  {
    var kept := SqlFilter(tuples, Within(allowed, column));
    forall t { FilterKeeps(tuples, Within(allowed, column), t); }
    forall c | c in Values(tuples, column) * allowed
      ensures c in Values(kept, column)
    {
      var t :| t in tuples && KeyOf(t, column) == c;
      assert t in kept;
    }
  }

  function JoinTuples<V(==)>(left: seq<Tuple<V>>, right: seq<Tuple<V>>, leftColumn: string, rightColumn: string)
    : (tuples: seq<Tuple<V>>)
  {
    var pairs := Join(left, right, Key(leftColumn), Key(rightColumn));
    seq(|pairs|, i requires 0 <= i < |pairs| => Pair(pairs[i].0, pairs[i].1))
  }

  lemma JoinHolds<V>(
    left: seq<Tuple<V>>, right: seq<Tuple<V>>, leftColumn: string, rightColumn: string, l: Tuple<V>, r: Tuple<V>)
    ensures (l, r) in Join(left, right, Key(leftColumn), Key(rightColumn)) <==>
      l in left && r in right && Matching(KeyOf(l, leftColumn), KeyOf(r, rightColumn))
  {
    var pairs := Join(left, right, Key(leftColumn), Key(rightColumn));
    JoinMultiplicity(left, right, Key(leftColumn), Key(rightColumn), l, r);
    assert (l, r) in pairs <==> multiset(pairs)[(l, r)] > 0;
    assert l in left <==> multiset(left)[l] > 0;
    assert r in right <==> multiset(right)[r] > 0;
    Positive(multiset(left)[l], multiset(right)[r]);
  }

  lemma Positive(m: nat, n: nat)
    ensures m * n > 0 <==> m > 0 && n > 0
  {
  }

  lemma JoinValues<V(!new)>(left: seq<Tuple<V>>, right: seq<Tuple<V>>, leftColumn: string, rightColumn: string)
    ensures Values(JoinTuples(left, right, leftColumn, rightColumn), leftColumn)
      == Values(left, leftColumn) * Values(right, rightColumn) - {Null}
  {
    var pairs := Join(left, right, Key(leftColumn), Key(rightColumn));
    var tuples := JoinTuples(left, right, leftColumn, rightColumn);
    forall l, r { JoinHolds(left, right, leftColumn, rightColumn, l, r); }
    forall c | c in Values(tuples, leftColumn)
      ensures c in Values(left, leftColumn) * Values(right, rightColumn) - {Null}
    {
      var i :| 0 <= i < |tuples| && KeyOf(tuples[i], leftColumn) == c;
      assert (pairs[i].0, pairs[i].1) in pairs;
    }
    forall c | c in Values(left, leftColumn) * Values(right, rightColumn) - {Null}
      ensures c in Values(tuples, leftColumn)
    {
      var l :| l in left && KeyOf(l, leftColumn) == c;
      var r :| r in right && KeyOf(r, rightColumn) == c;
      assert (l, r) in pairs;
      var i :| 0 <= i < |pairs| && pairs[i] == (l, r);
      assert tuples[i] == Pair(l, r) && tuples[i] in tuples;
    }
  }

  // ----- chains of filters and joins

  datatype Plan<V(==)> =
    | Observed(rows: seq<Row<V>>, column: string, condition: Option<string>)
    | Partial(rows: seq<Row<V>>, column: string, values: set<Cell<V>>, coverage: Coverage, condition: Option<string>)
    | Model(rows: seq<Row<V>>, column: string, values: set<Cell<V>>, condition: Option<string>)
    | Filtered(input: Plan<V>, allowed: set<Cell<V>>, applied: string)
    | Joined(left: Plan<V>, right: Plan<V>)

  function ColumnOf<V(==)>(p: Plan<V>): string {
    match p
    case Filtered(input, _, _) => ColumnOf(input)
    case Joined(left, _) => ColumnOf(left)
    case _ => p.column
  }

  function Leaves<V>(rows: seq<Row<V>>): seq<Tuple<V>> {
    seq(|rows|, i requires 0 <= i < |rows| => Leaf(rows[i]))
  }

  /** The chain on rows. */
  function Rows<V(==)>(p: Plan<V>): seq<Tuple<V>> {
    match p
    case Filtered(input, allowed, _) => SqlFilter(Rows(input), Within(allowed, ColumnOf(input)))
    case Joined(left, right) => JoinTuples(Rows(left), Rows(right), ColumnOf(left), ColumnOf(right))
    case _ => Leaves(p.rows)
  }

  /** The same chain on evidence. */
  ghost function Domain<V>(p: Plan<V>): Result<Evidence<V>> {
    match p
    case Observed(rows, column, condition) => ObservedDomain(Values(Leaves(rows), column), column, condition)
    case Partial(_, column, values, coverage, condition) => PartialDomain(values, column, coverage, condition)
    case Model(_, column, values, condition) => DerivedDomain(values, column, condition)
    case Filtered(input, allowed, condition) =>
      var e := Domain(input);
      if e.Ok? then FilterDomain(e.value, allowed, condition) else Invalid
    case Joined(left, right) =>
      var l, r := Domain(left), Domain(right);
      if l.Ok? && r.Ok? then EqualityJoinDomain(l.value, r.value) else Invalid
  }

  /** Each condition names one allowed set, observed rows meet the condition they claim, and no
      filter borrows the condition that joins use. */
  ghost predicate Coherent<V>(p: Plan<V>, allowedBy: map<string, set<Cell<V>>>) {
    match p
    case Observed(rows, column, condition) =>
      condition.Some? && condition.value in allowedBy && condition.value != EQUALITY_JOIN ==>
        Values(Leaves(rows), column) <= allowedBy[condition.value]
    case Filtered(input, allowed, condition) =>
      && Coherent(input, allowedBy)
      && condition != EQUALITY_JOIN && condition in allowedBy && allowed == allowedBy[condition]
    case Joined(left, right) => Coherent(left, allowedBy) && Coherent(right, allowedBy)
    case _ => true
  }

  /** What full evidence promises about rows. */
  ghost predicate Exact<V>(e: Evidence<V>, tuples: seq<Tuple<V>>, column: string) {
    && e.column == column
    && (e.status == ObservedFull ==> e.values == Values(tuples, column))
  }

  ghost predicate Conditioned<V>(e: Evidence<V>, allowedBy: map<string, set<Cell<V>>>) {
    e.status == ObservedFull && e.condition.Some? && e.condition.value in allowedBy
    && e.condition.value != EQUALITY_JOIN ==>
      e.values <= allowedBy[e.condition.value]
  }

  /** A chain that stays ObservedFull gives exactly the observed domain of the same chain on rows. */
  lemma {:induction false} ChainsAreExact<V(!new)>(p: Plan<V>, allowedBy: map<string, set<Cell<V>>>)
    requires Coherent(p, allowedBy) && Domain(p).Ok?
    ensures Exact(Domain(p).value, Rows(p), ColumnOf(p))
    ensures Conditioned(Domain(p).value, allowedBy)
  {
    match p
    case Observed(_, _, _) =>
    case Partial(_, _, _, _, _) =>
    case Model(_, _, _, _) =>
    case Filtered(input, allowed, condition) =>
      ChainsAreExact(input, allowedBy);
      FilterValues(Rows(input), ColumnOf(input), allowed);
      FilterIsExactWhen(Domain(input).value, Rows(input), ColumnOf(input), allowed, condition);
    case Joined(left, right) =>
      ChainsAreExact(left, allowedBy);
      ChainsAreExact(right, allowedBy);
      JoinValues(Rows(left), Rows(right), ColumnOf(left), ColumnOf(right));
  }

  /** One filter keeps evidence exact if and only if its condition is new or already changes nothing. */
  lemma FilterIsExactWhen<V(!new)>(
    e: Evidence<V>, tuples: seq<Tuple<V>>, column: string, allowed: set<Cell<V>>, condition: string)
    requires Exact(e, tuples, column)
    ensures Valid(e) && e.status == ObservedFull ==>
      var filtered := FilterDomain(e, allowed, condition);
      filtered.Ok? && filtered.value.status == ObservedFull
      && (Exact(filtered.value, SqlFilter(tuples, Within(allowed, column)), column)
          <==> e.condition != Some(condition) || e.values <= allowed)
  {
    FilterValues(tuples, column, allowed);
    assert e.values * allowed == e.values <==> e.values <= allowed;
  }

  /** Why joins reserve their condition: a filter that borrows it is taken for already applied. */
  lemma ReservedCondition(table: Plan<int>, p: Plan<int>)
    requires table == Observed([map["k" := Known(1)]], "k", None)
    requires p == Filtered(Joined(table, table), {}, EQUALITY_JOIN)
    ensures Domain(p).Ok? && Domain(p).value.status == ObservedFull
    ensures !Exact(Domain(p).value, Rows(p), ColumnOf(p))
  {
    var tuples := Leaves(table.rows);
    assert tuples[0] == Leaf(table.rows[0]) && KeyOf(tuples[0], "k") == Known(1);
    assert Known(1) in Values(tuples, "k");
    FullExactlyWhenObserved(table);
    FullExactlyWhenObserved(p);
    assert Domain(p) == Domain(p.input) && Known(1) in Domain(p).value.values;
    FilterValues(Rows(p.input), "k", {});
  }

  ghost predicate AllObserved<V>(p: Plan<V>) {
    match p
    case Observed(_, column, _) => column != ""
    case Filtered(input, _, _) => AllObserved(input)
    case Joined(left, right) => AllObserved(left) && AllObserved(right)
    case _ => false
  }


  /** Evidence is full exactly when every base was observed; otherwise it is never upgraded. */
  lemma {:induction false} FullExactlyWhenObserved<V>(p: Plan<V>)
    ensures Domain(p).Ok? && Domain(p).value.status == ObservedFull <==> AllObserved(p)
    ensures Domain(p).Ok? && Domain(p).value.status == ObservedFull ==> Valid(Domain(p).value)
  {
    match p
    case Filtered(input, _, _) => FullExactlyWhenObserved(input);
    case Joined(left, right) =>
      FullExactlyWhenObserved(left);
      FullExactlyWhenObserved(right);
    case _ =>
  }
}
