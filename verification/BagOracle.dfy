/** Finite bag semantics: filters, nested-loop joins and group counts over rows with NULLs. */
module BagOracle {

  datatype Cell<V> = Null | Known(value: V)

  type Row<V> = map<string, Cell<V>>

  /** `row.get(column)` */
  function Get<V>(row: Row<V>, column: string): Cell<V> {
    if column in row then row[column] else Null
  }

  /** The key of a row under a column. */
  function Column<V>(column: string): Row<V> -> Cell<V> {
    (row: Row<V>) => Get(row, column)
  }

  // ----- joins as functions

  predicate Matching<V(==)>(a: Cell<V>, b: Cell<V>) {
    a.Known? && a == b
  }

  /** The right rows that join with a left key, in order. */
  function Matches<R, V(==)>(key: Cell<V>, right: seq<R>, rightKey: R -> Cell<V>): seq<R> {
    if right == [] then []
    else
      var last := right[|right| - 1];
      Matches(key, right[..|right| - 1], rightKey) + if Matching(key, rightKey(last)) then [last] else []
  }

  function Paired<L, R>(l: L, rows: seq<R>): (pairs: seq<(L, R)>)
    ensures |pairs| == |rows|
    ensures forall i :: 0 <= i < |rows| ==> pairs[i] == (l, rows[i])
  {
    seq(|rows|, i requires 0 <= i < |rows| => (l, rows[i]))
  }

  function Join<L, R, V(==)>(left: seq<L>, right: seq<R>, leftKey: L -> Cell<V>, rightKey: R -> Cell<V>): seq<(L, R)> {
    if left == [] then []
    else
      var l := left[|left| - 1];
      Join(left[..|left| - 1], right, leftKey, rightKey) + Paired(l, Matches(leftKey(l), right, rightKey))
  }

  /** The left rows that match no right row, in order. */
  function Unmatched<L, R, V(==)>(
    left: seq<L>, right: seq<R>, leftKey: L -> Cell<V>, rightKey: R -> Cell<V>): seq<L>
  {
    if left == [] then []
    else
      var l := left[|left| - 1];
      Unmatched(left[..|left| - 1], right, leftKey, rightKey)
      + if Matches(leftKey(l), right, rightKey) == [] then [l] else []
  }

  function CountKey<R, V(==)>(rows: seq<R>, key: R -> Cell<V>, c: Cell<V>): nat {
    if rows == [] then 0
    else CountKey(rows[..|rows| - 1], key, c) + if key(rows[|rows| - 1]) == c then 1 else 0
  }

  // ----- what a join holds

  lemma {:induction false} MatchesAreCounted<R, V>(c: Cell<V>, right: seq<R>, rightKey: R -> Cell<V>)
    ensures |Matches(c, right, rightKey)| == if c.Known? then CountKey(right, rightKey, c) else 0
  {
    if right != [] {
      MatchesAreCounted(c, right[..|right| - 1], rightKey);
    }
  }

  lemma {:induction false} MatchMultiplicity<R, V>(c: Cell<V>, right: seq<R>, rightKey: R -> Cell<V>, r: R)
    ensures multiset(Matches(c, right, rightKey))[r] == if Matching(c, rightKey(r)) then multiset(right)[r] else 0
  {
    if right != [] {
      MatchMultiplicity(c, right[..|right| - 1], rightKey, r);
      assert right == right[..|right| - 1] + [right[|right| - 1]];
    }
  }

  lemma {:induction false} PairedMultiplicity<L, R>(l: L, rows: seq<R>, m: L, r: R)
    ensures multiset(Paired(l, rows))[(m, r)] == if l == m then multiset(rows)[r] else 0
  {
    if rows != [] {
      var n := |rows| - 1;
      PairedMultiplicity(l, rows[..n], m, r);
      assert rows == rows[..n] + [rows[n]];
      assert Paired(l, rows) == Paired(l, rows[..n]) + [(l, rows[n])];
    } else {
      assert Paired(l, rows) == [];
    }
  }

  /** Multiplicities multiply: a pair occurs as often as its two rows together, if their keys match. */
  lemma {:induction false} JoinMultiplicity<L, R, V>(
    left: seq<L>, right: seq<R>, leftKey: L -> Cell<V>, rightKey: R -> Cell<V>, l: L, r: R)
    ensures multiset(Join(left, right, leftKey, rightKey))[(l, r)]
      == if Matching(leftKey(l), rightKey(r)) then multiset(left)[l] * multiset(right)[r] else 0
  {
    if left != [] {
      var n := |left| - 1;
      var first := Join(left[..n], right, leftKey, rightKey);
      var part := Paired(left[n], Matches(leftKey(left[n]), right, rightKey));
      assert multiset(first + part)[(l, r)] == multiset(first)[(l, r)] + multiset(part)[(l, r)];
      JoinMultiplicity(left[..n], right, leftKey, rightKey, l, r);
      PartMultiplicity(left[n], right, leftKey, rightKey, l, r);
      LastCounts(left, l);
      OneMore(multiset(left[..n])[l], multiset(right)[r]);
    }
  }

  lemma LastCounts<L>(left: seq<L>, l: L)
    requires left != []
    ensures var n := |left| - 1;
      multiset(left)[l] == multiset(left[..n])[l] + if left[n] == l then 1 else 0
  {
    assert left == left[..|left| - 1] + [left[|left| - 1]];
  }

  lemma PartMultiplicity<L, R, V>(
    last: L, right: seq<R>, leftKey: L -> Cell<V>, rightKey: R -> Cell<V>, l: L, r: R)
    ensures multiset(Paired(last, Matches(leftKey(last), right, rightKey)))[(l, r)]
      == if last == l && Matching(leftKey(l), rightKey(r)) then multiset(right)[r] else 0
  {
    PairedMultiplicity(last, Matches(leftKey(last), right, rightKey), l, r);
    MatchMultiplicity(leftKey(last), right, rightKey, r);
  }

  lemma OneMore(count: nat, others: nat)
    ensures (count + 1) * others == count * others + others
  {
  }

  // ----- sums over keys

  ghost function Sum<T>(keys: set<T>, f: T -> nat): nat {
    if keys == {} then 0
    else
      var k :| k in keys;
      f(k) + Sum(keys - {k}, f)
  }

  lemma {:induction false} SumRemoves<T>(keys: set<T>, f: T -> nat, k: T)
    requires k in keys
    ensures Sum(keys, f) == f(k) + Sum(keys - {k}, f)
    decreases keys
  {
    var c :| c in keys && Sum(keys, f) == f(c) + Sum(keys - {c}, f);
    if c != k {
      SumRemoves(keys - {c}, f, k);
      SumRemoves(keys - {k}, f, c);
      assert keys - {c} - {k} == keys - {k} - {c};
    }
  }

  lemma {:induction false} SumAgrees<T>(keys: set<T>, f: T -> nat, g: T -> nat)
    requires forall k :: k in keys ==> f(k) == g(k)
    ensures Sum(keys, f) == Sum(keys, g)
    decreases keys
  {
    if keys != {} {
      var k :| k in keys;
      SumRemoves(keys, f, k);
      SumRemoves(keys, g, k);
      SumAgrees(keys - {k}, f, g);
    }
  }

  lemma {:induction false} SumOfZeros<T>(keys: set<T>, f: T -> nat)
    requires forall k :: k in keys ==> f(k) == 0
    ensures Sum(keys, f) == 0
    decreases keys
  {
    if keys != {} {
      var k :| k in keys;
      SumRemoves(keys, f, k);
      SumOfZeros(keys - {k}, f);
    }
  }

  /** The product of the two group counts of a key. */
  ghost function Product<L, R, V>(
    left: seq<L>, right: seq<R>, leftKey: L -> Cell<V>, rightKey: R -> Cell<V>): Cell<V> -> nat
  {
    c => CountKey(left, leftKey, c) * CountKey(right, rightKey, c)
  }

  /** The size of an inner join is the sum over the non-NULL keys of the products of group counts. */
  lemma {:induction false} JoinCardinality<L, R, V>(
    left: seq<L>, right: seq<R>, leftKey: L -> Cell<V>, rightKey: R -> Cell<V>, keys: set<Cell<V>>)
    requires Null !in keys
    requires forall l :: l in left && leftKey(l).Known? ==> leftKey(l) in keys
    ensures |Join(left, right, leftKey, rightKey)| == Sum(keys, Product(left, right, leftKey, rightKey))
    decreases |left|
  {
    if left == [] {
      SumOfZeros(keys, Product(left, right, leftKey, rightKey));
    } else {
      JoinCardinality(left[..|left| - 1], right, leftKey, rightKey, keys);
      MatchesAreCounted(leftKey(left[|left| - 1]), right, rightKey);
      assert left[|left| - 1] in left;
      SumGrows(left, right, leftKey, rightKey, keys);
    }
  }

  /** One more left row adds the group count of its key. */
  lemma SumGrows<L, R, V>(
    left: seq<L>, right: seq<R>, leftKey: L -> Cell<V>, rightKey: R -> Cell<V>, keys: set<Cell<V>>)
    requires left != [] && Null !in keys
    requires var c := leftKey(left[|left| - 1]); c.Known? ==> c in keys
    ensures var c := leftKey(left[|left| - 1]);
      Sum(keys, Product(left, right, leftKey, rightKey))
      == Sum(keys, Product(left[..|left| - 1], right, leftKey, rightKey))
       + if c.Known? then CountKey(right, rightKey, c) else 0
  {
    var n := |left| - 1;
    var c := leftKey(left[n]);
    var before, product := Product(left[..n], right, leftKey, rightKey), Product(left, right, leftKey, rightKey);
    SumAgrees(keys - {c}, before, product);
    if c.Known? {
      SumRemoves(keys, before, c);
      SumRemoves(keys, product, c);
      OneMore(CountKey(left[..n], leftKey, c), CountKey(right, rightKey, c));
    } else {
      assert keys - {c} == keys;
    }
  }

  // ----- outer joins

  function Padded<L, R>(rows: seq<L>, pad: R): (pairs: seq<(L, R)>)
    ensures |pairs| == |rows|
  {
    seq(|rows|, i requires 0 <= i < |rows| => (rows[i], pad))
  }

  function OuterPart<L, R, V(==)>(l: L, right: seq<R>, leftKey: L -> Cell<V>, rightKey: R -> Cell<V>, pad: R)
    : seq<(L, R)>
  {
    var rows := Matches(leftKey(l), right, rightKey);
    if rows != [] then Paired(l, rows) else [(l, pad)]
  }

  function OuterJoin<L, R, V(==)>(
    left: seq<L>, right: seq<R>, leftKey: L -> Cell<V>, rightKey: R -> Cell<V>, pad: R): seq<(L, R)>
  {
    if left == [] then []
    else
      OuterJoin(left[..|left| - 1], right, leftKey, rightKey, pad)
      + OuterPart(left[|left| - 1], right, leftKey, rightKey, pad)
  }

  /** A left outer join is the inner join and one padded row for each unmatched left row. */
  lemma {:induction false} OuterJoinAddsUnmatched<L, R, V>(
    left: seq<L>, right: seq<R>, leftKey: L -> Cell<V>, rightKey: R -> Cell<V>, pad: R)
    ensures multiset(OuterJoin(left, right, leftKey, rightKey, pad))
      == multiset(Join(left, right, leftKey, rightKey))
       + multiset(Padded(Unmatched(left, right, leftKey, rightKey), pad))
    ensures |OuterJoin(left, right, leftKey, rightKey, pad)|
      == |Join(left, right, leftKey, rightKey)| + |Unmatched(left, right, leftKey, rightKey)|
  {
    if left != [] {
      var n := |left| - 1;
      OuterJoinAddsUnmatched(left[..n], right, leftKey, rightKey, pad);
      var lone := Unmatched(left[..n], right, leftKey, rightKey);
      assert Padded(lone + [left[n]], pad) == Padded(lone, pad) + [(left[n], pad)];
      assert lone + [] == lone;
    }
  }

  // ----- the loops

  /** `inner_join` */
  method InnerJoin<V(==)>(left: seq<Row<V>>, right: seq<Row<V>>, leftKey: string, rightKey: string)
    returns (result: seq<(Row<V>, Row<V>)>)
    ensures result == Join(left, right, Column(leftKey), Column(rightKey))
  {
    result := [];
    for i := 0 to |left|
      invariant result == Join(left[..i], right, Column(leftKey), Column(rightKey))
    {
      var key := Get(left[i], leftKey);
      ghost var done := result;
      assert Paired(left[i], Matches(key, right[..0], Column(rightKey))) == [];
      for j := 0 to |right|
        invariant result == done + Paired(left[i], Matches(key, right[..j], Column(rightKey)))
      {
        assert right[..j + 1][..j] == right[..j];
        ghost var rows := Matches(key, right[..j], Column(rightKey));
        assert Paired(left[i], rows + [right[j]]) == Paired(left[i], rows) + [(left[i], right[j])];
        if key.Known? && key == Get(right[j], rightKey) {
          result := result + [(left[i], right[j])];
        }
      }
      assert right[..|right|] == right && left[..i + 1][..i] == left[..i];
    }
    assert left[..|left|] == left;
  }

  function NullRow<V>(columns: seq<string>): Row<V> {
    map c | c in columns :: Null
  }

  /** `left_outer_join` */
  method LeftOuterJoin<V(==)>(
    left: seq<Row<V>>, right: seq<Row<V>>, leftKey: string, rightKey: string, columns: seq<string>)
    returns (result: seq<(Row<V>, Row<V>)>)
    ensures result == OuterJoin(left, right, Column(leftKey), Column(rightKey), NullRow(columns))
  {
    result := [];
    for i := 0 to |left|
      invariant result == OuterJoin(left[..i], right, Column(leftKey), Column(rightKey), NullRow(columns))
    {
      assert left[..i + 1][..i] == left[..i];
      var rows := Matches(Get(left[i], leftKey), right, Column(rightKey));
      if rows != [] {
        result := result + Paired(left[i], rows);
      } else {
        result := result + [(left[i], NullRow(columns))];
      }
    }
    assert left[..|left|] == left;
  }

  ghost predicate IsGroupCount<V(!new)>(counts: map<Cell<V>, nat>, rows: seq<Row<V>>, key: string) {
    && (forall c :: c in counts <==> CountKey(rows, Column(key), c) > 0)
    && (forall c :: c in counts ==> counts[c] == CountKey(rows, Column(key), c))
  }

  /** `group_count` */
  method GroupCount<V(==, !new)>(rows: seq<Row<V>>, key: string) returns (counts: map<Cell<V>, nat>)
    ensures IsGroupCount(counts, rows, key)
  {
    counts := map[];
    for i := 0 to |rows|
      invariant IsGroupCount(counts, rows[..i], key)
    {
      assert rows[..i + 1][..i] == rows[..i];
      var value := Get(rows[i], key);
      counts := counts[value := (if value in counts then counts[value] else 0) + 1];
    }
    assert rows[..|rows|] == rows;
  }

  lemma {:induction false} KeysAreCounted<R, V>(rows: seq<R>, key: R -> Cell<V>, row: R)
    requires row in rows
    ensures CountKey(rows, key, key(row)) > 0
  {
    var n := |rows| - 1;
    if row != rows[n] {
      assert rows == rows[..n] + [rows[n]];
      KeysAreCounted(rows[..n], key, row);
    }
  }

  ghost function CountProduct<V>(counts: map<Cell<V>, nat>, others: map<Cell<V>, nat>): Cell<V> -> nat {
    c => if c in counts && c in others then counts[c] * others[c] else 0
  }

  /** The size of an inner join, from the two group counts alone. */
  lemma GroupsGiveTheSize<V(!new)>(
    left: seq<Row<V>>, right: seq<Row<V>>, leftKey: string, rightKey: string,
    counts: map<Cell<V>, nat>, others: map<Cell<V>, nat>)
    requires IsGroupCount(counts, left, leftKey) && IsGroupCount(others, right, rightKey)
    ensures |Join(left, right, Column(leftKey), Column(rightKey))|
      == Sum(counts.Keys - {Null}, CountProduct(counts, others))
  {
    forall l | l in left && Get(l, leftKey).Known?
      ensures Get(l, leftKey) in counts.Keys - {Null}
    {
      KeysAreCounted(left, Column(leftKey), l);
    }
    JoinCardinality(left, right, Column(leftKey), Column(rightKey), counts.Keys - {Null});
    forall c | c in counts
      ensures CountProduct(counts, others)(c) == Product(left, right, Column(leftKey), Column(rightKey))(c)
    {
      assert c !in others ==> CountKey(right, Column(rightKey), c) == 0;
    }
    SumAgrees(counts.Keys - {Null}, Product(left, right, Column(leftKey), Column(rightKey)),
              CountProduct(counts, others));
  }
}
