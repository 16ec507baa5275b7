/** The ORDER check of a result: rows are compared with their neighbours only, key by key with a
    direction and a NULL placement each. */
module OrderContract {
  import opened Bags
  import opened Texts
  import opened Wrappers

  /** A key value, up to Python equality: booleans and floats compare with each other and with
      nothing else, exact numbers and texts only with their own kind. */
  datatype Value = Null | Exact(number: real) | Native(number: real) | Text(text: string)

  datatype Order<E> = Order(expression: E, descending: bool, nullsFirst: bool)

  datatype Comparison = Less | Equal | Greater | Raises

  datatype Verdict = Accepted(values: seq<seq<Value>>) | Violated(row: nat) | Incomparable | Uncovered

  // ----- one key

  function Flip(c: Comparison, flip: bool): Comparison {
    if !flip then c else match c case Less => Greater case Greater => Less case _ => c
  }

  /** Python's `a < b`, for values that are not equal and not None. */
  function CompareKind(a: Value, b: Value): Comparison {
    match (a, b)
    case (Exact(x), Exact(y)) => if x < y then Less else Greater
    case (Native(x), Native(y)) => if x < y then Less else Greater
    case (Text(x), Text(y)) => if TextLess(x, y) then Less else Greater
    case _ => Raises
  }

  function CompareKey(a: Value, b: Value, descending: bool, nullsFirst: bool): Comparison {
    if a == b then Equal
    else if a.Null? || b.Null? then Flip(if a.Null? then Less else Greater, !nullsFirst)
    else Flip(CompareKind(a, b), descending)
  }

  lemma KeyAntisymmetric(a: Value, b: Value, descending: bool, nullsFirst: bool)
    ensures CompareKey(a, b, descending, nullsFirst) == Equal <==> a == b
    ensures CompareKey(a, b, descending, nullsFirst) == Flip(CompareKey(b, a, descending, nullsFirst), true)
  {
    if a.Text? && b.Text? {
      TextTrichotomy(a.text, b.text);
    }
  }

  lemma KeyTransitive(a: Value, b: Value, c: Value, descending: bool, nullsFirst: bool)
    requires CompareKey(a, b, descending, nullsFirst) == Less
    requires CompareKey(b, c, descending, nullsFirst) == Less
    ensures CompareKey(a, c, descending, nullsFirst) == Less
  {
    if a.Text? && b.Text? && c.Text? {
      TextTrichotomy(a.text, b.text);
      TextTrichotomy(b.text, c.text);
      TextTrichotomy(a.text, c.text);
      if descending {
        TextTransitive(c.text, b.text, a.text);
      } else {
        TextTransitive(a.text, b.text, c.text);
      }
    }
  }

  // ----- all keys

  /** The lexicographic comparison: the first key that differs decides. */
  function Compare<E>(a: seq<Value>, b: seq<Value>, orders: seq<Order<E>>): Comparison
    requires |a| == |b| == |orders|
  {
    if orders == [] then Equal
    else
      var first := CompareKey(a[0], b[0], orders[0].descending, orders[0].nullsFirst);
      if first == Equal then Compare(a[1..], b[1..], orders[1..]) else first
  }

  ghost predicate Precedes<E>(a: seq<Value>, b: seq<Value>, orders: seq<Order<E>>)
    requires |a| == |b| == |orders|
  {
    Compare(a, b, orders) == Less || Compare(a, b, orders) == Equal
  }

  lemma {:induction false} CompareAntisymmetric<E>(a: seq<Value>, b: seq<Value>, orders: seq<Order<E>>)
    requires |a| == |b| == |orders|
    ensures Compare(a, b, orders) == Equal <==> a == b
    ensures Compare(a, b, orders) == Flip(Compare(b, a, orders), true)
  {
    if orders != [] {
      KeyAntisymmetric(a[0], b[0], orders[0].descending, orders[0].nullsFirst);
      CompareAntisymmetric(a[1..], b[1..], orders[1..]);
      assert a == [a[0]] + a[1..] && b == [b[0]] + b[1..];
    }
  }

  lemma {:induction false} CompareTransitive<E>(
    a: seq<Value>, b: seq<Value>, c: seq<Value>, orders: seq<Order<E>>)
    requires |a| == |b| == |c| == |orders|
    requires Precedes(a, b, orders) && Precedes(b, c, orders)
    ensures Precedes(a, c, orders)
  {
    if orders != [] {
      var o := orders[0];
      KeyAntisymmetric(a[0], b[0], o.descending, o.nullsFirst);
      KeyAntisymmetric(b[0], c[0], o.descending, o.nullsFirst);
      if a[0] == b[0] && b[0] == c[0] {
        CompareTransitive(a[1..], b[1..], c[1..], orders[1..]);
      } else if a[0] != b[0] && b[0] != c[0] {
        KeyTransitive(a[0], b[0], c[0], o.descending, o.nullsFirst);
      }
    }
  }

  // ----- what the comparison means

  /** The value may stand before the other: a NULL where NULLs go first, a value where they go last, otherwise the
      smaller value, or the larger one in a descending order. */
  ghost predicate Before<E>(a: Value, b: Value, o: Order<E>) {
    if a.Null? || b.Null? then (if o.nullsFirst then a.Null? && !b.Null? else b.Null? && !a.Null?)
    else if (a.Exact? && b.Exact?) || (a.Native? && b.Native?) then
      if o.descending then a.number > b.number else a.number < b.number
    else if a.Text? && b.Text? then
      if o.descending then TextLess(b.text, a.text) else TextLess(a.text, b.text)
    else false
  }

  predicate OtherKind(a: Value, b: Value) {
    !a.Null? && !b.Null? && !(a.Exact? && b.Exact?) && !(a.Native? && b.Native?) && !(a.Text? && b.Text?)
  }

  ghost predicate FirstDifference(a: seq<Value>, b: seq<Value>, k: nat) {
    k < |a| == |b| && a[k] != b[k] && forall m :: 0 <= m < k ==> a[m] == b[m]
  }

  /** The keys tie, or at the first that differs the earlier row has the value that goes first. */
  ghost predicate InOrder<E>(a: seq<Value>, b: seq<Value>, orders: seq<Order<E>>) {
    && |a| == |b| == |orders|
    && (a == b || exists k: nat :: FirstDifference(a, b, k) && Before(a[k], b[k], orders[k]))
  }

  lemma KeyMeans<E>(a: Value, b: Value, o: Order<E>)
    requires a != b
    ensures CompareKey(a, b, o.descending, o.nullsFirst) == Less <==> Before(a, b, o)
    ensures CompareKey(a, b, o.descending, o.nullsFirst) == Greater <==> Before(b, a, o)
    ensures CompareKey(a, b, o.descending, o.nullsFirst) == Raises <==> OtherKind(a, b)
  {
    if a.Text? && b.Text? {
      TextTrichotomy(a.text, b.text);
    }
  }

  lemma {:induction false} FirstDecides<E>(a: seq<Value>, b: seq<Value>, orders: seq<Order<E>>, k: nat)
    requires |a| == |b| == |orders| && FirstDifference(a, b, k)
    ensures Compare(a, b, orders) == CompareKey(a[k], b[k], orders[k].descending, orders[k].nullsFirst)
  {
    if k > 0 {
      assert FirstDifference(a[1..], b[1..], k - 1);
      FirstDecides(a[1..], b[1..], orders[1..], k - 1);
    }
  }

  lemma {:induction false} DifferenceOf(a: seq<Value>, b: seq<Value>) returns (k: nat)
    requires |a| == |b| && a != b
    ensures FirstDifference(a, b, k)
  {
    if a[0] != b[0] {
      k := 0;
    } else {
      assert a == [a[0]] + a[1..] && b == [b[0]] + b[1..];
      k := DifferenceOf(a[1..], b[1..]);
      k := k + 1;
    }
  }

  /** The comparison of two rows, in terms of the first values that differ. */
  lemma CompareMeans<E>(a: seq<Value>, b: seq<Value>, orders: seq<Order<E>>)
    requires |a| == |b| == |orders|
    ensures Precedes(a, b, orders) <==> InOrder(a, b, orders)
    ensures Compare(a, b, orders) == Greater <==>
      exists k: nat :: FirstDifference(a, b, k) && Before(b[k], a[k], orders[k])
    ensures Compare(a, b, orders) == Raises <==> exists k: nat :: FirstDifference(a, b, k) && OtherKind(a[k], b[k])
  {
    CompareAntisymmetric(a, b, orders);
    forall k: nat | FirstDifference(a, b, k)
      ensures Compare(a, b, orders) == Less <==> Before(a[k], b[k], orders[k])
      ensures Compare(a, b, orders) == Greater <==> Before(b[k], a[k], orders[k])
      ensures Compare(a, b, orders) == Raises <==> OtherKind(a[k], b[k])
    {
      FirstDecides(a, b, orders, k);
      KeyMeans(a[k], b[k], orders[k]);
    }
    if a != b {
      var k := DifferenceOf(a, b);
      assert FirstDifference(a, b, k);
    }
  }

  // ----- a whole result

  /** The key tuple of a row, if every order expression evaluates on it. */
  function KeysOf<Row, E>(row: Row, orders: seq<Order<E>>, evaluate: (E, Row) -> Option<Value>)
    : (keys: Option<seq<Value>>)
    ensures keys.Some? ==> |keys.value| == |orders|
    ensures keys.Some? <==> forall k :: 0 <= k < |orders| ==> evaluate(orders[k].expression, row).Some?
    ensures keys.Some? ==>
      forall k :: 0 <= k < |orders| ==> evaluate(orders[k].expression, row) == Some(keys.value[k])
  {
    if orders == [] then Some([])
    else
      var first := evaluate(orders[0].expression, row);
      var rest := KeysOf(row, orders[1..], evaluate);
      if first.Some? && rest.Some? then Some([first.value] + rest.value) else None
  }

  ghost predicate Evaluates<Row, E>(rows: seq<Row>, orders: seq<Order<E>>, evaluate: (E, Row) -> Option<Value>) {
    forall i :: 0 <= i < |rows| ==> KeysOf(rows[i], orders, evaluate).Some?
  }

  ghost function KeySequence<Row, E>(
    rows: seq<Row>, orders: seq<Order<E>>, evaluate: (E, Row) -> Option<Value>): (keys: seq<seq<Value>>)
    requires Evaluates(rows, orders, evaluate)
    ensures |keys| == |rows|
    ensures forall i :: 0 <= i < |keys| ==> |keys[i]| == |orders|
    ensures forall i :: 0 <= i < |keys| ==> Some(keys[i]) == KeysOf(rows[i], orders, evaluate)
  {
    seq(|rows|, i requires 0 <= i < |rows| => KeysOf(rows[i], orders, evaluate).value)
  }

  /** Every earlier row precedes or ties every later row. */
  ghost predicate Ordered<E>(values: seq<seq<Value>>, orders: seq<Order<E>>) {
    && (forall i :: 0 <= i < |values| ==> |values[i]| == |orders|)
    && (forall i, j :: 0 <= i < j < |values| ==>
      |values[i]| == |values[j]| == |orders| && Precedes(values[i], values[j], orders))
  }

  /** The rows before `i` are in order and row `i` compares badly with its predecessor. */
  ghost predicate FailsAt<E>(values: seq<seq<Value>>, i: nat, orders: seq<Order<E>>, c: Comparison) {
    && 1 <= i < |values| && Ordered(values[..i], orders)
    && |values[i - 1]| == |values[i]| == |orders|
    && Compare(values[i - 1], values[i], orders) == c
  }

  ghost predicate AllInOrder<E>(values: seq<seq<Value>>, orders: seq<Order<E>>) {
    forall i, j :: 0 <= i < j < |values| ==> InOrder(values[i], values[j], orders)
  }

  lemma OrderedMeans<E>(values: seq<seq<Value>>, orders: seq<Order<E>>)
    requires forall i :: 0 <= i < |values| ==> |values[i]| == |orders|
    ensures Ordered(values, orders) <==> AllInOrder(values, orders)
  {
    forall i, j | 0 <= i < j < |values|
      ensures Precedes(values[i], values[j], orders) <==> InOrder(values[i], values[j], orders)
    {
      CompareMeans(values[i], values[j], orders);
    }
  }

  /** Rows before `i` are in order, and row `i` has a value that goes before its predecessor's. */
  ghost predicate BreaksAt<E>(values: seq<seq<Value>>, i: nat, orders: seq<Order<E>>) {
    && 1 <= i < |values| && AllInOrder(values[..i], orders)
    && exists k: nat ::
      k < |orders| && FirstDifference(values[i - 1], values[i], k) && Before(values[i][k], values[i - 1][k], orders[k])
  }

  /** Rows before `i` are in order, and row `i` has a value of another kind than its predecessor's. */
  ghost predicate MixesAt<E>(values: seq<seq<Value>>, i: nat, orders: seq<Order<E>>) {
    && 1 <= i < |values| && AllInOrder(values[..i], orders)
    && exists k: nat :: FirstDifference(values[i - 1], values[i], k) && OtherKind(values[i - 1][k], values[i][k])
  }

  lemma FailureMeans<E>(values: seq<seq<Value>>, i: nat, orders: seq<Order<E>>)
    requires forall j :: 0 <= j < |values| ==> |values[j]| == |orders|
    ensures FailsAt(values, i, orders, Greater) ==> BreaksAt(values, i, orders)
    ensures FailsAt(values, i, orders, Raises) ==> MixesAt(values, i, orders)
  {
    if 1 <= i < |values| {
      OrderedMeans(values[..i], orders);
      CompareMeans(values[i - 1], values[i], orders);
    }
  }

  /** Adding a row that follows its predecessor keeps the whole sequence ordered. */
  lemma NeighboursSuffice<E>(values: seq<seq<Value>>, next: seq<Value>, orders: seq<Order<E>>)
    requires Ordered(values, orders) && |next| == |orders|
    requires values != [] ==> Precedes(values[|values| - 1], next, orders)
    ensures Ordered(values + [next], orders)
  {
    forall i | 0 <= i < |values|
      ensures Precedes(values[i], next, orders)
    {
      if i < |values| - 1 {
        CompareTransitive(values[i], values[|values| - 1], next, orders);
      }
    }
  }

  /** The loop over the keys of two neighbours, with its early break. */
  method CompareNeighbours<E>(a: seq<Value>, b: seq<Value>, orders: seq<Order<E>>) returns (c: Comparison)
    requires |a| == |b| == |orders|
    ensures c == Compare(a, b, orders)
  {
    for k := 0 to |orders|
      invariant Compare(a, b, orders) == Compare(a[k..], b[k..], orders[k..])
    {
      c := CompareKey(a[k], b[k], orders[k].descending, orders[k].nullsFirst);
      if c != Equal {
        return;
      }
    }
    c := Equal;
  }

  /** All key tuples, evaluated before any comparison. */
  method EvaluateKeys<Row, E>(rows: seq<Row>, orders: seq<Order<E>>, evaluate: (E, Row) -> Option<Value>)
    returns (values: Option<seq<seq<Value>>>)
    ensures values.Some? <==> Evaluates(rows, orders, evaluate)
    ensures values.Some? ==> values.value == KeySequence(rows, orders, evaluate)
  {
    var done: seq<seq<Value>> := [];
    for i := 0 to |rows|
      invariant |done| == i
      invariant forall j :: 0 <= j < i ==> KeysOf(rows[j], orders, evaluate) == Some(done[j])
    {
      var keys := KeysOf(rows[i], orders, evaluate);
      if keys.None? {
        return None;
      }
      done := done + [keys.value];
    }
    values := Some(done);
  }

  /** The loop over the adjacent rows. */
  method CheckNeighbours<E>(values: seq<seq<Value>>, orders: seq<Order<E>>) returns (verdict: Verdict)
    requires forall i :: 0 <= i < |values| ==> |values[i]| == |orders|
    ensures !verdict.Uncovered?
    ensures verdict.Accepted? <==> Ordered(values, orders)
    ensures verdict.Accepted? ==> verdict.values == values
    ensures verdict.Violated? ==> FailsAt(values, verdict.row, orders, Greater)
    ensures verdict.Incomparable? ==> exists i :: 1 <= i < |values| && FailsAt(values, i, orders, Raises)
  {
    var i := 1;
    while i < |values|
      invariant values == [] || i <= |values|
      invariant 1 <= i && (i <= |values| ==> Ordered(values[..i], orders))
    {
      var c := CompareNeighbours(values[i - 1], values[i], orders);
      if c == Greater {
        assert !Precedes(values[i - 1], values[i], orders);
        return Violated(i);
      }
      if c == Raises {
        assert FailsAt(values, i, orders, Raises) && !Precedes(values[i - 1], values[i], orders);
        return Incomparable;
      }
      NeighboursSuffice(values[..i], values[i], orders);
      assert values[..i + 1] == values[..i] + [values[i]];
      i := i + 1;
    }
    assert values[..|values|] == values;
    verdict := Accepted(values);
  }

  /** `order_values`: adjacent rows decide exactly the order of all pairs of rows. */
  method OrderValues<Row, E>(rows: seq<Row>, orders: seq<Order<E>>, evaluate: (E, Row) -> Option<Value>)
    returns (verdict: Verdict)
    ensures verdict.Uncovered? <==> !Evaluates(rows, orders, evaluate)
    ensures verdict.Accepted? <==>
      Evaluates(rows, orders, evaluate) && AllInOrder(KeySequence(rows, orders, evaluate), orders)
    ensures verdict.Accepted? ==> verdict.values == KeySequence(rows, orders, evaluate)
    ensures verdict.Violated? ==> 1 <= verdict.row < |rows| && Evaluates(rows, orders, evaluate)
    ensures verdict.Violated? ==> BreaksAt(KeySequence(rows, orders, evaluate), verdict.row, orders)
    ensures verdict.Incomparable? ==> Evaluates(rows, orders, evaluate)
    ensures verdict.Incomparable? ==>
      exists i :: 1 <= i < |rows| && MixesAt(KeySequence(rows, orders, evaluate), i, orders)
  {
    var evaluated := EvaluateKeys(rows, orders, evaluate);
    if evaluated.None? {
      return Uncovered;
    }
    verdict := CheckNeighbours(evaluated.value, orders);
    OrderedMeans(evaluated.value, orders);
    if verdict.Violated? {
      FailureMeans(evaluated.value, verdict.row, orders);
    } else if verdict.Incomparable? {
      ghost var i :| 1 <= i < |evaluated.value| && FailsAt(evaluated.value, i, orders, Raises);
      FailureMeans(evaluated.value, i, orders);
    }
  }

  // ----- one key

  ghost predicate NullsPlaced(keys: seq<Value>, nullsFirst: bool) {
    forall i, j :: 0 <= i < j < |keys| ==>
      if nullsFirst then keys[j].Null? ==> keys[i].Null? else keys[i].Null? ==> keys[j].Null?
  }

  function Column(keys: seq<Value>): seq<seq<Value>> {
    seq(|keys|, i requires 0 <= i < |keys| => [keys[i]])
  }

  lemma SingleInOrder<E>(a: Value, b: Value, o: Order<E>)
    ensures InOrder([a], [b], [o]) <==> a == b || Before(a, b, o)
  {
    if a != b {
      assert FirstDifference([a], [b], 0);
    }
  }

  /** A column of numbers is in order exactly when the numbers never fall, or never rise in a descending order,
      and the NULLs stand together at their end. */
  lemma NumbersInOrder<E>(keys: seq<Value>, o: Order<E>)
    requires (forall i :: 0 <= i < |keys| ==> keys[i].Null? || keys[i].Exact?)
      || (forall i :: 0 <= i < |keys| ==> keys[i].Null? || keys[i].Native?)
    ensures AllInOrder(Column(keys), [o]) <==>
      && NullsPlaced(keys, o.nullsFirst)
      && forall i, j :: 0 <= i < j < |keys| && !keys[i].Null? && !keys[j].Null? ==>
        if o.descending then keys[i].number >= keys[j].number else keys[i].number <= keys[j].number
  {
    ColumnInOrder(keys, o);
  }

  /** The same for texts, where no later text is smaller, or larger in a descending order. */
  lemma TextsInOrder<E>(keys: seq<Value>, o: Order<E>)
    requires forall i :: 0 <= i < |keys| ==> keys[i].Null? || keys[i].Text?
    ensures AllInOrder(Column(keys), [o]) <==>
      && NullsPlaced(keys, o.nullsFirst)
      && forall i, j :: 0 <= i < j < |keys| && !keys[i].Null? && !keys[j].Null? ==>
        if o.descending then !TextLess(keys[i].text, keys[j].text) else !TextLess(keys[j].text, keys[i].text)
  {
    ColumnInOrder(keys, o);
    forall i, j | 0 <= i < j < |keys| && !keys[i].Null? && !keys[j].Null?
      ensures keys[i] == keys[j] || Before(keys[i], keys[j], o) <==>
        if o.descending then !TextLess(keys[i].text, keys[j].text) else !TextLess(keys[j].text, keys[i].text)
    {
      TextTrichotomy(keys[i].text, keys[j].text);
    }
  }

  lemma ColumnInOrder<E>(keys: seq<Value>, o: Order<E>)
    ensures AllInOrder(Column(keys), [o]) <==>
      forall i, j :: 0 <= i < j < |keys| ==> keys[i] == keys[j] || Before(keys[i], keys[j], o)
  {
    forall i, j | 0 <= i < j < |keys|
      ensures InOrder(Column(keys)[i], Column(keys)[j], [o]) <==> keys[i] == keys[j] || Before(keys[i], keys[j], o)
    {
      SingleInOrder(keys[i], keys[j], o);
    }
  }

  // ----- two results

  /** The places between two rows where no peer group is cut. */
  ghost predicate Boundary(keys: seq<seq<Value>>, k: nat) {
    k <= |keys| && (0 < k < |keys| ==> keys[k - 1] != keys[k])
  }

  /** An order leaves one way to arrange a bag of keys. */
  lemma {:induction false} OneArrangement<E>(a: seq<seq<Value>>, b: seq<seq<Value>>, orders: seq<Order<E>>)
    requires Ordered(a, orders) && Ordered(b, orders) && multiset(a) == multiset(b)
    ensures a == b
    decreases |a|
  {
    SameLength(a, b);
    if a != [] {
      FirstsAgree(a, b, orders);
      var s := Tail(a, orders);
      var t := Tail(b, orders);
      OneArrangement(s, t, orders);
    }
  }

  lemma Tail<E>(a: seq<seq<Value>>, orders: seq<Order<E>>) returns (t: seq<seq<Value>>)
    requires Ordered(a, orders) && a != []
    ensures Ordered(t, orders) && a == [a[0]] + t && multiset(t) == multiset(a) - multiset{a[0]}
  {
    t := RemoveAt(a, 0);
    BagWithout(a, 0);
  }

  lemma FirstsAgree<E>(a: seq<seq<Value>>, b: seq<seq<Value>>, orders: seq<Order<E>>)
    requires Ordered(a, orders) && Ordered(b, orders) && multiset(a) == multiset(b) && a != [] && b != []
    ensures a[0] == b[0]
  {
    var j := Occurs(a, b, 0);
    var k := Occurs(b, a, 0);
    CompareAntisymmetric(a[0], b[0], orders);
  }

  /** No key occurs on both sides of a boundary. */
  lemma KeysPart<E>(keys: seq<seq<Value>>, k: nat, i: nat, j: nat, orders: seq<Order<E>>)
    requires Ordered(keys, orders) && Boundary(keys, k)
    requires i < k <= j < |keys|
    ensures keys[i] != keys[j]
  {
    if keys[i] == keys[j] {
      CompareAntisymmetric(keys[i], keys[k - 1], orders);
      CompareAntisymmetric(keys[k - 1], keys[j], orders);
      CompareAntisymmetric(keys[k], keys[j], orders);
      CompareAntisymmetric(keys[i], keys[k], orders);
    }
  }

  /** Rows before a boundary are all the rows whose key occurs there. */
  lemma PrefixCount<Row, E>(
    rows: seq<Row>, k: nat, row: Row, orders: seq<Order<E>>, evaluate: (E, Row) -> Option<Value>)
    requires Evaluates(rows, orders, evaluate) && Ordered(KeySequence(rows, orders, evaluate), orders)
    requires Boundary(KeySequence(rows, orders, evaluate), k)
    ensures var keys := KeySequence(rows, orders, evaluate); var key := KeysOf(row, orders, evaluate);
      multiset(rows[..k])[row] == if key.Some? && key.value in keys[..k] then multiset(rows)[row] else 0
  {
    var keys := KeySequence(rows, orders, evaluate);
    var key := KeysOf(row, orders, evaluate);
    assert rows == rows[..k] + rows[k..];
    assert multiset(rows)[row] == multiset(rows[..k])[row] + multiset(rows[k..])[row];
    if key.Some? && key.value in keys[..k] {
      var i :| 0 <= i < k && keys[i] == key.value;
      forall j | k <= j < |rows|
        ensures rows[j] != row
      {
        KeysPart(keys, k, i, j, orders);
      }
      assert row !in rows[k..];
    } else {
      assert forall i :: 0 <= i < k ==> Some(keys[..k][i]) == KeysOf(rows[i], orders, evaluate);
      assert row !in rows[..k];
    }
  }

  lemma OneKeySequence<Row(!new), E>(
    actual: seq<Row>, expected: seq<Row>, orders: seq<Order<E>>, evaluate: (E, Row) -> Option<Value>)
    requires multiset(actual) == multiset(expected)
    requires Evaluates(actual, orders, evaluate) && Evaluates(expected, orders, evaluate)
    requires Ordered(KeySequence(actual, orders, evaluate), orders)
    requires Ordered(KeySequence(expected, orders, evaluate), orders)
    ensures KeySequence(actual, orders, evaluate) == KeySequence(expected, orders, evaluate)
  {
    var a, b := KeySequence(actual, orders, evaluate), KeySequence(expected, orders, evaluate);
    ImagesAgree(actual, expected, a, b, (row: Row) =>
      var keys := KeysOf(row, orders, evaluate); if keys.Some? then keys.value else []);
    OneArrangement(a, b, orders);
  }

  lemma PrefixesAgree<Row(!new), E>(
    actual: seq<Row>, expected: seq<Row>, orders: seq<Order<E>>, evaluate: (E, Row) -> Option<Value>, k: nat)
    requires multiset(actual) == multiset(expected)
    requires Evaluates(actual, orders, evaluate) && Evaluates(expected, orders, evaluate)
    requires KeySequence(actual, orders, evaluate) == KeySequence(expected, orders, evaluate)
    requires Ordered(KeySequence(actual, orders, evaluate), orders)
    requires Boundary(KeySequence(actual, orders, evaluate), k)
    ensures k <= |actual| == |expected| && multiset(actual[..k]) == multiset(expected[..k])
  {
    forall row: Row
      ensures multiset(actual[..k])[row] == multiset(expected[..k])[row]
    {
      PrefixCount(actual, k, row, orders, evaluate);
      PrefixCount(expected, k, row, orders, evaluate);
    }
  }

  lemma SlicesAgree<Row>(actual: seq<Row>, expected: seq<Row>, i: nat, j: nat)
    requires i <= j <= |actual| && j <= |expected|
    requires multiset(actual[..i]) == multiset(expected[..i]) && multiset(actual[..j]) == multiset(expected[..j])
    ensures multiset(actual[i..j]) == multiset(expected[i..j])
  {
    assert actual[..j] == actual[..i] + actual[i..j] && expected[..j] == expected[..i] + expected[i..j];
    assert multiset(actual[i..j]) == multiset(actual[..j]) - multiset(actual[..i]);
    assert multiset(expected[i..j]) == multiset(expected[..j]) - multiset(expected[..i]);
  }

  /** Two ordered results with the same bag of rows have one key sequence, and differ only by
      permuting rows inside a peer group. */
  lemma OrderedBagsAgree<Row(!new), E>(
    actual: seq<Row>, expected: seq<Row>, orders: seq<Order<E>>, evaluate: (E, Row) -> Option<Value>)
    requires multiset(actual) == multiset(expected)
    requires Evaluates(actual, orders, evaluate) && Evaluates(expected, orders, evaluate)
    requires AllInOrder(KeySequence(actual, orders, evaluate), orders)
    requires AllInOrder(KeySequence(expected, orders, evaluate), orders)
    ensures |actual| == |expected|
    ensures KeySequence(actual, orders, evaluate) == KeySequence(expected, orders, evaluate)
    ensures forall k: nat :: Boundary(KeySequence(actual, orders, evaluate), k) ==>
      multiset(actual[..k]) == multiset(expected[..k])
    ensures var keys := KeySequence(actual, orders, evaluate);
      forall i: nat, j: nat :: i <= j && Boundary(keys, i) && Boundary(keys, j) ==>
        multiset(actual[i..j]) == multiset(expected[i..j])
  {
    var keys := KeySequence(actual, orders, evaluate);
    OrderedMeans(keys, orders);
    OrderedMeans(KeySequence(expected, orders, evaluate), orders);
    OneKeySequence(actual, expected, orders, evaluate);
    forall k: nat | Boundary(keys, k)
      ensures multiset(actual[..k]) == multiset(expected[..k])
    {
      PrefixesAgree(actual, expected, orders, evaluate, k);
    }
    forall i: nat, j: nat | i <= j && Boundary(keys, i) && Boundary(keys, j)
      ensures multiset(actual[i..j]) == multiset(expected[i..j])
    {
      SlicesAgree(actual, expected, i, j);
    }
  }
}
