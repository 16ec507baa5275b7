/** The numeric row matcher: actual rows against reference rows whose cells are exact
    values or admitted intervals, paired one to one by augmenting paths. */
module NumericMatching {

  /** A binary64 value, up to the sign of zero. */
  datatype Float = Finite(value: real) | Infinite(negative: bool) | NaN

  datatype Cell =
    | Null
    | Boolean(flag: bool)
    | Integer(number: int)
    | Decimal(exact: real)
    | Text(text: string)
    | Binary(float: Float)

  datatype Target = Exact(cell: Cell) | Interval(lower: Float, upper: Float)

  type Row = seq<Cell>
  type Reference = seq<Target>

  predicate FloatLe(a: Float, b: Float) {
    match (a, b)
    case (NaN, _) => false
    case (_, NaN) => false
    case (Finite(x), Finite(y)) => x <= y
    case (Infinite(negative), Finite(_)) => negative
    case (Finite(_), Infinite(negative)) => !negative
    case (Infinite(n), Infinite(m)) => n || !m
  }

  /** `Interval.contains`: only a finite float can lie in an interval. */
  predicate Contains(target: Target, value: Cell)
    requires target.Interval?
  {
    && value.Binary?
    && value.float.Finite?
    && FloatLe(target.lower, value.float)
    && FloatLe(value.float, target.upper)
  }

  /** Same type and equal; a NaN equals nothing. */
  predicate SameValue(value: Cell, expected: Cell) {
    value == expected && !(value.Binary? && value.float.NaN?)
  }

  predicate CellMatches(value: Cell, target: Target) {
    if target.Interval? then Contains(target, value) else SameValue(value, target.cell)
  }

  predicate Matches(row: Row, expected: Reference) {
    && |row| == |expected|
    && forall i :: 0 <= i < |row| ==> CellMatches(row[i], expected[i])
  }

  // ----- what a target admits, on the number line

  ghost predicate AtLeast(x: real, lower: Float) {
    match lower
    case Finite(y) => y <= x
    case Infinite(negative) => negative
    case NaN => false
  }

  ghost predicate AtMost(x: real, upper: Float) {
    match upper
    case Finite(y) => x <= y
    case Infinite(negative) => !negative
    case NaN => false
  }

  /** An interval admits the finite floats between its ends; an exact cell admits itself, unless it is a NaN. */
  ghost predicate Admits(target: Target, value: Cell) {
    match target
    case Interval(lower, upper) =>
      value.Binary? && value.float.Finite? && AtLeast(value.float.value, lower) && AtMost(value.float.value, upper)
    case Exact(cell) => value == cell && cell != Binary(NaN)
  }

  ghost predicate AdmitsRow(expected: Reference, row: Row) {
    |expected| == |row| && forall i :: 0 <= i < |row| ==> Admits(expected[i], row[i])
  }

  lemma MatchesAdmitted(row: Row, expected: Reference)
    ensures Matches(row, expected) <==> AdmitsRow(expected, row)
  {
    forall i | 0 <= i < |row| && i < |expected|
      ensures CellMatches(row[i], expected[i]) <==> Admits(expected[i], row[i])
    {
    }
  }

  /** A one-to-one choice of one admissible target for every row. */
  ghost predicate IsPairing(edges: seq<seq<nat>>, pairing: seq<nat>) {
    && |pairing| == |edges|
    && (forall r :: 0 <= r < |edges| ==> pairing[r] in edges[r])
    && (forall r, q :: 0 <= r < q < |pairing| ==> pairing[r] != pairing[q])
  }

  ghost predicate HasPairing(edges: seq<seq<nat>>) {
    exists pairing :: IsPairing(edges, pairing)
  }

  /** What the matcher is asked to decide, in terms of the rows alone. */
  ghost predicate IsBijection(actual: seq<Row>, reference: seq<Reference>, pairing: seq<nat>) {
    && |actual| == |reference| == |pairing|
    && (forall r :: 0 <= r < |pairing| ==>
      pairing[r] < |reference| && AdmitsRow(reference[pairing[r]], actual[r]))
    && (forall r, q :: 0 <= r < q < |pairing| ==> pairing[r] != pairing[q])
  }

  /** Rows `rows` compete for too few targets: all their edges end in the smaller set `targets`. */
  ghost predicate HallViolator(edges: seq<seq<nat>>, rows: set<nat>, targets: set<nat>) {
    && (forall r :: r in rows ==> r < |edges|)
    && (forall r, t :: r in rows && t in edges[r] ==> t in targets)
    && |targets| < |rows|
  }

  lemma {:induction false} ImageIsAsLarge(pairing: seq<nat>, rows: set<nat>)
    requires forall r :: r in rows ==> r < |pairing|
    requires forall r, q :: 0 <= r < q < |pairing| ==> pairing[r] != pairing[q]
    ensures |set r | r in rows :: pairing[r]| == |rows|
    decreases rows
  {
    if rows != {} {
      var r :| r in rows;
      var rest := rows - {r};
      ImageIsAsLarge(pairing, rest);
      assert (set q | q in rows :: pairing[q]) == (set q | q in rest :: pairing[q]) + {pairing[r]};
    }
  }

  lemma {:induction false} SubsetIsSmaller<T>(small: set<T>, large: set<T>)
    requires small <= large
    ensures |small| <= |large|
    decreases small
  {
    if small != {} {
      var x :| x in small;
      SubsetIsSmaller(small - {x}, large - {x});
    }
  }

  /** A Hall violator refutes every pairing. */
  lemma HallViolatorRefutes(edges: seq<seq<nat>>, rows: set<nat>, targets: set<nat>)
    requires HallViolator(edges, rows, targets)
    ensures !HasPairing(edges)
  {
    forall pairing | IsPairing(edges, pairing) ensures false {
      ImageIsAsLarge(pairing, rows);
      SubsetIsSmaller(set r | r in rows :: pairing[r], targets);
    }
  }

  /** The targets of a reference with `n` rows. */
  ghost function Upto(n: nat): (all: set<nat>)
    ensures forall t: nat :: t in all <==> t < n
    ensures |all| == n
  {
    if n == 0 then {} else Upto(n - 1) + {n - 1}
  }

  // ----- the assignment an augmenting search works on, away from the targets already seen

  ghost predicate InjectiveOutside(holder: map<nat, nat>, seen: set<nat>) {
    forall t, u :: t in holder && u in holder && t !in seen && u !in seen && t != u
      ==> holder[t] != holder[u]
  }

  ghost predicate HeldOutside(holder: map<nat, nat>, seen: set<nat>, row: nat) {
    exists t :: t in holder && t !in seen && holder[t] == row
  }

  /** Every taken target lies on an edge of the row that holds it. */
  ghost predicate OnEdges(holder: map<nat, nat>, edges: seq<seq<nat>>) {
    forall t :: t in holder ==> holder[t] < |edges| && t in edges[holder[t]]
  }

  /** Seat `row` without touching a seen target and without unseating anybody else. */
  ghost predicate Seats(before: map<nat, nat>, after: map<nat, nat>, row: nat, seen: set<nat>) {
    && (forall t :: t in seen ==> (t in before <==> t in after))
    && (forall t :: t in seen && t in before ==> after[t] == before[t])
    && InjectiveOutside(after, seen)
    && (forall r: nat :: HeldOutside(after, seen, r) <==> HeldOutside(before, seen, r) || r == row)
  }

  /** Every newly seen target is taken, and its holder has no way out of the seen targets. */
  ghost predicate Stuck(holder: map<nat, nat>, edges: seq<seq<nat>>, newly: set<nat>, seen: set<nat>)
    requires OnEdges(holder, edges)
  {
    forall t :: t in newly ==> t in holder && forall u :: u in edges[holder[t]] ==> u in seen
  }

  lemma SeatingComposes(
    before: map<nat, nat>, inner: map<nat, nat>, row: nat, target: nat, seen: set<nat>, visited: set<nat>)
    requires seen <= visited && target in visited && target !in seen
    requires target in before && target in inner
    requires InjectiveOutside(before, seen) && !HeldOutside(before, seen, row)
    requires Seats(before, inner, before[target], visited)
    ensures Seats(before, inner[target := row], row, seen)
  {
    var after := inner[target := row];
    forall r | HeldOutside(after, seen, r) ensures HeldOutside(before, seen, r) || r == row {
      var t :| t in after && t !in seen && after[t] == r;
      if t != target && t !in visited {
        assert HeldOutside(inner, visited, r);
        if r != before[target] {
          assert HeldOutside(before, visited, r);
        }
      }
    }
    forall r | HeldOutside(before, seen, r) || r == row ensures HeldOutside(after, seen, r) {
      if r == row {
        assert after[target] == row;
      } else {
        var t :| t in before && t !in seen && before[t] == r;
        if t == target || t !in visited {
          assert t == target || HeldOutside(before, visited, r);
          assert HeldOutside(inner, visited, r);
          var u :| u in inner && u !in visited && inner[u] == r;
          assert u != target && after[u] == r;
        } else {
          assert after[t] == r;
        }
      }
    }
    forall t, u | t in after && u in after && t !in seen && u !in seen && t != u
      ensures after[t] != after[u]
    {
      SeatsApart(before, inner, row, target, seen, visited, t, u);
    }
  }

  lemma SeatsApart(
    before: map<nat, nat>, inner: map<nat, nat>, row: nat, target: nat, seen: set<nat>, visited: set<nat>,
    t: nat, u: nat)
    requires seen <= visited && target in visited && target !in seen
    requires target in before && target in inner
    requires InjectiveOutside(before, seen) && !HeldOutside(before, seen, row)
    requires Seats(before, inner, before[target], visited)
    requires t in inner && u in inner && t !in seen && u !in seen && t != u
    ensures inner[target := row][t] != inner[target := row][u]
  {
    var after := inner[target := row];
    if t in visited && u in visited {
      assert t != target ==> t in before && after[t] == before[t];
      assert u != target ==> u in before && after[u] == before[u];
    } else if t in visited {
      SeatsApartFromNew(before, inner, row, target, seen, visited, t, u);
    } else if u in visited {
      SeatsApartFromNew(before, inner, row, target, seen, visited, u, t);
    }
  }

  /** The case of one visited target and one the inner search was free to change. */
  lemma SeatsApartFromNew(
    before: map<nat, nat>, inner: map<nat, nat>, row: nat, target: nat, seen: set<nat>, visited: set<nat>,
    t: nat, u: nat)
    requires seen <= visited && target in visited && target !in seen
    requires target in before && target in inner
    requires InjectiveOutside(before, seen) && !HeldOutside(before, seen, row)
    requires Seats(before, inner, before[target], visited)
    requires t in inner && u in inner && t !in seen && t in visited && u !in visited
    ensures inner[target := row][t] != inner[u]
  {
    var q := inner[u];
    assert HeldOutside(inner, visited, q);
    if q != before[target] {
      assert HeldOutside(before, visited, q);
      var w :| w in before && w !in visited && before[w] == q;
      assert t != target ==> before[w] != before[t];
    }
    assert HeldOutside(before, seen, q);
  }

  /** The matcher's mutable state: which row currently holds which target. */
  class Matcher {
    const edges: seq<seq<nat>>
    const targets: nat
    var holder: map<nat, nat>

    ghost predicate Valid()
      reads this
    {
      && OnEdges(holder, edges)
      && forall r, t: nat :: 0 <= r < |edges| && t in edges[r] ==> t < targets
    }

    constructor (edges: seq<seq<nat>>, targets: nat)
      requires forall r, t: nat :: 0 <= r < |edges| && t in edges[r] ==> t < targets
      ensures Valid() && holder == map[] && this.edges == edges && this.targets == targets
    {
      this.edges := edges;
      this.targets := targets;
      holder := map[];
    }

    /** One augmenting search. It either seats `row`, or leaves the assignment alone and
        returns a set of targets in which `row` and the holders of the fresh targets are stuck. */
    method Augment(row: nat, seen: set<nat>) returns (found: bool, visited: set<nat>)
      requires Valid()
      requires row < |edges|
      requires forall t :: t in seen ==> t < targets
      requires InjectiveOutside(holder, seen) && !HeldOutside(holder, seen, row)
      modifies this`holder
      ensures Valid()
      ensures seen <= visited && forall t :: t in visited ==> t < targets
      ensures found ==> Seats(old(holder), holder, row, seen)
      ensures !found ==> holder == old(holder)
      ensures !found ==> Stuck(holder, edges, visited - seen, visited)
      ensures !found ==> forall t :: t in edges[row] ==> t in visited
      decreases Upto(targets) - seen
    {
      visited := seen;
      for k := 0 to |edges[row]|
        invariant seen <= visited && forall t :: t in visited ==> t < targets
        invariant holder == old(holder)
        invariant Stuck(holder, edges, visited - seen, visited)
        invariant forall j :: 0 <= j < k ==> edges[row][j] in visited
      {
        var target := edges[row][k];
        if target in visited {
          continue;
        }
        assert target in edges[row] && target in Upto(targets) - seen;
        visited := visited + {target};
        if target !in holder {
          holder := holder[target := row];
          FirstSeat(old(holder), row, target, seen);
          return true, visited;
        }
        assert InjectiveOutside(holder, visited);
        assert !HeldOutside(holder, visited, holder[target]);
        ghost var before := visited;
        var moved;
        moved, visited := Augment(holder[target], visited);
        if moved {
          SeatingComposes(old(holder), holder, row, target, seen, before);
          holder := holder[target := row];
          return true, visited;
        }
      }
      found := false;
    }
  }

  lemma FirstSeat(before: map<nat, nat>, row: nat, target: nat, seen: set<nat>)
    requires target !in before && target !in seen
    requires InjectiveOutside(before, seen) && !HeldOutside(before, seen, row)
    ensures Seats(before, before[target := row], row, seen)
  {
  }

  // ----- the whole matcher

  /** Exactly the rows below `n` are seated, each once. */
  ghost predicate SeatsFirst(holder: map<nat, nat>, n: nat) {
    && InjectiveOutside(holder, {})
    && forall r: nat :: HeldOutside(holder, {}, r) <==> r < n
  }

  /** A seated prefix of rows yields a pairing of that prefix. */
  lemma SeatedRowsPair(edges: seq<seq<nat>>, holder: map<nat, nat>, n: nat)
    requires OnEdges(holder, edges) && n <= |edges| && SeatsFirst(holder, n)
    ensures HasPairing(edges[..n])
  {
    var pairing := seq(n, r requires 0 <= r < n => SeatOf(holder, n, r));
    assert IsPairing(edges[..n], pairing);
  }

  ghost function SeatOf(holder: map<nat, nat>, n: nat, row: nat): (t: nat)
    requires SeatsFirst(holder, n) && row < n
    ensures t in holder && holder[t] == row
  {
    assert HeldOutside(holder, {}, row);
    var t: nat :| t in holder && holder[t] == row;
    t
  }

  /** A failed search exposes a Hall violator among the rows tried so far. */
  lemma FailureIsHallViolator(edges: seq<seq<nat>>, holder: map<nat, nat>, row: nat, visited: set<nat>)
    requires OnEdges(holder, edges) && row < |edges| && SeatsFirst(holder, row)
    requires Stuck(holder, edges, visited, visited)
    requires forall t :: t in edges[row] ==> t in visited
    ensures HallViolator(edges[..row + 1], {row} + set t | t in visited :: holder[t], visited)
  {
    var rows := set t | t in visited :: holder[t];
    HoldersAreAsMany(holder, visited);
    forall t | t in visited ensures holder[t] < row {
      assert HeldOutside(holder, {}, holder[t]);
    }
    assert |{row} + rows| == 1 + |rows|;
  }

  lemma FailureRefutes(edges: seq<seq<nat>>, holder: map<nat, nat>, row: nat, visited: set<nat>)
    requires OnEdges(holder, edges) && row < |edges| && SeatsFirst(holder, row)
    requires Stuck(holder, edges, visited, visited)
    requires forall t :: t in edges[row] ==> t in visited
    ensures !HasPairing(edges[..row + 1])
  {
    FailureIsHallViolator(edges, holder, row, visited);
    HallViolatorRefutes(edges[..row + 1], {row} + set t | t in visited :: holder[t], visited);
  }

  lemma SeatsOneMore(before: map<nat, nat>, after: map<nat, nat>, row: nat)
    requires SeatsFirst(before, row) && Seats(before, after, row, {})
    ensures SeatsFirst(after, row + 1)
  {
  }

  lemma {:induction false} HoldersAreAsMany(holder: map<nat, nat>, targets: set<nat>)
    requires targets <= holder.Keys && InjectiveOutside(holder, {})
    ensures |set t | t in targets :: holder[t]| == |targets|
    decreases targets
  {
    if targets != {} {
      var t :| t in targets;
      var rest := targets - {t};
      HoldersAreAsMany(holder, rest);
      assert (set u | u in targets :: holder[u]) == (set u | u in rest :: holder[u]) + {holder[t]};
    }
  }

  datatype Verdict = Matched | MultiplicityDiffers | NoMatchFor(row: nat)

  ghost predicate AreEdges(row: Row, reference: seq<Reference>, edges: seq<nat>) {
    forall t: nat :: t in edges <==> t < |reference| && AdmitsRow(reference[t], row)
  }

  /** The admissible targets of one row, in reference order. */
  method EdgesOf(row: Row, reference: seq<Reference>) returns (edges: seq<nat>)
    ensures AreEdges(row, reference, edges)
    ensures forall i, j :: 0 <= i < j < |edges| ==> edges[i] < edges[j]
  {
    edges := [];
    for t := 0 to |reference|
      invariant forall u: nat :: u in edges <==> u < t && AdmitsRow(reference[u], row)
      invariant forall i, j :: 0 <= i < j < |edges| ==> edges[i] < edges[j]
    {
      MatchesAdmitted(row, reference[t]);
      if Matches(row, reference[t]) {
        assert forall i :: 0 <= i < |edges| ==> edges[i] in edges;
        edges := edges + [t];
      }
    }
  }

  /** The edge lists are those of the row match relation. */
  ghost predicate EdgesAgree(actual: seq<Row>, reference: seq<Reference>, edges: seq<seq<nat>>) {
    && |edges| == |actual|
    && forall r :: 0 <= r < |actual| ==> AreEdges(actual[r], reference, edges[r])
  }

  /** The rows before `row` can be paired, but not together with it. */
  ghost predicate FirstUnmatched(actual: seq<Row>, reference: seq<Reference>, row: nat) {
    && row < |actual|
    && exists edges ::
      && EdgesAgree(actual, reference, edges)
      && HasPairing(edges[..row])
      && !HasPairing(edges[..row + 1])
  }

  /** `assert_numeric_bijection`: it accepts exactly the row lists that can be paired one to one,
      and the row it rejects is the first that cannot be added to a partial pairing. */
  method AssertNumericBijection(actual: seq<Row>, reference: seq<Reference>) returns (verdict: Verdict)
    ensures verdict == Matched <==> exists pairing :: IsBijection(actual, reference, pairing)
    ensures verdict == MultiplicityDiffers <==> |actual| != |reference|
    ensures verdict.NoMatchFor? ==> FirstUnmatched(actual, reference, verdict.row)
  {
    if |actual| != |reference| {
      return MultiplicityDiffers;
    }
    var edges := MatchEdges(actual, reference);
    var failed := SeatRows(edges, |reference|);
    PairingsAreBijections(actual, reference, edges);
    verdict := if failed == |actual| then Matched else NoMatchFor(failed);
    if failed < |actual| {
      PrefixPairs(edges, failed + 1);
    } else {
      assert edges[..failed] == edges;
    }
  }

  /** The edge list of every actual row. */
  method MatchEdges(actual: seq<Row>, reference: seq<Reference>) returns (edges: seq<seq<nat>>)
    ensures EdgesAgree(actual, reference, edges)
  {
    edges := [];
    for r := 0 to |actual|
      invariant EdgesAgree(actual[..r], reference, edges)
    {
      var targets := EdgesOf(actual[r], reference);
      edges := edges + [targets];
    }
    assert actual[..|actual|] == actual;
  }

  /** Seat the rows in order; the result is the first row that cannot be seated, or the row count. */
  method SeatRows(edges: seq<seq<nat>>, targets: nat) returns (failed: nat)
    requires forall r, t: nat :: 0 <= r < |edges| && t in edges[r] ==> t < targets
    ensures failed <= |edges| && HasPairing(edges[..failed])
    ensures failed < |edges| ==> !HasPairing(edges[..failed + 1])
  {
    var matcher := new Matcher(edges, targets);
    for row := 0 to |edges|
      invariant matcher.edges == edges && matcher.targets == targets && matcher.Valid()
      invariant SeatsFirst(matcher.holder, row)
    {
      ghost var before := matcher.holder;
      var found, visited := matcher.Augment(row, {});
      if !found {
        SeatedRowsPair(edges, before, row);
        assert visited - {} == visited;
        FailureRefutes(edges, before, row, visited);
        return row;
      }
      SeatsOneMore(before, matcher.holder, row);
    }
    SeatedRowsPair(edges, matcher.holder, |edges|);
    failed := |edges|;
  }

  /** On as many targets as rows, a pairing of the edges is a bijection of the rows. */
  lemma PairingsAreBijections(actual: seq<Row>, reference: seq<Reference>, edges: seq<seq<nat>>)
    requires EdgesAgree(actual, reference, edges) && |actual| == |reference|
    ensures HasPairing(edges) <==> exists pairing :: IsBijection(actual, reference, pairing)
  {
    forall pairing | IsBijection(actual, reference, pairing) ensures HasPairing(edges) {
      assert IsPairing(edges, pairing);
    }
    forall pairing | IsPairing(edges, pairing)
      ensures exists pairing :: IsBijection(actual, reference, pairing)
    {
      assert IsBijection(actual, reference, pairing);
    }
  }

  /** A pairing restricts to every prefix of the rows. */
  lemma PrefixPairs(edges: seq<seq<nat>>, n: nat)
    requires n <= |edges|
    ensures HasPairing(edges) ==> HasPairing(edges[..n])
  {
    forall pairing | IsPairing(edges, pairing) ensures HasPairing(edges[..n]) {
      assert IsPairing(edges[..n], pairing[..n]);
    }
  }
}
