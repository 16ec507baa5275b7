/** In exact arithmetic every schedule of a bag computes the same, true moments. */
module ExactMoments {
  import opened Bits
  import opened Schedules
  import opened Envelope

  /** The operators of `Arithmetic` without any rounding. No schedule divides by zero or takes a root. */
  function Exact(): Arithmetic<real> {
    Arithmetic(
      i => i as real,
      (x, y) => x + y,
      (x, y) => x - y,
      (x, y) => x * y,
      (x, y) => if y == 0.0 then 0.0 else x / y,
      (a, b) => if b == 0 then 0.0 else a as real / b as real,
      (x, y, z) => x * y + z,
      x => x,
      (x, y) => x < y,
      x => true,
      x => false)
  }

  /** The sum of the values at the indices in `used`, each raised by `f`. */
  ghost function SumOf(values: seq<int>, used: set<nat>, f: int -> int): int {
    if values == [] then 0
    else
      var last := |values| - 1;
      SumOf(values[..last], used, f) + (if last in used then f(values[last]) else 0)
  }

  ghost function Id(): int -> int { v => v }
  ghost function Square(): int -> int { v => v * v }

  lemma {:induction false} SumOfPair(values: seq<int>, one: set<nat>, other: set<nat>, f: int -> int)
    requires one !! other
    ensures SumOf(values, one + other, f) == SumOf(values, one, f) + SumOf(values, other, f)
  {
    if values != [] { SumOfPair(values[..|values| - 1], one, other, f); }
  }

  lemma {:induction false} SumOfNone(values: seq<int>, used: set<nat>, f: int -> int)
    requires forall i: nat :: i in used ==> i >= |values|
    ensures SumOf(values, used, f) == 0
  {
    if values != [] { SumOfNone(values[..|values| - 1], used, f); }
  }

  lemma {:induction false} SumOfOne(values: seq<int>, i: nat, f: int -> int)
    requires i < |values|
    ensures SumOf(values, {i}, f) == f(values[i])
  {
    var last := |values| - 1;
    if i == last {
      SumOfNone(values[..last], {i}, f);
    } else {
      SumOfOne(values[..last], i, f);
    }
  }

  lemma {:induction false} SumOfAll(values: seq<int>, used: set<nat>)
    requires forall i: nat :: i < |values| ==> i in used
    ensures SumOf(values, used, Id()) == Total(values)
    ensures SumOf(values, used, Square()) == SquareTotal(values)
  {
    if values != [] {
      var last := |values| - 1;
      SumOfAll(values[..last], used);
      TotalSnoc(values[..last], values[last]);
      assert values[..last] + [values[last]] == values;
    }
  }

  function SquareTotal(values: seq<int>): int {
    if values == [] then 0 else values[0] * values[0] + SquareTotal(values[1..])
  }

  lemma {:induction false} TotalSnoc(values: seq<int>, v: int)
    ensures Total(values + [v]) == Total(values) + v
    ensures SquareTotal(values + [v]) == SquareTotal(values) + v * v
  {
    if values != [] {
      TotalSnoc(values[1..], v);
      assert (values + [v])[1..] == values[1..] + [v];
    } else {
      assert values + [v] == [v] && [v][1..] == [];
    }
  }

  /** The state of a bag with count `n`, sum `sum` and sum of squares `squares`. */
  ghost predicate IsMoments(s: State<real>, n: int, sum: int, squares: int) {
    && s.n == n
    && s.n as real * s.mean == sum as real
    && s.m2 == squares as real - s.mean * sum as real
    && (n == 0 ==> s.mean == 0.0)
  }

  lemma UpdateKeepsMoments(s: State<real>, n: int, sum: int, squares: int, v: int)
    requires IsMoments(s, n, sum, squares)
    ensures IsMoments(Updated(Exact(), s, v), n + 1, sum + v, squares + v * v)
  {
  }

  /** The unfused formula for given intermediate results. */
  lemma PlainSteps(
    ar: Arithmetic<real>, l: State<real>, r: State<real>,
    delta: real, share: real, shift: real, mean: real,
    square: real, product: real, weight: real, term: real, right: real, m2: real)
    requires delta == ar.sub(r.mean, l.mean)
    requires share == ar.quotient(r.n, l.n + r.n) && shift == ar.mul(delta, share) && mean == ar.add(l.mean, shift)
    requires square == ar.mul(delta, delta) && product == ar.mul(ar.fromInt(l.n), ar.fromInt(r.n))
    requires weight == ar.div(product, ar.fromInt(l.n + r.n)) && term == ar.mul(square, weight)
    requires right == ar.add(r.m2, term) && m2 == ar.add(l.m2, right)
    ensures Merged(ar, l, r, false) == State(l.n + r.n, mean, m2)
  {
  }

  /** The fused formula for given intermediate results. */
  lemma FusedSteps(
    ar: Arithmetic<real>, l: State<real>, r: State<real>,
    delta: real, share: real, mean: real, square: real, scaled: real, product: real, term: real, both: real, m2: real)
    requires delta == ar.sub(r.mean, l.mean)
    requires share == ar.quotient(r.n, l.n + r.n) && mean == ar.fma(share, delta, l.mean)
    requires square == ar.mul(delta, delta) && scaled == ar.mul(square, ar.fromInt(r.n))
    requires product == ar.mul(scaled, ar.fromInt(l.n)) && term == ar.div(product, ar.fromInt(l.n + r.n))
    requires both == ar.add(r.m2, l.m2) && m2 == ar.add(both, term)
    ensures Merged(ar, l, r, true) == State(l.n + r.n, mean, m2)
  {
  }

  lemma ExactOperators(x: real, y: real, z: real)
    ensures Exact().add(x, y) == x + y && Exact().sub(x, y) == x - y && Exact().mul(x, y) == x * y
    ensures y != 0.0 ==> Exact().div(x, y) == x / y
    ensures Exact().fma(x, y, z) == x * y + z
  {
  }

  lemma FusedValue(
    l: State<real>, r: State<real>, a: real, b: real, n: real, delta: real,
    share: real, mean: real, square: real, scaled: real, product: real, term: real)
    requires l.n + r.n > 0 && a == l.n as real && b == r.n as real && n == (l.n + r.n) as real
    requires delta == r.mean - l.mean && share == b / n && mean == share * delta + l.mean
    requires square == delta * delta && scaled == square * b && product == scaled * a && term == product / n
    ensures Merged(Exact(), l, r, true) == State(l.n + r.n, mean, (r.m2 + l.m2) + term)
  {
    ExactOperators(delta, delta, 0.0);
    ExactOperators(share, delta, l.mean);
    ExactOperators(square, b, 0.0);
    ExactOperators(scaled, a, 0.0);
    ExactOperators(product, n, 0.0);
    FusedSteps(Exact(), l, r, delta, share, mean,
               square, scaled, product, term, r.m2 + l.m2, (r.m2 + l.m2) + term);
  }

  lemma PlainValue(
    l: State<real>, r: State<real>, a: real, b: real, n: real, delta: real,
    share: real, shift: real, square: real, product: real, weight: real, term: real)
    requires l.n + r.n > 0 && a == l.n as real && b == r.n as real && n == (l.n + r.n) as real
    requires delta == r.mean - l.mean && share == b / n && shift == delta * share
    requires square == delta * delta && product == a * b && weight == product / n && term == square * weight
    ensures Merged(Exact(), l, r, false) == State(l.n + r.n, l.mean + shift, l.m2 + (r.m2 + term))
  {
    ExactOperators(delta, delta, 0.0);
    ExactOperators(delta, share, 0.0);
    ExactOperators(a, b, 0.0);
    ExactOperators(product, n, 0.0);
    ExactOperators(square, weight, 0.0);
    PlainSteps(Exact(), l, r, delta, share, shift, l.mean + shift,
               square, product, weight, term, r.m2 + term, l.m2 + (r.m2 + term));
  }

  /** A state built from two halves with the shared mean and the added term holds the moments of both. */
  lemma HalvesAddUp(
    s: State<real>, l: State<real>, lsum: int, lsquares: int, r: State<real>, rsum: int, rsquares: int,
    share: real, weight: real)
    requires IsMoments(l, l.n, lsum, lsquares) && IsMoments(r, r.n, rsum, rsquares)
    requires l.n > 0 && r.n > 0 && MovesBy(s, l, r, r.mean - l.mean, share, weight)
    requires share == r.n as real / (l.n + r.n) as real
    requires weight == (l.n as real * r.n as real) / (l.n + r.n) as real
    ensures Moments()(s, l.n + r.n, lsum + rsum, lsquares + rsquares)
  {
  }

  /** The mean moves by its share of the distance, and the weighted square of the distance is added. */
  ghost predicate MovesBy(s: State<real>, l: State<real>, r: State<real>, delta: real, share: real, weight: real) {
    && s.n == l.n + r.n && s.mean == l.mean + delta * share
    && s.m2 == l.m2 + r.m2 + delta * delta * weight
  }

  lemma FusedMoves(
    l: State<real>, r: State<real>, a: real, b: real, n: real, delta: real, share: real, weight: real)
    requires l.n + r.n > 0 && a == l.n as real && b == r.n as real && n == (l.n + r.n) as real
    requires delta == r.mean - l.mean && share == b / n && weight == (a * b) / n
    ensures MovesBy(Merged(Exact(), l, r, true), l, r, delta, share, weight)
  {
    var square := delta * delta;
    var term := square * b * a / n;
    assert share * delta == delta * share;
    FusedTerm(square, a, b, n);
    FusedValue(l, r, a, b, n, delta, share, share * delta + l.mean, square, square * b, square * b * a, term);
  }

  lemma PlainMoves(
    l: State<real>, r: State<real>, a: real, b: real, n: real, delta: real, share: real, weight: real)
    requires l.n + r.n > 0 && a == l.n as real && b == r.n as real && n == (l.n + r.n) as real
    requires delta == r.mean - l.mean && share == b / n && weight == (a * b) / n
    ensures MovesBy(Merged(Exact(), l, r, false), l, r, delta, share, weight)
  {
    var square := delta * delta;
    PlainValue(l, r, a, b, n, delta, share, delta * share, square, a * b, weight, square * weight);
  }

  /** Either merge of true moments has the true moments of both parts. */
  lemma MergeKeepsMoments(
    l: State<real>, lsum: int, lsquares: int, r: State<real>, rsum: int, rsquares: int, fused: bool)
    requires IsMoments(l, l.n, lsum, lsquares) && IsMoments(r, r.n, rsum, rsquares)
    requires l.n > 0 && r.n > 0
    ensures Moments()(Merged(Exact(), l, r, fused), l.n + r.n, lsum + rsum, lsquares + rsquares)
  {
    var a, b, n := l.n as real, r.n as real, (l.n + r.n) as real;
    if fused {
      FusedMoves(l, r, a, b, n, r.mean - l.mean, b / n, (a * b) / n);
    } else {
      PlainMoves(l, r, a, b, n, r.mean - l.mean, b / n, (a * b) / n);
    }
    HalvesAddUp(Merged(Exact(), l, r, fused), l, lsum, lsquares, r, rsum, rsquares, b / n, (a * b) / n);
  }

  lemma FusedTerm(square: real, a: real, b: real, n: real)
    requires n != 0.0
    ensures square * b * a / n == square * ((a * b) / n)
  {
  }

  /** A schedule run with any state type and any two steps. */
  ghost function Fold<S>(
    values: seq<int>, t: Schedule, start: S, update: (S, int) -> S, merge: (S, S, bool) -> S): S
    requires Within(t, |values|)
  {
    match t
    case Start => start
    case Update(prior, i) => update(Fold(values, prior, start, update, merge), values[i])
    case Merge(left, right, fused) =>
      merge(Fold(values, left, start, update, merge), Fold(values, right, start, update, merge), fused)
  }

  ghost function Updates<F>(ar: Arithmetic<F>): (State<F>, int) -> State<F> {
    (s, v) => Updated(ar, s, v)
  }

  ghost function Merges<F>(ar: Arithmetic<F>): (State<F>, State<F>, bool) -> State<F> {
    (l, r, fused) => Merged(ar, l, r, fused)
  }

  lemma {:induction false} RunIsFold<F>(ar: Arithmetic<F>, values: seq<int>, t: Schedule)
    requires Within(t, |values|)
    ensures Run(ar, values, t) == Fold(values, t, Empty(ar), Updates(ar), Merges(ar))
  {
    match t
    case Start =>
    case Update(prior, _) => RunIsFold(ar, values, prior);
    case Merge(left, right, _) => RunIsFold(ar, values, left); RunIsFold(ar, values, right);
  }

  /** A property of a state, its count, its sum and its sum of squares that both steps keep. */
  ghost predicate KeptBySteps<S(!new)>(
    start: S, update: (S, int) -> S, merge: (S, S, bool) -> S, holds: (S, int, int, int) -> bool)
  {
    && holds(start, 0, 0, 0)
    && (forall s, n, sum, squares, v {:trigger holds(s, n, sum, squares), update(s, v)} ::
      holds(s, n, sum, squares) ==> holds(update(s, v), n + 1, sum + v, squares + v * v))
    && (forall l, ln, lsum, lsq, r, rn, rsum, rsq, fused
      {:trigger holds(l, ln, lsum, lsq), holds(r, rn, rsum, rsq), merge(l, r, fused)} ::
      holds(l, ln, lsum, lsq) && holds(r, rn, rsum, rsq) && ln > 0 && rn > 0 ==>
        holds(merge(l, r, fused), ln + rn, lsum + rsum, lsq + rsq))
  }

  ghost function Count(t: Schedule): nat {
    match t
    case Start => 0
    case Update(prior, _) => Count(prior) + 1
    case Merge(left, right, _) => Count(left) + Count(right)
  }

  ghost function Sum(values: seq<int>, t: Schedule): int
    requires Within(t, |values|)
  {
    match t
    case Start => 0
    case Update(prior, i) => Sum(values, prior) + values[i]
    case Merge(left, right, _) => Sum(values, left) + Sum(values, right)
  }

  ghost function Squares(values: seq<int>, t: Schedule): int
    requires Within(t, |values|)
  {
    match t
    case Start => 0
    case Update(prior, i) => Squares(values, prior) + values[i] * values[i]
    case Merge(left, right, _) => Squares(values, left) + Squares(values, right)
  }

  lemma {:induction false} CountOfUses(t: Schedule)
    requires WellFormed(t)
    ensures Count(t) == |Uses(t)|
  {
    match t
    case Start =>
    case Update(prior, i) => CountOfUses(prior);
    case Merge(left, right, _) => CountOfUses(left); CountOfUses(right);
  }

  lemma {:induction false} SumsOfUses(values: seq<int>, t: Schedule)
    requires WellFormed(t) && Within(t, |values|)
    ensures Sum(values, t) == SumOf(values, Uses(t), Id())
    ensures Squares(values, t) == SumOf(values, Uses(t), Square())
  {
    match t
    case Start =>
      SumOfNone(values, {}, Id());
      SumOfNone(values, {}, Square());
    case Update(prior, i) =>
      SumsOfUses(values, prior);
      SumOfPair(values, Uses(prior), {i}, Id());
      SumOfPair(values, Uses(prior), {i}, Square());
      SumOfOne(values, i, Id());
      SumOfOne(values, i, Square());
    case Merge(left, right, _) =>
      SumsOfUses(values, left);
      SumsOfUses(values, right);
      SumOfPair(values, Uses(left), Uses(right), Id());
      SumOfPair(values, Uses(left), Uses(right), Square());
  }

  /** Induction over schedules, for any two steps. */
  lemma {:induction false} HoldsOfSchedules<S(!new)>(
    values: seq<int>, t: Schedule, start: S, update: (S, int) -> S, merge: (S, S, bool) -> S,
    holds: (S, int, int, int) -> bool)
    requires WellFormed(t) && Within(t, |values|) && KeptBySteps(start, update, merge, holds)
    ensures holds(Fold(values, t, start, update, merge), Count(t), Sum(values, t), Squares(values, t))
  {
    match t
    case Start =>
    case Update(prior, _) =>
      HoldsOfSchedules(values, prior, start, update, merge, holds);
    case Merge(left, right, _) =>
      CountOfUses(left);
      CountOfUses(right);
      HoldsOfSchedules(values, left, start, update, merge, holds);
      HoldsOfSchedules(values, right, start, update, merge, holds);
  }

  ghost function Moments(): (State<real>, int, int, int) -> bool {
    (s, n, sum, squares) => IsMoments(s, n, sum, squares)
  }

  lemma MomentsAreKept()
    ensures KeptBySteps(Empty(Exact()), Updates(Exact()), Merges(Exact()), Moments())
  {
    forall s, n, sum, squares, v | Moments()(s, n, sum, squares)
      ensures Moments()(Updates(Exact())(s, v), n + 1, sum + v, squares + v * v)
    {
      UpdateKeepsMoments(s, n, sum, squares, v);
    }
    forall l, ln, lsum, lsq, r, rn, rsum, rsq, fused
      | Moments()(l, ln, lsum, lsq) && Moments()(r, rn, rsum, rsq) && ln > 0 && rn > 0
      ensures Moments()(Merges(Exact())(l, r, fused), ln + rn, lsum + rsum, lsq + rsq)
    {
      MergeKeepsMoments(l, lsum, lsq, r, rsum, rsq, fused);
    }
  }

  /** The sum of the squared distances of the consumed values from `m`. */
  ghost function Spread(values: seq<int>, t: Schedule, m: real): real
    requires Within(t, |values|)
  {
    match t
    case Start => 0.0
    case Update(prior, i) => Spread(values, prior, m) + (values[i] as real - m) * (values[i] as real - m)
    case Merge(left, right, _) => Spread(values, left, m) + Spread(values, right, m)
  }

  /** The squared distances from `m` of values with this sum of squares, sum and count. */
  function About(squares: int, sum: int, n: int, m: real): real {
    squares as real - 2.0 * m * sum as real + n as real * (m * m)
  }

  lemma AboutOneMore(squares: int, sum: int, n: int, v: int, m: real)
    ensures About(squares + v * v, sum + v, n + 1, m)
      == About(squares, sum, n, m) + (v as real - m) * (v as real - m)
  {
    assert (v * v) as real == v as real * v as real;
  }

  lemma AboutBoth(squares: int, sum: int, n: int, moreSquares: int, more: int, k: int, m: real)
    ensures About(squares + moreSquares, sum + more, n + k, m)
      == About(squares, sum, n, m) + About(moreSquares, more, k, m)
  {
  }

  lemma AboutMean(squares: int, sum: int, n: int, m: real)
    requires n as real * m == sum as real
    ensures About(squares, sum, n, m) == squares as real - m * sum as real
  {
    assert n as real * (m * m) == (n as real * m) * m;
  }

  lemma {:induction false} SpreadIs(values: seq<int>, t: Schedule, m: real)
    requires Within(t, |values|)
    ensures Spread(values, t, m) == About(Squares(values, t), Sum(values, t), Count(t), m)
  {
    match t
    case Start =>
    case Update(prior, i) =>
      SpreadIs(values, prior, m);
      AboutOneMore(Squares(values, prior), Sum(values, prior), Count(prior), values[i], m);
    case Merge(left, right, _) =>
      SpreadIs(values, left, m);
      SpreadIs(values, right, m);
      AboutBoth(Squares(values, left), Sum(values, left), Count(left),
                Squares(values, right), Sum(values, right), Count(right), m);
  }

  /** Every schedule ends with the count, the mean and the sum of squared deviations from that mean
      of the values it consumed. */
  lemma SchedulesAreExact(values: seq<int>, t: Schedule)
    requires WellFormed(t) && Within(t, |values|)
    ensures IsMoments(Run(Exact(), values, t), Count(t), Sum(values, t), Squares(values, t))
    ensures var s := Run(Exact(), values, t); s.m2 == Spread(values, t, s.mean)
  {
    MomentsAreKept();
    HoldsOfSchedules(values, t, Empty(Exact()), Updates(Exact()), Merges(Exact()), Moments());
    RunIsFold(Exact(), values, t);
    var s := Run(Exact(), values, t);
    SpreadOfMoments(s, Count(t), Sum(values, t), Squares(values, t));
    SpreadIs(values, t, s.mean);
  }

  lemma SpreadOfMoments(s: State<real>, n: int, sum: int, squares: int)
    requires IsMoments(s, n, sum, squares)
    ensures s.m2 == About(squares, sum, n, s.mean)
  {
    AboutMean(squares, sum, n, s.mean);
  }

  /** `sample_moments`, without the final root: the mean and the sample variance of a bag. */
  function SampleMean(values: seq<int>): real
    requires values != []
  {
    Total(values) as real / |values| as real
  }

  /** The sum of squares less the square of the total over the count. */
  function Deviations(values: seq<int>): real
    requires values != []
  {
    SquareTotal(values) as real - Total(values) as real * Total(values) as real / |values| as real
  }

  function SquaredDistances(values: seq<int>, m: real): real {
    if values == [] then 0.0
    else (values[0] as real - m) * (values[0] as real - m) + SquaredDistances(values[1..], m)
  }

  lemma {:induction false} SquaredDistancesIs(values: seq<int>, m: real)
    ensures SquaredDistances(values, m) == About(SquareTotal(values), Total(values), |values|, m)
  {
    if values != [] {
      var rest := values[1..];
      SquaredDistancesIs(rest, m);
      AboutOneMore(SquareTotal(rest), Total(rest), |rest|, values[0], m);
    }
  }

  /** The closed form is the sum of squared deviations from the mean. */
  lemma DeviationsAreSquared(values: seq<int>)
    requires values != []
    ensures Deviations(values) == SquaredDistances(values, SampleMean(values))
  {
    var n, m, total := |values| as real, SampleMean(values), Total(values) as real;
    SquaredDistancesIs(values, m);
    assert n * m == total;
    AboutMean(SquareTotal(values), Total(values), |values|, m);
    assert total * total / n == m * total;
  }

  function SampleVariance(values: seq<int>): real
    requires |values| > 1
  {
    Deviations(values) / (|values| - 1) as real
  }

  /** Over exact reals all schedules of a bag collapse to one state, the one of `sample_moments`. */
  lemma SchedulesCollapse(values: seq<int>, t: Schedule)
    requires values != [] && Consumes(t, |values|)
    ensures Within(t, |values|)
    ensures Run(Exact(), values, t).n == |values|
    ensures Run(Exact(), values, t).mean == SampleMean(values)
    ensures Run(Exact(), values, t).m2 == SquaredDistances(values, SampleMean(values))
    ensures |values| > 1 ==> VarianceOf(Exact(), values, t) == SampleVariance(values)
  {
    var n := |values|;
    ConsumesIsFullCover(t, n);
    TrueMoments(values, t);
    StateOfMoments(Run(Exact(), values, t), values);
    DeviationsAreSquared(values);
    if n > 1 { ExactVariance(values, t); }
  }

  lemma StateOfMoments(s: State<real>, values: seq<int>)
    requires values != [] && IsMoments(s, |values|, Total(values), SquareTotal(values))
    ensures s.n == |values| && s.mean == SampleMean(values) && s.m2 == Deviations(values)
    ensures |values| > 1 ==> s.m2 / (|values| - 1) as real == SampleVariance(values)
  {
    ClosedForm(s, |values|, Total(values), SquareTotal(values));
    assert s.m2 == Deviations(values);
  }

  lemma TrueMoments(values: seq<int>, t: Schedule)
    requires Consumes(t, |values|) && Within(t, |values|)
    ensures IsMoments(Run(Exact(), values, t), |values|, Total(values), SquareTotal(values))
  {
    SchedulesAreExact(values, t);
    CountOfUses(t);
    SumsOfUses(values, t);
    SumOfAll(values, Uses(t));
    CountOfPrefix(Uses(t), |values|);
  }

  lemma ExactVariance(values: seq<int>, t: Schedule)
    requires |values| > 1 && Within(t, |values|)
    ensures VarianceOf(Exact(), values, t) == Run(Exact(), values, t).m2 / (|values| - 1) as real
  {
  }

  lemma ClosedForm(s: State<real>, n: nat, total: int, squares: int)
    requires n > 0 && IsMoments(s, n, total, squares)
    ensures s.mean == total as real / n as real
    ensures s.m2 == squares as real - total as real * total as real / n as real
  {
  }

  lemma {:induction false} CountOfPrefix(used: set<nat>, n: nat)
    requires forall i: nat :: i in used <==> i < n
    ensures |used| == n
  {
    if n == 0 {
      assert used == {};
    } else {
      CountOfPrefix(used - {n - 1}, n - 1);
    }
  }

  // ----- the enclosure in exact arithmetic

  ghost predicate IsRoot(root: real -> real) {
    forall x {:trigger root(x)} :: x >= 0.0 ==> root(x) >= 0.0 && root(x) * root(x) == x
  }

  /** Exact arithmetic with this square root. */
  function Rooted(root: real -> real): Arithmetic<real> {
    Exact().(sqrt := root)
  }

  lemma {:induction false} RunTakesNoRoot(values: seq<int>, t: Schedule, root: real -> real)
    requires Within(t, |values|)
    ensures Run(Rooted(root), values, t) == Run(Exact(), values, t)
  {
    match t
    case Start =>
    case Update(prior, index) =>
      RunTakesNoRoot(values, prior, root);
    case Merge(left, right, fused) =>
      RunTakesNoRoot(values, left, root);
      RunTakesNoRoot(values, right, root);
  }

  lemma {:induction false} DistancesAreNotNegative(values: seq<int>, m: real)
    ensures SquaredDistances(values, m) >= 0.0
  {
    if values != [] { DistancesAreNotNegative(values[1..], m); }
  }

  lemma VarianceIsNotNegative(values: seq<int>)
    requires |values| > 1
    ensures SampleVariance(values) >= 0.0
  {
    DeviationsAreSquared(values);
    DistancesAreNotNegative(values, SampleMean(values));
  }

  lemma EveryVarianceIsTheSample(values: seq<int>, root: real -> real, v: real)
    requires |values| > 1 && IsVariance(Rooted(root), values, v)
    ensures v == SampleVariance(values)
  {
    var t :| Consumes(t, |values|) && Within(t, |values|) && v == VarianceOf(Rooted(root), values, t);
    RunTakesNoRoot(values, t, root);
    SchedulesCollapse(values, t);
  }

  lemma EveryVariationIsTheSample(values: seq<int>, root: real -> real, mean: real, c: real)
    requires |values| > 1 && mean != 0.0 && IsVariation(Rooted(root), values, mean, c)
    ensures c == root(SampleVariance(values)) / mean
  {
    var t :| Consumes(t, |values|) && Within(t, |values|)
      && c == Rooted(root).div(Rooted(root).sqrt(VarianceOf(Rooted(root), values, t)), mean);
    EveryVarianceIsTheSample(values, root, VarianceOf(Rooted(root), values, t));
  }

  /** Without rounding no bag is invalid, and the envelope is the point `sample_moments` computes:
      the mean, the variance, and the root of the variance over the mean. */
  lemma EnvelopeIsTheSample(values: seq<int>, root: real -> real, outcome: Outcome<real>)
    requires |values| > 1 && IsRoot(root)
    requires HoldsSchedules(Rooted(root), values, MeanOf(Rooted(root), values), outcome)
    ensures !SomeInvalid(Rooted(root), values)
    ensures outcome.center == SampleMean(values)
    ensures outcome.variance == Range(SampleVariance(values), SampleVariance(values))
    ensures outcome.variation.NoVariation? <==> SampleMean(values) == 0.0
    ensures outcome.variation.Variation? ==>
      && outcome.variation.range.lower == outcome.variation.range.upper
      && IsVariationOf(outcome.variation.range.lower, SampleMean(values), SampleVariance(values))
  {
    MeanIsTheSample(values, root);
    NothingIsInvalid(values, root);
    EveryVarianceIsTheSample(values, root, outcome.variance.lower);
    EveryVarianceIsTheSample(values, root, outcome.variance.upper);
    if outcome.variation.Variation? {
      VariationIsTheSample(values, root, SampleMean(values), outcome.variation.range);
    }
  }

  lemma MeanIsTheSample(values: seq<int>, root: real -> real)
    requires values != []
    ensures MeanOf(Rooted(root), values) == SampleMean(values)
  {
  }

  lemma NothingIsInvalid(values: seq<int>, root: real -> real)
    requires |values| > 1
    ensures !SomeInvalid(Rooted(root), values)
  {
    VarianceIsNotNegative(values);
    if v :| IsVariance(Rooted(root), values, v) && Invalid(Rooted(root), v) {
      EveryVarianceIsTheSample(values, root, v);
    }
  }

  lemma VariationIsTheSample(values: seq<int>, root: real -> real, mean: real, range: Range<real>)
    requires |values| > 1 && IsRoot(root) && mean != 0.0 && HoldsVariations(Rooted(root), values, mean, range)
    ensures range.lower == range.upper && IsVariationOf(range.lower, mean, SampleVariance(values))
  {
    EveryVariationIsTheSample(values, root, mean, range.lower);
    EveryVariationIsTheSample(values, root, mean, range.upper);
    VarianceIsNotNegative(values);
    QuotientOfRoot(root(SampleVariance(values)), mean, SampleVariance(values));
  }

  /** Of the sign of the mean, and squared with it the variance. */
  predicate IsVariationOf(c: real, mean: real, variance: real) {
    c * mean >= 0.0 && (c * mean) * (c * mean) == variance
  }

  lemma QuotientOfRoot(r: real, mean: real, variance: real)
    requires mean != 0.0 && r >= 0.0 && r * r == variance
    ensures IsVariationOf(r / mean, mean, variance)
  {
    assert r / mean * mean == r;
  }

  /** Exact arithmetic meets what the oracle asks of floats. */
  lemma ExactIsIeee(root: real -> real)
    requires IsRoot(root)
    ensures Ieee(Rooted(root))
  {
  }
}
