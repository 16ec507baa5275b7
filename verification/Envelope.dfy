/** The enclosure of every schedule of a bag, and the bags the oracle declines to cover. */
module Envelope {
  import opened Bits
  import opened Schedules

  datatype Input = Null | Whole(value: int) | Other

  datatype Range<F> = Range(lower: F, upper: F)

  datatype Outcome<F> =
    | Uncovered
    | NoRows
    | SingleRow(mean: F)
    | Enclosed(center: F, variance: Range<F>, variation: VariationRange<F>)

  datatype VariationRange<F> = NoVariation | Variation(range: Range<F>)

  /** The IEEE facts the oracle relies on: comparison is a weak order on numbers, and neither a
      square root of a valid variance nor a quotient by a nonzero mean is a NaN. */
  ghost predicate Ieee<F(!new)>(ar: Arithmetic<F>) {
    && WeakOrder(ar)
    && (forall x {:trigger ar.isNaN(x)} :: ar.finite(x) ==> !ar.isNaN(x))
    && (forall x {:trigger ar.sqrt(x)} :: ar.finite(x) && !ar.less(x, ar.fromInt(0)) ==> ar.finite(ar.sqrt(x)))
    && (forall x, y {:trigger ar.div(x, y)} ::
      ar.finite(x) && ar.finite(y) && y != ar.fromInt(0) ==> !ar.isNaN(ar.div(x, y)))
    && (forall i {:trigger ar.fromInt(i)} :: 0 - EXACT_SUM <= i <= EXACT_SUM ==> ar.finite(ar.fromInt(i)))
    && (forall x, n: nat {:trigger ar.div(x, ar.fromInt(n))} ::
      ar.finite(x) && n > 0 ==> ar.finite(ar.div(x, ar.fromInt(n))))
  }

  ghost predicate WeakOrder<F(!new)>(ar: Arithmetic<F>) {
    && (forall x, y :: !ar.isNaN(x) && !ar.isNaN(y) && ar.less(x, y) ==> !ar.less(y, x))
    && (forall x, y, z :: !ar.isNaN(x) && !ar.isNaN(y) && !ar.isNaN(z) && ar.less(x, z) ==>
      ar.less(x, y) || ar.less(y, z))
  }

  /** `2**53` */
  const EXACT_SUM: nat := 0x20_0000_0000_0000

  function Present(inputs: seq<Input>): (values: seq<int>)
    ensures |values| <= |inputs|
  {
    if inputs == [] then []
    else if inputs[0].Whole? then [inputs[0].value] + Present(inputs[1..])
    else Present(inputs[1..])
  }

  /** Exactly the whole numbers are kept. */
  lemma {:induction false} PresentIsBag(inputs: seq<Input>, v: int)
    ensures multiset(Present(inputs))[v] == multiset(inputs)[Whole(v)]
  {
    if inputs != [] {
      assert inputs == [inputs[0]] + inputs[1..];
      PresentIsBag(inputs[1..], v);
    }
  }

  function AbsSum(values: seq<int>): nat {
    if values == [] then 0
    else (if values[0] < 0 then -values[0] else values[0]) + AbsSum(values[1..])
  }

  function Total(values: seq<int>): int {
    if values == [] then 0 else values[0] + Total(values[1..])
  }

  function MeanOf<F>(ar: Arithmetic<F>, values: seq<int>): F {
    ar.div(ar.fromInt(Total(values)), ar.fromInt(|values|))
  }

  function Full(n: nat): nat {
    BitOfFull(n, 0);
    Shift(n) - 1
  }

  lemma FullIsInRange(values: seq<int>)
    ensures InRange(values, Full(|values|))
  {
    forall i: nat | Bit(Full(|values|), i) ensures i < |values| { BitOfFull(|values|, i); }
  }

  /** A schedule of the whole bag. */
  ghost predicate Consumes(t: Schedule, n: nat) {
    WellFormed(t) && forall i: nat :: i in Uses(t) <==> i < n
  }

  lemma ConsumesIsFullCover(t: Schedule, n: nat)
    ensures Consumes(t, n) <==> Covers(t, Full(n))
    ensures Consumes(t, n) ==> Within(t, n)
  {
    forall i: nat ensures Bit(Full(n), i) <==> i < n { BitOfFull(n, i); }
    if Consumes(t, n) { CoveredIsWithin(t, n); }
  }

  /** Feeding the values one by one is a schedule. */
  ghost function InOrder(n: nat): (t: Schedule)
    ensures Consumes(t, n)
  {
    if n == 0 then Start else Update(InOrder(n - 1), n - 1)
  }

  ghost function VarianceOf<F>(ar: Arithmetic<F>, values: seq<int>, t: Schedule): F
    requires Within(t, |values|)
  {
    ar.div(Run(ar, values, t).m2, ar.fromInt(|values| - 1))
  }

  predicate Invalid<F>(ar: Arithmetic<F>, v: F) {
    ar.less(v, ar.fromInt(0)) || !ar.finite(v)
  }

  /** Some schedule of the bag ends with variance `v`. */
  ghost predicate IsVariance<F>(ar: Arithmetic<F>, values: seq<int>, v: F) {
    exists t :: Consumes(t, |values|) && Within(t, |values|) && v == VarianceOf(ar, values, t)
  }

  /** `range` holds the value of every schedule of the bag, and is no larger than that. */
  ghost predicate Tight<F(!new)>(ar: Arithmetic<F>, values: seq<int>, range: Range<F>, f: F -> F) {
    && (forall v :: IsVariance(ar, values, v) ==> !ar.less(f(v), range.lower) && !ar.less(range.upper, f(v)))
    && (exists v :: IsVariance(ar, values, v) && f(v) == range.lower)
    && (exists v :: IsVariance(ar, values, v) && f(v) == range.upper)
  }

  /** The smallest and largest image of a nonempty set. */
  method Bounds<F(==,!new)>(ar: Arithmetic<F>, xs: set<F>, f: F -> F) returns (range: Range<F>)
    requires WeakOrder(ar) && xs != {} && forall x :: x in xs ==> !ar.isNaN(f(x))
    ensures Encloses(ar, xs, f, range)
  {
    var low :| low in xs;
    var high := low;
    var rest := xs - {low};
    while rest != {}
      invariant rest <= xs && low in xs && high in xs
      invariant forall x :: x in xs - rest ==> !ar.less(f(x), f(low)) && !ar.less(f(high), f(x))
      decreases rest
    {
      var x :| x in rest;
      rest := rest - {x};
      if ar.less(f(x), f(low)) {
        low := x;
      }
      if ar.less(f(high), f(x)) {
        high := x;
      }
    }
    range := Range(f(low), f(high));
  }

  ghost predicate Encloses<F>(ar: Arithmetic<F>, xs: set<F>, f: F -> F, range: Range<F>) {
    && (exists x :: x in xs && f(x) == range.lower)
    && (exists x :: x in xs && f(x) == range.upper)
    && (forall x :: x in xs ==> !ar.less(f(x), range.lower) && !ar.less(range.upper, f(x)))
  }

  ghost predicate Declined<F(!new)>(ar: Arithmetic<F>, inputs: seq<Input>) {
    var values := Present(inputs);
    || Other in inputs
    || |values| > 6
    || AbsSum(values) > EXACT_SUM
    || (|values| > 1 && SomeInvalid(ar, values))
  }

  /** `schedule_envelope` */
  method ScheduleEnvelope<F(==,!new)>(ar: Arithmetic<F>, inputs: seq<Input>) returns (outcome: Outcome<F>)
    requires Ieee(ar)
    ensures outcome.Uncovered? <==> Declined(ar, inputs)
    ensures outcome.NoRows? <==> !Declined(ar, inputs) && Present(inputs) == []
    ensures outcome.SingleRow? <==> !Declined(ar, inputs) && |Present(inputs)| == 1
    ensures outcome.SingleRow? ==> outcome.mean == MeanOf(ar, Present(inputs))
    ensures outcome.Enclosed? ==> HoldsSchedules(ar, Present(inputs), MeanOf(ar, Present(inputs)), outcome)
  {
    var values := Present(inputs);
    if Other in inputs || |values| > 6 || AbsSum(values) > EXACT_SUM {
      return Uncovered;
    }
    if values == [] {
      return NoRows;
    }
    var n := |values|;
    var mean := MeanOf(ar, values);
    if n == 1 {
      return SingleRow(mean);
    }
    MeanIsFinite(ar, values);
    RatiosAreNumbers(ar, mean);
    outcome := Enclose(ar, values, mean);
  }

  ghost predicate SomeInvalid<F(!new)>(ar: Arithmetic<F>, values: seq<int>) {
    exists v :: IsVariance(ar, values, v) && Invalid(ar, v)
  }

  /** Tight enclosures of the variance and, for a nonzero mean, of the coefficient of variation. */
  ghost predicate IsEnclosure<F(!new)>(ar: Arithmetic<F>, values: seq<int>, mean: F, outcome: Outcome<F>) {
    && outcome.Enclosed?
    && outcome.center == mean
    && Tight(ar, values, outcome.variance, Plain())
    && (match outcome.variation
        case NoVariation => mean == ar.fromInt(0)
        case Variation(range) => mean != ar.fromInt(0) && Tight(ar, values, range, Ratio(ar, mean)))
  }

  /** The coefficient of variation a schedule of the bag ends with. */
  ghost predicate IsVariation<F>(ar: Arithmetic<F>, values: seq<int>, mean: F, c: F) {
    exists t :: Consumes(t, |values|) && Within(t, |values|) && c == ar.div(ar.sqrt(VarianceOf(ar, values, t)), mean)
  }

  /** Both ends are variances of schedules, and no schedule lies outside. */
  ghost predicate HoldsVariances<F(!new)>(ar: Arithmetic<F>, values: seq<int>, range: Range<F>) {
    && IsVariance(ar, values, range.lower) && IsVariance(ar, values, range.upper)
    && forall v :: IsVariance(ar, values, v) ==> !ar.less(v, range.lower) && !ar.less(range.upper, v)
  }

  /** Both ends are coefficients of variation of schedules, and no schedule lies outside. */
  ghost predicate HoldsVariations<F(!new)>(ar: Arithmetic<F>, values: seq<int>, mean: F, range: Range<F>) {
    && IsVariation(ar, values, mean, range.lower) && IsVariation(ar, values, mean, range.upper)
    && forall c :: IsVariation(ar, values, mean, c) ==> !ar.less(c, range.lower) && !ar.less(range.upper, c)
  }

  /** The enclosures are those of the schedules. */
  ghost predicate HoldsSchedules<F(!new)>(ar: Arithmetic<F>, values: seq<int>, mean: F, outcome: Outcome<F>) {
    && outcome.Enclosed? && outcome.center == mean && HoldsVariances(ar, values, outcome.variance)
    && (outcome.variation.NoVariation? <==> mean == ar.fromInt(0))
    && (outcome.variation.Variation? ==> HoldsVariations(ar, values, mean, outcome.variation.range))
  }

  lemma EnclosuresHold<F(!new)>(ar: Arithmetic<F>, values: seq<int>, mean: F, outcome: Outcome<F>)
    requires IsEnclosure(ar, values, mean, outcome)
    ensures HoldsSchedules(ar, values, mean, outcome)
  {
    if outcome.variation.Variation? {
      VariationsHold(ar, values, mean, outcome.variation.range);
    }
  }

  lemma VariationsHold<F(!new)>(ar: Arithmetic<F>, values: seq<int>, mean: F, range: Range<F>)
    requires Tight(ar, values, range, Ratio(ar, mean))
    ensures HoldsVariations(ar, values, mean, range)
  {
    forall c | IsVariation(ar, values, mean, c) ensures !ar.less(c, range.lower) && !ar.less(range.upper, c) {
      var t :| Consumes(t, |values|) && Within(t, |values|) && c == ar.div(ar.sqrt(VarianceOf(ar, values, t)), mean);
      assert IsVariance(ar, values, VarianceOf(ar, values, t));
    }
  }

  /** The enclosures of a bag of at least two values. */
  method Enclose<F(==,!new)>(ar: Arithmetic<F>, values: seq<int>, mean: F) returns (outcome: Outcome<F>)
    requires WeakOrder(ar) && |values| > 1 && ValidAreNumbers(ar, mean)
    ensures if SomeInvalid(ar, values) then outcome == Uncovered else HoldsSchedules(ar, values, mean, outcome)
  {
    var variances := Variances(ar, values);
    InvalidIsScheduled(ar, values, variances);
    if exists v :: v in variances && Invalid(ar, v) {
      return Uncovered;
    }
    outcome := EncloseValid(ar, variances, mean);
    EnclosureIsTight(ar, values, variances, mean, outcome);
    EnclosuresHold(ar, values, mean, outcome);
  }

  /** The ranges are those of the given variances. */
  ghost predicate EnclosesAll<F>(ar: Arithmetic<F>, variances: set<F>, mean: F, outcome: Outcome<F>) {
    && outcome.Enclosed?
    && outcome.center == mean
    && Encloses(ar, variances, Plain(), outcome.variance)
    && (match outcome.variation
        case NoVariation => mean == ar.fromInt(0)
        case Variation(range) => mean != ar.fromInt(0) && Encloses(ar, variances, Ratio(ar, mean), range))
  }

  method EncloseValid<F(==,!new)>(ar: Arithmetic<F>, variances: set<F>, mean: F) returns (outcome: Outcome<F>)
    requires WeakOrder(ar) && ValidAreNumbers(ar, mean) && variances != {}
    requires forall v :: v in variances ==> !Invalid(ar, v)
    ensures EnclosesAll(ar, variances, mean, outcome)
  {
    var variance := Bounds(ar, variances, Plain());
    if mean == ar.fromInt(0) {
      return Enclosed(mean, variance, NoVariation);
    }
    var range := Bounds(ar, variances, Ratio(ar, mean));
    outcome := Enclosed(mean, variance, Variation(range));
  }

  lemma EnclosureIsTight<F(!new)>(
    ar: Arithmetic<F>, values: seq<int>, variances: set<F>, mean: F, outcome: Outcome<F>)
    requires AreVariances(ar, values, variances) && EnclosesAll(ar, variances, mean, outcome)
    ensures IsEnclosure(ar, values, mean, outcome)
  {
    BoundsAreTight(ar, values, variances, outcome.variance, Plain());
    if outcome.variation.Variation? {
      BoundsAreTight(ar, values, variances, outcome.variation.range, Ratio(ar, mean));
    }
  }

  lemma BoundsAreTight<F(!new)>(ar: Arithmetic<F>, values: seq<int>, variances: set<F>, range: Range<F>, f: F -> F)
    requires AreVariances(ar, values, variances) && Encloses(ar, variances, f, range)
    ensures Tight(ar, values, range, f)
  {
  }

  lemma InvalidIsScheduled<F(!new)>(ar: Arithmetic<F>, values: seq<int>, variances: set<F>)
    requires AreVariances(ar, values, variances)
    ensures (exists v :: v in variances && Invalid(ar, v)) <==> SomeInvalid(ar, values)
  {
  }

  ghost predicate ValidAreNumbers<F(!new)>(ar: Arithmetic<F>, mean: F) {
    forall v {:trigger Invalid(ar, v)} :: !Invalid(ar, v) ==>
      !ar.isNaN(v) && (mean != ar.fromInt(0) ==> !ar.isNaN(Ratio(ar, mean)(v)))
  }

  lemma RatiosAreNumbers<F(!new)>(ar: Arithmetic<F>, mean: F)
    requires Ieee(ar) && ar.finite(mean)
    ensures ValidAreNumbers(ar, mean)
  {
  }

  function Plain<F>(): F -> F {
    v => v
  }

  /** The coefficient of variation as a function of the variance. */
  function Ratio<F>(ar: Arithmetic<F>, mean: F): F -> F {
    v => ar.div(ar.sqrt(v), mean)
  }

  /** `variances` is exactly the set of variances of the schedules of the bag. */
  ghost predicate AreVariances<F(!new)>(ar: Arithmetic<F>, values: seq<int>, variances: set<F>) {
    variances != {} && forall v :: v in variances <==> IsVariance(ar, values, v)
  }

  method Variances<F(==,!new)>(ar: Arithmetic<F>, values: seq<int>) returns (variances: set<F>)
    requires |values| > 1
    ensures AreVariances(ar, values, variances)
  {
    var n := |values|;
    FullIsInRange(values);
    var search := new Search(ar, values);
    var states := search.States(Full(n));
    variances := set s | s in states :: ar.div(s.m2, ar.fromInt(n - 1));
    VariancesAreSchedules(ar, values, states, variances);
  }

  lemma {:induction false} TotalWithinAbsSum(values: seq<int>)
    ensures 0 - AbsSum(values) <= Total(values) <= AbsSum(values)
  {
    if values != [] { TotalWithinAbsSum(values[1..]); }
  }

  lemma MeanIsFinite<F(!new)>(ar: Arithmetic<F>, values: seq<int>)
    requires Ieee(ar) && values != [] && AbsSum(values) <= EXACT_SUM
    ensures ar.finite(MeanOf(ar, values))
  {
    TotalWithinAbsSum(values);
  }

  lemma VariancesAreSchedules<F(!new)>(
    ar: Arithmetic<F>, values: seq<int>, states: set<State<F>>, variances: set<F>)
    requires |values| > 1 && Complete(ar, values, Full(|values|), states)
    requires variances == set s | s in states :: ar.div(s.m2, ar.fromInt(|values| - 1))
    ensures AreVariances(ar, values, variances)
  {
    var n := |values|;
    forall v | v in variances ensures IsVariance(ar, values, v) {
      var s :| s in states && v == ar.div(s.m2, ar.fromInt(n - 1));
      var t :| Yields(ar, values, Full(n), t, s);
      ConsumesIsFullCover(t, n);
    }
    forall v | IsVariance(ar, values, v) ensures v in variances {
      var t :| Consumes(t, n) && Within(t, n) && v == VarianceOf(ar, values, t);
      ConsumesIsFullCover(t, n);
      assert Yields(ar, values, Full(n), t, Run(ar, values, t));
      assert Run(ar, values, t) in states;
    }
    ConsumesIsFullCover(InOrder(n), n);
    assert IsVariance(ar, values, VarianceOf(ar, values, InOrder(n)));
  }
}
