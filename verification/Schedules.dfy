/** The exhaustive oracle over Welford updates and Chan merges of a small bag. */
module Schedules {
  import opened Bits

  /** Every float operator the oracle uses, left open: the schedule laws hold for any rounding. */
  datatype Arithmetic<!F> = Arithmetic(
    fromInt: int -> F,
    add: (F, F) -> F,
    sub: (F, F) -> F,
    mul: (F, F) -> F,
    div: (F, F) -> F,
    quotient: (int, int) -> F,
    fma: (F, F, F) -> F,
    sqrt: F -> F,
    less: (F, F) -> bool,
    finite: F -> bool,
    isNaN: F -> bool)

  /** Count, running mean and sum of squared deviations. */
  datatype State<F> = State(n: nat, mean: F, m2: F)

  /** One way to feed a bag to the aggregate. */
  datatype Schedule =
    | Start
    | Update(prior: Schedule, index: nat)
    | Merge(left: Schedule, right: Schedule, fused: bool)

  function Empty<F>(ar: Arithmetic<F>): State<F> {
    State(0, ar.fromInt(0), ar.fromInt(0))
  }

  function Updated<F>(ar: Arithmetic<F>, s: State<F>, value: int): State<F> {
    var delta := ar.sub(ar.fromInt(value), s.mean);
    var mean := ar.add(s.mean, ar.div(delta, ar.fromInt(s.n + 1)));
    State(s.n + 1, mean, ar.add(s.m2, ar.mul(delta, ar.sub(ar.fromInt(value), mean))))
  }

  /** The unfused Chan merge, or the merge with a fused mean, with their own operand orders. */
  function Merged<F>(ar: Arithmetic<F>, l: State<F>, r: State<F>, fused: bool): State<F> {
    var n := l.n + r.n;
    var delta := ar.sub(r.mean, l.mean);
    var square := ar.mul(delta, delta);
    if fused then
      State(n, ar.fma(ar.quotient(r.n, n), delta, l.mean),
            ar.add(ar.add(r.m2, l.m2),
                   ar.div(ar.mul(ar.mul(square, ar.fromInt(r.n)), ar.fromInt(l.n)), ar.fromInt(n))))
    else
      State(n, ar.add(l.mean, ar.mul(delta, ar.quotient(r.n, n))),
            ar.add(l.m2, ar.add(r.m2,
                   ar.mul(square, ar.div(ar.mul(ar.fromInt(l.n), ar.fromInt(r.n)), ar.fromInt(n))))))
  }

  ghost function Uses(t: Schedule): set<nat> {
    match t
    case Start => {}
    case Update(prior, index) => Uses(prior) + {index}
    case Merge(left, right, _) => Uses(left) + Uses(right)
  }

  /** Each value is consumed once, and only nonempty partial states are merged. */
  ghost predicate WellFormed(t: Schedule) {
    match t
    case Start => true
    case Update(prior, index) => WellFormed(prior) && index !in Uses(prior)
    case Merge(left, right, _) =>
      && WellFormed(left) && WellFormed(right)
      && Uses(left) !! Uses(right) && Uses(left) != {} && Uses(right) != {}
  }

  /** `t` consumes exactly the values selected by `mask`. */
  ghost predicate Covers(t: Schedule, mask: nat) {
    && WellFormed(t)
    && forall i: nat :: i in Uses(t) <==> Bit(mask, i)
  }

  ghost predicate InRange(values: seq<int>, mask: nat) {
    forall i: nat :: Bit(mask, i) ==> i < |values|
  }

  ghost predicate Within(t: Schedule, n: nat) {
    match t
    case Start => true
    case Update(prior, index) => Within(prior, n) && index < n
    case Merge(left, right, _) => Within(left, n) && Within(right, n)
  }

  lemma {:induction false} CoveredIsWithin(t: Schedule, n: nat)
    requires forall i: nat :: i in Uses(t) ==> i < n
    ensures Within(t, n)
  {
    match t
    case Start =>
    case Update(prior, index) =>
      assert Uses(t) == Uses(prior) + {index};
      CoveredIsWithin(prior, n);
    case Merge(left, right, _) =>
      assert Uses(t) == Uses(left) + Uses(right);
      CoveredIsWithin(left, n);
      CoveredIsWithin(right, n);
  }

  lemma EmptyIsStart(t: Schedule)
    requires WellFormed(t)
    ensures Uses(t) == {} <==> t.Start?
  {
  }

  ghost function Run<F>(ar: Arithmetic<F>, values: seq<int>, t: Schedule): State<F>
    requires Within(t, |values|)
  {
    match t
    case Start => Empty(ar)
    case Update(prior, index) => Updated(ar, Run(ar, values, prior), values[index])
    case Merge(left, right, fused) => Merged(ar, Run(ar, values, left), Run(ar, values, right), fused)
  }

  ghost predicate Yields<F>(ar: Arithmetic<F>, values: seq<int>, mask: nat, t: Schedule, s: State<F>)
  {
    Covers(t, mask) && Within(t, |values|) && Run(ar, values, t) == s
  }

  /** Some schedule over exactly the masked values ends in `s`. */
  ghost predicate Reachable<F>(ar: Arithmetic<F>, values: seq<int>, mask: nat, s: State<F>)
    requires InRange(values, mask)
  {
    exists t :: Yields(ar, values, mask, t, s)
  }

  ghost predicate IsSplit(mask: nat, left: nat) {
    0 < left < mask && Submask(left, mask)
  }

  /** A last step that updates with value `i`. */
  ghost predicate UpdateStep<F>(ar: Arithmetic<F>, values: seq<int>, mask: nat, i: nat, p: State<F>, s: State<F>)
    requires InRange(values, mask)
  {
    && Bit(mask, i)
    && InRange(values, Xor(mask, Shift(i)))
    && Reachable(ar, values, Xor(mask, Shift(i)), p)
    && s == Updated(ar, p, values[i])
  }

  /** A last step that merges the states of the two halves of a split. */
  ghost predicate MergeStep<F>(
    ar: Arithmetic<F>, values: seq<int>, mask: nat, left: nat, p: State<F>, q: State<F>, fused: bool, s: State<F>)
    requires InRange(values, mask)
  {
    && IsSplit(mask, left)
    && InRange(values, left) && InRange(values, Xor(mask, left))
    && Reachable(ar, values, left, p)
    && Reachable(ar, values, Xor(mask, left), q)
    && s == Merged(ar, p, q, fused)
  }

  ghost predicate ByUpdate<F(!new)>(ar: Arithmetic<F>, values: seq<int>, mask: nat, below: nat, s: State<F>)
    requires InRange(values, mask)
  {
    exists i: nat, p :: i < below && UpdateStep(ar, values, mask, i, p, s)
  }

  ghost predicate ByMerge<F(!new)>(ar: Arithmetic<F>, values: seq<int>, mask: nat, above: nat, s: State<F>)
    requires InRange(values, mask)
  {
    exists left: nat, p, q, fused :: above < left && MergeStep(ar, values, mask, left, p, q, fused, s)
  }

  // ----- masks and the sets of values they select

  lemma ShiftIsSubmask(mask: nat, i: nat)
    requires Bit(mask, i)
    ensures Submask(Shift(i), mask) && 0 < Shift(i)
  {
    forall j: nat | Bit(Shift(i), j) ensures Bit(mask, j) { BitOfShift(i, j); }
    BitOfShift(i, i);
    ZeroHasNoBit(i);
  }

  lemma {:induction false} MaskOf(used: set<nat>) returns (mask: nat)
    ensures forall i: nat :: i in used <==> Bit(mask, i)
    decreases used
  {
    if used == {} {
      mask := 0;
      forall i: nat ensures !Bit(0, i) { ZeroHasNoBit(i); }
    } else {
      var k :| k in used;
      var rest := MaskOf(used - {k});
      mask := Xor(rest, Shift(k));
      forall i: nat ensures i in used <==> Bit(mask, i) {
        BitOfXor(rest, Shift(k), i);
        BitOfShift(k, i);
      }
    }
  }

  // ----- the states of a mask are the results of its schedules

  lemma EmptyMask<F>(ar: Arithmetic<F>, values: seq<int>, s: State<F>)
    requires InRange(values, 0)
    ensures Reachable(ar, values, 0, s) <==> s == Empty(ar)
  {
    forall i: nat ensures !Bit(0, i) { ZeroHasNoBit(i); }
    assert Yields(ar, values, 0, Start, Empty(ar));
    forall t | Yields(ar, values, 0, t, s) ensures s == Empty(ar) {
      assert Uses(t) == {};
      EmptyIsStart(t);
    }
  }

  /** A last update or merge step extends schedules to a schedule. */
  lemma StepsAreReachable<F(!new)>(ar: Arithmetic<F>, values: seq<int>, mask: nat, s: State<F>)
    requires InRange(values, mask)
    requires ByUpdate(ar, values, mask, |values|, s) || ByMerge(ar, values, mask, 0, s)
    ensures Reachable(ar, values, mask, s)
  {
    if ByUpdate(ar, values, mask, |values|, s) {
      var i: nat, p :| i < |values| && UpdateStep(ar, values, mask, i, p, s);
      UpdateIsReachable(ar, values, mask, i, p, s);
    } else {
      var left: nat, p, q, fused :| 0 < left && MergeStep(ar, values, mask, left, p, q, fused, s);
      MergeIsReachable(ar, values, mask, left, p, q, fused, s);
    }
  }

  lemma UpdateIsReachable<F>(ar: Arithmetic<F>, values: seq<int>, mask: nat, i: nat, p: State<F>, s: State<F>)
    requires InRange(values, mask) && UpdateStep(ar, values, mask, i, p, s)
    ensures Reachable(ar, values, mask, s)
  {
    var t :| Yields(ar, values, Xor(mask, Shift(i)), t, p);
    ShiftIsSubmask(mask, i);
    XorIsComplement(mask, Shift(i));
    forall j: nat ensures j in Uses(Update(t, i)) <==> Bit(mask, j) { BitOfShift(i, j); }
    BitOfShift(i, i);
    assert Yields(ar, values, mask, Update(t, i), s);
  }

  lemma MergeIsReachable<F>(
    ar: Arithmetic<F>, values: seq<int>, mask: nat, left: nat, p: State<F>, q: State<F>, fused: bool, s: State<F>)
    requires InRange(values, mask) && MergeStep(ar, values, mask, left, p, q, fused, s)
    ensures Reachable(ar, values, mask, s)
  {
    var t :| Yields(ar, values, left, t, p);
    var u :| Yields(ar, values, Xor(mask, left), u, q);
    XorIsComplement(mask, left);
    SplitsAreSmaller(mask, left);
    NonemptyMask(t, left);
    NonemptyMask(u, Xor(mask, left));
    forall j: nat ensures j in Uses(Merge(t, u, fused)) <==> Bit(mask, j) {
      assert Bit(left, j) ==> Bit(mask, j);
    }
    assert WellFormed(Merge(t, u, fused));
    assert Yields(ar, values, mask, Merge(t, u, fused), s);
  }

  lemma NonemptyMask(t: Schedule, mask: nat)
    requires Covers(t, mask)
    ensures Uses(t) == {} <==> mask == 0
  {
    if mask == 0 {
      forall i: nat ensures !Bit(0, i) { ZeroHasNoBit(i); }
    } else if Uses(t) == {} {
      forall i: nat ensures Bit(mask, i) == Bit(0, i) { ZeroHasNoBit(i); }
      SameBitsSameMask(mask, 0);
    }
  }

  /** Every schedule over a nonempty mask ends in an update or a merge step. */
  lemma ReachableByAStep<F(!new)>(ar: Arithmetic<F>, values: seq<int>, mask: nat, s: State<F>)
    requires InRange(values, mask) && 0 < mask
    requires Reachable(ar, values, mask, s)
    ensures ByUpdate(ar, values, mask, |values|, s) || ByMerge(ar, values, mask, 0, s)
  {
    var t :| Yields(ar, values, mask, t, s);
    NonemptyMask(t, mask);
    if t.Update? {
      LastIsUpdate(ar, values, mask, t);
    } else {
      LastIsMerge(ar, values, mask, t);
    }
  }

  lemma LastIsUpdate<F(!new)>(ar: Arithmetic<F>, values: seq<int>, mask: nat, t: Schedule)
    requires InRange(values, mask) && t.Update? && Covers(t, mask) && Within(t, |values|)
    ensures ByUpdate(ar, values, mask, |values|, Run(ar, values, t))
  {
    var i := t.index;
    assert i in Uses(t);
    ShiftIsSubmask(mask, i);
    XorIsComplement(mask, Shift(i));
    var rest := Xor(mask, Shift(i));
    forall j: nat ensures j in Uses(t.prior) <==> Bit(rest, j) { BitOfShift(i, j); }
    assert Yields(ar, values, rest, t.prior, Run(ar, values, t.prior));
    assert UpdateStep(ar, values, mask, i, Run(ar, values, t.prior), Run(ar, values, t));
  }

  lemma LastIsMerge<F(!new)>(ar: Arithmetic<F>, values: seq<int>, mask: nat, t: Schedule)
    requires InRange(values, mask) && t.Merge? && Covers(t, mask) && Within(t, |values|)
    ensures ByMerge(ar, values, mask, 0, Run(ar, values, t))
  {
    var left := SplitOf(mask, t);
    var right := Xor(mask, left);
    XorIsComplement(mask, left);
    assert Yields(ar, values, left, t.left, Run(ar, values, t.left));
    assert Yields(ar, values, right, t.right, Run(ar, values, t.right));
    assert MergeStep(ar, values, mask, left, Run(ar, values, t.left), Run(ar, values, t.right), t.fused,
                     Run(ar, values, t));
  }

  /** The two halves of a merge are the two halves of a split of its mask. */
  lemma SplitOf(mask: nat, t: Schedule) returns (left: nat)
    requires t.Merge? && Covers(t, mask)
    ensures IsSplit(mask, left) && Covers(t.left, left) && Covers(t.right, Xor(mask, left))
  {
    left := MaskOf(Uses(t.left));
    forall i: nat | Bit(left, i) ensures Bit(mask, i) { assert i in Uses(t); }
    XorIsComplement(mask, left);
    forall j: nat ensures j in Uses(t.right) <==> Bit(Xor(mask, left), j) {
      assert j in Uses(t) <==> Bit(mask, j);
    }
    NonemptyMask(t.left, left);
    NonemptyMask(t.right, Xor(mask, left));
    SubmaskIsAtMost(left, mask);
    MaskMinusItself(mask);
  }

  lemma MaskMinusItself(mask: nat)
    ensures Xor(mask, mask) == 0
  {
  }

  // ----- the memoised search

  method AddUpdates<F(==,!new)>(ar: Arithmetic<F>, prior: set<State<F>>, value: int, found: set<State<F>>)
    returns (result: set<State<F>>)
    ensures result == found + set p | p in prior :: Updated(ar, p, value)
  {
    result := found;
    var rest := prior;
    while rest != {}
      invariant rest <= prior
      invariant result == found + set p | p in prior - rest :: Updated(ar, p, value)
      decreases rest
    {
      var p :| p in rest;
      result := result + {Updated(ar, p, value)};
      assert prior - (rest - {p}) == (prior - rest) + {p};
      rest := rest - {p};
    }
    assert prior - {} == prior;
  }

  /** All merges of one left state with a set of right states. */
  method AddMergesWith<F(==,!new)>(ar: Arithmetic<F>, p: State<F>, rights: set<State<F>>, found: set<State<F>>)
    returns (result: set<State<F>>)
    ensures forall s :: s in result <==>
      s in found || exists q, fused :: q in rights && s == Merged(ar, p, q, fused)
  {
    result := found;
    var rest := rights;
    while rest != {}
      invariant rest <= rights
      invariant forall s :: s in result <==>
        s in found || exists q, fused :: q in rights - rest && s == Merged(ar, p, q, fused)
      decreases rest
    {
      var q :| q in rest;
      ghost var before := result;
      result := result + {Merged(ar, p, q, false)} + {Merged(ar, p, q, true)};
      assert rights - (rest - {q}) == (rights - rest) + {q};
      rest := rest - {q};
    }
  }

  method AddMerges<F(==,!new)>(ar: Arithmetic<F>, lefts: set<State<F>>, rights: set<State<F>>, found: set<State<F>>)
    returns (result: set<State<F>>)
    ensures forall s :: s in result <==>
      s in found || exists p, q, fused :: p in lefts && q in rights && s == Merged(ar, p, q, fused)
  {
    result := found;
    var rest := lefts;
    while rest != {}
      invariant rest <= lefts
      invariant forall s :: s in result <==>
        s in found || exists p, q, fused :: p in lefts - rest && q in rights && s == Merged(ar, p, q, fused)
      decreases rest
    {
      var p :| p in rest;
      result := AddMergesWith(ar, p, rights, result);
      assert lefts - (rest - {p}) == (lefts - rest) + {p};
      rest := rest - {p};
    }
  }

  /** The states found for `mask` are exactly those some schedule reaches. */
  ghost predicate Complete<F(!new)>(ar: Arithmetic<F>, values: seq<int>, mask: nat, found: set<State<F>>) {
    InRange(values, mask) && forall s :: s in found <==> Reachable(ar, values, mask, s)
  }

  class Search<F(==,!new)> {
    const ar: Arithmetic<F>
    const values: seq<int>
    var cache: map<nat, set<State<F>>>

    ghost predicate Valid()
      reads this
    {
      forall mask :: mask in cache ==> Complete(ar, values, mask, cache[mask])
    }

    constructor (ar: Arithmetic<F>, values: seq<int>)
      ensures Valid() && this.ar == ar && this.values == values
    {
      this.ar := ar;
      this.values := values;
      cache := map[];
    }

    /** `states(mask)`: all update orders and all binary partitions, memoised by mask. */
    method States(mask: nat) returns (found: set<State<F>>)
      requires Valid() && InRange(values, mask)
      modifies this`cache
      ensures Valid() && Complete(ar, values, mask, found)
      decreases mask, 1
    {
      if mask in cache {
        return cache[mask];
      }
      if mask == 0 {
        found := {Empty(ar)};
        forall s ensures s in found <==> Reachable(ar, values, 0, s) { EmptyMask(ar, values, s); }
      } else {
        found := UpdateStates(mask);
        found := MergeStates(mask, found);
        forall s ensures s in found <==> Reachable(ar, values, mask, s) {
          if s in found { StepsAreReachable(ar, values, mask, s); }
          if Reachable(ar, values, mask, s) { ReachableByAStep(ar, values, mask, s); }
        }
      }
      cache := cache[mask := found];
    }

    method UpdateStates(mask: nat) returns (found: set<State<F>>)
      requires Valid() && InRange(values, mask) && 0 < mask
      modifies this`cache
      ensures Valid()
      ensures forall s :: s in found <==> ByUpdate(ar, values, mask, |values|, s)
      decreases mask, 0
    {
      found := {};
      for i := 0 to |values|
        invariant Valid()
        invariant forall s :: s in found <==> ByUpdate(ar, values, mask, i, s)
      {
        if Bit(mask, i) {
          ShiftIsSubmask(mask, i);
          XorIsComplement(mask, Shift(i));
          SplitsAreSmaller(mask, Shift(i));
          ghost var before := found;
          var prior := States(Xor(mask, Shift(i)));
          found := AddUpdates(ar, prior, values[i], found);
          forall s ensures s in found <==> ByUpdate(ar, values, mask, i + 1, s) {
            UpdateRound(ar, values, mask, i, prior, s);
          }
        } else {
          assert forall p, s :: !UpdateStep(ar, values, mask, i, p, s);
          forall s ensures ByUpdate(ar, values, mask, i + 1, s) <==> ByUpdate(ar, values, mask, i, s) {}
        }
      }
    }

    method MergeStates(mask: nat, updated: set<State<F>>) returns (found: set<State<F>>)
      requires Valid() && InRange(values, mask) && 0 < mask
      modifies this`cache
      ensures Valid()
      ensures forall s :: s in found <==> s in updated || ByMerge(ar, values, mask, 0, s)
      decreases mask, 0
    {
      found := updated;
      assert Submask(mask, mask);
      NextSubmask(mask, mask);
      var left: nat := And(mask - 1, mask);
      while left != 0
        invariant Valid()
        invariant Submask(left, mask) && left < mask
        invariant forall s :: s in found <==> s in updated || ByMerge(ar, values, mask, left, s)
        decreases left
      {
        XorIsComplement(mask, left);
        SplitsAreSmaller(mask, left);
        ghost var before := found;
        var lefts := States(left);
        var rights := States(Xor(mask, left));
        found := AddMerges(ar, lefts, rights, found);
        NextSubmask(left, mask);
        var next: nat := And(left - 1, mask);
        forall s ensures s in found <==> s in updated || ByMerge(ar, values, mask, next, s) {
          MergeRound(ar, values, mask, left, next, lefts, rights, s);
        }
        left := next;
      }
    }
  }

  /** One round of the update loop moves its bound by one value. */
  lemma UpdateRound<F(!new)>(
    ar: Arithmetic<F>, values: seq<int>, mask: nat, i: nat, prior: set<State<F>>, s: State<F>)
    requires InRange(values, mask) && i < |values| && Bit(mask, i)
    requires Complete(ar, values, Xor(mask, Shift(i)), prior)
    ensures ByUpdate(ar, values, mask, i + 1, s) <==>
      ByUpdate(ar, values, mask, i, s) || exists p :: p in prior && s == Updated(ar, p, values[i])
  {
    if ByUpdate(ar, values, mask, i + 1, s) {
      var j: nat, p :| j < i + 1 && UpdateStep(ar, values, mask, j, p, s);
      assert j == i ==> p in prior;
    }
    forall p | p in prior && s == Updated(ar, p, values[i]) ensures ByUpdate(ar, values, mask, i + 1, s) {
      assert UpdateStep(ar, values, mask, i, p, s);
    }
  }

  /** One round of the submask loop moves its bound to the next submask, skipping none. */
  lemma MergeRound<F(!new)>(
    ar: Arithmetic<F>, values: seq<int>, mask: nat, left: nat, next: nat,
    lefts: set<State<F>>, rights: set<State<F>>, s: State<F>)
    requires InRange(values, mask) && IsSplit(mask, left)
    requires Complete(ar, values, left, lefts) && Complete(ar, values, Xor(mask, left), rights)
    requires next < left && forall part: nat :: Submask(part, mask) && part < left ==> part <= next
    ensures ByMerge(ar, values, mask, next, s) <==>
      || ByMerge(ar, values, mask, left, s)
      || exists p, q, fused :: p in lefts && q in rights && s == Merged(ar, p, q, fused)
  {
    if ByMerge(ar, values, mask, next, s) {
      var l: nat, p, q, fused :| next < l && MergeStep(ar, values, mask, l, p, q, fused, s);
      assert l == left ==> p in lefts && q in rights;
      assert l < left ==> l <= next;
    }
    if ByMerge(ar, values, mask, left, s) {
      var l: nat, p, q, fused :| left < l && MergeStep(ar, values, mask, l, p, q, fused, s);
      assert next < l;
    }
    forall p, q, fused | p in lefts && q in rights && s == Merged(ar, p, q, fused)
      ensures ByMerge(ar, values, mask, next, s)
    {
      assert MergeStep(ar, values, mask, left, p, q, fused, s);
    }
  }
}
