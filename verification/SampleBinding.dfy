/** From the timed samples of a benchmark to a payload that binds every registered sample. */
module SampleBinding {
  import opened Wrappers

  /** How a stage ends: fine, or with an exception. A cancellation is no ordinary exception, and an
      interrupt ends the process. */
  datatype Fate = Fine | Timeout(text: string) | Fails(text: string) | Cancelled(text: string) | Interrupt

  /** The receipt of a sample; `binding` holds the coordinates it carries, if any. */
  datatype Receipt =
    | Verified(binding: map<string, string>)
    | Uncovered(reason: Reason, binding: map<string, string>)

  /** Why a sample has no receipt of its own. */
  datatype Reason = ExecutionFailed | NoneObserved | NotObservable | NotCollected | ChannelReason(text: string)

  // ----- one query

  /** What happens to one timed execution, to the receipt asked for after it, and to the snapshot
      of executions taken for the next one. */
  datatype Sample = Sample(execution: Fate, collection: Fate, receipt: Receipt, snapshot: Fate)

  /** All that happens around one query, apart from what the harness decides. */
  datatype QueryEvents = QueryEvents(
    before: Fate, sample: nat -> Sample, after: Fate, verdict: string, teardown: Fate)

  datatype Failure = TimedOut(text: string) | Reported(text: string) | InTeardown(text: string) | Skipped

  datatype QueryResult = QueryResult(samples: nat, receipts: seq<Receipt>, error: Option<Failure>, validation: string)

  /** `_format_error` takes the first line of the text, and fails if there is none. */
  predicate Formats(f: Fate) {
    (f.Timeout? || f.Fails? || f.Cancelled?) && f.text != ""
  }

  const INDEX_ERROR := Fails("list index out of range")

  /** The exception a sample raises, and the receipts it leaves. */
  function SampleEnds(s: Sample, collect: bool): (Fate, seq<Receipt>) {
    if s.execution.Fine? then
      if !collect then (Fine, [])
      else if !s.collection.Fine? then (s.collection, [])
      else if s.snapshot.Cancelled? || s.snapshot.Interrupt? then (s.snapshot, [s.receipt])
      else (Fine, [s.receipt])
    else if s.execution.Interrupt? || !collect then (s.execution, [])
    else if Formats(s.execution) then (s.execution, [Uncovered(ExecutionFailed, map[])])
    else (INDEX_ERROR, [])
  }

  datatype Loop = Loop(samples: nat, receipts: seq<Receipt>, fate: Fate)

  /** The timed loop from its `i`-th execution on. */
  function LoopFrom(e: QueryEvents, iterations: nat, collect: bool, i: nat): Loop
    decreases iterations - i
  {
    if i >= iterations then Loop(0, [], Fine)
    else
      var (fate, receipts) := SampleEnds(e.sample(i), collect);
      if !fate.Fine? then Loop(1, receipts, fate)
      else
        var rest := LoopFrom(e, iterations, collect, i + 1);
        Loop(1 + rest.samples, receipts + rest.receipts, rest.fate)
  }

  /** The exception that ends the body of `_run_query`, if any. */
  function Raised(e: QueryEvents, iterations: nat, collect: bool): Fate {
    if !e.before.Fine? then e.before
    else
      var loop := LoopFrom(e, iterations, collect, 0);
      if !loop.fate.Fine? then loop.fate else e.after
  }

  /** The exceptions that leave `_run_query`: interrupts, and failures without any text to report. */
  predicate Escapes(e: QueryEvents, iterations: nat, collect: bool) {
    var raised := Raised(e, iterations, collect);
    || raised.Interrupt?
    || (!raised.Fine? && !raised.Timeout? && !Formats(raised))
    || e.teardown.Interrupt?
    || (raised.Fine? && !e.teardown.Fine? && !Formats(e.teardown))
  }

  /** What the reporter relies on: no more receipts than samples, no more samples than planned, and
      a failure wherever a sample is missing. */
  predicate Coherent(r: QueryResult, planned: nat) {
    && |r.receipts| <= r.samples <= planned
    && (r.samples < planned ==> r.validation == "FAIL")
    && forall i :: 0 <= i < |r.receipts| ==> r.receipts[i].binding == map[]
  }

  ghost predicate Unbound(e: QueryEvents) {
    forall i: nat :: e.sample(i).receipt.binding == map[]
  }

  // ----- what a result says about its samples

  /** The sample ran, and if receipts are collected its own and the next snapshot could be had. */
  predicate Clean(s: Sample, collect: bool) {
    s.execution.Fine? && (collect ==> s.collection.Fine? && !s.snapshot.Cancelled? && !s.snapshot.Interrupt?)
  }

  predicate LeavesReceipt(s: Sample) {
    if s.execution.Fine? then s.collection.Fine? else Formats(s.execution)
  }

  /** The observed receipt of a sample that ran, or the note that it did not. */
  function ReceiptOf(s: Sample): Receipt {
    if s.execution.Fine? then s.receipt else Uncovered(ExecutionFailed, map[])
  }

  /** The samples are those up to the first that did not end well, and each receipt is that of the sample in its
      place. */
  ghost predicate Recounts(e: QueryEvents, samples: nat, receipts: seq<Receipt>, iterations: nat, collect: bool) {
    && samples <= iterations && (!e.before.Fine? ==> samples == 0)
    && (forall k: nat :: k + 1 < samples ==> Clean(e.sample(k), collect))
    && (e.before.Fine? && samples < iterations ==> samples > 0 && !Clean(e.sample(samples - 1), collect))
    && |receipts| == (if !collect || samples == 0 then 0
                      else if LeavesReceipt(e.sample(samples - 1)) then samples else samples - 1)
    && (forall k: nat :: k < |receipts| ==> receipts[k] == ReceiptOf(e.sample(k)))
  }

  /** The first thing that went wrong, with its own text. */
  function ErrorOf(raised: Fate, teardown: Fate): Option<Failure> {
    match raised
    case Timeout(text) => Some(TimedOut(text))
    case Fails(text) => Some(Reported(text))
    case Cancelled(text) => Some(Reported(text))
    case _ => if Formats(teardown) then Some(InTeardown(teardown.text)) else None
  }

  /** Everything went well. */
  ghost predicate Unharmed(e: QueryEvents, iterations: nat, collect: bool) {
    && e.before.Fine? && e.after.Fine? && e.teardown.Fine?
    && forall k: nat :: k < iterations ==> Clean(e.sample(k), collect)
  }

  ghost predicate Judged(e: QueryEvents, r: QueryResult, slow: bool, iterations: nat, collect: bool) {
    && r.error == ErrorOf(Raised(e, iterations, collect), e.teardown)
    && r.validation == if slow || r.error.Some? then "FAIL" else e.verdict
  }

  /** A coherent result that recounts the samples of its query and has its error and verdict. */
  ghost predicate IsResultOf(e: QueryEvents, r: QueryResult, iterations: nat, collect: bool) {
    && Coherent(r, iterations) && Recounts(e, r.samples, r.receipts, iterations, collect)
    && Judged(e, r, false, iterations, collect)
  }

  lemma SampleMeans(s: Sample, collect: bool)
    ensures SampleEnds(s, collect).0.Fine? <==> Clean(s, collect)
    ensures SampleEnds(s, collect).1 == if collect && LeavesReceipt(s) then [ReceiptOf(s)] else []
  {
  }

  /** The timed loop after some samples, of which only the last may have ended badly. */
  ghost predicate SoFar(e: QueryEvents, samples: nat, receipts: seq<Receipt>, fine: bool, collect: bool) {
    && (forall k: nat :: k + 1 < samples ==> Clean(e.sample(k), collect))
    && (if samples == 0 then fine else fine <==> Clean(e.sample(samples - 1), collect))
    && |receipts| == (if !collect || samples == 0 then 0
                      else if LeavesReceipt(e.sample(samples - 1)) then samples else samples - 1)
    && (forall k: nat :: k < |receipts| ==> receipts[k] == ReceiptOf(e.sample(k)))
  }

  ghost function SoFarBy(e: QueryEvents, collect: bool): (nat, seq<Receipt>, bool) -> bool {
    (samples: nat, receipts, fine) => SoFar(e, samples, receipts, fine, collect)
  }

  lemma NothingSoFar(e: QueryEvents, collect: bool)
    ensures SoFarBy(e, collect)(0, [], true)
  {
  }

  /** The exception of the last sample ends the loop. */
  function LastFate(e: QueryEvents, samples: nat, collect: bool): Fate {
    if samples == 0 then Fine else SampleEnds(e.sample(samples - 1), collect).0
  }

  lemma {:induction false} LoopEndsWithLast(e: QueryEvents, samples: nat, iterations: nat, collect: bool, i: nat)
    requires i <= samples <= iterations && (forall k: nat :: i <= k < samples - 1 ==> Clean(e.sample(k), collect))
    requires samples < iterations ==> i < samples && !Clean(e.sample(samples - 1), collect)
    ensures LoopFrom(e, iterations, collect, i).fate == if i == samples then Fine else LastFate(e, samples, collect)
    decreases samples - i
  {
    if i < samples {
      SampleMeans(e.sample(i), collect);
      if i + 1 < samples || Clean(e.sample(i), collect) {
        LoopEndsWithLast(e, samples, iterations, collect, i + 1);
      }
    }
  }

  lemma AllToldSoFar(
    e: QueryEvents, samples: nat, receipts: seq<Receipt>, fine: bool, iterations: nat, collect: bool)
    requires SoFarBy(e, collect)(samples, receipts, fine) && e.before.Fine?
    requires samples <= iterations && (fine ==> samples == iterations)
    ensures Recounts(e, samples, receipts, iterations, collect)
    ensures |receipts| <= samples
    ensures Unbound(e) ==> forall k :: 0 <= k < |receipts| ==> receipts[k].binding == map[]
    ensures fine <==> forall k: nat :: k < iterations ==> Clean(e.sample(k), collect)
  {
    if fine && samples > 0 {
      assert Clean(e.sample(samples - 1), collect);
    }
  }

  lemma OneSampleMore(e: QueryEvents, samples: nat, receipts: seq<Receipt>, collect: bool)
    requires SoFarBy(e, collect)(samples, receipts, true)
    ensures var (fate, left) := SampleEnds(e.sample(samples), collect);
      SoFarBy(e, collect)(samples + 1, receipts + left, fate.Fine?)
  {
    SampleMeans(e.sample(samples), collect);
  }

  /** The setup of a query and its timed loop. */
  method RunSamples(e: QueryEvents, iterations: nat, collect: bool)
    returns (samples: nat, receipts: seq<Receipt>, raised: Fate)
    requires Unbound(e)
    ensures Recounts(e, samples, receipts, iterations, collect)
    ensures |receipts| <= samples && forall k :: 0 <= k < |receipts| ==> receipts[k].binding == map[]
    ensures raised == if e.before.Fine? then LastFate(e, samples, collect) else e.before
    ensures raised.Fine? <==> e.before.Fine? && forall k: nat :: k < iterations ==> Clean(e.sample(k), collect)
    ensures raised.Fine? ==> samples == iterations
  {
    samples, receipts, raised := 0, [], e.before;
    if !raised.Fine? {
      return;
    }
    NothingSoFar(e, collect);
    while samples < iterations && raised.Fine?
      invariant samples <= iterations
      invariant raised == LastFate(e, samples, collect)
      invariant SoFarBy(e, collect)(samples, receipts, raised.Fine?)
      decreases iterations - samples, raised.Fine?
    {
      var (fate, left) := SampleEnds(e.sample(samples), collect);
      OneSampleMore(e, samples, receipts, collect);
      receipts := receipts + left;
      raised := fate;
      samples := samples + 1;
    }
    AllToldSoFar(e, samples, receipts, raised.Fine?, iterations, collect);
  }

  /** `_run_query`; no result when an exception leaves it */
  method RunQuery(e: QueryEvents, iterations: nat, collect: bool) returns (result: Option<QueryResult>)
    requires Unbound(e)
    ensures result.None? <==> Escapes(e, iterations, collect)
    ensures result.Some? ==> IsResultOf(e, result.value, iterations, collect)
    ensures result.Some? ==> (result.value.error.None? <==> Unharmed(e, iterations, collect))
    ensures result.Some? && result.value.error.None? ==> result.value.samples == iterations
    ensures result.Some? && collect && result.value.error.None? ==> |result.value.receipts| == iterations
    ensures result.Some? && !collect ==> result.value.receipts == []
  {
    var samples, receipts, raised := RunSamples(e, iterations, collect);
    if e.before.Fine? {
      LoopEndsWithLast(e, samples, iterations, collect, 0);
    }
    if raised.Fine? {
      raised := e.after;
    }
    var error: Option<Failure>, validation := None, e.verdict;
    match raised {
      case Fine =>
      case Timeout(text) => error, validation := Some(TimedOut(text)), "FAIL";
      case Fails(text) => error, validation := Some(Reported(text)), "FAIL";
      case Cancelled(text) => error, validation := Some(Reported(text)), "FAIL";
      case Interrupt => return None;
    }
    if e.teardown.Interrupt? || ((raised.Fails? || raised.Cancelled?) && !Formats(raised)) {
      return None;
    }
    if !e.teardown.Fine? && error.None? {
      if !Formats(e.teardown) {
        return None;
      }
      error, validation := Some(InTeardown(e.teardown.text)), "FAIL";
    }
    result := Some(QueryResult(samples, receipts, error, validation));
  }

  /** An error without text, met while no receipts are collected, is no interrupt and still escapes. */
  lemma SilentCancellationEscapes(e: QueryEvents)
    requires e.before == Fine && e.sample(0).execution == Cancelled("") && e.teardown == Fine
    ensures Escapes(e, 1, false) && !Escapes(e, 1, true)
  {
  }

  // ----- one workload

  datatype WorkloadEvents = WorkloadEvents(
    setup: Fate, build: Fate, queries: seq<QueryEvents>, slow: set<nat>, teardown: Fate)

  /** The stages of a workload report ordinary exceptions that have a text. */
  predicate Contained(f: Fate) {
    f.Fine? || ((f.Timeout? || f.Fails?) && Formats(f))
  }

  /** An exception leaves the queries from the `i`-th on, before one of them times out. */
  predicate QueriesEscape(queries: seq<QueryEvents>, iterations: nat, collect: bool, i: nat)
    decreases |queries| - i
  {
    i < |queries|
    && (Escapes(queries[i], iterations, collect)
        || (!Raised(queries[i], iterations, collect).Timeout? && QueriesEscape(queries, iterations, collect, i + 1)))
  }

  predicate WorkloadEscapes(w: WorkloadEvents, iterations: nat, collect: bool) {
    || !Contained(w.setup)
    || (w.setup.Fine? && !Contained(w.build))
    || (w.setup.Fine? && w.build.Fine? && QueriesEscape(w.queries, iterations, collect, 0))
    || !Contained(w.teardown)
  }

  ghost predicate AllUnbound(queries: seq<QueryEvents>) {
    forall i :: 0 <= i < |queries| ==> Unbound(queries[i])
  }

  const SKIPPED := QueryResult(0, [], Some(Skipped), "FAIL")

  predicate AllCoherent(results: seq<QueryResult>, planned: nat) {
    forall i :: 0 <= i < |results| ==> Coherent(results[i], planned)
  }

  ghost predicate AllRecount(queries: seq<QueryEvents>, results: seq<QueryResult>, iterations: nat, collect: bool) {
    && |results| <= |queries|
    && forall i :: 0 <= i < |results| ==>
      Recounts(queries[i], results[i].samples, results[i].receipts, iterations, collect)
  }

  /** Each result has the error and the verdict of its query; a slow one fails. */
  ghost predicate AllJudged(
    queries: seq<QueryEvents>, results: seq<QueryResult>, slow: set<nat>, iterations: nat, collect: bool)
  {
    && |results| <= |queries|
    && forall i: nat :: i < |results| ==> Judged(queries[i], results[i], i in slow, iterations, collect)
  }

  ghost function TimesOut(iterations: nat, collect: bool): QueryEvents -> bool {
    e => Raised(e, iterations, collect).Timeout?
  }

  ghost function EscapesOne(iterations: nat, collect: bool): QueryEvents -> bool {
    e => Escapes(e, iterations, collect)
  }

  /** Queries are run up to and with the first that times out. */
  ghost predicate StopsAt(queries: seq<QueryEvents>, n: nat, iterations: nat, collect: bool) {
    && n <= |queries|
    && (n > 0 ==> NoTimeout(queries, n - 1, iterations, collect))
    && (n < |queries| ==> n > 0 && TimesOut(iterations, collect)(queries[n - 1]))
  }

  ghost predicate NoTimeout(queries: seq<QueryEvents>, n: nat, iterations: nat, collect: bool) {
    n <= |queries| && forall k :: 0 <= k < n ==> !TimesOut(iterations, collect)(queries[k])
  }

  ghost function ResultBy(iterations: nat, collect: bool): (QueryEvents, QueryResult) -> bool {
    (e, r) => IsResultOf(e, r, iterations, collect)
  }

  /** The results are those of the first queries. */
  ghost predicate AreResultsOf(
    queries: seq<QueryEvents>, results: seq<QueryResult>, ends: (QueryEvents, QueryResult) -> bool)
  {
    |results| <= |queries| && forall i :: 0 <= i < |results| ==> ends(queries[i], results[i])
  }

  /** The first `n` results are of queries that were run, and the others of queries that were skipped: those after a
      timeout, or all when the workload could not be set up. */
  ghost predicate Reports(w: WorkloadEvents, results: seq<QueryResult>, n: nat, iterations: nat, collect: bool) {
    && n <= |results| == |w.queries|
    && AllRecount(w.queries, results[..n], iterations, collect)
    && AllJudged(w.queries, results[..n], w.slow, iterations, collect)
    && (forall k :: n <= k < |results| ==> results[k] == SKIPPED)
    && (if w.setup.Fine? && w.build.Fine? then StopsAt(w.queries, n, iterations, collect) else n == 0)
  }

  /** One coherent result for every planned query, run or skipped. */
  ghost predicate IsReport(w: WorkloadEvents, results: seq<QueryResult>, iterations: nat, collect: bool) {
    && |results| == |w.queries| && AllCoherent(results, iterations)
    && exists n: nat :: Reports(w, results, n, iterations, collect)
  }

  ghost function EscapeFrom(queries: seq<QueryEvents>, iterations: nat, collect: bool): nat -> bool {
    (i: nat) => QueriesEscape(queries, iterations, collect, i)
  }

  lemma EscapeGoesOn(queries: seq<QueryEvents>, iterations: nat, collect: bool, i: nat)
    requires i < |queries|
    ensures EscapeFrom(queries, iterations, collect)(i) <==>
      || EscapesOne(iterations, collect)(queries[i])
      || (!TimesOut(iterations, collect)(queries[i]) && EscapeFrom(queries, iterations, collect)(i + 1))
  {
  }

  lemma EscapeEnds(queries: seq<QueryEvents>, iterations: nat, collect: bool)
    ensures !EscapeFrom(queries, iterations, collect)(|queries|)
  {
  }

  /** The queries of a workload until one times out. */
  method RunQueries(queries: seq<QueryEvents>, iterations: nat, collect: bool)
    returns (results: Option<seq<QueryResult>>)
    requires AllUnbound(queries)
    ensures results.None? <==> EscapeFrom(queries, iterations, collect)(0)
    ensures results.Some? ==> AreResultsOf(queries, results.value, ResultBy(iterations, collect))
    ensures results.Some? ==> StopsAt(queries, |results.value|, iterations, collect)
  {
    var done: seq<QueryResult> := [];
    for i := 0 to |queries|
      invariant |done| == i && AreResultsOf(queries, done, ResultBy(iterations, collect))
      invariant NoTimeout(queries, i, iterations, collect)
      invariant EscapeFrom(queries, iterations, collect)(0) == EscapeFrom(queries, iterations, collect)(i)
    {
      EscapeGoesOn(queries, iterations, collect, i);
      var result := RunReported(queries[i], iterations, collect);
      if result.None? {
        return None;
      }
      done := done + [result.value];
      if ClosesConnection(result.value) {
        return Some(done);
      }
    }
    EscapeEnds(queries, iterations, collect);
    results := Some(done);
  }

  predicate ClosesConnection(r: QueryResult) {
    r.error.Some? && r.error.value.TimedOut?
  }

  method RunReported(e: QueryEvents, iterations: nat, collect: bool) returns (result: Option<QueryResult>)
    requires Unbound(e)
    ensures result.None? <==> EscapesOne(iterations, collect)(e)
    ensures result.Some? ==> ResultBy(iterations, collect)(e, result.value)
    ensures result.Some? ==> (ClosesConnection(result.value) <==> TimesOut(iterations, collect)(e))
  {
    result := RunQuery(e, iterations, collect);
  }

  /** A latency guard can only turn a validation into a failure. */
  function Guarded(results: seq<QueryResult>, slow: set<nat>): (r: seq<QueryResult>)
    ensures |r| == |results|
    ensures forall i :: 0 <= i < |r| ==>
      r[i] == results[i].(validation := if i in slow then "FAIL" else results[i].validation)
  {
    seq(|results|, i requires 0 <= i < |results| =>
      if i in slow then results[i].(validation := "FAIL") else results[i])
  }

  lemma GuardedAreJudged(
    queries: seq<QueryEvents>, results: seq<QueryResult>, slow: set<nat>, iterations: nat, collect: bool)
    requires AreResultsOf(queries, results, ResultBy(iterations, collect))
    ensures var r := Guarded(results, slow);
      && AllCoherent(r, iterations) && AllRecount(queries, r, iterations, collect)
      && AllJudged(queries, r, slow, iterations, collect)
  {
    var r := Guarded(results, slow);
    forall i: nat | i < |r|
      ensures Coherent(r[i], iterations) && Judged(queries[i], r[i], i in slow, iterations, collect)
      ensures Recounts(queries[i], r[i].samples, r[i].receipts, iterations, collect)
    {
      assert ResultBy(iterations, collect)(queries[i], results[i]);
    }
  }

  /** Queries that were not run are reported as skipped. */
  method SkipRest(done: seq<QueryResult>, n: nat, ghost planned: nat) returns (all: seq<QueryResult>)
    requires |done| <= n && AllCoherent(done, planned)
    ensures |all| == n && all[..|done|] == done && AllCoherent(all, planned)
    ensures forall k :: |done| <= k < n ==> all[k] == SKIPPED
  {
    all := done;
    for i := |done| to n
      invariant |all| == i && all[..|done|] == done && AllCoherent(all, planned)
      invariant forall k :: |done| <= k < i ==> all[k] == SKIPPED
    {
      all := all + [SKIPPED];
    }
  }

  /** `run_workload`: every planned query keeps its place, whatever happened before it. */
  method RunWorkload(w: WorkloadEvents, iterations: nat, collect: bool) returns (results: Option<seq<QueryResult>>)
    requires AllUnbound(w.queries)
    ensures results.None? <==> WorkloadEscapes(w, iterations, collect)
    ensures results.Some? ==> IsReport(w, results.value, iterations, collect)
  {
    if !Contained(w.setup) || (w.setup.Fine? && !Contained(w.build)) {
      return None;
    }
    var done: seq<QueryResult> := [];
    if w.setup.Fine? && w.build.Fine? {
      var finished := RunQueries(w.queries, iterations, collect);
      if finished.None? {
        return None;
      }
      GuardedAreJudged(w.queries, finished.value, w.slow, iterations, collect);
      done := Guarded(finished.value, w.slow);
    }
    if !Contained(w.teardown) {
      return None;
    }
    var all := SkipRest(done, |w.queries|, iterations);
    assert Reports(w, all, |done|, iterations, collect);
    results := Some(all);
  }

  // ----- the payload

  datatype Bound = Bound(receipt: Receipt, sampleId: string, queryCase: string, armId: string)

  /** The coordinates every receipt of a payload shares. */
  datatype Coordinates = Coordinates(queryCase: string, armId: string)

  predicate Agrees(r: Receipt, key: string, value: string) {
    key in r.binding ==> r.binding[key] == value
  }

  /** A receipt with its sample id and coordinates, unless it already carries others. */
  function BindReceipt(r: Receipt, id: string, at: Coordinates): Option<Bound> {
    if Agrees(r, "sample_id", id) && Agrees(r, "query_case", at.queryCase) && Agrees(r, "arm_id", at.armId)
    then Some(Bound(r, id, at.queryCase, at.armId))
    else None
  }

  predicate Plausible(q: QueryResult, planned: nat) {
    && |q.receipts| <= q.samples <= planned
    && (q.samples < planned ==> q.error.Some? || q.validation == "FAIL")
  }

  function Repeated(n: nat, r: Receipt): (receipts: seq<Receipt>)
    ensures |receipts| == n
  {
    if n == 0 then [] else [r] + Repeated(n - 1, r)
  }

  /** What stands in for a receipt that a timed sample lacks. */
  function Unobserved(q: QueryResult): Receipt {
    Uncovered(if q.receipts == [] then NoneObserved else NotObservable, map[])
  }

  const UNCOLLECTED := Uncovered(NotCollected, map[])

  /** The receipts of a query, filled up to the planned number. */
  function Filled(q: QueryResult, planned: nat): (receipts: seq<Receipt>)
    requires |q.receipts| <= q.samples <= planned
    ensures |receipts| == planned
  {
    q.receipts + Repeated(q.samples - |q.receipts|, Unobserved(q)) + Repeated(planned - q.samples, UNCOLLECTED)
  }

  lemma {:induction false} RepeatedAt(n: nat, r: Receipt, i: nat)
    requires i < n
    ensures Repeated(n, r)[i] == r
  {
    if i > 0 {
      RepeatedAt(n - 1, r, i - 1);
    }
  }

  lemma PartsAt<T>(a: seq<T>, b: seq<T>, c: seq<T>, i: nat)
    requires i < |a| + |b| + |c|
    ensures (a + b + c)[i] == if i < |a| then a[i] else if i < |a| + |b| then b[i - |a|] else c[i - |a| - |b|]
  {
  }

  lemma FilledKeeps(q: QueryResult, planned: nat, i: nat)
    requires |q.receipts| <= q.samples <= planned && i < planned
    ensures i < |q.receipts| ==> Filled(q, planned)[i] == q.receipts[i]
    ensures i >= |q.receipts| ==> Filled(q, planned)[i].Uncovered? && Filled(q, planned)[i].binding == map[]
  {
    PartsAt(q.receipts, Repeated(q.samples - |q.receipts|, Unobserved(q)),
            Repeated(planned - q.samples, UNCOLLECTED), i);
    if |q.receipts| <= i < q.samples {
      RepeatedAt(q.samples - |q.receipts|, Unobserved(q), i - |q.receipts|);
    } else if q.samples <= i {
      RepeatedAt(planned - q.samples, UNCOLLECTED, i - q.samples);
    }
  }

  /** Each id is bound to the receipt in its place. */
  function BindList(receipts: seq<Receipt>, ids: seq<string>, at: Coordinates): Option<seq<Bound>>
    requires |receipts| == |ids|
    decreases |ids|
  {
    if ids == [] then Some([])
    else Joined(BindReceipt(receipts[0], ids[0], at), BindList(receipts[1..], ids[1..], at))
  }

  lemma {:induction false} BindListAt(receipts: seq<Receipt>, ids: seq<string>, at: Coordinates, i: nat)
    requires |receipts| == |ids| && i < |ids| && BindList(receipts, ids, at).Some?
    ensures var bound := BindList(receipts, ids, at).value;
      |bound| == |ids| && bound[i] == Bound(receipts[i], ids[i], at.queryCase, at.armId)
    decreases |ids|
  {
    if |ids| > 1 {
      BindListAt(receipts[1..], ids[1..], at, if i > 0 then i - 1 else 0);
    }
  }

  lemma {:induction false} BindListSucceeds(receipts: seq<Receipt>, ids: seq<string>, at: Coordinates)
    requires |receipts| == |ids|
    ensures BindList(receipts, ids, at).Some? <==>
      forall i :: 0 <= i < |ids| ==> BindReceipt(receipts[i], ids[i], at).Some?
    decreases |ids|
  {
    if ids != [] {
      BindListSucceeds(receipts[1..], ids[1..], at);
      assert forall i :: 1 <= i < |ids| ==> receipts[i] == receipts[1..][i - 1] && ids[i] == ids[1..][i - 1];
    }
  }

  method BindReceipts(receipts: seq<Receipt>, ids: seq<string>, at: Coordinates) returns (bound: Option<seq<Bound>>)
    requires |receipts| == |ids|
    ensures bound == BindList(receipts, ids, at)
  {
    var done: seq<Bound> := [];
    var rest, left := receipts, ids;
    AfterJoined(done, None, BindList(receipts, ids, at));
    while left != []
      invariant |rest| == |left| && BindList(receipts, ids, at) == After(done, BindList(rest, left, at))
      decreases |left|
    {
      var next := BindReceipt(rest[0], left[0], at);
      AfterJoined(done, next, BindList(rest[1..], left[1..], at));
      if next.None? {
        return None;
      }
      done, rest, left := done + [next.value], rest[1..], left[1..];
    }
    AfterJoined(done, None, None);
    bound := Some(done);
  }

  /** Binds the receipts of one query to the first of the given ids, if that is possible. */
  type Binder = (QueryResult, seq<string>) -> Option<seq<Bound>>

  /** The part of `build_payload` for one query: its receipts take the next planned ids. */
  function BindOne(planned: nat, at: Coordinates): Binder {
    (q, ids) =>
      if Plausible(q, planned) && planned <= |ids| then BindList(Filled(q, planned), ids[..planned], at) else None
  }

  /** Binding fails exactly on an implausible result, on too few ids, or on a receipt that already
      carries other coordinates; otherwise every receipt is kept and the next ids are taken. */
  method BindQuery(q: QueryResult, planned: nat, ids: seq<string>, at: Coordinates) returns (bound: Option<seq<Bound>>)
    ensures bound == BindOne(planned, at)(q, ids)
    ensures bound.Some? <==> Plausible(q, planned) && planned <= |ids| && OwnReceiptsAgree(q, ids, at)
    ensures bound.Some? ==> Keeps(bound.value, q, planned, at) && IdsOfQuery(bound.value) == ids[..planned]
  {
    if !Plausible(q, planned) {
      return None;
    }
    var receipts := Filled(q, planned);
    if |receipts| > |ids| {
      return None;
    }
    bound := BindReceipts(receipts, ids[..planned], at);
    BindsExactly(q, planned, ids, at);
    if bound.Some? {
      BoundQueryKeeps(q, planned, ids, at);
    }
  }

  /** The receipts a query brings agree with the ids in their places. */
  predicate OwnReceiptsAgree(q: QueryResult, ids: seq<string>, at: Coordinates) {
    forall i :: 0 <= i < |q.receipts| && i < |ids| ==> BindReceipt(q.receipts[i], ids[i], at).Some?
  }

  lemma BindsExactly(q: QueryResult, planned: nat, ids: seq<string>, at: Coordinates)
    requires Plausible(q, planned) && planned <= |ids|
    ensures BindOne(planned, at)(q, ids).Some? <==> OwnReceiptsAgree(q, ids, at)
  {
    BindListSucceeds(Filled(q, planned), ids[..planned], at);
    forall i | 0 <= i < planned
      ensures BindReceipt(Filled(q, planned)[i], ids[i], at).Some? <==>
        (i < |q.receipts| ==> BindReceipt(q.receipts[i], ids[i], at).Some?)
    {
      FilledKeeps(q, planned, i);
    }
  }

  function IdsOfQuery(bound: seq<Bound>): seq<string> {
    seq(|bound|, i requires 0 <= i < |bound| => bound[i].sampleId)
  }

  /** Every query keeps its own receipts in order, the rest of its receipts are uncovered, and all
      carry its coordinates. */
  ghost predicate Keeps(bound: seq<Bound>, q: QueryResult, planned: nat, at: Coordinates) {
    && |bound| == planned && |q.receipts| <= planned
    && (forall k :: 0 <= k < |q.receipts| ==> bound[k].receipt == q.receipts[k])
    && (forall k :: |q.receipts| <= k < planned ==> bound[k].receipt.Uncovered?)
    && (forall k :: 0 <= k < planned ==> bound[k].queryCase == at.queryCase && bound[k].armId == at.armId)
  }

  lemma BoundQueryKeeps(q: QueryResult, planned: nat, ids: seq<string>, at: Coordinates)
    requires BindOne(planned, at)(q, ids).Some?
    ensures var bound := BindOne(planned, at)(q, ids).value;
      Keeps(bound, q, planned, at) && planned <= |ids| && IdsOfQuery(bound) == ids[..planned]
  {
    var bound := BindOne(planned, at)(q, ids).value;
    if planned > 0 {
      BindListAt(Filled(q, planned), ids[..planned], at, 0);
    }
    forall i: nat | i < planned
      ensures bound[i] == Bound(Filled(q, planned)[i], ids[i], at.queryCase, at.armId)
      ensures i < |q.receipts| ==> bound[i].receipt == q.receipts[i]
      ensures i >= |q.receipts| ==> bound[i].receipt.Uncovered?
    {
      BindListAt(Filled(q, planned), ids[..planned], at, i);
      FilledKeeps(q, planned, i);
    }
  }

  lemma CoherentBinds(q: QueryResult, planned: nat, ids: seq<string>, at: Coordinates)
    requires Coherent(q, planned) && planned <= |ids|
    ensures BindOne(planned, at)(q, ids).Some?
  {
    BindsExactly(q, planned, ids, at);
  }

  // ----- the queries of a workload

  function Joined<T>(first: Option<T>, rest: Option<seq<T>>): Option<seq<T>> {
    if first.Some? && rest.Some? then Some([first.value] + rest.value) else None
  }

  function After<T>(done: seq<T>, rest: Option<seq<T>>): Option<seq<T>> {
    if rest.Some? then Some(done + rest.value) else None
  }

  lemma AfterJoined<T>(done: seq<T>, first: Option<T>, rest: Option<seq<T>>)
    ensures After(done, Joined(first, rest)) == if first.Some? then After(done + [first.value], rest) else None
    ensures After([], rest) == rest
    ensures After(done, Some([])) == Some(done)
  {
    if first.Some? && rest.Some? {
      assert done + ([first.value] + rest.value) == done + [first.value] + rest.value;
    }
    assert done + [] == done;
    assert rest.Some? ==> [] + rest.value == rest.value;
  }

  /** The queries of a workload, each taking the ids after those of the query before it. */
  function BindAll(results: seq<QueryResult>, planned: nat, ids: seq<string>, bind: Binder): Option<seq<seq<Bound>>>
    decreases |results|
  {
    if results == [] then Some([])
    else if |ids| < planned then None
    else Joined(bind(results[0], ids), BindAll(results[1..], planned, ids[planned..], bind))
  }

  /** How many samples a number of queries registers. */
  function Total(queries: nat, planned: nat): nat {
    if queries == 0 then 0 else planned + Total(queries - 1, planned)
  }

  lemma {:induction false} TotalIsProduct(queries: nat, planned: nat)
    ensures Total(queries, planned) == queries * planned
  {
    if queries > 0 {
      TotalIsProduct(queries - 1, planned);
      assert (queries - 1) * planned + planned == queries * planned;
    }
  }

  /** A binder that takes coherent results as long as there are enough ids. */
  ghost predicate BindsCoherent(bind: Binder, planned: nat) {
    forall q, ids :: Coherent(q, planned) && planned <= |ids| ==> bind(q, ids).Some?
  }

  /** A binder that uses exactly the first planned ids, in order. */
  ghost predicate TakesPlanned(bind: Binder, planned: nat) {
    forall q, ids :: bind(q, ids).Some? ==> planned <= |ids| && IdsOfQuery(bind(q, ids).value) == ids[..planned]
  }

  lemma BindOneLaws(planned: nat, at: Coordinates)
    ensures BindsCoherent(BindOne(planned, at), planned) && TakesPlanned(BindOne(planned, at), planned)
  {
    forall q, ids | BindOne(planned, at)(q, ids).Some? { BoundQueryKeeps(q, planned, ids, at); }
    forall q, ids: seq<string> | Coherent(q, planned) && planned <= |ids| { CoherentBinds(q, planned, ids, at); }
  }

  lemma {:induction false} CoherentBindAll(results: seq<QueryResult>, planned: nat, ids: seq<string>, bind: Binder)
    requires BindsCoherent(bind, planned) && AllCoherent(results, planned) && Total(|results|, planned) <= |ids|
    ensures BindAll(results, planned, ids, bind).Some?
    decreases |results|
  {
    if results != [] {
      assert Coherent(results[0], planned) && bind(results[0], ids).Some?;
      CoherentBindAll(results[1..], planned, ids[planned..], bind);
    }
  }

  function IdsOfQueries(queries: seq<seq<Bound>>): seq<string> {
    if queries == [] then [] else IdsOfQuery(queries[0]) + IdsOfQueries(queries[1..])
  }

  lemma IdsCons(first: seq<Bound>, rest: seq<seq<Bound>>)
    ensures IdsOfQueries([first] + rest) == IdsOfQuery(first) + IdsOfQueries(rest)
  {
  }

  lemma TakesOn<T>(s: seq<T>, m: nat, n: nat)
    requires m + n <= |s|
    ensures s[..m] + s[m..][..n] == s[..m + n]
  {
  }

  /** The queries use up the ids in order. */
  lemma {:induction false} QueriesTakeIds(results: seq<QueryResult>, planned: nat, ids: seq<string>, bind: Binder)
    requires TakesPlanned(bind, planned) && BindAll(results, planned, ids, bind).Some?
    ensures Total(|results|, planned) <= |ids|
    ensures IdsOfQueries(BindAll(results, planned, ids, bind).value) == ids[..Total(|results|, planned)]
    decreases |results|
  {
    if results != [] {
      QueriesTakeIds(results[1..], planned, ids[planned..], bind);
      IdsCons(bind(results[0], ids).value, BindAll(results[1..], planned, ids[planned..], bind).value);
      TakesOn(ids, planned, Total(|results| - 1, planned));
    }
  }

  /** Every query has its place, with the receipts its binder gives it. */
  lemma {:induction false} QueriesHavePlace(
    results: seq<QueryResult>, planned: nat, ids: seq<string>, bind: Binder, i: nat) returns (own: seq<string>)
    requires BindAll(results, planned, ids, bind).Some? && i < |results|
    ensures var queries := BindAll(results, planned, ids, bind).value;
      |queries| == |results| && Some(queries[i]) == bind(results[i], own)
    decreases |results|
  {
    own := ids;
    if |results| > 1 {
      var later := QueriesHavePlace(results[1..], planned, ids[planned..], bind, if i > 0 then i - 1 else 0);
      own := if i > 0 then later else ids;
    }
  }

  /** The part of `build_payload` for one workload: `ids` are those from the cursor on, and `used`
      is how far the cursor moves. */
  method BindWorkload(results: seq<QueryResult>, planned: nat, ids: seq<string>, at: Coordinates)
    returns (queries: Option<seq<seq<Bound>>>, used: nat)
    ensures queries == BindAll(results, planned, ids, BindOne(planned, at))
    ensures queries.Some? ==> used == Total(|results|, planned) <= |ids|
  {
    var done: seq<seq<Bound>> := [];
    var rest, left := results, ids;
    used := 0;
    ghost var bind := BindOne(planned, at);
    AfterJoined(done, None, BindAll(results, planned, ids, bind));
    while rest != []
      invariant used + Total(|rest|, planned) == Total(|results|, planned) && used + |left| == |ids|
      invariant BindAll(results, planned, ids, bind) == After(done, BindAll(rest, planned, left, bind))
      decreases |rest|
    {
      var bound := BindQuery(rest[0], planned, left, at);
      if bound.None? {
        return None, used;
      }
      AfterJoined(done, bound, BindAll(rest[1..], planned, left[planned..], bind));
      done, used := done + [bound.value], used + planned;
      rest, left := rest[1..], left[planned..];
    }
    AfterJoined(done, None, None);
    queries := Some(done);
  }
}
