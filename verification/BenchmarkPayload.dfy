/** The payload of a whole benchmark: built from all workloads, checked for exactly-once binding. */
module BenchmarkPayload {
  import opened SampleBinding
  import opened Wrappers

  type Payload = seq<seq<seq<Bound>>>

  function TotalOf(workloads: seq<seq<QueryResult>>, planned: nat): nat {
    if workloads == [] then 0 else Total(|workloads[0]|, planned) + TotalOf(workloads[1..], planned)
  }

  /** The workloads, each taking the ids after those of the workload before it. */
  function BindEach(workloads: seq<seq<QueryResult>>, planned: nat, ids: seq<string>, bind: Binder): Option<Payload>
    decreases |workloads|
  {
    if workloads == [] then Some([])
    else
      var n := Total(|workloads[0]|, planned);
      if |ids| < n then None
      else Joined(BindAll(workloads[0], planned, ids, bind), BindEach(workloads[1..], planned, ids[n..], bind))
  }

  function IdsOf(payload: Payload): seq<string> {
    if payload == [] then [] else IdsOfQueries(payload[0]) + IdsOf(payload[1..])
  }

  lemma PayloadCons(first: seq<seq<Bound>>, rest: Payload)
    ensures IdsOf([first] + rest) == IdsOfQueries(first) + IdsOf(rest)
  {
  }

  /** The workloads use up the ids in order. */
  lemma {:induction false} WorkloadsTakeIds(
    workloads: seq<seq<QueryResult>>, planned: nat, ids: seq<string>, bind: Binder)
    requires TakesPlanned(bind, planned) && BindEach(workloads, planned, ids, bind).Some?
    ensures TotalOf(workloads, planned) <= |ids|
    ensures IdsOf(BindEach(workloads, planned, ids, bind).value) == ids[..TotalOf(workloads, planned)]
    decreases |workloads|
  {
    if workloads != [] {
      var n := Total(|workloads[0]|, planned);
      QueriesTakeIds(workloads[0], planned, ids, bind);
      WorkloadsTakeIds(workloads[1..], planned, ids[n..], bind);
      PayloadCons(BindAll(workloads[0], planned, ids, bind).value,
                  BindEach(workloads[1..], planned, ids[n..], bind).value);
      TakesOn(ids, n, TotalOf(workloads[1..], planned));
    }
  }

  lemma {:induction false} CoherentBindEach(
    workloads: seq<seq<QueryResult>>, planned: nat, ids: seq<string>, bind: Binder)
    requires BindsCoherent(bind, planned)
    requires forall i :: 0 <= i < |workloads| ==> AllCoherent(workloads[i], planned)
    requires TotalOf(workloads, planned) <= |ids|
    ensures BindEach(workloads, planned, ids, bind).Some?
    decreases |workloads|
  {
    if workloads != [] {
      CoherentBindAll(workloads[0], planned, ids, bind);
      CoherentBindEach(workloads[1..], planned, ids[Total(|workloads[0]|, planned)..], bind);
    }
  }

  /** Every query of every workload has its place, with the receipts its binder gives it. */
  lemma {:induction false} WorkloadsHavePlace(
    workloads: seq<seq<QueryResult>>, planned: nat, ids: seq<string>, bind: Binder, i: nat, j: nat)
    returns (own: seq<string>)
    requires BindEach(workloads, planned, ids, bind).Some? && i < |workloads| && j < |workloads[i]|
    ensures var payload := BindEach(workloads, planned, ids, bind).value;
      |payload| == |workloads| && |payload[i]| == |workloads[i]| && Some(payload[i][j]) == bind(workloads[i][j], own)
    decreases |workloads|
  {
    EachHasPlace(workloads, planned, ids, bind);
    if i == 0 {
      own := QueriesHavePlace(workloads[0], planned, ids, bind, j);
    } else {
      own := WorkloadsHavePlace(workloads[1..], planned, ids[Total(|workloads[0]|, planned)..], bind, i - 1, j);
    }
  }

  lemma {:induction false} EachHasPlace(workloads: seq<seq<QueryResult>>, planned: nat, ids: seq<string>, bind: Binder)
    requires BindEach(workloads, planned, ids, bind).Some?
    ensures |BindEach(workloads, planned, ids, bind).value| == |workloads|
    decreases |workloads|
  {
    if workloads != [] {
      EachHasPlace(workloads[1..], planned, ids[Total(|workloads[0]|, planned)..], bind);
    }
  }

  // ----- building

  /** `build_payload`: nothing when a ValueError is raised */
  method BuildPayload(workloads: seq<seq<QueryResult>>, iterations: int, ids: seq<string>, at: Coordinates)
    returns (payload: Option<Payload>)
    ensures var planned := if iterations < 1 then 1 else iterations;
      payload == if at.queryCase != "" && at.armId != "" && ids != [] && TotalOf(workloads, planned) == |ids|
        then BindEach(workloads, planned, ids, BindOne(planned, at)) else None
  {
    if at.queryCase == "" || at.armId == "" || ids == [] {
      return None;
    }
    var planned := if iterations < 1 then 1 else iterations;
    var done: Payload := [];
    var rest, left, cursor := workloads, ids, 0;
    ghost var bind := BindOne(planned, at);
    AfterJoined(done, None, BindEach(workloads, planned, ids, bind));
    while rest != []
      invariant cursor + TotalOf(rest, planned) == TotalOf(workloads, planned) && cursor + |left| == |ids|
      invariant BindEach(workloads, planned, ids, bind) == After(done, BindEach(rest, planned, left, bind))
      decreases |rest|
    {
      var queries, used := BindWorkload(rest[0], planned, left, at);
      if queries.None? {
        return None;
      }
      AfterJoined(done, queries, BindEach(rest[1..], planned, left[used..], bind));
      done, cursor := done + [queries.value], cursor + used;
      rest, left := rest[1..], left[used..];
    }
    AfterJoined(done, None, None);
    if cursor != |ids| {
      return None;
    }
    payload := Some(done);
  }

  // ----- checking

  function Elements(ids: seq<string>): set<string> {
    set id | id in ids
  }

  lemma {:induction false} DistinctCounts(ids: seq<string>, id: string)
    requires Distinct(ids)
    ensures multiset(ids)[id] == if id in ids then 1 else 0
  {
    if ids != [] {
      DistinctCounts(ids[1..], id);
      assert ids == [ids[0]] + ids[1..];
      assert forall k :: 0 <= k < |ids| - 1 ==> ids[1..][k] == ids[k + 1];
    }
  }

  lemma CountedOnceIsDistinct(ids: seq<string>)
    requires forall id :: multiset(ids)[id] <= 1
    ensures Distinct(ids)
  {
    forall i, j | 0 <= i < j < |ids|
      ensures ids[i] != ids[j]
    {
      var before, after := ids[..j], ids[j + 1..];
      assert ids == before + [ids[j]] + after;
      assert before[i] == ids[i];
      assert multiset(ids)[ids[j]] >= multiset(before)[ids[j]] + 1;
      assert ids[i] in multiset(before);
    }
  }

  /** Same length, no repetition and the same elements: the check of lists of ids by sets. */
  lemma ExactlyOnce(found: seq<string>, ids: seq<string>)
    requires Distinct(ids)
    ensures |found| == |ids| && Distinct(found) && Elements(found) == Elements(ids)
      <==> multiset(found) == multiset(ids)
  {
    forall id { DistinctCounts(ids, id); }
    if Distinct(found) && Elements(found) == Elements(ids) {
      forall id
        ensures multiset(found)[id] == multiset(ids)[id]
      {
        DistinctCounts(found, id);
        assert id in Elements(found) <==> id in Elements(ids);
      }
    }
    if multiset(found) == multiset(ids) {
      CountedOnceIsDistinct(found);
      assert |found| == |multiset(found)| && |ids| == |multiset(ids)|;
      forall id
        ensures id in Elements(found) <==> id in Elements(ids)
      {
        assert id in found <==> id in multiset(found);
        assert id in ids <==> id in multiset(ids);
      }
    }
  }

  predicate HasCoordinates(bound: Bound, at: Coordinates) {
    bound.sampleId != "" && bound.queryCase == at.queryCase && bound.armId == at.armId
  }

  predicate QueryHasCoordinates(query: seq<Bound>, at: Coordinates) {
    forall i :: 0 <= i < |query| ==> HasCoordinates(query[i], at)
  }

  ghost predicate AllHaveCoordinates(payload: Payload, at: Coordinates) {
    forall i, j :: 0 <= i < |payload| && 0 <= j < |payload[i]| ==> QueryHasCoordinates(payload[i][j], at)
  }

  function CountQueries(payload: Payload): nat {
    if payload == [] then 0 else |payload[0]| + CountQueries(payload[1..])
  }

  predicate Registered(ids: seq<string>, at: Coordinates) {
    ids != [] && Distinct(ids) && (forall i :: 0 <= i < |ids| ==> ids[i] != "") && at.queryCase != "" && at.armId != ""
  }

  /** The receipts carry the coordinates of the cell, and every id occurs exactly once among them. */
  ghost predicate BindsExactlyOnce(payload: Payload, ids: seq<string>, at: Coordinates) {
    && AllHaveCoordinates(payload, at)
    && CountQueries(payload) > 0
    && multiset(IdsOf(payload)) == multiset(ids)
  }

  /** The binding part of `validate_benchmark_payload` */
  method CheckPayload(payload: Payload, ids: seq<string>, at: Coordinates) returns (ok: bool)
    ensures ok <==> Registered(ids, at) && BindsExactlyOnce(payload, ids, at)
  {
    if !Registered(ids, at) {
      return false;
    }
    var queries, found := 0, [];
    var rest := payload;
    ghost var i := 0;
    while rest != []
      invariant i <= |payload| && rest == payload[i..]
      invariant queries + CountQueries(rest) == CountQueries(payload)
      invariant found + IdsOf(rest) == IdsOf(payload)
      invariant forall a, b :: 0 <= a < i && 0 <= b < |payload[a]| ==> QueryHasCoordinates(payload[a][b], at)
      decreases |rest|
    {
      var fine, more := CheckWorkload(rest[0], at);
      if !fine {
        return false;
      }
      assert found + (more + IdsOf(rest[1..])) == found + more + IdsOf(rest[1..]);
      queries, found, rest, i := queries + |rest[0]|, found + more, rest[1..], i + 1;
    }
    assert found + [] == found;
    if queries == 0 {
      return false;
    }
    ExactlyOnce(found, ids);
    ok := |found| == |ids| && Distinct(found) && Elements(found) == Elements(ids);
  }

  method CheckWorkload(queries: seq<seq<Bound>>, at: Coordinates) returns (ok: bool, found: seq<string>)
    ensures ok <==> forall j :: 0 <= j < |queries| ==> QueryHasCoordinates(queries[j], at)
    ensures ok ==> found == IdsOfQueries(queries)
  {
    found := [];
    for j := 0 to |queries|
      invariant forall k :: 0 <= k < j ==> QueryHasCoordinates(queries[k], at)
      invariant found + IdsOfQueries(queries[j..]) == IdsOfQueries(queries)
    {
      if !QueryHasCoordinates(queries[j], at) {
        return false, [];
      }
      assert queries[j..][1..] == queries[j + 1..];
      found := found + IdsOfQuery(queries[j]);
    }
    ok := true;
  }

  // ----- the whole benchmark

  lemma {:induction false} ListedInQueries(queries: seq<seq<Bound>>, j: nat, k: nat)
    requires j < |queries| && k < |queries[j]|
    ensures queries[j][k].sampleId in IdsOfQueries(queries)
  {
    if j == 0 {
      assert IdsOfQuery(queries[0])[k] == queries[0][k].sampleId;
    } else {
      ListedInQueries(queries[1..], j - 1, k);
    }
  }

  lemma {:induction false} Listed(payload: Payload, i: nat, j: nat, k: nat)
    requires i < |payload| && j < |payload[i]| && k < |payload[i][j]|
    ensures payload[i][j][k].sampleId in IdsOf(payload)
  {
    if i == 0 {
      ListedInQueries(payload[0], j, k);
    } else {
      Listed(payload[1..], i - 1, j, k);
    }
  }

  /** Coherent results of the registered number of queries always give a payload: it binds the
      registered ids in order, every query keeps its receipts, and the check accepts it. */
  lemma EverySampleIsBound(workloads: seq<seq<QueryResult>>, planned: nat, ids: seq<string>, at: Coordinates)
    requires Registered(ids, at)
    requires forall i :: 0 <= i < |workloads| ==> AllCoherent(workloads[i], planned)
    requires TotalOf(workloads, planned) == |ids|
    ensures BindEach(workloads, planned, ids, BindOne(planned, at)).Some?
    ensures var payload := BindEach(workloads, planned, ids, BindOne(planned, at)).value;
      IdsOf(payload) == ids && AllKept(payload, workloads, planned, at) && BindsExactlyOnce(payload, ids, at)
  {
    var bind := BindOne(planned, at);
    BindOneLaws(planned, at);
    CoherentBindEach(workloads, planned, ids, bind);
    WorkloadsTakeIds(workloads, planned, ids, bind);
    var payload := BindEach(workloads, planned, ids, bind).value;
    assert ids[..|ids|] == ids;
    EachIsKept(workloads, planned, ids, at);
    KeptHaveCoordinates(payload, workloads, planned, ids, at);
    QueriesAreCounted(payload);
  }

  ghost predicate AllKept(payload: Payload, workloads: seq<seq<QueryResult>>, planned: nat, at: Coordinates) {
    && |payload| == |workloads|
    && (forall i :: 0 <= i < |payload| ==> |payload[i]| == |workloads[i]|)
    && (forall i, j :: 0 <= i < |payload| && 0 <= j < |payload[i]| ==>
      Keeps(payload[i][j], workloads[i][j], planned, at))
  }

  lemma EachIsKept(workloads: seq<seq<QueryResult>>, planned: nat, ids: seq<string>, at: Coordinates)
    requires BindEach(workloads, planned, ids, BindOne(planned, at)).Some?
    ensures AllKept(BindEach(workloads, planned, ids, BindOne(planned, at)).value, workloads, planned, at)
  {
    var bind := BindOne(planned, at);
    var payload := BindEach(workloads, planned, ids, bind).value;
    EachHasPlace(workloads, planned, ids, bind);
    forall i | 0 <= i < |payload|
      ensures |payload[i]| == |workloads[i]|
    {
      EachHasItsQueries(workloads, planned, ids, bind, i);
    }
    forall i, j | 0 <= i < |payload| && 0 <= j < |payload[i]|
      ensures Keeps(payload[i][j], workloads[i][j], planned, at)
    {
      var own := WorkloadsHavePlace(workloads, planned, ids, bind, i, j);
      BoundQueryKeeps(workloads[i][j], planned, own, at);
    }
  }

  lemma {:induction false} AllHavePlace(results: seq<QueryResult>, planned: nat, ids: seq<string>, bind: Binder)
    requires BindAll(results, planned, ids, bind).Some?
    ensures |BindAll(results, planned, ids, bind).value| == |results|
    decreases |results|
  {
    if results != [] {
      AllHavePlace(results[1..], planned, ids[planned..], bind);
    }
  }

  lemma {:induction false} EachHasItsQueries(
    workloads: seq<seq<QueryResult>>, planned: nat, ids: seq<string>, bind: Binder, i: nat)
    requires BindEach(workloads, planned, ids, bind).Some? && i < |workloads|
    ensures var payload := BindEach(workloads, planned, ids, bind).value;
      |payload| == |workloads| && |payload[i]| == |workloads[i]|
    decreases |workloads|
  {
    EachHasPlace(workloads, planned, ids, bind);
    if i == 0 {
      AllHavePlace(workloads[0], planned, ids, bind);
    } else {
      EachHasItsQueries(workloads[1..], planned, ids[Total(|workloads[0]|, planned)..], bind, i - 1);
    }
  }

  lemma KeptHaveCoordinates(
    payload: Payload, workloads: seq<seq<QueryResult>>, planned: nat, ids: seq<string>, at: Coordinates)
    requires AllKept(payload, workloads, planned, at) && IdsOf(payload) == ids && Registered(ids, at)
    ensures AllHaveCoordinates(payload, at)
  {
    forall i, j, k | 0 <= i < |payload| && 0 <= j < |payload[i]| && 0 <= k < |payload[i][j]|
      ensures HasCoordinates(payload[i][j][k], at)
    {
      assert Keeps(payload[i][j], workloads[i][j], planned, at);
      Listed(payload, i, j, k);
    }
  }

  lemma {:induction false} QueriesAreCounted(payload: Payload)
    ensures IdsOf(payload) != [] ==> CountQueries(payload) > 0
  {
    if payload != [] {
      QueriesAreCounted(payload[1..]);
    }
  }

  function QueryCount(workloads: seq<WorkloadEvents>): nat {
    if workloads == [] then 0 else |workloads[0].queries| + QueryCount(workloads[1..])
  }

  lemma {:induction false} TotalOfCount(workloads: seq<WorkloadEvents>, results: seq<seq<QueryResult>>, planned: nat)
    requires |results| == |workloads|
    requires forall i :: 0 <= i < |results| ==> |results[i]| == |workloads[i].queries|
    ensures TotalOf(results, planned) == QueryCount(workloads) * planned
    decreases |results|
  {
    if results != [] {
      TotalOfCount(workloads[1..], results[1..], planned);
      TotalIsProduct(|results[0]|, planned);
      CountsAdd(|results[0]|, QueryCount(workloads[1..]), planned);
    }
  }

  lemma CountsAdd(a: nat, b: nat, c: nat)
    ensures (a + b) * c == a * c + b * c
  {
  }

  // ----- receipts and the samples they were observed for

  ghost function EscapesBy(planned: nat, collect: bool): WorkloadEvents -> bool {
    w => WorkloadEscapes(w, planned, collect)
  }

  ghost function ReportBy(planned: nat, collect: bool): (WorkloadEvents, seq<QueryResult>) -> bool {
    (w, results) => IsReport(w, results, planned, collect)
  }

  /** The `k`-th sample of the query is executed. */
  ghost predicate Reached(w: WorkloadEvents, j: nat, k: nat, planned: nat, collect: bool) {
    && w.setup.Fine? && w.build.Fine? && j < |w.queries| && w.queries[j].before.Fine?
    && NoTimeout(w.queries, j, planned, collect)
    && forall m: nat :: m < k ==> Clean(w.queries[j].sample(m), collect)
  }

  /** The receipt bound to a sample is the one observed for it, whenever one was; and no sample has a verified
      receipt that was not observed for it. */
  ghost predicate Truthful(b: Bound, w: WorkloadEvents, j: nat, k: nat, planned: nat, collect: bool)
    requires j < |w.queries|
  {
    var s := w.queries[j].sample(k);
    && (collect && Reached(w, j, k, planned, collect) && LeavesReceipt(s) ==> b.receipt == ReceiptOf(s))
    && (b.receipt.Verified? ==> collect && s.execution.Fine? && b.receipt == s.receipt)
  }

  ghost predicate Faithful(payload: Payload, workloads: seq<WorkloadEvents>, planned: nat, collect: bool) {
    && |payload| == |workloads|
    && (forall i :: 0 <= i < |payload| ==> |payload[i]| == |workloads[i].queries|)
    && (forall i, j :: 0 <= i < |payload| && 0 <= j < |payload[i]| ==> |payload[i][j]| == planned)
    && (forall i, j, k :: 0 <= i < |payload| && 0 <= j < |payload[i]| && 0 <= k < planned ==>
      Truthful(payload[i][j][k], workloads[i], j, k, planned, collect))
  }

  lemma ReceiptIsThere(
    e: QueryEvents, samples: nat, receipts: seq<Receipt>, k: nat, planned: nat, collect: bool)
    requires Recounts(e, samples, receipts, planned, collect) && e.before.Fine? && k < planned && collect
    requires forall m: nat :: m < k ==> Clean(e.sample(m), collect)
    requires LeavesReceipt(e.sample(k))
    ensures k < |receipts|
  {
  }

  lemma KeptIsTruthful(
    bound: seq<Bound>, w: WorkloadEvents, results: seq<QueryResult>, j: nat, k: nat, planned: nat, collect: bool,
    at: Coordinates)
    requires IsReport(w, results, planned, collect) && j < |results| && k < planned
    requires Keeps(bound, results[j], planned, at)
    ensures j < |w.queries| && Truthful(bound[k], w, j, k, planned, collect)
  {
    var n: nat :| Reports(w, results, n, planned, collect);
    var e, r := w.queries[j], results[j];
    if j < n {
      assert results[..n][j] == r;
      assert Recounts(e, r.samples, r.receipts, planned, collect);
      if collect && Reached(w, j, k, planned, collect) && LeavesReceipt(e.sample(k)) {
        ReceiptIsThere(e, r.samples, r.receipts, k, planned, collect);
      }
    }
  }

  lemma KeptAreFaithful(
    payload: Payload, workloads: seq<WorkloadEvents>, results: seq<seq<QueryResult>>, planned: nat, collect: bool,
    at: Coordinates)
    requires AllKept(payload, results, planned, at) && |workloads| == |results|
    requires forall i :: 0 <= i < |results| ==> ReportBy(planned, collect)(workloads[i], results[i])
    ensures Faithful(payload, workloads, planned, collect)
  {
    forall i | 0 <= i < |payload|
      ensures |payload[i]| == |workloads[i].queries|
    {
      assert ReportBy(planned, collect)(workloads[i], results[i]);
    }
    forall i, j, k | 0 <= i < |payload| && 0 <= j < |payload[i]| && 0 <= k < planned
      ensures Truthful(payload[i][j][k], workloads[i], j, k, planned, collect)
    {
      assert ReportBy(planned, collect)(workloads[i], results[i]);
      KeptIsTruthful(payload[i][j], workloads[i], results[i], j, k, planned, collect, at);
    }
  }

  lemma ReportsAreCoherent(
    workloads: seq<WorkloadEvents>, results: seq<seq<QueryResult>>, planned: nat, collect: bool)
    requires |results| == |workloads|
    requires forall i :: 0 <= i < |results| ==> ReportBy(planned, collect)(workloads[i], results[i])
    ensures forall i :: 0 <= i < |results| ==>
      |results[i]| == |workloads[i].queries| && AllCoherent(results[i], planned)
  {
    forall i | 0 <= i < |results|
      ensures |results[i]| == |workloads[i].queries| && AllCoherent(results[i], planned)
    {
      assert ReportBy(planned, collect)(workloads[i], results[i]);
    }
  }

  /** The runner: every workload is executed, then the payload is built for the ids registered in
      advance, one per query and iteration. */
  method RunBenchmark(
    workloads: seq<WorkloadEvents>, iterations: int, collect: bool, ids: seq<string>, at: Coordinates)
    returns (payload: Option<Payload>)
    requires forall i :: 0 <= i < |workloads| ==> AllUnbound(workloads[i].queries)
    requires Registered(ids, at)
    requires |ids| == QueryCount(workloads) * if iterations < 1 then 1 else iterations
    ensures var planned := if iterations < 1 then 1 else iterations;
      payload.None? <==> exists i :: 0 <= i < |workloads| && WorkloadEscapes(workloads[i], planned, collect)
    ensures payload.Some? ==> IdsOf(payload.value) == ids && BindsExactlyOnce(payload.value, ids, at)
    ensures payload.Some? ==>
      Faithful(payload.value, workloads, if iterations < 1 then 1 else iterations, collect)
  {
    var planned := if iterations < 1 then 1 else iterations;
    var results := RunWorkloads(workloads, planned, collect);
    assert forall i :: 0 <= i < |workloads| ==>
      EscapesBy(planned, collect)(workloads[i]) == WorkloadEscapes(workloads[i], planned, collect);
    if results.None? {
      return None;
    }
    ReportsAreCoherent(workloads, results.value, planned, collect);
    TotalOfCount(workloads, results.value, planned);
    EverySampleIsBound(results.value, planned, ids, at);
    ghost var bound := BindEach(results.value, planned, ids, BindOne(planned, at)).value;
    KeptAreFaithful(bound, workloads, results.value, planned, collect, at);
    payload := BuildPayload(results.value, iterations, ids, at);
  }

  /** The workloads one after the other, until an exception leaves one. */
  method RunWorkloads(workloads: seq<WorkloadEvents>, planned: nat, collect: bool)
    returns (results: Option<seq<seq<QueryResult>>>)
    requires forall i :: 0 <= i < |workloads| ==> AllUnbound(workloads[i].queries)
    ensures results.None? <==> exists i :: 0 <= i < |workloads| && EscapesBy(planned, collect)(workloads[i])
    ensures results.Some? ==> |results.value| == |workloads|
    ensures results.Some? ==>
      forall k :: 0 <= k < |workloads| ==> ReportBy(planned, collect)(workloads[k], results.value[k])
  {
    var done: seq<seq<QueryResult>> := [];
    for i := 0 to |workloads|
      invariant |done| == i
      invariant forall k :: 0 <= k < i ==> ReportBy(planned, collect)(workloads[k], done[k])
      invariant forall k :: 0 <= k < i ==> !EscapesBy(planned, collect)(workloads[k])
    {
      var result := ReportWorkload(workloads[i], planned, collect);
      if result.None? {
        return None;
      }
      done := done + [result.value];
    }
    results := Some(done);
  }

  method ReportWorkload(w: WorkloadEvents, planned: nat, collect: bool) returns (results: Option<seq<QueryResult>>)
    requires AllUnbound(w.queries)
    ensures results.None? <==> EscapesBy(planned, collect)(w)
    ensures results.Some? ==> ReportBy(planned, collect)(w, results.value)
  {
    results := RunWorkload(w, planned, collect);
  }
}
