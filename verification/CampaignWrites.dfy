/** Prepared writes over whole runs: a write is published only over the very file it was prepared against. */
module CampaignWrites {
  import opened CampaignState
  import opened CampaignLaws
  import opened CampaignAccounts
  import opened CampaignLifecycle
  import opened CampaignPromises
  import Runs
  import opened Wrappers

  /** Files only appear or are replaced, and then carry the clock as their date. */
  ghost predicate PutsOne(s: State, t: State) {
    && s.clock <= t.clock
    && (forall q :: q in s.files ==> q in t.files)
    && (forall q :: q in t.files ==>
      (q in s.files && t.files[q] == s.files[q]) || s.clock <= t.files[q].generation < t.clock)
  }

  ghost function Putting(): (State, State) -> bool {
    (s, t) => PutsOne(s, t)
  }

  lemma PutFilePuts(s: State, p: Prepared)
    ensures Putting()(s, PutFile(s, p))
  {
  }

  lemma CommitControlPuts(s: State, p: Prepared, write: WriteFault, persist: PersistFault)
    ensures Putting()(s, CommitControl(s, p, write, persist).0)
  {
    PutFilePuts(s, p);
  }

  lemma PublishControlPuts(s: State, p: Prepared, f: Faults)
    ensures Putting()(s, PublishControl(s, p, f).0)
  {
    CommitControlPuts(s, p, f.write, f.persist);
  }

  lemma RewritePuts(s: State, f: MarkFaults)
    ensures Putting()(s, RewriteIndex(s, f))
  {
    CommitControlPuts(s, Observe(s, CampaignJson, f.indexSize, true, true, None), f.indexWrite, f.indexPersist);
  }

  lemma MarkPuts(s: State, omitted: nat, f: MarkFaults)
    ensures Putting()(s, MarkCapacity(s, omitted, f))
  {
    RewritePuts(Omitted(s, omitted), f);
  }

  lemma StoredPuts(s: State, k: nat, p: Prepared, f: Faults)
    requires k < |s.cells|
    ensures Putting()(s, Stored(s, k, p, f).0)
  {
    PutFilePuts(s, p);
  }

  lemma ConcludingPuts(s: State, t: State, ending: Ending)
    requires Putting()(s, t)
    ensures Putting()(s, Conclude(t, ending).0)
  {
  }

  lemma MarkedPuts(s: State, t: State, omitted: nat, f: MarkFaults)
    requires t == MarkCapacity(s, omitted, f)
    ensures Putting()(s, t)
  {
    MarkPuts(s, omitted, f);
  }

  lemma KeepingPuts(s: State, t: State)
    requires t.files == s.files && t.clock == s.clock
    ensures Putting()(s, t)
  {
  }

  lemma CommitCellPuts(s: State, id: string, p: Prepared, f: Faults)
    ensures Putting()(s, CommitCell(s, id, p, f).0)
  {
    var k := FindCell(s.cells, id);
    if !SameGeneration(s, p) || k == |s.cells| || Poisoned(s) {
      KeepingPuts(s, CommitCell(s, id, p, f).0);
    } else if p.size > Available(s, s.cells[k], Replacing(p)) {
      OverLease(s, id, p, f);
      MarkedPuts(s, CommitCell(s, id, p, f).0, Excess(p.size, Available(s, s.cells[k], Replacing(p))), f.mark);
    } else {
      StoredPuts(s, k, p, f);
    }
  }

  lemma OverLease(s: State, id: string, p: Prepared, f: Faults)
    requires SameGeneration(s, p) && !Poisoned(s) && FindCell(s.cells, id) < |s.cells|
    requires p.size > Available(s, s.cells[FindCell(s.cells, id)], Replacing(p))
    ensures CommitCell(s, id, p, f).0 ==
      MarkCapacity(s, Excess(p.size, Available(s, s.cells[FindCell(s.cells, id)], Replacing(p))), f.mark)
  {
  }

  lemma PublishCellPuts(s: State, id: string, p: Prepared, f: Faults)
    ensures Putting()(s, PublishCell(s, id, p, f).0)
  {
    var (t, ending) := CommitCell(s, id, p, f);
    assert Putting()(s, t) by { CommitCellPuts(s, id, p, f); }
    ConcludingPuts(s, t, ending);
    assert PublishCell(s, id, p, f).0 == if s.status != Running then s else Conclude(t, ending).0;
  }

  lemma OverLimitPuts(s: State, cells: seq<Cell>, budget: nat, persist: PersistFault, f: MarkFaults)
    requires budget > TOTAL_LIMIT
    ensures Putting()(s, Enroll(s, cells, budget, persist, f).0)
  {
    MarkedPuts(s, Enroll(s, cells, budget, persist, f).0, Excess(budget, TOTAL_LIMIT), f);
  }

  lemma EnrollPuts(s: State, cells: seq<Cell>, budget: nat, persist: PersistFault, f: MarkFaults)
    ensures Putting()(s, Enroll(s, cells, budget, persist, f).0)
  {
    if budget > TOTAL_LIMIT {
      OverLimitPuts(s, cells, budget, persist, f);
    } else {
      KeepingPuts(s, Enroll(s, cells, budget, persist, f).0);
    }
  }

  lemma RegisterPuts(s: State, id: string, wanted: Cell, persist: PersistFault, f: MarkFaults)
    ensures Putting()(s, Register(s, id, wanted, persist, f).0)
  {
    var cells := s.cells + [NewCell(wanted)];
    EnrollPuts(s, cells, CampaignBudget(cells), persist, f);
    assert Register(s, id, wanted, persist, f).0 in {s, Enroll(s, cells, CampaignBudget(cells), persist, f).0};
  }

  lemma PreparePuts(s: State, id: string, path: Path, size: nat, overwrite: bool, omitted: nat, f: MarkFaults)
    ensures Putting()(s, PrepareCell(s, id, path, size, overwrite, omitted, f).0)
  {
    MarkPuts(s, omitted, f);
    assert PrepareCell(s, id, path, size, overwrite, omitted, f).0 in {s, MarkCapacity(s, omitted, f)};
  }

  lemma BeginPuts(s: State, source: string, queryCase: string, armId: string, size: nat, f: Faults)
    ensures Putting()(s, BeginAttempt(s, source, queryCase, armId, size, f).0)
  {
    var k := NextOrdinal(s.directories, source, 1);
    var t := s.(directories := s.directories + {(source, k)});
    PublishControlPuts(t, Observe(t, AttemptJson(source, k), size, false, false, Some(Running)), f);
  }

  lemma StepPuts(s: State, op: Op)
    ensures Putting()(s, Next(s, op))
  {
    match op
    case RegisterOp(id, wanted, persist, mark) => RegisterPuts(s, id, wanted, persist, mark);
    case SealRegistrationOp(persist) =>
    case PrepareOp(id, path, size, overwrite, omitted, mark) =>
      PreparePuts(s, id, path, size, overwrite, omitted, mark);
    case PublishCellOp(id, p, faults) => PublishCellPuts(s, id, p, faults);
    case PublishControlOp(p, faults) => PublishControlPuts(s, p, faults);
    case BeginOp(source, queryCase, armId, size, faults) => BeginPuts(s, source, queryCase, armId, size, faults);
    case SealOp(a, ending, valid, size, faults) =>
      PublishControlPuts(s, Observe(s, AttemptJson(a.source, a.id), size, true, true, Some(ending)), faults);
    case AcceptOp(queryCase, armId, id, persist) =>
    case FinalizeOp(ending, persist) =>
  }

  // ----- dates

  ghost predicate Dated(s: State) {
    forall q :: q in s.files ==> s.files[q].generation < s.clock
  }

  /** No file disappears, and whatever is not as it was is newer. */
  ghost predicate Renews(s: State, t: State) {
    && s.clock <= t.clock
    && (forall q :: q in s.files ==> q in t.files)
    && (forall q :: q in t.files ==> (q in s.files && t.files[q] == s.files[q]) || t.files[q].generation >= s.clock)
  }

  lemma RenewingIsTransitive(s: State, t: State, u: State)
    requires Renews(s, t) && Renews(t, u)
    ensures Renews(s, u)
  {
  }

  lemma PuttingRenews(s: State, t: State)
    requires Dated(s) && Putting()(s, t)
    ensures Dated(t) && Renews(s, t)
  {
  }

  ghost function Dates(): State -> bool {
    s => Dated(s)
  }

  ghost function Renewal(): (State, State) -> bool {
    (s, t) => Renews(s, t)
  }

  lemma RunsRenew(owner: Owners, states: seq<State>, ops: seq<Op>, first: nat, last: nat)
    requires IsRun(owner, states, ops) && first <= last < |states| && states[0] == INITIAL
    ensures Dated(states[first]) && Renews(states[first], states[last])
  {
    forall s, op | Dates()(s) && AllowedBy(owner)(s, op)
      ensures Dates()(Stepping()(s, op)) && Renewal()(s, Stepping()(s, op))
    {
      StepPuts(s, op);
      PuttingRenews(s, Next(s, op));
    }
    forall s, t, u | Renewal()(s, t) && Renewal()(t, u) ensures Renewal()(s, u) {
      RenewingIsTransitive(s, t, u);
    }
    Runs.Throughout(states, ops, AllowedBy(owner), Stepping(), Dates(), 0, first);
    Runs.Between(states, ops, AllowedBy(owner), Stepping(), Dates(), Renewal(), first, last);
  }

  /** The path is as it was: absent, or the same file. */
  predicate Untouched(s: State, t: State, path: Path) {
    (path in s.files <==> path in t.files) && (path in s.files ==> t.files[path] == s.files[path])
  }

  /** A write prepared in one state of a run and accepted in a later one replaces exactly the file it was
      prepared against: whatever changed the target in between makes the publication fail. */
  lemma PublishedOverWhatWasSeen(
    owner: Owners, states: seq<State>, ops: seq<Op>, first: nat, last: nat, id: string, p: Prepared, f: Faults)
    requires IsRun(owner, states, ops) && first <= last < |states| && states[0] == INITIAL
    requires p == Observe(states[first], p.path, p.size, p.overwrite, p.allowTerminal, p.status)
    ensures PublishCell(states[last], id, p, f).1 ==> Untouched(states[first], states[last], p.path)
    ensures PublishControl(states[last], p, f).1 ==> Untouched(states[first], states[last], p.path)
  {
    RunsRenew(owner, states, ops, first, last);
    PublishCellGoes(states[last], id, p, f);
    PublishControlPromise(states[last], p, f);
  }
}
