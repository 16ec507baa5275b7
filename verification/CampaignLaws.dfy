/** What every operation of a run output owner keeps, and what follows for whole runs. */
module CampaignLaws {
  import opened CampaignState
  import opened Wrappers

  /** Each path is written by the control plane or by one cell. */
  datatype Owner = Control | Payload(cell: string)

  datatype Op =
    | RegisterOp(id: string, wanted: Cell, persist: PersistFault, mark: MarkFaults)
    | SealRegistrationOp(persist: PersistFault)
    | PrepareOp(id: string, path: Path, size: nat, overwrite: bool, omitted: nat, mark: MarkFaults)
    | PublishCellOp(id: string, write: Prepared, faults: Faults)
    | PublishControlOp(write: Prepared, faults: Faults)
    | BeginOp(source: string, queryCase: string, armId: string, size: nat, faults: Faults)
    | SealOp(attempt: Attempt, status: Status, valid: bool, size: nat, faults: Faults)
    | AcceptOp(queryCase: string, armId: string, attemptId: nat, persist: PersistFault)
    | FinalizeOp(status: Status, persist: PersistFault)

  function Next(s: State, op: Op): State {
    match op
    case RegisterOp(id, wanted, persist, mark) => Register(s, id, wanted, persist, mark).0
    case SealRegistrationOp(persist) => SealRegistration(s, persist).0
    case PrepareOp(id, path, size, overwrite, omitted, mark) =>
      PrepareCell(s, id, path, size, overwrite, omitted, mark).0
    case PublishCellOp(id, p, faults) => PublishCell(s, id, p, faults).0
    case PublishControlOp(p, faults) => PublishControl(s, p, faults).0
    case BeginOp(source, queryCase, armId, size, faults) =>
      BeginAttempt(s, source, queryCase, armId, size, faults).0
    case SealOp(a, status, valid, size, faults) => Seal(s, a, status, valid, size, faults).0
    case AcceptOp(queryCase, armId, id, persist) => Accept(s, queryCase, armId, id, persist).0
    case FinalizeOp(status, persist) => Finalize(s, status, persist).0
  }

  // ----- what the building blocks leave alone

  /** The files differ at most at `path`, and no file disappears. */
  ghost predicate FilesExcept(before: map<Path, File>, after: map<Path, File>, path: Path) {
    && (forall q :: q != path ==> (q in before <==> q in after))
    && (forall q :: q != path && q in before ==> after[q] == before[q])
    && (path in before ==> path in after)
  }

  function SizeAt(files: map<Path, File>, path: Path): nat {
    if path in files then files[path].size else 0
  }

  /** What a run has registered, started and charged. */
  datatype Books = Books(
    cells: seq<Cell>, attempts: seq<Attempt>, written: nat, budget: nat, sealed: bool, directories: set<(string, nat)>)

  function BooksOf(s: State): Books {
    Books(s.cells, s.attempts, s.written, s.budget, s.sealed, s.directories)
  }

  ghost predicate SameBooks(s: State, t: State) {
    BooksOf(t) == BooksOf(s)
  }

  /** Nothing happened, or the run was declared of unknown publication. */
  ghost predicate SameOrUnknown(s: State, t: State) {
    || (t.status == s.status && t.registration == s.registration)
    || (t.status == Incomplete && t.registration == PublicationUnknown)
  }

  lemma AfterCommitControl(s: State, p: Prepared, write: WriteFault, persist: PersistFault)
    ensures
      var (t, ending) := CommitControl(s, p, write, persist);
      && SameBooks(s, t) && t.status == s.status && t.registration == s.registration
      && FilesExcept(s.files, t.files, p.path)
      && (t.files == s.files || (p.path in t.files && t.files[p.path].status == p.status))
      && (ending == Fine ==> p.path in t.files && t.files[p.path].status == p.status)
  {
  }

  lemma AfterRewriteIndex(s: State, f: MarkFaults)
    requires s.status == Incomplete && s.registration == CapacityExceeded
    ensures Marked(s, RewriteIndex(s, f))
  {
    var p := Observe(s, CampaignJson, f.indexSize, true, true, None);
    AfterCommitControl(s, p, f.indexWrite, f.indexPersist);
  }

  lemma AfterMark(s: State, omitted: nat, f: MarkFaults)
    ensures Marked(s, MarkCapacity(s, omitted, f))
  {
    var t := Omitted(s, omitted);
    if f.persist == Persisted && CampaignJson in s.files {
      AfterRewriteIndex(t, f);
      MarkedThrough(s, t, RewriteIndex(t, f));
      assert MarkCapacity(s, omitted, f) == RewriteIndex(t, f);
    }
  }

  lemma MarkedThrough(s: State, t: State, u: State)
    requires SameBooks(s, t) && t.files == s.files && Marked(t, u)
    ensures Marked(s, u)
  {
  }

  /** A capacity failure was recorded: only the campaign index may have been rewritten. */
  ghost predicate Marked(s: State, t: State) {
    SameBooks(s, t) && t.status == Incomplete && Poisoned(t) && FilesExcept(s.files, t.files, CampaignJson)
  }

  lemma AfterPublishControl(s: State, p: Prepared, f: Faults)
    ensures
      var (t, ok) := PublishControl(s, p, f);
      && SameBooks(s, t) && SameOrUnknown(s, t) && FilesExcept(s.files, t.files, p.path)
      && (t.files == s.files || (p.path in t.files && t.files[p.path].status == p.status))
      && (ok ==> p.path in t.files && t.files[p.path].status == p.status)
      && (ok ==> t.status == s.status && t.registration == s.registration)
      && (ok ==> s.status == Running || p.allowTerminal)
      && (s.status != Running && !p.allowTerminal ==> t == s)
  {
    AfterCommitControl(s, p, f.write, f.persist);
  }

  /** The three ways a cell publication can go: refused, failed, or committed. */
  ghost predicate Refused(s: State, t: State) {
    || t == s
    || (Marked(s, t) && s.status == Running)
  }

  ghost predicate Committed(s: State, t: State, id: string, p: Prepared) {
    && ReachesWrite(s, id, p)
    && (var booked := BookWrite(s, FindCell(s.cells, id), p); t == booked || t == MarkUnknown(booked))
  }

  ghost predicate HalfDone(s: State, t: State, p: Prepared) {
    && SameBooks(s, t) && t.status == Incomplete && t.registration == PublicationUnknown
    && FilesExcept(s.files, t.files, p.path) && s.status == Running && !Poisoned(s)
    && (t.files == s.files || t.files == PutFile(s, p).files)
  }

  /** The write itself is reached: the registration is open, the target unchanged, the lease large enough. */
  predicate ReachesWrite(s: State, id: string, p: Prepared) {
    var k := FindCell(s.cells, id);
    && s.status == Running && !Poisoned(s) && k < |s.cells|
    && SameGeneration(s, p) && MayWrite(s, p)
    && p.size <= Available(s, s.cells[k], Replacing(p))
  }

  lemma PublishBreaks(s: State, id: string, p: Prepared, f: Faults)
    requires ReachesWrite(s, id, p) && f.write != Written
    ensures HalfDone(s, PublishCell(s, id, p, f).0, p)
  {
  }

  lemma PublishCommits(s: State, id: string, p: Prepared, f: Faults)
    requires ReachesWrite(s, id, p) && f.write == Written
    ensures Committed(s, PublishCell(s, id, p, f).0, id, p)
  {
  }

  lemma StaysMarked(s: State, t: State, ending: Ending)
    requires Marked(s, t)
    ensures Marked(s, Conclude(t, ending).0)
  {
  }

  lemma OverLease(s: State, id: string, p: Prepared, f: Faults)
    requires s.status == Running && SameGeneration(s, p) && !Poisoned(s)
    requires FindCell(s.cells, id) < |s.cells|
    requires p.size > Available(s, s.cells[FindCell(s.cells, id)], Replacing(p))
    ensures Marked(s, PublishCell(s, id, p, f).0)
  {
    var omitted := Excess(p.size, Available(s, s.cells[FindCell(s.cells, id)], Replacing(p)));
    var t := MarkCapacity(s, omitted, f.mark);
    AfterMark(s, omitted, f.mark);
    StaysMarked(s, t, Rejected);
    assert PublishCell(s, id, p, f).0 == Conclude(t, Rejected).0;
  }

  lemma PublishRefuses(s: State, id: string, p: Prepared, f: Faults)
    requires !ReachesWrite(s, id, p)
    ensures Refused(s, PublishCell(s, id, p, f).0)
  {
    var k := FindCell(s.cells, id);
    if s.status == Running {
      if SameGeneration(s, p) && k < |s.cells| && !Poisoned(s) && p.size > Available(s, s.cells[k], Replacing(p)) {
        OverLease(s, id, p, f);
      } else {
        assert PublishCell(s, id, p, f).0 == Conclude(s, Rejected).0;
      }
    }
  }

  lemma AfterPublishCell(s: State, id: string, p: Prepared, f: Faults)
    ensures
      var t := PublishCell(s, id, p, f).0;
      Refused(s, t) || Committed(s, t, id, p) || HalfDone(s, t, p)
  {
    if !ReachesWrite(s, id, p) {
      PublishRefuses(s, id, p, f);
    } else if f.write == Written {
      PublishCommits(s, id, p, f);
    } else {
      PublishBreaks(s, id, p, f);
    }
  }

  ghost predicate Registered(s: State, t: State, id: string, wanted: Cell) {
    && !s.sealed && !Poisoned(s) && FindCell(s.cells, id) == |s.cells| && ValidCell(id, wanted)
    && CampaignBudget(s.cells + [NewCell(wanted)]) <= TOTAL_LIMIT
    && t == s.(cells := s.cells + [NewCell(wanted)], budget := CampaignBudget(s.cells + [NewCell(wanted)]),
               registration := WithinBudget)
  }

  lemma AfterEnroll(s: State, cells: seq<Cell>, budget: nat, persist: PersistFault, f: MarkFaults)
    ensures
      var t := Enroll(s, cells, budget, persist, f).0;
      if budget > TOTAL_LIMIT then Marked(s, t)
      else t == s.(cells := cells, budget := budget, registration := WithinBudget)
  {
    if budget > TOTAL_LIMIT { AfterMark(s, Excess(budget, TOTAL_LIMIT), f); }
  }

  lemma AfterRegister(s: State, id: string, wanted: Cell, persist: PersistFault, mark: MarkFaults)
    ensures
      var t := Register(s, id, wanted, persist, mark).0;
      t == s || (Marked(s, t) && !s.sealed && !Poisoned(s)) || Registered(s, t, id, wanted)
  {
    var cells := s.cells + [NewCell(wanted)];
    AfterEnroll(s, cells, CampaignBudget(cells), persist, mark);
  }

  /** A directory was taken; either that is all, or a failed record, or a new running attempt. */
  ghost predicate Begun(s: State, t: State, source: string, queryCase: string, armId: string, k: nat) {
    && (source, k) !in s.directories && 0 < k
    && t.directories == s.directories + {(source, k)}
    && t.cells == s.cells && t.written == s.written && t.budget == s.budget && t.sealed == s.sealed
    && SameOrUnknown(s, t) && FilesExcept(s.files, t.files, AttemptJson(source, k))
    && (t.attempts == s.attempts
        || (s.status == Running && ValidId(queryCase) && ValidId(armId)
            && t.attempts == Upsert(s.attempts, Attempt(source, k, queryCase, armId, Running))
            && AttemptJson(source, k) in t.files && t.files[AttemptJson(source, k)].status == Some(Running)))
  }

  /** The ordinal taken is free, and every smaller one is not. */
  lemma {:induction false} OrdinalIsFirst(directories: set<(string, nat)>, source: string, k: nat)
    ensures var next := NextOrdinal(directories, source, k);
      && (next != 0 ==> k <= next < 100_000 && (source, next) !in directories)
      && (next != 0 ==> forall j :: k <= j < next ==> (source, j) in directories)
      && (next == 0 ==> k == 0 || forall j :: k <= j < 100_000 ==> (source, j) in directories)
    decreases 100_000 - k
  {
    if k < 100_000 && (source, k) in directories {
      OrdinalIsFirst(directories, source, k + 1);
    }
  }

  lemma AfterBegin(s: State, source: string, queryCase: string, armId: string, size: nat, f: Faults)
    ensures
      var t := BeginAttempt(s, source, queryCase, armId, size, f).0;
      t == s || Begun(s, t, source, queryCase, armId, NextOrdinal(s.directories, source, 1))
  {
    var k := NextOrdinal(s.directories, source, 1);
    if k != 0 {
      OrdinalIsFirst(s.directories, source, 1);
      var t := s.(directories := s.directories + {(source, k)});
      AfterPublishControl(t, Observe(t, AttemptJson(source, k), size, false, false, Some(Running)), f);
    }
  }

  /** The attempt's record was replaced, or the replacement failed half way. */
  ghost predicate SealedAs(s: State, t: State, a: Attempt, status: Status) {
    && status != Running
    && AttemptJson(a.source, a.id) in s.files && s.files[AttemptJson(a.source, a.id)].status == Some(Running)
    && (status == Completed ==>
      ResultJson(a.source, a.id) in s.files && FindCell(s.cells, CellId(a.queryCase, a.armId)) < |s.cells|)
    && t.cells == s.cells && t.written == s.written && t.budget == s.budget && t.sealed == s.sealed
    && t.directories == s.directories
    && SameOrUnknown(s, t) && FilesExcept(s.files, t.files, AttemptJson(a.source, a.id))
    && (t.attempts == s.attempts
        || (t.attempts == Upsert(s.attempts, a.(status := status))
            && t.files[AttemptJson(a.source, a.id)].status == Some(status)))
  }

  lemma AfterSeal(s: State, a: Attempt, status: Status, valid: bool, size: nat, f: Faults)
    ensures
      var t := Seal(s, a, status, valid, size, f).0;
      t == s || SealedAs(s, t, a, status)
  {
    var path := AttemptJson(a.source, a.id);
    AfterPublishControl(s, Observe(s, path, size, true, true, Some(status)), f);
  }

  // ----- the status only moves forward

  ghost predicate MayBecome(a: Status, b: Status) {
    a == b || a == Running || b == Incomplete
  }

  /** Statuses only move forward, poison stays, and a poisoned run is Incomplete. */
  ghost predicate Advances(s: State, t: State) {
    && MayBecome(s.status, t.status)
    && (Poisoned(s) ==> Poisoned(t))
    && (s.registration == PublicationUnknown ==> t.registration == PublicationUnknown)
    && ((Poisoned(s) ==> s.status == Incomplete) ==> (Poisoned(t) ==> t.status == Incomplete))
  }

  lemma StepAdvances(s: State, op: Op)
    requires Poisoned(s) ==> s.status == Incomplete
    ensures Advances(s, Next(s, op))
  {
    match op
    case RegisterOp(id, wanted, persist, mark) =>
      AfterRegister(s, id, wanted, persist, mark);
    case SealRegistrationOp(persist) =>
    case PrepareOp(id, path, size, overwrite, omitted, mark) =>
      AfterMark(s, omitted, mark);
    case PublishCellOp(id, p, faults) =>
      AfterPublishCell(s, id, p, faults);
    case PublishControlOp(p, faults) =>
      AfterPublishControl(s, p, faults);
    case BeginOp(source, queryCase, armId, size, faults) =>
      AfterBegin(s, source, queryCase, armId, size, faults);
    case SealOp(a, status, valid, size, faults) =>
      AfterSeal(s, a, status, valid, size, faults);
    case AcceptOp(queryCase, armId, id, persist) =>
    case FinalizeOp(status, persist) =>
  }
}
