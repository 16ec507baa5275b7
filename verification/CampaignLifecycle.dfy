/** Attempts, acceptance and terminal states of a run. */
module CampaignLifecycle {
  import opened CampaignState
  import opened CampaignLaws
  import opened CampaignAccounts
  import Runs
  import opened Wrappers

  // ----- the attempt index

  ghost predicate DistinctEntries(attempts: seq<Attempt>) {
    forall i, j :: 0 <= i < j < |attempts| ==>
      !(attempts[i].source == attempts[j].source && attempts[i].id == attempts[j].id)
  }

  /** The index entry agrees with the durable record and with what completion demands. */
  ghost predicate EntryOk(s: State, a: Attempt) {
    var path := AttemptJson(a.source, a.id);
    && (a.source, a.id) in s.directories
    && path in s.files
    && (a.status != Running ==> s.files[path].status == Some(a.status))
    && (a.status == Completed ==> ResultJson(a.source, a.id) in s.files)
  }

  /** The cell's accepted attempt exists, is complete, and was begun for this cell. */
  ghost predicate AcceptanceOk(s: State, c: Cell) {
    c.accepted.Some? ==> exists j ::
      && 0 <= j < |s.attempts|
      && s.attempts[j].id == c.accepted.value
      && s.attempts[j].status == Completed
      && CellId(s.attempts[j].queryCase, s.attempts[j].armId) == IdOf(c)
  }

  ghost predicate RecordsOk(s: State) {
    && DistinctEntries(s.attempts)
    && (forall i :: 0 <= i < |s.attempts| ==> EntryOk(s, s.attempts[i]))
    && (forall i :: 0 <= i < |s.cells| ==> AcceptanceOk(s, s.cells[i]))
  }

  /** While a run is Completed, everything it promises is there. */
  ghost predicate CompletionOk(s: State) {
    s.status == Completed ==>
      && s.cells != [] && s.sealed
      && AllCompleted(s.attempts)
      && forall i :: 0 <= i < |s.cells| ==> s.cells[i].accepted.Some?
  }

  /** An attempt handle comes from `begin_attempt`, so its coordinates are in the index. */
  ghost predicate IsHandle(s: State, a: Attempt) {
    exists j ::
      && 0 <= j < |s.attempts|
      && s.attempts[j].source == a.source && s.attempts[j].id == a.id
      && s.attempts[j].queryCase == a.queryCase && s.attempts[j].armId == a.armId
  }

  /** Discipline of a caller in state `s`. */
  ghost predicate Allowed(owner: Owners, s: State, op: Op) {
    && Disciplined(owner, op)
    && (op.SealOp? ==> IsHandle(s, op.attempt))
    && (op.FinalizeOp? && op.status == Completed ==> s.cells != [])
  }

  ghost predicate Good(s: State, owner: Owners) {
    && (Poisoned(s) ==> s.status == Incomplete)
    && BooksOk(s, owner)
    && RecordsOk(s)
    && CompletionOk(s)
  }

  // ----- keeping the records

  /** No record and no result disappears, and no attempt record changes. */
  ghost predicate RecordsLast(s: State, t: State) {
    && (forall source, id :: AttemptJson(source, id) in s.files ==>
      AttemptJson(source, id) in t.files && t.files[AttemptJson(source, id)] == s.files[AttemptJson(source, id)])
    && (forall source, id :: ResultJson(source, id) in s.files ==> ResultJson(source, id) in t.files)
    && s.directories <= t.directories
  }

  lemma FramedRecordsLast(s: State, t: State, path: Path)
    requires FilesExcept(s.files, t.files, path) && !path.AttemptJson? && s.directories <= t.directories
    ensures RecordsLast(s, t)
  {
  }

  /** Steps that touch neither the index nor the acceptances keep the records. */
  lemma SameIndexKeepsRecords(s: State, t: State)
    requires RecordsOk(s) && RecordsLast(s, t) && t.attempts == s.attempts
    requires forall i :: 0 <= i < |t.cells| && t.cells[i].accepted.Some? ==>
      i < |s.cells| && t.cells[i].accepted == s.cells[i].accepted && IdOf(t.cells[i]) == IdOf(s.cells[i])
    ensures RecordsOk(t)
  {
  }

  lemma BeginKeepsRecords(s: State, t: State, source: string, queryCase: string, armId: string, k: nat)
    requires RecordsOk(s) && Begun(s, t, source, queryCase, armId, k)
    ensures RecordsOk(t)
  {
    var a := Attempt(source, k, queryCase, armId, Running);
    UpsertIsUpdate(s.attempts, a);
    forall i | 0 <= i < |s.attempts|
      ensures EntryOk(t, s.attempts[i]) && !(s.attempts[i].source == source && s.attempts[i].id == k)
    {
      assert EntryOk(s, s.attempts[i]);
    }
    assert FindEntry(s.attempts, source, k) == |s.attempts|;
    forall i | 0 <= i < |t.cells| ensures AcceptanceOk(t, t.cells[i]) {
      assert AcceptanceOk(s, s.cells[i]);
      AcceptanceLasts(s, t, t.cells[i]);
    }
  }

  /** An acceptance stands as long as completed entries stay where they are. */
  lemma AcceptanceLasts(s: State, t: State, c: Cell)
    requires AcceptanceOk(s, c) && |s.attempts| <= |t.attempts|
    requires forall j :: 0 <= j < |s.attempts| && s.attempts[j].status == Completed ==> t.attempts[j] == s.attempts[j]
    ensures AcceptanceOk(t, c)
  {
  }

  /** Sealing replaces exactly the entry of a running attempt. */
  lemma SealKeepsRecords(s: State, t: State, a: Attempt, status: Status)
    requires RecordsOk(s) && SealedAs(s, t, a, status) && IsHandle(s, a)
    ensures RecordsOk(t)
  {
    var k := FindEntry(s.attempts, a.source, a.id);
    HandleIsEntry(s, a);
    UpsertIsUpdate(s.attempts, a.(status := status));
    assert EntryOk(s, s.attempts[k]) && s.attempts[k].status == Running;
    forall i | 0 <= i < |t.attempts| ensures EntryOk(t, t.attempts[i]) {
      assert EntryOk(s, s.attempts[i]);
    }
    forall i | 0 <= i < |t.cells| ensures AcceptanceOk(t, t.cells[i]) {
      assert AcceptanceOk(s, s.cells[i]);
      AcceptanceLasts(s, t, t.cells[i]);
    }
  }

  lemma HandleIsEntry(s: State, a: Attempt)
    requires IsHandle(s, a)
    ensures FindEntry(s.attempts, a.source, a.id) < |s.attempts|
  {
  }

  lemma AcceptKeepsRecords(s: State, queryCase: string, armId: string, id: nat, persist: PersistFault)
    requires RecordsOk(s)
    ensures RecordsOk(Accept(s, queryCase, armId, id, persist).0)
  {
    var t := Accept(s, queryCase, armId, id, persist).0;
    var k := FindCell(s.cells, CellId(queryCase, armId));
    var j := FindAttempt(s.attempts, id, queryCase, armId);
    forall i | 0 <= i < |t.attempts| ensures EntryOk(t, t.attempts[i]) {
      assert EntryOk(s, s.attempts[i]);
    }
    forall i | 0 <= i < |t.cells| ensures AcceptanceOk(t, t.cells[i]) {
      assert AcceptanceOk(s, s.cells[i]);
      if t != s && i == k {
        assert t.attempts[j].id == id && t.attempts[j].status == Completed;
      }
    }
  }

  lemma RegisterKeepsRecords(s: State, id: string, wanted: Cell, persist: PersistFault, f: MarkFaults)
    requires RecordsOk(s)
    ensures RecordsOk(Register(s, id, wanted, persist, f).0)
  {
    var t := Register(s, id, wanted, persist, f).0;
    AfterRegister(s, id, wanted, persist, f);
    if t != s {
      FramedRecordsLast(s, t, CampaignJson);
      SameIndexKeepsRecords(s, t);
    }
  }

  lemma MarkKeepsRecords(s: State, omitted: nat, f: MarkFaults)
    requires RecordsOk(s)
    ensures RecordsOk(MarkCapacity(s, omitted, f))
  {
    AfterMark(s, omitted, f);
    FramedRecordsLast(s, MarkCapacity(s, omitted, f), CampaignJson);
    SameIndexKeepsRecords(s, MarkCapacity(s, omitted, f));
  }

  lemma PublishControlKeepsRecords(s: State, p: Prepared, f: Faults)
    requires RecordsOk(s) && !p.path.AttemptJson?
    ensures RecordsOk(PublishControl(s, p, f).0)
  {
    AfterPublishControl(s, p, f);
    FramedRecordsLast(s, PublishControl(s, p, f).0, p.path);
    SameIndexKeepsRecords(s, PublishControl(s, p, f).0);
  }

  lemma AttemptsKeepRecords(s: State, op: Op)
    requires RecordsOk(s) && (op.BeginOp? || (op.SealOp? && IsHandle(s, op.attempt)))
    ensures RecordsOk(Next(s, op))
  {
    var t := Next(s, op);
    match op
    case BeginOp(source, queryCase, armId, size, faults) =>
      AfterBegin(s, source, queryCase, armId, size, faults);
      if t != s { BeginKeepsRecords(s, t, source, queryCase, armId, NextOrdinal(s.directories, source, 1)); }
    case SealOp(a, status, valid, size, faults) =>
      AfterSeal(s, a, status, valid, size, faults);
      if t != s { SealKeepsRecords(s, t, a, status); }
  }

  /** Every operation keeps the attempt index and the acceptances honest. */
  lemma StepKeepsRecords(s: State, owner: Owners, op: Op)
    requires OwnersOk(owner) && RecordsOk(s) && Allowed(owner, s, op)
    ensures RecordsOk(Next(s, op))
  {
    match op
    case RegisterOp(id, wanted, persist, mark) => RegisterKeepsRecords(s, id, wanted, persist, mark);
    case SealRegistrationOp(persist) => SameIndexKeepsRecords(s, Next(s, op));
    case PrepareOp(id, path, size, overwrite, omitted, mark) => MarkKeepsRecords(s, omitted, mark);
    case PublishCellOp(id, p, faults) => PublishCellKeepsRecords(s, owner, id, p, faults);
    case PublishControlOp(p, faults) => PublishControlKeepsRecords(s, p, faults);
    case BeginOp(_, _, _, _, _) => AttemptsKeepRecords(s, op);
    case SealOp(_, _, _, _, _) => AttemptsKeepRecords(s, op);
    case AcceptOp(queryCase, armId, id, persist) => AcceptKeepsRecords(s, queryCase, armId, id, persist);
    case FinalizeOp(status, persist) => SameIndexKeepsRecords(s, Next(s, op));
  }

  lemma PublishCellKeepsRecords(s: State, owner: Owners, id: string, p: Prepared, f: Faults)
    requires OwnersOk(owner) && RecordsOk(s) && owner(p.path) == Payload(id)
    ensures RecordsOk(PublishCell(s, id, p, f).0)
  {
    var t := PublishCell(s, id, p, f).0;
    AfterPublishCell(s, id, p, f);
    if t != s {
      if Refused(s, t) {
        FramedRecordsLast(s, t, CampaignJson);
      } else {
        PayloadWriteKeepsFiles(s, t, id, p);
        FramedRecordsLast(s, t, p.path);
      }
      SameIndexKeepsRecords(s, t);
    }
  }

  lemma PayloadWriteKeepsFiles(s: State, t: State, id: string, p: Prepared)
    requires Committed(s, t, id, p) || HalfDone(s, t, p)
    ensures FilesExcept(s.files, t.files, p.path) && t.attempts == s.attempts && t.directories == s.directories
    ensures |t.cells| == |s.cells|
    ensures forall i :: 0 <= i < |t.cells| ==>
      && t.cells[i].accepted == s.cells[i].accepted
      && t.cells[i].queryCase == s.cells[i].queryCase && t.cells[i].armId == s.cells[i].armId
  {
  }

  // ----- completion

  lemma FinalizeCompletes(s: State, owner: Owners, status: Status, persist: PersistFault)
    requires OwnersOk(owner) && Good(s, owner) && (status == Completed ==> s.cells != [])
    ensures CompletionOk(Finalize(s, status, persist).0)
  {
  }

  /** If a step ends Completed, it started Completed and touched neither cells nor attempts. */
  ghost predicate Quiet(s: State, t: State) {
    t.status == Completed ==>
      s.status == Completed && t.cells == s.cells && t.attempts == s.attempts && (s.sealed ==> t.sealed)
  }

  lemma QuietKeepsCompletion(s: State, t: State)
    requires CompletionOk(s) && Quiet(s, t)
    ensures CompletionOk(t)
  {
  }

  lemma WritesAreQuiet(s: State, op: Op)
    requires CompletionOk(s) && (Poisoned(s) ==> s.status == Incomplete)
    requires op.PrepareOp? || op.PublishCellOp? || op.PublishControlOp?
    ensures Quiet(s, Next(s, op))
  {
    match op
    case PrepareOp(id, path, size, overwrite, omitted, mark) => AfterMark(s, omitted, mark);
    case PublishCellOp(id, p, faults) => AfterPublishCell(s, id, p, faults);
    case PublishControlOp(p, faults) => AfterPublishControl(s, p, faults);
  }

  lemma LateRequestsAreQuiet(s: State, op: Op)
    requires CompletionOk(s) && (Poisoned(s) ==> s.status == Incomplete)
    requires op.RegisterOp? || op.SealRegistrationOp? || op.BeginOp? || op.AcceptOp?
    ensures Quiet(s, Next(s, op))
  {
    match op
    case RegisterOp(id, wanted, persist, mark) => AfterRegister(s, id, wanted, persist, mark);
    case SealRegistrationOp(persist) =>
    case BeginOp(source, queryCase, armId, size, faults) =>
      AfterBegin(s, source, queryCase, armId, size, faults);
    case AcceptOp(queryCase, armId, id, persist) =>
  }

  lemma SealIsQuiet(s: State, a: Attempt, status: Status, valid: bool, size: nat, f: Faults)
    requires CompletionOk(s) && RecordsOk(s) && IsHandle(s, a)
    ensures Quiet(s, Seal(s, a, status, valid, size, f).0)
  {
  }

  /** No later operation takes anything away from a completed run; at most it becomes Incomplete. */
  lemma StepKeepsCompletion(s: State, owner: Owners, op: Op)
    requires OwnersOk(owner) && Good(s, owner) && Allowed(owner, s, op)
    ensures CompletionOk(Next(s, op))
  {
    if op.FinalizeOp? {
      FinalizeCompletes(s, owner, op.status, op.persist);
    } else {
      if op.SealOp? {
        SealIsQuiet(s, op.attempt, op.status, op.valid, op.size, op.faults);
      } else if op.PrepareOp? || op.PublishCellOp? || op.PublishControlOp? {
        WritesAreQuiet(s, op);
      } else {
        LateRequestsAreQuiet(s, op);
      }
      QuietKeepsCompletion(s, Next(s, op));
    }
  }

  // ----- whole runs

  lemma InitialIsGood(owner: Owners)
    ensures Good(INITIAL, owner)
  {
  }

  lemma StepKeepsGood(s: State, owner: Owners, op: Op, t: State)
    requires OwnersOk(owner) && Good(s, owner) && Allowed(owner, s, op) && t == Next(s, op)
    ensures Good(t, owner)
    ensures Advances(s, t)
  {
    assert Advances(s, t) by { StepAdvances(s, op); }
    assert BooksOk(t, owner) by { StepKeepsBooks(s, owner, op); }
    assert RecordsOk(t) by { StepKeepsRecords(s, owner, op); }
    assert CompletionOk(t) by { StepKeepsCompletion(s, owner, op); }
  }

  ghost function AllowedBy(owner: Owners): (State, Op) -> bool {
    (s, op) => Allowed(owner, s, op)
  }

  ghost function Stepping(): (State, Op) -> State {
    (s, op) => Next(s, op)
  }

  ghost function GoodFor(owner: Owners): State -> bool {
    s => Good(s, owner)
  }

  /** `states` are the states of a run in which a disciplined caller performs `ops`. */
  ghost predicate IsRun(owner: Owners, states: seq<State>, ops: seq<Op>) {
    Runs.IsRun(states, ops, AllowedBy(owner), Stepping())
  }

  lemma StepsKeepGood(owner: Owners)
    requires OwnersOk(owner)
    ensures forall s, op :: GoodFor(owner)(s) && AllowedBy(owner)(s, op) ==> GoodFor(owner)(Stepping()(s, op))
  {
    forall s, op | GoodFor(owner)(s) && AllowedBy(owner)(s, op) ensures GoodFor(owner)(Stepping()(s, op)) {
      StepKeepsGood(s, owner, op, Next(s, op));
    }
  }

  /** Every state of every run has exact books, honest records and, when Completed, all it promises. */
  lemma RunsAreGood(owner: Owners, states: seq<State>, ops: seq<Op>, last: nat)
    requires OwnersOk(owner) && IsRun(owner, states, ops) && last < |states| && states[0] == INITIAL
    ensures Good(states[last], owner)
  {
    InitialIsGood(owner);
    StepsKeepGood(owner);
    Runs.Throughout(states, ops, AllowedBy(owner), Stepping(), GoodFor(owner), 0, last);
  }

  /** What one state of a run promises about all later ones: the status moves along Running, one
      terminal status, Incomplete; poison stays and freezes the payload; acceptance is written once. */
  ghost predicate Binds(s: State, t: State, owner: Owners) {
    && MayBecome(s.status, t.status)
    && (Poisoned(s) ==> Poisoned(t) && PayloadFrozen(s, t, owner))
    && AcceptedOnce(s, t)
  }

  ghost function BindsFor(owner: Owners): (State, State) -> bool {
    (s, t) => Binds(s, t, owner)
  }

  /** No payload byte appears, changes or is charged. */
  ghost predicate PayloadFrozen(s: State, t: State, owner: Owners) {
    && t.written == s.written
    && |t.cells| == |s.cells|
    && (forall i :: 0 <= i < |s.cells| ==> t.cells[i].written == s.cells[i].written)
    && (forall q :: owner(q).Payload? ==> (q in s.files <==> q in t.files))
    && (forall q :: owner(q).Payload? && q in s.files ==> t.files[q] == s.files[q])
  }

  lemma PoisonFreezesStep(s: State, owner: Owners, op: Op)
    requires OwnersOk(owner) && Disciplined(owner, op) && Poisoned(s) && s.status == Incomplete
    ensures PayloadFrozen(s, Next(s, op), owner)
  {
    match op
    case RegisterOp(id, wanted, persist, mark) => AfterRegister(s, id, wanted, persist, mark);
    case SealRegistrationOp(persist) =>
    case PrepareOp(id, path, size, overwrite, omitted, mark) =>
    case PublishCellOp(id, p, faults) => AfterPublishCell(s, id, p, faults);
    case PublishControlOp(p, faults) => AfterPublishControl(s, p, faults);
    case BeginOp(source, queryCase, armId, size, faults) =>
      AfterBegin(s, source, queryCase, armId, size, faults);
    case SealOp(a, status, valid, size, faults) => AfterSeal(s, a, status, valid, size, faults);
    case AcceptOp(queryCase, armId, id, persist) =>
    case FinalizeOp(status, persist) =>
  }

  /** Cells keep their place, and an acceptance once given is kept. */
  ghost predicate AcceptedOnce(s: State, t: State) {
    && |s.cells| <= |t.cells|
    && forall i :: 0 <= i < |s.cells| ==>
      && t.cells[i].queryCase == s.cells[i].queryCase && t.cells[i].armId == s.cells[i].armId
      && (s.cells[i].accepted.Some? ==> t.cells[i].accepted == s.cells[i].accepted)
  }

  lemma StepAcceptsOnce(s: State, op: Op)
    ensures AcceptedOnce(s, Next(s, op))
  {
    match op
    case RegisterOp(id, wanted, persist, mark) => AfterRegister(s, id, wanted, persist, mark);
    case SealRegistrationOp(persist) =>
    case PrepareOp(id, path, size, overwrite, omitted, mark) => AfterMark(s, omitted, mark);
    case PublishCellOp(id, p, faults) =>
      AfterPublishCell(s, id, p, faults);
      var t := Next(s, op);
      if t != s && !Refused(s, t) { PayloadWriteKeepsFiles(s, t, id, p); }
    case PublishControlOp(p, faults) => AfterPublishControl(s, p, faults);
    case BeginOp(source, queryCase, armId, size, faults) =>
      AfterBegin(s, source, queryCase, armId, size, faults);
    case SealOp(a, status, valid, size, faults) => AfterSeal(s, a, status, valid, size, faults);
    case AcceptOp(queryCase, armId, id, persist) =>
    case FinalizeOp(status, persist) =>
  }

  lemma StepBinds(s: State, owner: Owners, op: Op, t: State)
    requires OwnersOk(owner) && Disciplined(owner, op) && t == Next(s, op)
    requires Poisoned(s) ==> s.status == Incomplete
    ensures Binds(s, t, owner)
  {
    assert Advances(s, t) by { StepAdvances(s, op); }
    assert AcceptedOnce(s, t) by { StepAcceptsOnce(s, op); }
    if Poisoned(s) {
      assert PayloadFrozen(s, t, owner) by { PoisonFreezesStep(s, owner, op); }
    }
  }

  lemma BindingIsTransitive(s: State, t: State, u: State, owner: Owners)
    requires Binds(s, t, owner) && Binds(t, u, owner)
    ensures Binds(s, u, owner)
  {
  }

  lemma StepsBind(owner: Owners)
    requires OwnersOk(owner)
    ensures forall s, op :: GoodFor(owner)(s) && AllowedBy(owner)(s, op) ==>
      GoodFor(owner)(Stepping()(s, op)) && BindsFor(owner)(s, Stepping()(s, op))
  {
    StepsKeepGood(owner);
    forall s, op | GoodFor(owner)(s) && AllowedBy(owner)(s, op) ensures BindsFor(owner)(s, Stepping()(s, op)) {
      StepBinds(s, owner, op, Next(s, op));
    }
  }

  /** Each state of a run binds all later ones. */
  lemma RunsBind(owner: Owners, states: seq<State>, ops: seq<Op>, first: nat, last: nat)
    requires OwnersOk(owner) && IsRun(owner, states, ops) && first <= last < |states| && states[0] == INITIAL
    ensures Binds(states[first], states[last], owner)
  {
    RunsAreGood(owner, states, ops, first);
    StepsBind(owner);
    forall s, t, u | BindsFor(owner)(s, t) && BindsFor(owner)(t, u) ensures BindsFor(owner)(s, u) {
      BindingIsTransitive(s, t, u, owner);
    }
    Runs.Between(states, ops, AllowedBy(owner), Stepping(), GoodFor(owner), BindsFor(owner), first, last);
  }
}
