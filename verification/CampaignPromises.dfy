/** What a caller may rely on after each call of a run output owner, in terms of the states before
    and after it and of the calls that may follow. */
module CampaignPromises {
  import opened CampaignState
  import opened CampaignLaws
  import opened Wrappers

  // ----- closed runs

  /** No later call publishes payload, registers a cell, seals the registration or ends the run otherwise. */
  ghost predicate Closed(s: State) {
    && (forall id, p, f :: PublishCell(s, id, p, f) == (s, false))
    && (forall id, wanted, persist, f :: Register(s, id, wanted, persist, f) == (s, false))
    && (forall persist :: SealRegistration(s, persist) == (s, false))
    && (forall status, persist :: Finalize(s, status, persist).0 == s)
  }

  lemma PoisonCloses(s: State)
    requires Poisoned(s) && s.status == Incomplete
    ensures Closed(s)
  {
  }

  /** The manifest took the failure, and so did a published index. */
  predicate MarkTaken(s: State, f: MarkFaults) {
    && f.persist == Persisted
    && (CampaignJson in s.files ==>
      && Max0(s.controlWritten - s.files[CampaignJson].size) + f.indexSize <= CONTROL_LIMIT
      && f.indexWrite == Written && f.indexPersist == Persisted)
  }

  /** A failure was recorded: at most the index was rewritten, and nothing can follow. */
  lemma MarkClosesRun(s: State, omitted: nat, f: MarkFaults)
    ensures var t := MarkCapacity(s, omitted, f);
      && Marked(s, t) && Closed(t)
  {
    AfterMark(s, omitted, f);
    PoisonCloses(MarkCapacity(s, omitted, f));
  }

  /** The omission is counted, and the registration says whether that is known on disk. */
  lemma MarkCounts(s: State, omitted: nat, f: MarkFaults)
    ensures var t := MarkCapacity(s, omitted, f);
      && t.omittedCount == s.omittedCount + 1 && t.omittedBytes == s.omittedBytes + omitted
      && t.registration == if MarkTaken(s, f) then CapacityExceeded else PublicationUnknown
  {
  }

  lemma UnknownClosesRun(s: State)
    ensures var t := MarkUnknown(s);
      Marked(s, t) && t.files == s.files && t.registration == PublicationUnknown && Closed(t)
  {
    PoisonCloses(MarkUnknown(s));
  }

  // ----- control records

  /** The record is in place, and the control reserve is charged the difference and not exceeded. */
  ghost predicate ControlWritten(s: State, t: State, p: Prepared) {
    && SameGeneration(s, p) && MayWrite(s, p)
    && p.path in t.files && t.files[p.path].size == p.size && t.files[p.path].status == p.status
    && FilesExcept(s.files, t.files, p.path) && SameBooks(s, t)
    && t.controlWritten <= CONTROL_LIMIT
    && (SizeAt(s.files, p.path) <= s.controlWritten ==>
      t.controlWritten == s.controlWritten - SizeAt(s.files, p.path) + p.size)
  }

  /** The record fits the control reserve. */
  predicate ControlFits(s: State, p: Prepared) {
    Max0(s.controlWritten - (if p.overwrite then p.observedSize else 0)) + p.size <= CONTROL_LIMIT
  }

  /** Exactly when the commit of a control record succeeds. */
  predicate ControlCommits(s: State, p: Prepared, write: WriteFault, persist: PersistFault) {
    && (p.path in s.files ==> p.overwrite && s.files[p.path].size == p.observedSize)
    && (if p.path in s.files then Some(s.files[p.path].generation) else None) == p.observedGeneration
    && (p.path !in s.files ==> p.observedSize == 0)
    && ControlFits(s, p) && write == Written && persist == Persisted
  }

  lemma CommitControlPromise(s: State, p: Prepared, write: WriteFault, persist: PersistFault)
    ensures var (t, ending) := CommitControl(s, p, write, persist);
      && t.status == s.status && t.registration == s.registration
      && (ending == Fine ==> ControlWritten(s, t, p))
      && (ending == Fine <==> ControlCommits(s, p, write, persist))
      && (t == s || t == PutFile(s, p) || ControlWritten(s, t, p))
      && (ending == Rejected && persist == Persisted ==> t == s)
  {
  }

  /** A refusal before the commit has no effect; a failed commit poisons the run. */
  ghost predicate ControlPublished(s: State, t: State, p: Prepared, ok: bool) {
    if ok then ControlWritten(s, t, p) && (s.status == Running || p.allowTerminal) && !(Poisoned(t) && !Poisoned(s))
    else if s.status != Running && !p.allowTerminal then t == s
    else Poisoned(t) && SameBooks(s, t) && FilesExcept(s.files, t.files, p.path)
  }

  /** Exactly when a control record can be published. */
  predicate ControlGoes(s: State, p: Prepared, f: Faults) {
    (s.status == Running || p.allowTerminal) && ControlCommits(s, p, f.write, f.persist)
  }

  lemma PublishControlPromise(s: State, p: Prepared, f: Faults)
    ensures var (t, ok) := PublishControl(s, p, f); ControlPublished(s, t, p, ok) && (ok <==> ControlGoes(s, p, f))
  {
    CommitControlPromise(s, p, f.write, f.persist);
  }

  // ----- payload

  /** The file is in place and charged to one cell within its lease; nothing else about the cells changed. */
  ghost predicate CellWritten(s: State, t: State, id: string, p: Prepared) {
    var k := FindCell(s.cells, id);
    && k < |s.cells| == |t.cells| && SameGeneration(s, p) && MayWrite(s, p)
    && p.path in t.files && t.files[p.path].size == p.size && FilesExcept(s.files, t.files, p.path)
    && t.cells == s.cells[k := s.cells[k].(written := t.cells[k].written)]
    && (s.cells[k].written <= s.cells[k].budget ==> t.cells[k].written <= t.cells[k].budget)
    && (s.written <= TOTAL_LIMIT ==> t.written <= TOTAL_LIMIT) && t.sealed
    && (SizeAt(s.files, p.path) <= s.cells[k].written ==>
      t.cells[k].written == s.cells[k].written - SizeAt(s.files, p.path) + p.size)
    && (SizeAt(s.files, p.path) <= s.written ==> t.written == s.written - SizeAt(s.files, p.path) + p.size)
  }

  lemma BookedIsWritten(s: State, id: string, p: Prepared)
    requires FindCell(s.cells, id) < |s.cells| && SameGeneration(s, p) && MayWrite(s, p)
    requires p.size <= Available(s, s.cells[FindCell(s.cells, id)], Replacing(p))
    ensures CellWritten(s, BookWrite(s, FindCell(s.cells, id), p), id, p)
  {
  }

  /** The payload leaves the lease of its cell and the campaign's budget and limit respected. */
  predicate HasRoom(s: State, c: Cell, replaced: nat, size: nat) {
    || size == 0
    || (&& Max0(c.written - replaced) + size <= c.budget
        && Max0(s.written - replaced) + size <= TOTAL_LIMIT
        && (s.budget > 0 ==> Max0(s.written - replaced) + size <= s.budget))
  }

  lemma RoomIsAvailable(s: State, c: Cell, replaced: nat, size: nat)
    ensures size <= Available(s, c, replaced) <==> HasRoom(s, c, replaced, size)
  {
  }

  /** Exactly when a payload can be published. */
  predicate CellGoes(s: State, id: string, p: Prepared, f: Faults) {
    var k := FindCell(s.cells, id);
    && s.status == Running && !Poisoned(s) && k < |s.cells|
    && (p.path in s.files ==> p.overwrite && s.files[p.path].size == p.observedSize)
    && (if p.path in s.files then Some(s.files[p.path].generation) else None) == p.observedGeneration
    && (p.path !in s.files ==> p.observedSize == 0)
    && HasRoom(s, s.cells[k], if p.overwrite then p.observedSize else 0, p.size)
    && f.write == Written && f.persist == Persisted
  }

  lemma PublishCellGoes(s: State, id: string, p: Prepared, f: Faults)
    ensures PublishCell(s, id, p, f).1 <==> CellGoes(s, id, p, f)
  {
    var k := FindCell(s.cells, id);
    if k < |s.cells| {
      RoomIsAvailable(s, s.cells[k], Replacing(p), p.size);
    }
    if !(ReachesWrite(s, id, p) && f.write == Written) {
      PublicationFails(s, id, p, f);
    }
  }

  /** A payload that fits is prepared against the target as it is, and publishing it right away
      succeeds unless the disk fails; one that does not fit closes the run. */
  ghost predicate PreparedWell(
    s: State, t: State, id: string, path: Path, size: nat, overwrite: bool, prepared: Option<Prepared>)
  {
    var k := FindCell(s.cells, id);
    match prepared
    case Some(p) =>
      && t == s && p.path == path && p.size == size && p.overwrite == overwrite && SameGeneration(s, p)
      && !Poisoned(s) && k < |s.cells|
      && (s.status == Running && MayWrite(s, p) ==>
        forall f: Faults :: f.write == Written && f.persist == Persisted ==> PublishCell(s, id, p, f).1)
    case None =>
      || (t == s && (Poisoned(s) || k == |s.cells|))
      || (Marked(s, t) && Closed(t) && k < |s.cells|
          && !HasRoom(s, s.cells[k], if overwrite then SizeAt(s.files, path) else 0, size))
  }

  lemma PreparePromise(
    s: State, id: string, path: Path, size: nat, overwrite: bool, omitted: nat, f: MarkFaults)
    ensures var (t, prepared) := PrepareCell(s, id, path, size, overwrite, omitted, f);
      PreparedWell(s, t, id, path, size, overwrite, prepared)
  {
    var k := FindCell(s.cells, id);
    if k < |s.cells| {
      RoomIsAvailable(s, s.cells[k], if overwrite then SizeAt(s.files, path) else 0, size);
    }
    MarkClosesRun(s, omitted, f);
  }

  ghost predicate CellCommitted(s: State, t: State, id: string, p: Prepared, ending: Ending) {
    if ending == Fine then CellWritten(s, t, id, p) && !Poisoned(s) && t.status == s.status
    else t == s || (Marked(s, t) && Closed(t)) || t == PutFile(s, p) || CellWritten(s, t, id, p)
  }

  lemma StoredPromise(s: State, id: string, p: Prepared, f: Faults)
    requires FindCell(s.cells, id) < |s.cells| && SameGeneration(s, p) && !Poisoned(s)
    requires p.size <= Available(s, s.cells[FindCell(s.cells, id)], Replacing(p))
    ensures var (t, ending) := Stored(s, FindCell(s.cells, id), p, f); CellCommitted(s, t, id, p, ending)
  {
    if MayWrite(s, p) {
      BookedIsWritten(s, id, p);
    }
  }

  lemma OmittedPromise(s: State, id: string, p: Prepared, omitted: nat, f: MarkFaults)
    ensures CellCommitted(s, MarkCapacity(s, omitted, f), id, p, Rejected)
  {
    MarkClosesRun(s, omitted, f);
  }

  lemma CommitCellPromise(s: State, id: string, p: Prepared, f: Faults)
    ensures var (t, ending) := CommitCell(s, id, p, f); CellCommitted(s, t, id, p, ending)
  {
    var k := FindCell(s.cells, id);
    if !SameGeneration(s, p) || k == |s.cells| || Poisoned(s) {
      assert CommitCell(s, id, p, f) == (s, Rejected);
    } else {
      var available := Available(s, s.cells[k], Replacing(p));
      if p.size > available {
        OmittedPromise(s, id, p, Excess(p.size, available), f.mark);
        assert CommitCell(s, id, p, f) == (MarkCapacity(s, Excess(p.size, available), f.mark), Rejected);
      } else {
        StoredPromise(s, id, p, f);
        assert CommitCell(s, id, p, f) == Stored(s, k, p, f);
      }
    }
  }

  /** A successful publication put the file in place and charged it; a failed one changed nothing
      or closed the run, with at most the file itself in place. */
  ghost predicate CellPublished(s: State, t: State, id: string, p: Prepared, ok: bool) {
    if ok then
      ReachesWrite(s, id, p) && CellWritten(s, t, id, p) && t.status == Running && !Poisoned(t)
    else
      || (t == s && (s.status != Running || Poisoned(s)))
      || (Closed(t) && (Marked(s, t) || HalfDone(s, t, p) || CellWritten(s, t, id, p)))
  }

  lemma FailedPromise(s: State, t: State, id: string, p: Prepared)
    requires Refused(s, t) || HalfDone(s, t, p)
    requires s.status == Running ==> Poisoned(t)
    ensures CellPublished(s, t, id, p, false)
  {
    if t != s {
      PoisonCloses(t);
    }
  }

  lemma CommittedPromise(s: State, id: string, p: Prepared)
    requires ReachesWrite(s, id, p)
    ensures var t := BookWrite(s, FindCell(s.cells, id), p);
      CellPublished(s, t, id, p, true) && CellPublished(s, MarkUnknown(t), id, p, false)
  {
    BookedIsWritten(s, id, p);
    UnknownClosesRun(BookWrite(s, FindCell(s.cells, id), p));
  }

  lemma FailurePoisons(s: State, id: string, p: Prepared, f: Faults)
    ensures var (t, ok) := PublishCell(s, id, p, f); s.status == Running && !ok ==> Poisoned(t)
  {
  }

  lemma PublicationFails(s: State, id: string, p: Prepared, f: Faults)
    requires !ReachesWrite(s, id, p) || f.write != Written
    ensures var (t, ok) := PublishCell(s, id, p, f); !ok && (Refused(s, t) || HalfDone(s, t, p))
  {
    if ReachesWrite(s, id, p) {
      PublishBreaks(s, id, p, f);
    } else {
      PublishRefuses(s, id, p, f);
    }
  }

  lemma PublishCellPromise(s: State, id: string, p: Prepared, f: Faults)
    ensures var (t, ok) := PublishCell(s, id, p, f); CellPublished(s, t, id, p, ok)
  {
    var (t, ok) := PublishCell(s, id, p, f);
    if ReachesWrite(s, id, p) && f.write == Written {
      var booked := BookWrite(s, FindCell(s.cells, id), p);
      assert (t, ok) == if f.persist == Persisted then (booked, true) else (MarkUnknown(booked), false);
      CommittedPromise(s, id, p);
    } else {
      assert !ok && (Refused(s, t) || HalfDone(s, t, p)) by { PublicationFails(s, id, p, f); }
      FailurePoisons(s, id, p, f);
      FailedPromise(s, t, id, p);
    }
  }

  // ----- registration

  /** The cell is registered under this contract, and asking for it again changes nothing. */
  ghost predicate HoldsCell(s: State, id: string, wanted: Cell) {
    && FindCell(s.cells, id) < |s.cells|
    && (var c := s.cells[FindCell(s.cells, id)];
        wanted.(accepted := c.accepted, budget := c.budget, written := c.written) == c)
    && forall persist, f :: Register(s, id, wanted, persist, f) == (s, true)
  }

  /** Why a registration is refused without any effect. */
  predicate NotRegistrable(s: State, id: string, wanted: Cell) {
    var k := FindCell(s.cells, id);
    s.sealed || Poisoned(s) || !ValidCell(id, wanted) || (k < |s.cells| && !SameContract(s.cells[k], wanted))
  }

  ghost predicate CellRegistered(s: State, t: State, id: string, wanted: Cell, persist: PersistFault, ok: bool) {
    if ok then HoldsCell(t, id, wanted) && (t == s || Enrolled(s, t, id, wanted))
    else
      || (t == s && NotRegistrable(s, id, wanted))
      || (Marked(s, t) && Closed(t) && CampaignBudget(s.cells + [NewCell(wanted)]) > TOTAL_LIMIT)
      || (persist != Persisted && Enrolled(s, t, id, wanted))
  }

  /** The cell was appended with its own lease and nothing written, and the campaign budget recomputed
      within the limit. */
  ghost predicate Enrolled(s: State, t: State, id: string, wanted: Cell) {
    && Registered(s, t, id, wanted) && !NotRegistrable(s, id, wanted)
    && t.cells == s.cells + [wanted.(accepted := None, budget := CellBudget(wanted), written := 0)]
    && t.budget == CampaignBudget(t.cells) <= TOTAL_LIMIT && t.files == s.files && t.written == s.written
  }

  lemma {:induction false} FindAppended(cells: seq<Cell>, c: Cell)
    requires FindCell(cells, IdOf(c)) == |cells|
    ensures FindCell(cells + [c], IdOf(c)) == |cells|
  {
    var more := cells + [c];
    assert more[|cells|] == c;
    assert forall j :: 0 <= j < |cells| ==> more[j] == cells[j];
  }

  lemma RegisteredHolds(s: State, t: State, id: string, wanted: Cell)
    requires Registered(s, t, id, wanted)
    ensures HoldsCell(t, id, wanted)
  {
    FindAppended(s.cells, NewCell(wanted));
  }

  lemma WithinBudgetPromise(s: State, t: State, id: string, wanted: Cell, persist: PersistFault)
    requires Registered(s, t, id, wanted)
    ensures CellRegistered(s, t, id, wanted, persist, persist == Persisted)
  {
    RegisteredHolds(s, t, id, wanted);
  }

  lemma OverBudgetPromise(s: State, t: State, id: string, wanted: Cell, persist: PersistFault)
    requires Marked(s, t) && Closed(t) && CampaignBudget(s.cells + [NewCell(wanted)]) > TOTAL_LIMIT
    ensures CellRegistered(s, t, id, wanted, persist, false)
  {
  }

  /** Enrolling marks the run or extends the cells, in terms of the resulting state only. */
  lemma EnrollEnds(s: State, cells: seq<Cell>, budget: nat, persist: PersistFault, f: MarkFaults)
    ensures var (t, ok) := Enroll(s, cells, budget, persist, f);
      if budget > TOTAL_LIMIT then Marked(s, t) && Closed(t) && !ok
      else t == s.(cells := cells, budget := budget, registration := WithinBudget) && ok == (persist == Persisted)
  {
    if budget > TOTAL_LIMIT {
      MarkClosesRun(s, Excess(budget, TOTAL_LIMIT), f);
    }
  }

  lemma EnrolledPromise(
    s: State, t: State, ok: bool, id: string, wanted: Cell, cells: seq<Cell>, budget: nat, persist: PersistFault)
    requires !NotRegistrable(s, id, wanted) && FindCell(s.cells, id) == |s.cells|
    requires cells == s.cells + [NewCell(wanted)] && budget == CampaignBudget(cells)
    requires if budget > TOTAL_LIMIT then Marked(s, t) && Closed(t) && !ok
      else t == s.(cells := cells, budget := budget, registration := WithinBudget) && ok == (persist == Persisted)
    ensures CellRegistered(s, t, id, wanted, persist, ok)
  {
    if budget > TOTAL_LIMIT {
      OverBudgetPromise(s, t, id, wanted, persist);
    } else {
      WithinBudgetPromise(s, t, id, wanted, persist);
    }
  }

  lemma RegisterPromise(s: State, id: string, wanted: Cell, persist: PersistFault, f: MarkFaults)
    ensures var (t, ok) := Register(s, id, wanted, persist, f); CellRegistered(s, t, id, wanted, persist, ok)
  {
    if !NotRegistrable(s, id, wanted) && FindCell(s.cells, id) == |s.cells| {
      var cells := s.cells + [NewCell(wanted)];
      var (t, ok) := Register(s, id, wanted, persist, f);
      EnrollEnds(s, cells, CampaignBudget(cells), persist, f);
      EnrolledPromise(s, t, ok, id, wanted, cells, CampaignBudget(cells), persist);
    } else {
      assert Register(s, id, wanted, persist, f).0 == s;
    }
  }

  /** A sealed registration takes no cell any more, and sealing is all that happened. */
  ghost predicate RegistrationClosed(s: State, t: State, persist: PersistFault, ok: bool) {
    && t.(sealed := s.sealed) == s
    && (ok ==> !Poisoned(t) && forall id, wanted, again, f :: Register(t, id, wanted, again, f) == (t, false))
    && (!ok && persist == Persisted ==> t == s && Poisoned(s))
  }

  lemma SealRegistrationPromise(s: State, persist: PersistFault)
    ensures var (t, ok) := SealRegistration(s, persist); RegistrationClosed(s, t, persist, ok)
  {
  }

  // ----- attempts

  /** The attempt takes the first free ordinal of its source; its Running record is in place and indexed. */
  ghost predicate AttemptBegun(
    s: State, t: State, source: string, queryCase: string, armId: string, attempt: Option<Attempt>)
  {
    match attempt
    case Some(a) =>
      && a == Attempt(source, a.id, queryCase, armId, Running)
      && 1 <= a.id < 100_000 && (source, a.id) !in s.directories
      && (forall j :: 1 <= j < a.id ==> (source, j) in s.directories)
      && t.directories == s.directories + {(source, a.id)}
      && AttemptJson(source, a.id) in t.files && t.files[AttemptJson(source, a.id)].status == Some(Running)
      && FilesExcept(s.files, t.files, AttemptJson(source, a.id))
      && t.attempts == Upsert(s.attempts, a) && t.cells == s.cells && t.written == s.written
    case None =>
      t.attempts == s.attempts && t.cells == s.cells && t.written == s.written && s.directories <= t.directories
  }

  /** Exactly when an attempt can begin. */
  ghost predicate BeginGoes(s: State, source: string, queryCase: string, armId: string, size: nat, f: Faults) {
    && ValidId(source) && ValidId(queryCase) && ValidId(armId) && s.status == Running
    && s.controlWritten + size <= CONTROL_LIMIT && f.write == Written && f.persist == Persisted
    && exists k :: FirstFree(s.directories, source, k) && AttemptJson(source, k) !in s.files
  }

  ghost predicate FirstFree(directories: set<(string, nat)>, source: string, k: nat) {
    && 1 <= k < 100_000 && (source, k) !in directories
    && forall j :: 1 <= j < k ==> (source, j) in directories
  }

  lemma BeginExactly(s: State, source: string, queryCase: string, armId: string, size: nat, f: Faults)
    ensures BeginAttempt(s, source, queryCase, armId, size, f).1.Some? <==>
      BeginGoes(s, source, queryCase, armId, size, f)
  {
    var k := NextOrdinal(s.directories, source, 1);
    OrdinalIsFirst(s.directories, source, 1);
    assert k != 0 <==> FirstFree(s.directories, source, k);
    forall j | FirstFree(s.directories, source, j) ensures j == k { }
    if k != 0 {
      var t := s.(directories := s.directories + {(source, k)});
      PublishControlPromise(t, Observe(t, AttemptJson(source, k), size, false, false, Some(Running)), f);
    }
  }

  lemma BeginPromise(s: State, source: string, queryCase: string, armId: string, size: nat, f: Faults)
    ensures var (t, attempt) := BeginAttempt(s, source, queryCase, armId, size, f);
      AttemptBegun(s, t, source, queryCase, armId, attempt)
  {
    var k := NextOrdinal(s.directories, source, 1);
    OrdinalIsFirst(s.directories, source, 1);
    if k != 0 {
      var t := s.(directories := s.directories + {(source, k)});
      AfterPublishControl(t, Observe(t, AttemptJson(source, k), size, false, false, Some(Running)), f);
    }
  }

  /** A seal is given once: the record and the index say so, and no second seal has any effect. */
  ghost predicate AttemptSealed(s: State, t: State, a: Attempt, ending: Status, ok: bool) {
    var path := AttemptJson(a.source, a.id);
    if ok then
      && SealedAs(s, t, a, ending) && t.files[path].status == Some(ending)
      && t.attempts == Upsert(s.attempts, a.(status := ending))
      && forall other, valid, size, f :: Seal(t, a, other, valid, size, f) == (t, false)
    else t == s || (Poisoned(t) && SealedAs(s, t, a, ending) && t.attempts == s.attempts)
  }

  /** Exactly when a seal is given. */
  predicate SealGoes(s: State, a: Attempt, ending: Status, valid: bool, size: nat, f: Faults) {
    var path := AttemptJson(a.source, a.id);
    && ending != Running && path in s.files && s.files[path].status == Some(Running)
    && (ending == Completed ==>
      valid && ResultJson(a.source, a.id) in s.files && FindCell(s.cells, CellId(a.queryCase, a.armId)) < |s.cells|)
    && Max0(s.controlWritten - s.files[path].size) + size <= CONTROL_LIMIT
    && f.write == Written && f.persist == Persisted
  }

  lemma SealExactly(s: State, a: Attempt, ending: Status, valid: bool, size: nat, f: Faults)
    ensures Seal(s, a, ending, valid, size, f).1 <==> SealGoes(s, a, ending, valid, size, f)
  {
    PublishControlPromise(s, Observe(s, AttemptJson(a.source, a.id), size, true, true, Some(ending)), f);
  }

  lemma SealPromise(s: State, a: Attempt, ending: Status, valid: bool, size: nat, f: Faults)
    ensures var (t, ok) := Seal(s, a, ending, valid, size, f); AttemptSealed(s, t, a, ending, ok)
  {
    var path := AttemptJson(a.source, a.id);
    var p := Observe(s, path, size, true, true, Some(ending));
    AfterPublishControl(s, p, f);
    PublishControlPromise(s, p, f);
  }

  /** The acceptance is a completed attempt of these coordinates; it can be repeated and not replaced. */
  ghost predicate AttemptAccepted(
    s: State, t: State, queryCase: string, armId: string, id: nat, persist: PersistFault, ok: bool)
  {
    var k := FindCell(s.cells, CellId(queryCase, armId));
    && (ok ==>
      && k < |s.cells| && t.cells == s.cells[k := s.cells[k].(accepted := Some(id))] && t == s.(cells := t.cells)
      && (exists j ::
        && 0 <= j < |s.attempts| && s.attempts[j].id == id && s.attempts[j].status == Completed
        && s.attempts[j].queryCase == queryCase && s.attempts[j].armId == armId)
      && (forall again :: Accept(t, queryCase, armId, id, again) == (t, again == Persisted))
      && (forall other, again :: other != id ==> Accept(t, queryCase, armId, other, again) == (t, false)))
    && (!ok && persist == Persisted ==> t == s)
  }

  /** Exactly when an attempt is accepted: it is the first of these coordinates with this id, it is completed, and
      the cell has accepted no other. */
  ghost predicate AcceptGoes(s: State, queryCase: string, armId: string, id: nat, persist: PersistFault) {
    var k := FindCell(s.cells, CellId(queryCase, armId));
    && k < |s.cells| && s.cells[k].accepted in {None, Some(id)} && persist == Persisted
    && exists j :: FirstOf(s.attempts, j, queryCase, armId, id) && s.attempts[j].status == Completed
  }

  predicate FirstOf(attempts: seq<Attempt>, j: int, queryCase: string, armId: string, id: nat) {
    && 0 <= j < |attempts| && IsAttemptOf(attempts[j], queryCase, armId, id)
    && forall i :: 0 <= i < j ==> !IsAttemptOf(attempts[i], queryCase, armId, id)
  }

  predicate IsAttemptOf(a: Attempt, queryCase: string, armId: string, id: nat) {
    a.id == id && a.queryCase == queryCase && a.armId == armId
  }

  lemma AcceptExactly(s: State, queryCase: string, armId: string, id: nat, persist: PersistFault)
    ensures Accept(s, queryCase, armId, id, persist).1 <==> AcceptGoes(s, queryCase, armId, id, persist)
  {
    var k := FindAttempt(s.attempts, id, queryCase, armId);
    assert k < |s.attempts| <==> FirstOf(s.attempts, k, queryCase, armId, id);
    forall j | FirstOf(s.attempts, j, queryCase, armId, id) ensures j == k {
      assert k <= j;
    }
  }

  lemma {:induction false} FindReplaced(cells: seq<Cell>, k: nat, c: Cell, id: string)
    requires k < |cells| && IdOf(c) == IdOf(cells[k])
    ensures FindCell(cells[k := c], id) == FindCell(cells, id)
  {
    var changed := cells[k := c];
    assert forall j :: 0 <= j < |cells| ==> IdOf(changed[j]) == IdOf(cells[j]);
  }

  lemma AcceptPromise(s: State, queryCase: string, armId: string, id: nat, persist: PersistFault)
    ensures var (t, ok) := Accept(s, queryCase, armId, id, persist);
      AttemptAccepted(s, t, queryCase, armId, id, persist, ok)
  {
    var (t, ok) := Accept(s, queryCase, armId, id, persist);
    var k := FindCell(s.cells, CellId(queryCase, armId));
    if ok {
      FindReplaced(s.cells, k, t.cells[k], CellId(queryCase, armId));
      assert t.cells[k := t.cells[k]] == t.cells;
    }
  }

  // ----- the end of a run

  /** Why a run may not complete. */
  predicate Unfinished(s: State) {
    || (exists i :: 0 <= i < |s.attempts| && s.attempts[i].status != Completed)
    || (exists i :: 0 <= i < |s.cells| && Unaccepted(s, s.cells[i]))
    || s.registration == CapacityExceeded || s.registration == PublicationUnknown
  }

  /** No completed attempt has the accepted id. */
  predicate Unaccepted(s: State, c: Cell) {
    c.accepted.None? || forall j :: 0 <= j < |s.attempts| && s.attempts[j].status == Completed ==>
      s.attempts[j].id != c.accepted.value
  }

  /** A run is given one terminal status, and keeps it: only the same ending succeeds again, without effect. */
  ghost predicate RunFinalized(s: State, t: State, ending: Status, persist: PersistFault, ok: bool) {
    && t == s.(status := t.status)
    && (ok ==> t.status == ending)
    && (if s.status != Running then t == s && (ok <==> s.status == ending)
        else if ending == Running || (ending == Completed && Unfinished(s)) then t == s && !ok
        else t.status == ending && (ok <==> persist == Persisted))
  }

  lemma UnacceptedMeans(s: State, c: Cell)
    ensures Unaccepted(s, c) <==> !(c.accepted.Some? && HasCompleted(s.attempts, c.accepted.value))
  {
    if c.accepted.Some? && HasCompleted(s.attempts, c.accepted.value) {
      var j :| 0 <= j < |s.attempts| && s.attempts[j].id == c.accepted.value && s.attempts[j].status == Completed;
      assert !Unaccepted(s, c);
    }
  }

  lemma MayCompleteUnlessUnfinished(s: State)
    ensures MayComplete(s) <==> !Unfinished(s)
  {
    forall i | 0 <= i < |s.cells|
      ensures Unaccepted(s, s.cells[i]) <==>
        !(s.cells[i].accepted.Some? && HasCompleted(s.attempts, s.cells[i].accepted.value))
    {
      UnacceptedMeans(s, s.cells[i]);
    }
  }

  lemma FinalizePromise(s: State, ending: Status, persist: PersistFault)
    ensures var (t, ok) := Finalize(s, ending, persist); RunFinalized(s, t, ending, persist, ok)
  {
    MayCompleteUnlessUnfinished(s);
  }
}
