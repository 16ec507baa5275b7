/** The owner of a run's output: the operations of `RunOutput`, `AttemptOutput` and the writers. Each is
    its function on the campaign state, and promises its caller what that function is proved to keep. */
module RunOutput {
  import opened CampaignState
  import CampaignAccounts
  import CampaignLaws
  import CampaignLifecycle
  import opened CampaignPromises
  import opened Wrappers

  class Run {
    var status: Status
    var registration: Registration
    var sealed: bool
    var budget: nat
    var written: nat
    var controlWritten: nat
    var omittedCount: nat
    var omittedBytes: nat
    var cells: seq<Cell>
    var attempts: seq<Attempt>
    var files: map<Path, File>
    var directories: set<(string, nat)>
    var clock: nat

    function Current(): State
      reads this
    {
      State(status, registration, sealed, budget, written, controlWritten, omittedCount, omittedBytes,
            cells, attempts, files, directories, clock)
    }

    constructor ()
      ensures Current() == INITIAL
    {
      status, registration, sealed := Running, Unregistered, false;
      budget, written, controlWritten, omittedCount, omittedBytes := 0, 0, 0, 0, 0;
      cells, attempts, files, directories, clock := [], [], map[], {}, 0;
    }

    // ----- recording failures

    method MarkPublicationUnknown()
      modifies this
      ensures Current() == MarkUnknown(old(Current()))
      ensures CampaignLaws.Marked(old(Current()), Current()) && Closed(Current()) && files == old(files)
      ensures registration == PublicationUnknown
    {
      UnknownClosesRun(Current());
      registration := PublicationUnknown;
      status := Incomplete;
    }

    method MarkCapacityExceeded(omitted: nat, f: MarkFaults)
      modifies this
      ensures Current() == MarkCapacity(old(Current()), omitted, f)
      ensures CampaignLaws.Marked(old(Current()), Current()) && Closed(Current())
      ensures omittedCount == old(omittedCount) + 1 && omittedBytes == old(omittedBytes) + omitted
      ensures registration == if MarkTaken(old(Current()), f) then CapacityExceeded else PublicationUnknown
    {
      MarkClosesRun(Current(), omitted, f);
      MarkCounts(Current(), omitted, f);
      RecordOmission(omitted);
      PersistMark(f);
    }

    method RecordOmission(omitted: nat)
      modifies this
      ensures Current() == Omitted(old(Current()), omitted)
    {
      omittedCount := omittedCount + 1;
      omittedBytes := omittedBytes + omitted;
      registration := CapacityExceeded;
      status := Incomplete;
    }

    /** Persist the recorded failure in the manifest and in a published index. */
    method PersistMark(f: MarkFaults)
      modifies this
      ensures Current() == MarkPersisted(old(Current()), f)
    {
      if f.persist != Persisted {
        MarkPublicationUnknown();
      } else if CampaignJson in files {
        RefreshIndex(f);
      }
    }

    /** Rewrite the published campaign index from the control reserve. */
    method RefreshIndex(f: MarkFaults)
      modifies this
      ensures Current() == RewriteIndex(old(Current()), f)
    {
      var p := Observe(Current(), CampaignJson, f.indexSize, true, true, None);
      var ending := CommitControlWrite(p, f.indexWrite, f.indexPersist);
      if ending != Fine {
        MarkPublicationUnknown();
      }
    }

    // ----- publication

    method WriteAtomically(p: Prepared)
      modifies this
      ensures Current() == PutFile(old(Current()), p)
    {
      files := files[p.path := File(p.size, clock, p.status)];
      clock := clock + 1;
    }

    method CommitControlWrite(p: Prepared, write: WriteFault, persist: PersistFault) returns (ending: Ending)
      modifies this
      ensures (Current(), ending) == CommitControl(old(Current()), p, write, persist)
      ensures ending == Fine <==> ControlCommits(old(Current()), p, write, persist)
      ensures ending == Fine ==> ControlWritten(old(Current()), Current(), p)
      ensures ending == Rejected && persist == Persisted ==> Current() == old(Current())
    {
      CommitControlPromise(Current(), p, write, persist);
      if !SameGeneration(Current(), p) {
        return Rejected;
      }
      var total := Max0(controlWritten - Replacing(p)) + p.size;
      if total > CONTROL_LIMIT {
        return Rejected;
      }
      if !p.overwrite && p.path in files {
        return Rejected;
      }
      if write == BrokenBefore {
        return Broken;
      }
      WriteAtomically(p);
      if write == BrokenAfter {
        return Broken;
      }
      controlWritten := total;
      ending := PersistEnding(persist);
    }

    /** The error handling both writers share. */
    method ConcludePublication(ending: Ending) returns (ok: bool)
      modifies this
      ensures (Current(), ok) == Conclude(old(Current()), ending)
    {
      ok := ending == Fine;
      if ending == Broken || (ending == Rejected && registration != CapacityExceeded) {
        MarkPublicationUnknown();
      }
    }

    method PublishControlWrite(p: Prepared, f: Faults) returns (ok: bool)
      modifies this
      ensures (Current(), ok) == PublishControl(old(Current()), p, f)
      ensures ok <==> ControlGoes(old(Current()), p, f)
      ensures ControlPublished(old(Current()), Current(), p, ok)
    {
      PublishControlPromise(Current(), p, f);
      if status != Running && !p.allowTerminal {
        return false;
      }
      var ending := CommitControlWrite(p, f.write, f.persist);
      ok := ConcludePublication(ending);
    }

    /** `_registered_cell` as the loop it is. */
    method RegisteredCell(id: string) returns (k: nat)
      ensures k == FindCell(cells, id)
    {
      k := 0;
      while k < |cells| && IdOf(cells[k]) != id
        invariant k <= |cells|
        invariant forall j :: 0 <= j < k ==> IdOf(cells[j]) != id
      {
        k := k + 1;
      }
    }

    method PrepareCellWrite(id: string, path: Path, size: nat, overwrite: bool, omitted: nat, f: MarkFaults)
      returns (prepared: Option<Prepared>)
      modifies this
      ensures (Current(), prepared) == PrepareCell(old(Current()), id, path, size, overwrite, omitted, f)
      ensures PreparedWell(old(Current()), Current(), id, path, size, overwrite, prepared)
    {
      PreparePromise(Current(), id, path, size, overwrite, omitted, f);
      var p := Observe(Current(), path, size, overwrite, false, None);
      var k := RegisteredCell(id);
      if Poisoned(Current()) || k == |cells| {
        return None;
      }
      if size > Available(Current(), cells[k], Replacing(p)) {
        MarkCapacityExceeded(omitted, f);
        return None;
      }
      prepared := Some(p);
    }

    method CommitCellWrite(id: string, p: Prepared, f: Faults) returns (ending: Ending)
      modifies this
      ensures (Current(), ending) == CommitCell(old(Current()), id, p, f)
      ensures CellCommitted(old(Current()), Current(), id, p, ending)
    {
      CommitCellPromise(Current(), id, p, f);
      if !SameGeneration(Current(), p) {
        return Rejected;
      }
      var k := RegisteredCell(id);
      if k == |cells| || Poisoned(Current()) {
        return Rejected;
      }
      var available := Available(Current(), cells[k], Replacing(p));
      if p.size > available {
        MarkCapacityExceeded(Excess(p.size, available), f.mark);
        return Rejected;
      }
      ending := StoreCellFile(k, p, f);
    }

    /** The end of a commit that fits: put the file in place, charge it and persist the manifest. */
    method StoreCellFile(k: nat, p: Prepared, f: Faults) returns (ending: Ending)
      requires k < |cells|
      modifies this
      ensures (Current(), ending) == Stored(old(Current()), k, p, f)
    {
      if !p.overwrite && p.path in files {
        return Rejected;
      }
      if f.write == BrokenBefore {
        return Broken;
      }
      WriteAtomically(p);
      if f.write == BrokenAfter {
        return Broken;
      }
      ChargeWrite(k, p);
      ending := PersistEnding(f.persist);
    }

    /** Charge a file in place to its cell and to the campaign. */
    method ChargeWrite(k: nat, p: Prepared)
      requires k < |cells|
      modifies this
      ensures Current() == Charged(old(Current()), k, p)
    {
      written := Max0(written - Replacing(p)) + p.size;
      cells := cells[k := cells[k].(written := Max0(cells[k].written - Replacing(p)) + p.size)];
      sealed := true;
    }

    method PublishCellWrite(id: string, p: Prepared, f: Faults) returns (ok: bool)
      modifies this
      ensures (Current(), ok) == PublishCell(old(Current()), id, p, f)
      ensures ok <==> CellGoes(old(Current()), id, p, f)
      ensures CellPublished(old(Current()), Current(), id, p, ok)
    {
      PublishCellGoes(Current(), id, p, f);
      PublishCellPromise(Current(), id, p, f);
      if status != Running {
        return false;
      }
      var ending := CommitCellWrite(id, p, f);
      ok := ConcludePublication(ending);
    }

    // ----- registration

    /** Keep the extended list when its budget fits the campaign limit, and record the excess if not. */
    method EnrollCells(extended: seq<Cell>, needed: nat, persist: PersistFault, f: MarkFaults) returns (ok: bool)
      modifies this
      ensures (Current(), ok) == Enroll(old(Current()), extended, needed, persist, f)
    {
      if needed > TOTAL_LIMIT {
        MarkCapacityExceeded(Excess(needed, TOTAL_LIMIT), f);
        return false;
      }
      cells := extended;
      budget := needed;
      registration := WithinBudget;
      ok := persist == Persisted;
    }

    method RegisterCell(id: string, wanted: Cell, persist: PersistFault, f: MarkFaults) returns (ok: bool)
      modifies this
      ensures (Current(), ok) == Register(old(Current()), id, wanted, persist, f)
      ensures CellRegistered(old(Current()), Current(), id, wanted, persist, ok)
    {
      RegisterPromise(Current(), id, wanted, persist, f);
      if sealed || Poisoned(Current()) || !ValidCell(id, wanted) {
        return false;
      }
      var k := RegisteredCell(id);
      if k < |cells| {
        return SameContract(cells[k], wanted);
      }
      var extended := cells + [NewCell(wanted)];
      var needed := BudgetOf(extended);
      ok := EnrollCells(extended, needed, persist, f);
    }

    method CloseRegistration(persist: PersistFault) returns (ok: bool)
      modifies this
      ensures (Current(), ok) == SealRegistration(old(Current()), persist)
      ensures RegistrationClosed(old(Current()), Current(), persist, ok)
    {
      SealRegistrationPromise(Current(), persist);
      if Poisoned(Current()) {
        return false;
      }
      sealed := true;
      ok := persist == Persisted;
    }

    // ----- attempts

    method UpdateAttempt(a: Attempt)
      modifies this`attempts
      ensures attempts == Upsert(old(attempts), a)
    {
      var k := 0;
      while k < |attempts| && !(attempts[k].source == a.source && attempts[k].id == a.id)
        invariant k <= FindEntry(attempts, a.source, a.id)
      {
        k := k + 1;
      }
      UpsertIsUpdate(attempts, a);
      attempts := if k < |attempts| then attempts[k := a] else attempts + [a];
    }

    method Begin(source: string, queryCase: string, armId: string, size: nat, f: Faults)
      returns (attempt: Option<Attempt>)
      modifies this
      ensures (Current(), attempt) == BeginAttempt(old(Current()), source, queryCase, armId, size, f)
      ensures attempt.Some? <==> BeginGoes(old(Current()), source, queryCase, armId, size, f)
      ensures AttemptBegun(old(Current()), Current(), source, queryCase, armId, attempt)
    {
      BeginExactly(Current(), source, queryCase, armId, size, f);
      BeginPromise(Current(), source, queryCase, armId, size, f);
      if !ValidId(source) || !ValidId(queryCase) || !ValidId(armId) {
        return None;
      }
      var k := 1;
      while k < 100_000 && (source, k) in directories
        invariant 1 <= k <= 100_000
        invariant NextOrdinal(directories, source, 1) == NextOrdinal(directories, source, k)
      {
        k := k + 1;
      }
      if k == 100_000 {
        return None;
      }
      directories := directories + {(source, k)};
      if size > CONTROL_LIMIT {
        return None;
      }
      var p := Observe(Current(), AttemptJson(source, k), size, false, false, Some(Running));
      var ok := PublishControlWrite(p, f);
      if !ok {
        return None;
      }
      var a := Attempt(source, k, queryCase, armId, Running);
      UpdateAttempt(a);
      attempt := Some(a);
    }

    method SealAttempt(a: Attempt, ending: Status, valid: bool, size: nat, f: Faults) returns (ok: bool)
      modifies this
      ensures (Current(), ok) == Seal(old(Current()), a, ending, valid, size, f)
      ensures ok <==> SealGoes(old(Current()), a, ending, valid, size, f)
      ensures AttemptSealed(old(Current()), Current(), a, ending, ok)
    {
      SealExactly(Current(), a, ending, valid, size, f);
      SealPromise(Current(), a, ending, valid, size, f);
      var path := AttemptJson(a.source, a.id);
      if ending == Running || path !in files || files[path].status != Some(Running) {
        return false;
      }
      if ending == Completed && !PayloadComplete(Current(), a, valid) {
        return false;
      }
      if size > CONTROL_LIMIT {
        return false;
      }
      ok := PublishControlWrite(Observe(Current(), path, size, true, true, Some(ending)), f);
      if ok {
        UpdateAttempt(a.(status := ending));
      }
    }

    method AcceptAttempt(queryCase: string, armId: string, id: nat, persist: PersistFault) returns (ok: bool)
      modifies this
      ensures (Current(), ok) == Accept(old(Current()), queryCase, armId, id, persist)
      ensures ok <==> AcceptGoes(old(Current()), queryCase, armId, id, persist)
      ensures AttemptAccepted(old(Current()), Current(), queryCase, armId, id, persist, ok)
    {
      AcceptExactly(Current(), queryCase, armId, id, persist);
      AcceptPromise(Current(), queryCase, armId, id, persist);
      var k := RegisteredCell(CellId(queryCase, armId));
      if k == |cells| {
        return false;
      }
      var j := FindAttempt(attempts, id, queryCase, armId);
      if j == |attempts| || attempts[j].status != Completed {
        return false;
      }
      if cells[k].accepted.Some? && cells[k].accepted.value != id {
        return false;
      }
      cells := cells[k := cells[k].(accepted := Some(id))];
      ok := persist == Persisted;
    }

    method FinalizeRun(ending: Status, persist: PersistFault) returns (ok: bool)
      modifies this
      ensures (Current(), ok) == Finalize(old(Current()), ending, persist)
      ensures RunFinalized(old(Current()), Current(), ending, persist, ok)
    {
      FinalizePromise(Current(), ending, persist);
      if ending == Running {
        return false;
      }
      if status != Running {
        return status == ending;
      }
      if ending == Completed {
        for i := 0 to |attempts|
          invariant AllCompleted(attempts[..i])
        {
          if attempts[i].status != Completed {
            assert !AllCompleted(attempts);
            return false;
          }
        }
        assert attempts[..|attempts|] == attempts;
        for i := 0 to |cells|
          invariant forall j :: 0 <= j < i ==>
            cells[j].accepted.Some? && HasCompleted(attempts, cells[j].accepted.value)
        {
          if cells[i].accepted.None? || !HasCompleted(attempts, cells[i].accepted.value) {
            return false;
          }
        }
        if Poisoned(Current()) {
          return false;
        }
      }
      status := ending;
      ok := persist == Persisted;
    }

    /** One operation of the owner, whichever it is. */
    method Dispatch(op: CampaignLaws.Op)
      modifies this
      ensures Current() == CampaignLaws.Next(old(Current()), op)
    {
      match op {
        case RegisterOp(id, wanted, persist, mark) => var _ := RegisterCell(id, wanted, persist, mark);
        case SealRegistrationOp(persist) => var _ := CloseRegistration(persist);
        case PrepareOp(id, path, size, overwrite, omitted, mark) =>
          var _ := PrepareCellWrite(id, path, size, overwrite, omitted, mark);
        case PublishCellOp(id, write, faults) => var _ := PublishCellWrite(id, write, faults);
        case PublishControlOp(write, faults) => var _ := PublishControlWrite(write, faults);
        case BeginOp(source, queryCase, armId, size, faults) => var _ := Begin(source, queryCase, armId, size, faults);
        case SealOp(a, ending, valid, size, faults) => var _ := SealAttempt(a, ending, valid, size, faults);
        case AcceptOp(queryCase, armId, id, persist) => var _ := AcceptAttempt(queryCase, armId, id, persist);
        case FinalizeOp(ending, persist) => var _ := FinalizeRun(ending, persist);
      }
    }

    /** A disciplined caller finds exact books, honest records and kept promises after every call. */
    method Perform(op: CampaignLaws.Op, ghost owner: CampaignAccounts.Owners)
      requires CampaignAccounts.OwnersOk(owner)
      requires CampaignLifecycle.GoodFor(owner)(Current()) && CampaignLifecycle.AllowedBy(owner)(Current(), op)
      modifies this
      ensures CampaignLifecycle.GoodFor(owner)(Current())
      ensures CampaignLifecycle.BindsFor(owner)(old(Current()), Current())
    {
      CampaignLifecycle.StepsBind(owner);
      ghost var s := Current();
      Dispatch(op);
      assert Current() == CampaignLifecycle.Stepping()(s, op);
    }
  }

  lemma SumStep(cells: seq<Cell>, i: nat, f: Cell -> nat)
    requires i < |cells|
    ensures SumOver(cells[..i + 1], f) == SumOver(cells[..i], f) + f(cells[i])
  {
    assert cells[..i + 1][..i] == cells[..i];
  }

  lemma ArmsStep(cells: seq<Cell>, i: nat)
    requires i < |cells|
    ensures Arms(cells[..i + 1]) == Arms(cells[..i]) + {cells[i].armId}
  {
    assert cells[..i + 1] == cells[..i] + [cells[i]];
  }

  /** One sum over all cells. */
  method SumOf(cells: seq<Cell>, f: Cell -> nat) returns (sum: nat)
    ensures sum == SumOver(cells, f)
  {
    sum := 0;
    for i := 0 to |cells|
      invariant sum == SumOver(cells[..i], f)
    {
      SumStep(cells, i, f);
      sum := sum + f(cells[i]);
    }
    assert cells[..|cells|] == cells;
  }

  /** The campaign budget, from the arms and the sums over all cells. */
  method BudgetOf(cells: seq<Cell>) returns (budget: nat)
    ensures budget == CampaignBudget(cells)
  {
    var arms: set<string> := {};
    for i := 0 to |cells|
      invariant arms == Arms(cells[..i])
    {
      ArmsStep(cells, i);
      arms := arms + {cells[i].armId};
    }
    assert cells[..|cells|] == cells;
    var queries := SumOf(cells, QueryCasesOf);
    var captures := SumOf(cells, CapturesOf);
    var leases := SumOf(cells, CellBudget);
    var attempts := SumOf(cells, AttemptsOf);
    var rows := SumOf(cells, SampleRowsOf);
    budget := 32_000 + 1_024 * (|arms| + queries + |cells| + captures) + 20_000 + leases
      + 256 * |cells| + 256 * attempts + 256 * rows + 200_000 * captures;
  }
}
