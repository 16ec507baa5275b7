/** Where the promises of a run end: names that collide, and runs completed without cells. */
module CampaignLimits {
  import opened CampaignState
  import opened CampaignLaws
  import opened CampaignAccounts
  import opened CampaignLifecycle
  import Runs
  import opened Wrappers

  // ----- colliding names

  predicate EndsWith(s: string, tail: string) {
    |tail| <= |s| && s[|s| - |tail|..] == tail
  }

  /** Two arms can be confused: the longer one ends with two dashes and the shorter one, and leaves
      room for a query case in a cell id. */
  predicate Confusable(a: string, b: string) {
    |b| <= 93 && EndsWith(b, "--" + a)
  }

  lemma CollisionShadows(q: string, a: string, r: string, b: string)
    requires ValidId(b) && CellId(q, a) == CellId(r, b) && |a| < |b|
    ensures EndsWith(b, "--" + a)
  {
    var whole := CellId(q, a);
    assert whole == q + ("--" + a);
    assert b == whole[|r| + 2..] && b[0] == whole[|r| + 2];
    var at := |b| - |a| - 2;
    assert |q| == |r| + 2 + at;
    assert at >= 0;
    assert b[at..] == whole[|q|..];
    assert whole[|q|..] == "--" + a;
  }

  lemma SameArm(q: string, a: string, r: string, b: string)
    requires CellId(q, a) == CellId(r, b) && |a| == |b|
    ensures q == r && a == b
  {
    assert q == CellId(q, a)[..|q|] && r == CellId(r, b)[..|r|];
    assert a == CellId(q, a)[|q| + 2..] && b == CellId(r, b)[|r| + 2..];
  }

  /** Without confusable arms a valid cell id determines its coordinates. */
  lemma CellIdIsInjective(q: string, a: string, r: string, b: string)
    requires ValidId(q) && ValidId(a) && ValidId(r) && ValidId(b) && ValidId(CellId(r, b))
    requires !Confusable(a, b) && !Confusable(b, a)
    ensures CellId(q, a) == CellId(r, b) <==> q == r && a == b
  {
    if CellId(q, a) == CellId(r, b) {
      if |a| < |b| { CollisionShadows(q, a, r, b); }
      if |b| < |a| { CollisionShadows(r, b, q, a); }
      SameArm(q, a, r, b);
    }
  }

  /** Coordinates of two confusable arms with one valid cell id. */
  lemma ConfusableCollide(a: string, b: string) returns (q: string, r: string)
    requires ValidId(a) && ValidId(b) && Confusable(a, b)
    ensures ValidId(q) && ValidId(r) && ValidId(CellId(r, b)) && CellId(q, a) == CellId(r, b) && a != b
  {
    var head := b[..|b| - |a| - 2];
    r := "q";
    q := r + "--" + head;
    assert b == head + ("--" + a);
    assert CellId(q, a) == CellId(r, b);
    forall i | 0 <= i < |head| ensures IsAlnum(head[i]) || head[i] in "._-" { assert head[i] == b[i]; }
  }

  /** Two arms can name one cell exactly when they are confusable. */
  lemma ArmsCollideExactly(a: string, b: string)
    requires ValidId(a) && ValidId(b) && a != b
    ensures
      (exists q, r :: ValidId(q) && ValidId(r) && ValidId(CellId(r, b)) && CellId(q, a) == CellId(r, b)) <==>
      Confusable(a, b) || Confusable(b, a)
  {
    if q, r :| ValidId(q) && ValidId(r) && ValidId(CellId(r, b)) && CellId(q, a) == CellId(r, b) {
      if !Confusable(a, b) && !Confusable(b, a) { CellIdIsInjective(q, a, r, b); }
    }
    if Confusable(a, b) {
      var q, r := ConfusableCollide(a, b);
    }
    if Confusable(b, a) {
      var r, q := ConfusableCollide(b, a);
    }
  }

  // ----- names in a run

  ghost predicate NamesOk(s: State) {
    && (forall i :: 0 <= i < |s.cells| ==>
      ValidId(s.cells[i].queryCase) && ValidId(s.cells[i].armId) && ValidId(IdOf(s.cells[i])))
    && AttemptNamesOk(s.attempts)
  }

  /** Cells keep their names, and a new one has valid names. */
  lemma CellsKeepNames(s: State, op: Op)
    requires NamesOk(s)
    ensures var t := Next(s, op);
      forall i :: 0 <= i < |t.cells| ==>
        ValidId(t.cells[i].queryCase) && ValidId(t.cells[i].armId) && ValidId(IdOf(t.cells[i]))
  {
    StepAcceptsOnce(s, op);
    OnlyRegisterAddsCells(s, op);
  }

  lemma OnlyRegisterAddsCells(s: State, op: Op)
    ensures var t := Next(s, op);
      |t.cells| == |s.cells| || (op.RegisterOp? && Registered(s, t, op.id, op.wanted))
  {
    match op
    case RegisterOp(id, wanted, persist, mark) => AfterRegister(s, id, wanted, persist, mark);
    case SealRegistrationOp(persist) =>
    case PrepareOp(id, path, size, overwrite, omitted, mark) => AfterMark(s, omitted, mark);
    case PublishCellOp(id, p, faults) => AfterPublishCell(s, id, p, faults);
    case PublishControlOp(p, faults) => AfterPublishControl(s, p, faults);
    case BeginOp(source, queryCase, armId, size, faults) =>
      AfterBegin(s, source, queryCase, armId, size, faults);
    case SealOp(a, status, valid, size, faults) => AfterSeal(s, a, status, valid, size, faults);
    case AcceptOp(queryCase, armId, id, persist) =>
    case FinalizeOp(status, persist) =>
  }

  lemma UpsertKeepsNames(attempts: seq<Attempt>, a: Attempt)
    requires AttemptNamesOk(attempts) && ValidId(a.queryCase) && ValidId(a.armId)
    ensures AttemptNamesOk(Upsert(attempts, a))
  {
    UpsertIsUpdate(attempts, a);
  }

  lemma HandleIsNamed(s: State, a: Attempt)
    requires NamesOk(s) && IsHandle(s, a)
    ensures ValidId(a.queryCase) && ValidId(a.armId)
  {
  }

  ghost predicate AttemptNamesOk(attempts: seq<Attempt>) {
    forall j :: 0 <= j < |attempts| ==> ValidId(attempts[j].queryCase) && ValidId(attempts[j].armId)
  }

  lemma BeginKeepsNames(s: State, source: string, queryCase: string, armId: string, size: nat, f: Faults)
    requires NamesOk(s)
    ensures AttemptNamesOk(BeginAttempt(s, source, queryCase, armId, size, f).0.attempts)
  {
    AfterBegin(s, source, queryCase, armId, size, f);
    if ValidId(queryCase) && ValidId(armId) {
      UpsertKeepsNames(s.attempts, Attempt(source, NextOrdinal(s.directories, source, 1), queryCase, armId, Running));
    }
  }

  lemma SealKeepsNames(s: State, a: Attempt, ending: Status, valid: bool, size: nat, f: Faults)
    requires NamesOk(s) && IsHandle(s, a)
    ensures AttemptNamesOk(Seal(s, a, ending, valid, size, f).0.attempts)
  {
    AfterSeal(s, a, ending, valid, size, f);
    HandleIsNamed(s, a);
    UpsertKeepsNames(s.attempts, a.(status := ending));
  }

  lemma AttemptsKeepNames(s: State, owner: Owners, op: Op)
    requires NamesOk(s) && Allowed(owner, s, op)
    ensures AttemptNamesOk(Next(s, op).attempts)
  {
    match op
    case RegisterOp(id, wanted, persist, mark) => AfterRegister(s, id, wanted, persist, mark);
    case SealRegistrationOp(persist) =>
    case PrepareOp(id, path, size, overwrite, omitted, mark) => AfterMark(s, omitted, mark);
    case PublishCellOp(id, p, faults) => AfterPublishCell(s, id, p, faults);
    case PublishControlOp(p, faults) => AfterPublishControl(s, p, faults);
    case BeginOp(source, queryCase, armId, size, faults) => BeginKeepsNames(s, source, queryCase, armId, size, faults);
    case SealOp(a, ending, valid, size, faults) => SealKeepsNames(s, a, ending, valid, size, faults);
    case AcceptOp(queryCase, armId, id, persist) =>
    case FinalizeOp(ending, persist) =>
  }

  ghost function Named(): State -> bool {
    s => NamesOk(s)
  }

  /** All names in every state of a run are valid. */
  lemma RunsAreNamed(owner: Owners, states: seq<State>, ops: seq<Op>, last: nat)
    requires IsRun(owner, states, ops) && last < |states| && states[0] == INITIAL
    ensures NamesOk(states[last])
  {
    forall s, op | Named()(s) && AllowedBy(owner)(s, op) ensures Named()(Stepping()(s, op)) {
      CellsKeepNames(s, op);
      AttemptsKeepNames(s, owner, op);
    }
    Runs.Throughout(states, ops, AllowedBy(owner), Stepping(), Named(), 0, last);
  }

  // ----- acceptance by the right cell

  /** The cell's accepted attempt was begun for exactly its coordinates. */
  ghost predicate AcceptsOwn(s: State, c: Cell) {
    c.accepted.Some? ==> exists j ::
      && 0 <= j < |s.attempts|
      && s.attempts[j].id == c.accepted.value && s.attempts[j].status == Completed
      && s.attempts[j].queryCase == c.queryCase && s.attempts[j].armId == c.armId
  }

  ghost predicate ArmsWithin(s: State, arms: set<string>) {
    && (forall i :: 0 <= i < |s.cells| ==> s.cells[i].armId in arms)
    && (forall j :: 0 <= j < |s.attempts| ==> s.attempts[j].armId in arms)
  }

  /** In every run whose arms are not confusable each cell accepts an attempt of its own. */
  lemma RunsAcceptOwn(owner: Owners, states: seq<State>, ops: seq<Op>, last: nat, arms: set<string>, i: nat)
    requires OwnersOk(owner) && IsRun(owner, states, ops) && last < |states| && states[0] == INITIAL
    requires ArmsWithin(states[last], arms) && i < |states[last].cells|
    requires forall a, b :: a in arms && b in arms ==> !Confusable(a, b)
    ensures AcceptsOwn(states[last], states[last].cells[i])
  {
    RunsAreGood(owner, states, ops, last);
    RunsAreNamed(owner, states, ops, last);
    OwnWhenNotConfusable(states[last], states[last].cells[i], arms, i);
  }

  lemma OwnWhenNotConfusable(s: State, c: Cell, arms: set<string>, i: nat)
    requires i < |s.cells| && c == s.cells[i] && AcceptanceOk(s, c) && NamesOk(s) && ArmsWithin(s, arms)
    requires forall a, b :: a in arms && b in arms ==> !Confusable(a, b)
    ensures AcceptsOwn(s, c)
  {
    if c.accepted.Some? {
      var j :| 0 <= j < |s.attempts| && s.attempts[j].id == c.accepted.value && s.attempts[j].status == Completed
        && CellId(s.attempts[j].queryCase, s.attempts[j].armId) == IdOf(c);
      CellIdIsInjective(s.attempts[j].queryCase, s.attempts[j].armId, c.queryCase, c.armId);
    }
  }

  // ----- a run that accepts a foreign attempt

  const CALM := MarkFaults(Persisted, 0, Written, Persisted)
  const NO_FAULTS := Faults(Written, Persisted, CALM)

  function Wanted(queryCase: string, armId: string): Cell {
    Cell(queryCase, armId, 1, 0, 0, 0, 0, 1, [], None, 0, 0)
  }

  lemma BudgetOfOne(queryCase: string, armId: string)
    ensures CampaignBudget([NewCell(Wanted(queryCase, armId))]) == 76_320
  {
    var c := NewCell(Wanted(queryCase, armId));
    SumOfOne(c, QueryCasesOf);
    SumOfOne(c, CapturesOf);
    SumOfOne(c, CellBudget);
    SumOfOne(c, AttemptsOf);
    SumOfOne(c, SampleRowsOf);
    assert Arms([c]) == {armId};
  }

  lemma SumOfOne(c: Cell, f: Cell -> nat)
    ensures SumOver([c], f) == f(c)
  {
    assert [c][..0] == [];
  }

  /** The states of the run: a cell is registered for one pair of coordinates, and an attempt for
      another pair with the same cell id is begun, given a result, sealed and accepted. */
  function AfterRegistering(r: string, b: string): State {
    INITIAL.(cells := [NewCell(Wanted(r, b))], budget := 76_320, registration := WithinBudget)
  }

  const SOURCE := "s"
  const RECORD := AttemptJson(SOURCE, 1)
  const RESULT := ResultJson(SOURCE, 1)

  function AfterBeginning(q: string, a: string, r: string, b: string): State {
    AfterRegistering(r, b).(
      directories := {(SOURCE, 1)}, files := map[RECORD := File(1, 0, Some(Running))], clock := 1, controlWritten := 1,
      attempts := [Attempt(SOURCE, 1, q, a, Running)])
  }

  function AfterPublishing(q: string, a: string, r: string, b: string): State {
    var s := AfterBeginning(q, a, r, b);
    s.(files := s.files[RESULT := File(1, 1, None)], clock := 2, written := 1, sealed := true,
       cells := [NewCell(Wanted(r, b)).(written := 1)])
  }

  function AfterSealing(q: string, a: string, r: string, b: string): State {
    var s := AfterPublishing(q, a, r, b);
    s.(files := s.files[RECORD := File(1, 2, Some(Completed))], clock := 3,
       attempts := [Attempt(SOURCE, 1, q, a, Completed)])
  }

  function AfterAccepting(q: string, a: string, r: string, b: string): State {
    AfterSealing(q, a, r, b).(cells := [NewCell(Wanted(r, b)).(written := 1, accepted := Some(1))])
  }

  function ForeignOps(q: string, a: string, r: string, b: string): seq<Op> {
    var id := CellId(r, b);
    [ RegisterOp(id, Wanted(r, b), Persisted, CALM),
      BeginOp(SOURCE, q, a, 1, NO_FAULTS),
      PublishCellOp(id, Prepared(RESULT, 1, false, false, None, 0, None), NO_FAULTS),
      SealOp(Attempt(SOURCE, 1, q, a, Running), Completed, true, 1, NO_FAULTS),
      AcceptOp(q, a, 1, Persisted) ]
  }

  function ForeignStates(q: string, a: string, r: string, b: string): seq<State> {
    [ INITIAL, AfterRegistering(r, b), AfterBeginning(q, a, r, b), AfterPublishing(q, a, r, b),
      AfterSealing(q, a, r, b), AfterAccepting(q, a, r, b) ]
  }

  lemma Registering(r: string, b: string)
    requires ValidId(r) && ValidId(b) && ValidId(CellId(r, b))
    ensures Next(INITIAL, RegisterOp(CellId(r, b), Wanted(r, b), Persisted, CALM)) == AfterRegistering(r, b)
  {
    BudgetOfOne(r, b);
    assert INITIAL.cells + [NewCell(Wanted(r, b))] == [NewCell(Wanted(r, b))];
  }

  lemma Beginning(q: string, a: string, r: string, b: string)
    requires ValidId(q) && ValidId(a)
    ensures Next(AfterRegistering(r, b), BeginOp(SOURCE, q, a, 1, NO_FAULTS)) == AfterBeginning(q, a, r, b)
  {
    assert ValidId(SOURCE);
    assert NextOrdinal({}, SOURCE, 1) == 1;
    assert {} + {(SOURCE, 1)} == {(SOURCE, 1)};
  }

  lemma Publishing(q: string, a: string, r: string, b: string)
    ensures Next(AfterBeginning(q, a, r, b), ForeignOps(q, a, r, b)[2]) == AfterPublishing(q, a, r, b)
  {
    var s := AfterBeginning(q, a, r, b);
    assert FindCell(s.cells, CellId(r, b)) == 0;
    assert s.cells[0 := s.cells[0].(written := 1)] == [NewCell(Wanted(r, b)).(written := 1)];
  }

  lemma Sealing(q: string, a: string, r: string, b: string)
    requires CellId(q, a) == CellId(r, b)
    ensures Next(AfterPublishing(q, a, r, b), ForeignOps(q, a, r, b)[3]) == AfterSealing(q, a, r, b)
  {
    var s := AfterPublishing(q, a, r, b);
    assert FindCell(s.cells, CellId(q, a)) == 0;
    assert RECORD in s.files && s.files[RECORD] == File(1, 0, Some(Running));
    UpsertIsUpdate(s.attempts, Attempt(SOURCE, 1, q, a, Completed));
    assert Upsert(s.attempts, Attempt(SOURCE, 1, q, a, Completed)) == [Attempt(SOURCE, 1, q, a, Completed)];
  }

  lemma Accepting(q: string, a: string, r: string, b: string)
    requires CellId(q, a) == CellId(r, b)
    ensures Next(AfterSealing(q, a, r, b), ForeignOps(q, a, r, b)[4]) == AfterAccepting(q, a, r, b)
  {
    var s := AfterSealing(q, a, r, b);
    assert FindCell(s.cells, CellId(q, a)) == 0;
    assert FindAttempt(s.attempts, 1, q, a) == 0;
    assert s.cells[0 := s.cells[0].(accepted := Some(1))] == AfterAccepting(q, a, r, b).cells;
  }

  function ResultsTo(id: string): Owners {
    (path: Path) => if path.ResultJson? then Payload(id) else Control
  }

  lemma ForeignStep(q: string, a: string, r: string, b: string, i: nat)
    requires ValidId(q) && ValidId(a) && ValidId(r) && ValidId(b) && ValidId(CellId(r, b))
    requires CellId(q, a) == CellId(r, b) && i < 5
    ensures var s, op := ForeignStates(q, a, r, b)[i], ForeignOps(q, a, r, b)[i];
      Allowed(ResultsTo(CellId(r, b)), s, op) && ForeignStates(q, a, r, b)[i + 1] == Next(s, op)
  {
    if i == 0 {
      Registering(r, b);
    } else if i == 1 {
      Beginning(q, a, r, b);
    } else if i == 2 {
      Publishing(q, a, r, b);
    } else if i == 3 {
      Sealing(q, a, r, b);
      assert AfterPublishing(q, a, r, b).attempts[0] == Attempt(SOURCE, 1, q, a, Running);
    } else {
      Accepting(q, a, r, b);
    }
  }

  lemma ForeignEnd(q: string, a: string, r: string, b: string)
    requires (q, a) != (r, b)
    ensures var s := AfterAccepting(q, a, r, b);
      s.cells[0].accepted == Some(1) && !AcceptsOwn(s, s.cells[0]) && ArmsWithin(s, {a, b})
  {
  }

  /** Two pairs of coordinates with one cell id: a disciplined run in which the cell of one accepts
      an attempt of the other and has none of its own. */
  lemma ForeignAcceptance(q: string, a: string, r: string, b: string)
    requires ValidId(q) && ValidId(a) && ValidId(r) && ValidId(b) && ValidId(CellId(r, b))
    requires CellId(q, a) == CellId(r, b) && (q, a) != (r, b)
    ensures OwnersOk(ResultsTo(CellId(r, b)))
    ensures IsRun(ResultsTo(CellId(r, b)), ForeignStates(q, a, r, b), ForeignOps(q, a, r, b))
    ensures var s := AfterAccepting(q, a, r, b);
      s.cells[0].accepted == Some(1) && !AcceptsOwn(s, s.cells[0]) && ArmsWithin(s, {a, b})
  {
    var owner, states, ops := ResultsTo(CellId(r, b)), ForeignStates(q, a, r, b), ForeignOps(q, a, r, b);
    forall i | 0 <= i < |ops|
      ensures AllowedBy(owner)(states[i], ops[i]) && states[i + 1] == Stepping()(states[i], ops[i])
    {
      ForeignStep(q, a, r, b, i);
    }
    ForeignEnd(q, a, r, b);
  }

  /** A run over these arms in which some cell's accepted attempt is not its own. */
  ghost predicate IsForeignRun(owner: Owners, states: seq<State>, ops: seq<Op>, a: string, b: string) {
    && OwnersOk(owner) && IsRun(owner, states, ops) && states[0] == INITIAL
    && var s := states[|states| - 1];
       ArmsWithin(s, {a, b}) && exists i :: 0 <= i < |s.cells| && !AcceptsOwn(s, s.cells[i])
  }

  /** Over two arms a cell can accept an attempt that is not its own exactly when they are confusable. */
  lemma AcceptanceIsOwnExactly(a: string, b: string)
    requires ValidId(a) && ValidId(b)
    ensures (exists owner, states, ops :: IsForeignRun(owner, states, ops, a, b)) <==>
      Confusable(a, b) || Confusable(b, a)
  {
    if owner, states, ops :| IsForeignRun(owner, states, ops, a, b) {
      if !Confusable(a, b) && !Confusable(b, a) {
        ForeignNeedsConfusable(owner, states, ops, a, b);
      }
    }
    if Confusable(a, b) {
      var q, r := ConfusableCollide(a, b);
      ForeignAcceptance(q, a, r, b);
      assert IsForeignRun(ResultsTo(CellId(r, b)), ForeignStates(q, a, r, b), ForeignOps(q, a, r, b), a, b);
    }
    if Confusable(b, a) {
      var q, r := ConfusableCollide(b, a);
      ForeignAcceptance(q, b, r, a);
      assert {b, a} == {a, b};
      assert IsForeignRun(ResultsTo(CellId(r, a)), ForeignStates(q, b, r, a), ForeignOps(q, b, r, a), a, b);
    }
  }

  /** For instance a cell of query case "q", arm "b--c", and an attempt of query case "q--b", arm "c". */
  lemma ForeignExample()
    ensures exists owner, states, ops :: IsForeignRun(owner, states, ops, "c", "b--c")
  {
    assert "b--c"[1..] == "--" + "c";
    AcceptanceIsOwnExactly("c", "b--c");
  }

  lemma ForeignNeedsConfusable(owner: Owners, states: seq<State>, ops: seq<Op>, a: string, b: string)
    requires IsForeignRun(owner, states, ops, a, b)
    ensures Confusable(a, b) || Confusable(b, a)
  {
    var last := |states| - 1;
    var i :| 0 <= i < |states[last].cells| && !AcceptsOwn(states[last], states[last].cells[i]);
    if !Confusable(a, b) && !Confusable(b, a) {
      RunsAcceptOwn(owner, states, ops, last, {a, b}, i);
    }
  }

  // ----- completion without cells

  /** A run completed before any cell was registered loses its promise to a later registration
      exactly when the registration was left unsealed and the new cell is admissible. */
  lemma CompletionWithoutCells(s: State, id: string, wanted: Cell, persist: PersistFault, mark: MarkFaults)
    requires s.status == Completed && !Poisoned(s) && s.cells == []
    ensures
      var t := Register(s, id, wanted, persist, mark).0;
      (t.status == Completed && exists i :: 0 <= i < |t.cells| && t.cells[i].accepted.None?) <==>
      (!s.sealed && ValidCell(id, wanted) && CampaignBudget([NewCell(wanted)]) <= TOTAL_LIMIT)
  {
    var t := Register(s, id, wanted, persist, mark).0;
    AfterRegister(s, id, wanted, persist, mark);
    assert s.cells + [NewCell(wanted)] == [NewCell(wanted)];
    if !s.sealed && ValidCell(id, wanted) && CampaignBudget([NewCell(wanted)]) <= TOTAL_LIMIT {
      assert t.cells[0].accepted.None?;
    }
  }

  ghost function DisciplinedBy(owner: Owners): (State, Op) -> bool {
    (s, op) => Disciplined(owner, op)
  }

  /** Completed at once, then given a cell: a run of two disciplined steps that ends Completed with a
      cell nobody accepted. */
  lemma LateRegistration(owner: Owners, r: string, b: string) returns (states: seq<State>, ops: seq<Op>)
    requires ValidId(r) && ValidId(b) && ValidId(CellId(r, b))
    ensures Runs.IsRun(states, ops, DisciplinedBy(owner), Stepping()) && states[0] == INITIAL
    ensures var s := states[|states| - 1];
      s.status == Completed && !Poisoned(s) && |s.cells| == 1 && s.cells[0].accepted.None?
  {
    var completed := INITIAL.(status := Completed);
    ops := [FinalizeOp(Completed, Persisted), RegisterOp(CellId(r, b), Wanted(r, b), Persisted, CALM)];
    states := [INITIAL, completed, AfterRegistering(r, b).(status := Completed)];
    BudgetOfOne(r, b);
    assert completed.cells + [NewCell(Wanted(r, b))] == [NewCell(Wanted(r, b))];
  }
}
