/** The state a run output owner keeps in memory and on disk, and each of its operations as a
    function on that state. Everything the environment decides (encoded sizes, failing writes)
    is a parameter. */
module CampaignState {
  import opened Wrappers

  datatype Status = Running | Completed | Failed | Cancelled | Incomplete

  datatype Registration = Unregistered | WithinBudget | CapacityExceeded | PublicationUnknown

  /** The files of a run that the owner itself looks at, and all others. */
  datatype Path =
    | AttemptJson(source: string, id: nat)
    | ResultJson(source: string, id: nat)
    | CampaignJson
    | OtherFile(name: string)

  /** `generation` stands for the modification time; `status` is what an attempt record says. */
  datatype File = File(size: nat, generation: nat, status: Option<Status>)

  datatype Cell = Cell(
    queryCase: string, armId: string,
    queryCases: nat, sampleRows: nat, productReceipts: nat, calibrationRows: nat,
    summaryCaptures: nat, attempts: nat, sampleIds: seq<string>,
    accepted: Option<nat>, budget: nat, written: nat)

  datatype Attempt = Attempt(source: string, id: nat, queryCase: string, armId: string, status: Status)

  datatype State = State(
    status: Status,
    registration: Registration,
    sealed: bool,
    budget: nat,
    written: nat,
    controlWritten: nat,
    omittedCount: nat,
    omittedBytes: nat,
    cells: seq<Cell>,
    attempts: seq<Attempt>,
    files: map<Path, File>,
    directories: set<(string, nat)>,
    clock: nat)

  const TOTAL_LIMIT: nat := 64 * 1024 * 1024
  const CONTROL_LIMIT: nat := 256 * 1024

  const INITIAL: State := State(Running, Unregistered, false, 0, 0, 0, 0, 0, [], [], map[], {}, 0)

  /** An encoded write and the generation of its target that it was checked against. */
  datatype Prepared = Prepared(
    path: Path, size: nat, overwrite: bool, allowTerminal: bool, status: Option<Status>,
    observedSize: nat, observedGeneration: Option<nat>)

  datatype WriteFault = Written | BrokenBefore | BrokenAfter
  datatype PersistFault = Persisted | TooLarge | PersistBroken

  /** What goes wrong while a capacity failure is recorded and the campaign index rewritten. */
  datatype MarkFaults = MarkFaults(
    persist: PersistFault, indexSize: nat, indexWrite: WriteFault, indexPersist: PersistFault)

  datatype Faults = Faults(write: WriteFault, persist: PersistFault, mark: MarkFaults)

  /** How a commit ended: fine, with a run output error, or with any other exception. */
  datatype Ending = Fine | Rejected | Broken

  /** How far a size is over a limit. */
  function Excess(size: nat, limit: nat): nat
    requires size >= limit
  {
    size - limit
  }

  function Min(x: int, y: int): int { if x < y then x else y }

  predicate Poisoned(s: State) {
    s.registration == CapacityExceeded || s.registration == PublicationUnknown
  }

  // ----- identifiers and cells

  predicate IsAlnum(c: char) { 'a' <= c <= 'z' || 'A' <= c <= 'Z' || '0' <= c <= '9' }

  predicate ValidId(id: string) {
    && 1 <= |id| <= 96
    && IsAlnum(id[0])
    && forall i :: 0 <= i < |id| ==> IsAlnum(id[i]) || id[i] in "._-"
  }

  function CellId(queryCase: string, armId: string): string {
    queryCase + "--" + armId
  }

  function IdOf(c: Cell): string { CellId(c.queryCase, c.armId) }

  /** `_cell_budget_bytes` */
  function CellBudget(c: Cell): nat {
    4_096 + 16_384 * c.queryCases + 1_024 * c.sampleRows + 4_096 * c.productReceipts
    + 512 * c.calibrationRows + 200_000 * c.summaryCaptures + 256 * c.attempts
  }

  function SumOver(cells: seq<Cell>, f: Cell -> nat): nat {
    if cells == [] then 0 else SumOver(cells[..|cells| - 1], f) + f(cells[|cells| - 1])
  }

  function Arms(cells: seq<Cell>): set<string> {
    set c | c in cells :: c.armId
  }

  function QueryCasesOf(c: Cell): nat { c.queryCases }
  function SampleRowsOf(c: Cell): nat { c.sampleRows }
  function CapturesOf(c: Cell): nat { c.summaryCaptures }
  function AttemptsOf(c: Cell): nat { c.attempts }

  /** The registered budget of a whole campaign. */
  function CampaignBudget(cells: seq<Cell>): nat {
    32_000
    + 1_024 * (|Arms(cells)| + SumOver(cells, QueryCasesOf) + |cells| + SumOver(cells, CapturesOf))
    + 20_000
    + SumOver(cells, CellBudget)
    + 256 * |cells|
    + 256 * SumOver(cells, AttemptsOf)
    + 256 * SumOver(cells, SampleRowsOf)
    + 200_000 * SumOver(cells, CapturesOf)
  }

  /** `_registered_cell`: the position of the first cell with this id, or the cell count. */
  function FindCell(cells: seq<Cell>, id: string): (k: nat)
    ensures k <= |cells|
    ensures k < |cells| ==> IdOf(cells[k]) == id
    ensures forall j :: 0 <= j < k ==> IdOf(cells[j]) != id
  {
    if cells == [] then 0
    else if IdOf(cells[0]) == id then 0
    else 1 + FindCell(cells[1..], id)
  }

  // ----- recording failures

  function MarkUnknown(s: State): State {
    s.(registration := PublicationUnknown, status := Incomplete)
  }

  function MarkCapacity(s: State, omitted: nat, f: MarkFaults): State {
    MarkPersisted(Omitted(s, omitted), f)
  }

  function Omitted(s: State, omitted: nat): State {
    s.(omittedCount := s.omittedCount + 1, omittedBytes := s.omittedBytes + omitted,
       registration := CapacityExceeded, status := Incomplete)
  }

  /** A recorded failure is persisted, in the manifest and in a published index. */
  function MarkPersisted(s: State, f: MarkFaults): State {
    if f.persist != Persisted then MarkUnknown(s)
    else if CampaignJson !in s.files then s
    else RewriteIndex(s, f)
  }

  /** Refresh a published campaign index from the control reserve. */
  function RewriteIndex(s: State, f: MarkFaults): State {
    var p := Observe(s, CampaignJson, f.indexSize, true, true, None);
    var (t, ending) := CommitControl(s, p, f.indexWrite, f.indexPersist);
    if ending == Fine then t else MarkUnknown(t)
  }

  // ----- prepared writes

  function Observe(
    s: State, path: Path, size: nat, overwrite: bool, allowTerminal: bool, status: Option<Status>): Prepared
  {
    if path in s.files
    then Prepared(path, size, overwrite, allowTerminal, status, s.files[path].size, Some(s.files[path].generation))
    else Prepared(path, size, overwrite, allowTerminal, status, 0, None)
  }

  function Replacing(p: Prepared): nat {
    if p.overwrite then p.observedSize else 0
  }

  /** `_check_prepared_generation` */
  predicate SameGeneration(s: State, p: Prepared) {
    if p.path in s.files
    then s.files[p.path].size == p.observedSize && Some(s.files[p.path].generation) == p.observedGeneration
    else p.observedSize == 0 && p.observedGeneration == None
  }

  predicate MayWrite(s: State, p: Prepared) {
    p.overwrite || p.path !in s.files
  }

  function PutFile(s: State, p: Prepared): State {
    s.(files := s.files[p.path := File(p.size, s.clock, p.status)], clock := s.clock + 1)
  }

  function PersistEnding(f: PersistFault): Ending {
    match f
    case Persisted => Fine
    case TooLarge => Rejected
    case PersistBroken => Broken
  }

  /** `_commit_control` */
  function CommitControl(s: State, p: Prepared, write: WriteFault, persist: PersistFault): (State, Ending) {
    var total := Max0(s.controlWritten - Replacing(p)) + p.size;
    if !SameGeneration(s, p) then (s, Rejected)
    else if total > CONTROL_LIMIT then (s, Rejected)
    else if !MayWrite(s, p) then (s, Rejected)
    else if write == BrokenBefore then (s, Broken)
    else if write == BrokenAfter then (PutFile(s, p), Broken)
    else (PutFile(s, p).(controlWritten := total), PersistEnding(persist))
  }

  /** What `_publish` does with the ending of a commit. */
  function Conclude(s: State, ending: Ending): (State, bool) {
    match ending
    case Fine => (s, true)
    case Rejected => (if s.registration == CapacityExceeded then s else MarkUnknown(s), false)
    case Broken => (MarkUnknown(s), false)
  }

  function PublishControl(s: State, p: Prepared, f: Faults): (State, bool) {
    if s.status != Running && !p.allowTerminal then (s, false)
    else
      var (t, ending) := CommitControl(s, p, f.write, f.persist);
      Conclude(t, ending)
  }

  // ----- cell payloads

  /** `_available_bytes_for_cell`, once the registration is known to be open. */
  function Available(s: State, c: Cell, replacing: nat): nat {
    var limit := if s.budget == 0 then TOTAL_LIMIT else Min(TOTAL_LIMIT, s.budget);
    Max0(Min(limit - Max0(s.written - replacing), c.budget - Max0(c.written - replacing)))
  }

  /** The first half of `CellWriter.prepare_json` and `prepare_text`. */
  function PrepareCell(
    s: State, id: string, path: Path, size: nat, overwrite: bool, omitted: nat, f: MarkFaults)
    : (State, Option<Prepared>)
  {
    var k := FindCell(s.cells, id);
    var p := Observe(s, path, size, overwrite, false, None);
    if Poisoned(s) || k == |s.cells| then (s, None)
    else if size > Available(s, s.cells[k], Replacing(p)) then (MarkCapacity(s, omitted, f), None)
    else (s, Some(p))
  }

  /** `_commit_cell` */
  function CommitCell(s: State, id: string, p: Prepared, f: Faults): (State, Ending) {
    var k := FindCell(s.cells, id);
    if !SameGeneration(s, p) || k == |s.cells| || Poisoned(s) then (s, Rejected)
    else
      var available := Available(s, s.cells[k], Replacing(p));
      if p.size > available then (MarkCapacity(s, Excess(p.size, available), f.mark), Rejected)
      else Stored(s, k, p, f)
  }

  /** The end of a commit that fits its lease. */
  function Stored(s: State, k: nat, p: Prepared, f: Faults): (State, Ending)
    requires k < |s.cells|
  {
    if !MayWrite(s, p) then (s, Rejected)
    else if f.write == BrokenBefore then (s, Broken)
    else if f.write == BrokenAfter then (PutFile(s, p), Broken)
    else (BookWrite(s, k, p), PersistEnding(f.persist))
  }

  /** The file is in place and charged to its cell and to the campaign. */
  function BookWrite(s: State, k: nat, p: Prepared): State
    requires k < |s.cells|
  {
    Charged(PutFile(s, p), k, p)
  }

  function Charged(s: State, k: nat, p: Prepared): State
    requires k < |s.cells|
  {
    var cell := s.cells[k];
    s.(written := Max0(s.written - Replacing(p)) + p.size,
       cells := s.cells[k := cell.(written := Max0(cell.written - Replacing(p)) + p.size)],
       sealed := true)
  }

  function PublishCell(s: State, id: string, p: Prepared, f: Faults): (State, bool) {
    if s.status != Running then (s, false)
    else
      var (t, ending) := CommitCell(s, id, p, f);
      Conclude(t, ending)
  }

  // ----- registration

  /** The contract of a cell, apart from what its use changes. */
  predicate SameContract(a: Cell, b: Cell) {
    a == b.(accepted := a.accepted, budget := a.budget, written := a.written)
  }

  predicate ValidCell(id: string, c: Cell) {
    && ValidId(id) && ValidId(c.queryCase) && ValidId(c.armId)
    && id == IdOf(c)
    && |c.sampleIds| == c.sampleRows && Distinct(c.sampleIds)
    && forall i :: 0 <= i < |c.sampleIds| ==> ValidId(c.sampleIds[i])
  }

  function NewCell(wanted: Cell): Cell {
    wanted.(accepted := None, budget := CellBudget(wanted), written := 0)
  }

  /** `register_cell`; the accounting fields of `wanted` are ignored. */
  function Register(s: State, id: string, wanted: Cell, persist: PersistFault, f: MarkFaults): (State, bool) {
    var k := FindCell(s.cells, id);
    if s.sealed || Poisoned(s) || !ValidCell(id, wanted) then (s, false)
    else if k < |s.cells| then (s, SameContract(s.cells[k], wanted))
    else
      var cells := s.cells + [NewCell(wanted)];
      Enroll(s, cells, CampaignBudget(cells), persist, f)
  }

  /** Admit the extended cell list if its budget fits the campaign limit. */
  function Enroll(s: State, cells: seq<Cell>, budget: nat, persist: PersistFault, f: MarkFaults): (State, bool) {
    if budget > TOTAL_LIMIT then (MarkCapacity(s, Excess(budget, TOTAL_LIMIT), f), false)
    else (s.(cells := cells, budget := budget, registration := WithinBudget), persist == Persisted)
  }

  function SealRegistration(s: State, persist: PersistFault): (State, bool) {
    if Poisoned(s) then (s, false) else (s.(sealed := true), persist == Persisted)
  }

  // ----- attempts

  /** The first ordinal whose directory is free, or zero when all are taken. */
  function NextOrdinal(directories: set<(string, nat)>, source: string, k: nat): nat
    decreases 100_000 - k
  {
    if k >= 100_000 then 0
    else if (source, k) in directories then NextOrdinal(directories, source, k + 1)
    else k
  }

  /** `_update_attempt`: replace the entry of the same source and attempt, or append one. */
  function Upsert(attempts: seq<Attempt>, a: Attempt): seq<Attempt> {
    if attempts == [] then [a]
    else if attempts[0].source == a.source && attempts[0].id == a.id then [a] + attempts[1..]
    else [attempts[0]] + Upsert(attempts[1..], a)
  }

  function FindEntry(attempts: seq<Attempt>, source: string, id: nat): (k: nat)
    ensures k <= |attempts|
    ensures k < |attempts| ==> attempts[k].source == source && attempts[k].id == id
    ensures forall j :: 0 <= j < k ==> !(attempts[j].source == source && attempts[j].id == id)
  {
    if attempts == [] then 0
    else if attempts[0].source == source && attempts[0].id == id then 0
    else 1 + FindEntry(attempts[1..], source, id)
  }

  /** An update replaces the entry of its own identity or appends one. */
  lemma {:induction false} UpsertIsUpdate(attempts: seq<Attempt>, a: Attempt)
    ensures
      var k := FindEntry(attempts, a.source, a.id);
      Upsert(attempts, a) == if k < |attempts| then attempts[k := a] else attempts + [a]
  {
    if attempts != [] && !(attempts[0].source == a.source && attempts[0].id == a.id) {
      var rest := attempts[1..];
      UpsertIsUpdate(rest, a);
      var k := FindEntry(rest, a.source, a.id);
      assert FindEntry(attempts, a.source, a.id) == k + 1;
      if k < |rest| {
        assert [attempts[0]] + rest[k := a] == attempts[k + 1 := a];
      } else {
        assert [attempts[0]] + (rest + [a]) == attempts + [a];
      }
    }
  }

  /** `begin_attempt` */
  function BeginAttempt(s: State, source: string, queryCase: string, armId: string, size: nat, f: Faults)
    : (State, Option<Attempt>)
  {
    var k := NextOrdinal(s.directories, source, 1);
    if !ValidId(source) || !ValidId(queryCase) || !ValidId(armId) || k == 0 then (s, None)
    else
      var t := s.(directories := s.directories + {(source, k)});
      if size > CONTROL_LIMIT then (t, None)
      else
        var (u, ok) := PublishControl(
          t, Observe(t, AttemptJson(source, k), size, false, false, Some(Running)), f);
        if !ok then (u, None)
        else
          var a := Attempt(source, k, queryCase, armId, Running);
          (u.(attempts := Upsert(u.attempts, a)), Some(a))
  }

  /** `_attempt_payload_complete`: `valid` is the verdict on the published payload itself. */
  predicate PayloadComplete(s: State, a: Attempt, valid: bool) {
    && ResultJson(a.source, a.id) in s.files
    && FindCell(s.cells, CellId(a.queryCase, a.armId)) < |s.cells|
    && valid
  }

  /** `AttemptOutput.seal` */
  function Seal(s: State, a: Attempt, status: Status, valid: bool, size: nat, f: Faults): (State, bool) {
    var path := AttemptJson(a.source, a.id);
    if status == Running || path !in s.files || s.files[path].status != Some(Running) then (s, false)
    else if status == Completed && !PayloadComplete(s, a, valid) then (s, false)
    else if size > CONTROL_LIMIT then (s, false)
    else
      var (t, ok) := PublishControl(s, Observe(s, path, size, true, true, Some(status)), f);
      if ok then (t.(attempts := Upsert(t.attempts, a.(status := status))), true) else (t, false)
  }

  /** The position of the first attempt with this id and these coordinates, or the attempt count. */
  function FindAttempt(attempts: seq<Attempt>, id: nat, queryCase: string, armId: string): (k: nat)
    ensures k <= |attempts|
    ensures k < |attempts| ==>
      attempts[k].id == id && attempts[k].queryCase == queryCase && attempts[k].armId == armId
    ensures forall j :: 0 <= j < k ==>
      !(attempts[j].id == id && attempts[j].queryCase == queryCase && attempts[j].armId == armId)
  {
    if attempts == [] then 0
    else if attempts[0].id == id && attempts[0].queryCase == queryCase && attempts[0].armId == armId then 0
    else 1 + FindAttempt(attempts[1..], id, queryCase, armId)
  }

  /** `accept_attempt` */
  function Accept(s: State, queryCase: string, armId: string, id: nat, persist: PersistFault): (State, bool) {
    var k := FindCell(s.cells, CellId(queryCase, armId));
    var j := FindAttempt(s.attempts, id, queryCase, armId);
    if k == |s.cells| || j == |s.attempts| || s.attempts[j].status != Completed then (s, false)
    else if s.cells[k].accepted.Some? && s.cells[k].accepted.value != id then (s, false)
    else (s.(cells := s.cells[k := s.cells[k].(accepted := Some(id))]), persist == Persisted)
  }

  predicate AllCompleted(attempts: seq<Attempt>) {
    forall i :: 0 <= i < |attempts| ==> attempts[i].status == Completed
  }

  predicate HasCompleted(attempts: seq<Attempt>, id: nat) {
    exists i :: 0 <= i < |attempts| && attempts[i].id == id && attempts[i].status == Completed
  }

  predicate MayComplete(s: State) {
    && AllCompleted(s.attempts)
    && (forall i :: 0 <= i < |s.cells| ==>
      s.cells[i].accepted.Some? && HasCompleted(s.attempts, s.cells[i].accepted.value))
    && !Poisoned(s)
  }

  /** `finalize` */
  function Finalize(s: State, status: Status, persist: PersistFault): (State, bool) {
    if status == Running then (s, false)
    else if s.status != Running then (s, s.status == status)
    else if status == Completed && !MayComplete(s) then (s, false)
    else (s.(status := status), persist == Persisted)
  }
}
