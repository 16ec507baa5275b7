/** Byte accounting of a run: exact, within every lease, and never oversubscribed. */
module CampaignAccounts {
  import opened CampaignState
  import opened CampaignLaws
  import opened Wrappers

  type Owners = Path -> Owner

  // ----- sums over live files

  ghost function Pick(keys: set<Path>): (q: Path)
    requires keys != {}
    ensures q in keys
  {
    var q :| q in keys;
    q
  }

  ghost function Bytes(files: map<Path, File>, keys: set<Path>): nat
    requires keys <= files.Keys
  {
    if keys == {} then 0 else files[Pick(keys)].size + Bytes(files, keys - {Pick(keys)})
  }

  ghost function Owned(files: map<Path, File>, owner: Owners, o: Owner): set<Path> {
    set q | q in files && owner(q) == o
  }

  /** The total size of the live files of one owner. */
  ghost function Live(files: map<Path, File>, owner: Owners, o: Owner): nat {
    Bytes(files, Owned(files, owner, o))
  }

  lemma {:induction false} BytesSplit(files: map<Path, File>, keys: set<Path>, q: Path)
    requires keys <= files.Keys && q in keys
    ensures Bytes(files, keys) == files[q].size + Bytes(files, keys - {q})
    decreases keys
  {
    var m := Pick(keys);
    if m != q {
      BytesSplit(files, keys - {m}, q);
      BytesSplit(files, keys - {q}, m);
      assert keys - {m} - {q} == keys - {q} - {m};
    }
  }

  lemma {:induction false} BytesFrame(before: map<Path, File>, after: map<Path, File>, keys: set<Path>)
    requires keys <= before.Keys && keys <= after.Keys
    requires forall q :: q in keys ==> after[q].size == before[q].size
    ensures Bytes(after, keys) == Bytes(before, keys)
    decreases keys
  {
    if keys != {} {
      BytesFrame(before, after, keys - {Pick(keys)});
    }
  }

  lemma LiveHolds(files: map<Path, File>, owner: Owners, path: Path)
    ensures SizeAt(files, path) <= Live(files, owner, owner(path))
  {
    if path in files {
      BytesSplit(files, Owned(files, owner, owner(path)), path);
    }
  }

  /** Replacing one file moves its owner's total by the difference in size. */
  lemma LiveAfterPut(files: map<Path, File>, owner: Owners, path: Path, file: File)
    ensures Live(files[path := file], owner, owner(path)) ==
      Live(files, owner, owner(path)) - SizeAt(files, path) + file.size
  {
    var after := files[path := file];
    var o := owner(path);
    var rest := Owned(files, owner, o) - {path};
    assert Owned(after, owner, o) - {path} == rest;
    BytesSplit(after, Owned(after, owner, o), path);
    BytesFrame(files, after, rest);
    if path in files {
      BytesSplit(files, Owned(files, owner, o), path);
    } else {
      assert Owned(files, owner, o) == rest;
    }
  }

  /** Files of other owners do not matter. */
  lemma LiveFrame(before: map<Path, File>, after: map<Path, File>, owner: Owners, path: Path, o: Owner)
    requires FilesExcept(before, after, path) && owner(path) != o
    ensures Live(after, owner, o) == Live(before, owner, o)
  {
    assert Owned(after, owner, o) == Owned(before, owner, o);
    BytesFrame(before, after, Owned(before, owner, o));
  }

  // ----- sums over cells

  function WrittenOf(c: Cell): nat { c.written }

  lemma {:induction false} SumOverUpdate(cells: seq<Cell>, f: Cell -> nat, k: nat, c: Cell)
    requires k < |cells|
    ensures SumOver(cells[k := c], f) == SumOver(cells, f) - f(cells[k]) + f(c)
    ensures f(cells[k]) <= SumOver(cells, f)
  {
    var last := |cells| - 1;
    if k < last {
      SumOverUpdate(cells[..last], f, k, c);
      assert cells[k := c][..last] == cells[..last][k := c];
    } else {
      assert cells[k := c][..last] == cells[..last];
    }
  }

  lemma SumOverAppend(cells: seq<Cell>, f: Cell -> nat, c: Cell)
    ensures SumOver(cells + [c], f) == SumOver(cells, f) + f(c)
  {
  }

  /** An empty campaign registers the fixed documents; each cell adds its lease, its index entries, a line for each
      attempt and sample, its captures, and an entry for its arm if the arm is new. */
  lemma BudgetPerCell(cells: seq<Cell>, c: Cell)
    ensures CampaignBudget([]) == 52_000
    ensures CampaignBudget(cells + [c]) == CampaignBudget(cells) + CellBudget(c)
      + (if exists i :: 0 <= i < |cells| && cells[i].armId == c.armId then 0 else 1_024)
      + 1_024 * c.queryCases + 1_280 + 201_024 * c.summaryCaptures + 256 * c.attempts + 256 * c.sampleRows
  {
    SumOverAppend(cells, QueryCasesOf, c);
    SumOverAppend(cells, CapturesOf, c);
    SumOverAppend(cells, CellBudget, c);
    SumOverAppend(cells, AttemptsOf, c);
    SumOverAppend(cells, SampleRowsOf, c);
    assert Arms(cells + [c]) == Arms(cells) + {c.armId};
    assert c.armId in Arms(cells) <==> exists i :: 0 <= i < |cells| && cells[i].armId == c.armId;
    assert |Arms([])| == 0;
  }

  lemma {:induction false} SumOverAtMost(cells: seq<Cell>, f: Cell -> nat, g: Cell -> nat)
    requires forall i :: 0 <= i < |cells| ==> f(cells[i]) <= g(cells[i])
    ensures SumOver(cells, f) <= SumOver(cells, g)
  {
    if cells != [] { SumOverAtMost(cells[..|cells| - 1], f, g); }
  }

  // ----- the invariant

  /** The control plane's own records are not payload. */
  ghost predicate OwnersOk(owner: Owners) {
    && owner(CampaignJson) == Control
    && (forall source, id :: owner(AttemptJson(source, id)) == Control)
    && (forall source, id :: owner(ResultJson(source, id)).Payload?)
  }

  /** Payload is published through its own cell, control records through the control plane. */
  ghost predicate Disciplined(owner: Owners, op: Op) {
    match op
    case PublishCellOp(id, p, _) => owner(p.path) == Payload(id)
    case PublishControlOp(p, _) => owner(p.path) == Control && !p.path.AttemptJson?
    case _ => true
  }

  ghost predicate DistinctCells(cells: seq<Cell>) {
    forall i, j :: 0 <= i < j < |cells| ==> IdOf(cells[i]) != IdOf(cells[j])
  }

  /** The leases of the registered cells fit the registered budget, which fits the campaign limit. */
  ghost predicate LeasesFit(s: State) {
    && DistinctCells(s.cells)
    && (forall i :: 0 <= i < |s.cells| ==> s.cells[i].budget == CellBudget(s.cells[i]))
    && SumOver(s.cells, CellBudget) <= s.budget <= TOTAL_LIMIT
  }

  /** Each cell is charged exactly its live bytes, within its lease, and the campaign their sum. */
  ghost predicate Exact(s: State, owner: Owners) {
    && (forall i :: 0 <= i < |s.cells| ==> CellExact(s, owner, s.cells[i]))
    && s.written == SumOver(s.cells, WrittenOf)
    && (forall q :: q in s.files && owner(q).Payload? ==>
      s.sealed && FindCell(s.cells, owner(q).cell) < |s.cells|)
  }

  ghost predicate CellExact(s: State, owner: Owners, c: Cell) {
    c.written == Live(s.files, owner, Payload(IdOf(c))) && c.written <= c.budget
  }

  ghost predicate BooksOk(s: State, owner: Owners) {
    LeasesFit(s) && (s.registration != PublicationUnknown ==> Exact(s, owner))
  }

  /** The campaign as a whole stays within its registered budget and within 64 MiB. */
  lemma TotalIsBounded(s: State, owner: Owners)
    requires BooksOk(s, owner) && s.registration != PublicationUnknown
    ensures s.written <= s.budget <= TOTAL_LIMIT
  {
    assert forall i :: 0 <= i < |s.cells| ==> CellExact(s, owner, s.cells[i]);
    SumOverAtMost(s.cells, WrittenOf, CellBudget);
  }

  /** Only a control record changed, and the books did not. */
  lemma ControlKeepsBooks(s: State, t: State, owner: Owners, path: Path)
    requires BooksOk(s, owner) && owner(path) == Control
    requires t.cells == s.cells && t.written == s.written && t.budget == s.budget && t.sealed == s.sealed
    requires FilesExcept(s.files, t.files, path)
    requires t.registration != PublicationUnknown ==> s.registration != PublicationUnknown
    ensures BooksOk(t, owner)
  {
    if t.registration != PublicationUnknown {
      forall i | 0 <= i < |t.cells| ensures CellExact(t, owner, t.cells[i]) {
        assert CellExact(s, owner, s.cells[i]);
        LiveFrame(s.files, t.files, owner, path, Payload(IdOf(t.cells[i])));
      }
    }
  }

  lemma FindCellIsExact(cells: seq<Cell>, k: nat)
    requires DistinctCells(cells) && k < |cells|
    ensures FindCell(cells, IdOf(cells[k])) == k
  {
  }

  /** Changing only the use of a cell leaves every lease as it was. */
  lemma UseKeepsLeases(s: State, t: State, k: nat)
    requires LeasesFit(s) && k < |s.cells| && t.budget == s.budget
    requires |t.cells| == |s.cells| && t.cells == s.cells[k := t.cells[k]]
    requires SameContract(t.cells[k], s.cells[k]) && t.cells[k].budget == s.cells[k].budget
    ensures LeasesFit(t)
  {
    SumOverUpdate(s.cells, CellBudget, k, t.cells[k]);
    assert forall i :: 0 <= i < |t.cells| ==> IdOf(t.cells[i]) == IdOf(s.cells[i]);
  }

  /** What a write replaces is what its target holds, and that was charged before. */
  lemma ReplacesLiveBytes(s: State, owner: Owners, id: string, p: Prepared)
    requires BooksOk(s, owner) && ReachesWrite(s, id, p) && owner(p.path) == Payload(id)
    ensures Replacing(p) == SizeAt(s.files, p.path)
    ensures Replacing(p) <= s.cells[FindCell(s.cells, id)].written <= s.written
  {
    var k := FindCell(s.cells, id);
    assert CellExact(s, owner, s.cells[k]);
    LiveHolds(s.files, owner, p.path);
    SumOverUpdate(s.cells, WrittenOf, k, s.cells[k]);
  }

  lemma ChargedCellIsExact(s: State, owner: Owners, id: string, p: Prepared)
    requires BooksOk(s, owner) && ReachesWrite(s, id, p) && owner(p.path) == Payload(id)
    ensures
      var k := FindCell(s.cells, id);
      CellExact(BookWrite(s, k, p), owner, BookWrite(s, k, p).cells[k])
  {
    var k := FindCell(s.cells, id);
    assert CellExact(s, owner, s.cells[k]);
    ReplacesLiveBytes(s, owner, id, p);
    LiveAfterPut(s.files, owner, p.path, File(p.size, s.clock, p.status));
  }

  /** A committed payload is charged exactly. */
  lemma CommitKeepsBooks(s: State, owner: Owners, id: string, p: Prepared)
    requires BooksOk(s, owner) && ReachesWrite(s, id, p) && owner(p.path) == Payload(id)
    ensures BooksOk(BookWrite(s, FindCell(s.cells, id), p), owner)
  {
    var k := FindCell(s.cells, id);
    var t := BookWrite(s, k, p);
    UseKeepsLeases(s, t, k);
    ReplacesLiveBytes(s, owner, id, p);
    ChargedCellIsExact(s, owner, id, p);
    SumOverUpdate(s.cells, WrittenOf, k, t.cells[k]);
    OthersStayExact(s, t, owner, k, p.path);
  }

  lemma OthersStayExact(s: State, t: State, owner: Owners, k: nat, path: Path)
    requires LeasesFit(s) && Exact(s, owner) && k < |s.cells| && owner(path) == Payload(IdOf(s.cells[k]))
    requires FilesExcept(s.files, t.files, path) && t.sealed
    requires |t.cells| == |s.cells| && t.cells == s.cells[k := t.cells[k]] && IdOf(t.cells[k]) == IdOf(s.cells[k])
    ensures forall i :: 0 <= i < |t.cells| && i != k ==> CellExact(t, owner, t.cells[i])
    ensures forall q :: q in t.files && owner(q).Payload? ==>
      t.sealed && FindCell(t.cells, owner(q).cell) < |t.cells|
  {
    forall i | 0 <= i < |t.cells| && i != k ensures CellExact(t, owner, t.cells[i]) {
      assert CellExact(s, owner, s.cells[i]);
      LiveFrame(s.files, t.files, owner, path, Payload(IdOf(t.cells[i])));
    }
    forall q | q in t.files && owner(q).Payload? ensures FindCell(t.cells, owner(q).cell) < |t.cells| {
      if q == path {
        FindCellIsExact(s.cells, k);
      }
      SameIds(s.cells, t.cells, owner(q).cell);
    }
  }

  lemma SameIds(before: seq<Cell>, after: seq<Cell>, id: string)
    requires |before| <= |after| && forall i :: 0 <= i < |before| ==> IdOf(after[i]) == IdOf(before[i])
    requires FindCell(before, id) < |before|
    ensures FindCell(after, id) < |after|
  {
  }

  lemma RegisterKeepsBooks(s: State, t: State, owner: Owners, id: string, wanted: Cell)
    requires BooksOk(s, owner) && Registered(s, t, id, wanted)
    ensures BooksOk(t, owner)
  {
    var c := NewCell(wanted);
    SumOverAppend(s.cells, CellBudget, c);
    SumOverAppend(s.cells, WrittenOf, c);
    assert IdOf(c) == id;
    assert Owned(s.files, owner, Payload(id)) == {};
    forall i | 0 <= i < |t.cells| ensures CellExact(t, owner, t.cells[i]) {
      if i < |s.cells| {
        assert CellExact(s, owner, s.cells[i]);
      }
    }
  }

  lemma AcceptKeepsBooks(s: State, owner: Owners, queryCase: string, armId: string, id: nat, persist: PersistFault)
    requires BooksOk(s, owner)
    ensures BooksOk(Accept(s, queryCase, armId, id, persist).0, owner)
  {
    var t := Accept(s, queryCase, armId, id, persist).0;
    var k := FindCell(s.cells, CellId(queryCase, armId));
    if t != s {
      UseKeepsLeases(s, t, k);
      if t.registration != PublicationUnknown {
        SumOverUpdate(s.cells, WrittenOf, k, t.cells[k]);
        forall i | 0 <= i < |t.cells| ensures CellExact(t, owner, t.cells[i]) {
          assert CellExact(s, owner, s.cells[i]);
        }
        forall q | q in t.files && owner(q).Payload? ensures FindCell(t.cells, owner(q).cell) < |t.cells| {
          SameIds(s.cells, t.cells, owner(q).cell);
        }
      }
    }
  }

  lemma PublishCellKeepsBooks(s: State, owner: Owners, id: string, p: Prepared, f: Faults)
    requires OwnersOk(owner) && BooksOk(s, owner) && owner(p.path) == Payload(id)
    ensures BooksOk(PublishCell(s, id, p, f).0, owner)
  {
    var t := PublishCell(s, id, p, f).0;
    AfterPublishCell(s, id, p, f);
    if Refused(s, t) {
      if t != s { ControlKeepsBooks(s, t, owner, CampaignJson); }
    } else if Committed(s, t, id, p) {
      CommitKeepsBooks(s, owner, id, p);
    }
  }

  /** Every operation keeps the books. */
  lemma StepKeepsBooks(s: State, owner: Owners, op: Op)
    requires OwnersOk(owner) && BooksOk(s, owner) && Disciplined(owner, op)
    requires Poisoned(s) ==> s.status == Incomplete
    ensures BooksOk(Next(s, op), owner)
  {
    StepAdvances(s, op);
    match op
    case RegisterOp(id, wanted, persist, mark) =>
      AfterRegister(s, id, wanted, persist, mark);
      var t := Next(s, op);
      if Registered(s, t, id, wanted) {
        RegisterKeepsBooks(s, t, owner, id, wanted);
      } else if t != s {
        ControlKeepsBooks(s, t, owner, CampaignJson);
      }
    case SealRegistrationOp(persist) =>
      SealingKeepsBooks(s, owner, persist);
    case PrepareOp(id, path, size, overwrite, omitted, mark) =>
      AfterMark(s, omitted, mark);
      if Next(s, op) != s { ControlKeepsBooks(s, Next(s, op), owner, CampaignJson); }
    case PublishCellOp(id, p, faults) =>
      PublishCellKeepsBooks(s, owner, id, p, faults);
    case PublishControlOp(p, faults) =>
      AfterPublishControl(s, p, faults);
      ControlKeepsBooks(s, Next(s, op), owner, p.path);
    case BeginOp(source, queryCase, armId, size, faults) =>
      AfterBegin(s, source, queryCase, armId, size, faults);
      var k := NextOrdinal(s.directories, source, 1);
      if Next(s, op) != s { ControlKeepsBooks(s, Next(s, op), owner, AttemptJson(source, k)); }
    case SealOp(a, status, valid, size, faults) =>
      AfterSeal(s, a, status, valid, size, faults);
      if Next(s, op) != s { ControlKeepsBooks(s, Next(s, op), owner, AttemptJson(a.source, a.id)); }
    case AcceptOp(queryCase, armId, id, persist) =>
      AcceptKeepsBooks(s, owner, queryCase, armId, id, persist);
    case FinalizeOp(status, persist) =>
      FinalizingKeepsBooks(s, owner, status, persist);
  }

  lemma SealingKeepsBooks(s: State, owner: Owners, persist: PersistFault)
    requires BooksOk(s, owner)
    ensures BooksOk(SealRegistration(s, persist).0, owner)
  {
  }

  lemma FinalizingKeepsBooks(s: State, owner: Owners, status: Status, persist: PersistFault)
    requires BooksOk(s, owner)
    ensures BooksOk(Finalize(s, status, persist).0, owner)
  {
    var t := Finalize(s, status, persist).0;
    assert forall c :: CellExact(s, owner, c) ==> CellExact(t, owner, c);
  }
}
