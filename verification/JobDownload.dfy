/** The `download` command on a data root, as a program over the journal's atomic steps. */
module JobDownload {
  import opened JobJournal
  import opened Wrappers

  datatype Outcome =
    | Done
    | NotOwned
    | Drift
    | UnownedInput
    | MissingPartial
    | MissingAsset
    | UrlMismatch
    | PartialExists
    | TransferFailed
    | SizeMismatch
    | DigestMismatch

  /** What the server sends for one table before it stops or breaks off. */
  datatype Response = Response(blocks: seq<Content>, complete: bool)

  function Flatten(blocks: seq<Content>): Content {
    if blocks == [] then [] else Flatten(blocks[..|blocks| - 1]) + blocks[|blocks| - 1]
  }

  /** `recover_pending` has nothing to complain about. */
  predicate Recoverable(w: Release, d: Disk)
    requires d.manifest.Some?
  {
    match d.manifest.value.pending
    case None => true
    case Some(p) =>
      if !p.validated then Published(p.asset.named) !in d.files
      else if Published(p.asset.named) in d.files then
        p.partial !in d.files && MatchesRecord(w, d, Published(p.asset.named), p.asset)
      else MatchesRecord(w, d, p.partial, p.asset)
  }

  /** The root after the journal is resolved: an unfinished download is forgotten, a validated one committed. */
  function Recovered(w: Release, d: Disk): Disk
    requires d.manifest.Some? && Recoverable(w, d)
  {
    var m := d.manifest.value;
    match m.pending
    case None => d
    case Some(p) =>
      if !p.validated then
        d.(manifest := Some(m.(pending := None)), files := d.files - {p.partial})
      else
        var published := Published(p.asset.named);
        d.(manifest := Some(m.(assets := m.assets[p.table := p.asset], pending := None)),
           files := if published in d.files then d.files
                    else (d.files - {p.partial})[published := d.files[p.partial]])
  }

  /** A sound root is always recoverable. */
  lemma SoundIsRecoverable(w: Release, d: Disk)
    requires Sound(w, d) && d.manifest.Some?
    ensures Recoverable(w, d)
    ensures PrefixOk(w, d.manifest.value)
  {
  }

  /** The root holds exactly the declared tables of this release, each with the recorded and released bytes. */
  ghost predicate Complete(w: Release, d: Disk) {
    && d.manifest.Some? && d.manifest.value.pending.None?
    && d.manifest.value.source == w.source && d.manifest.value.release == Some(w.identity)
    && d.manifest.value.assets.Keys == w.urls.Keys
    && forall t :: t in w.urls ==> Intact(w, d, t)
  }

  /** No recorded table was dropped or given another record. */
  ghost predicate Retains(before: Disk, after: Disk) {
    before.manifest.Some? ==>
      && after.manifest.Some?
      && forall t :: t in before.manifest.value.assets ==>
        t in after.manifest.value.assets && after.manifest.value.assets[t] == before.manifest.value.assets[t]
  }

  /** The manifest is of this corpus and release, and every record in it fits. */
  ghost predicate Current(w: Release, d: Disk) {
    && d.manifest.Some? && d.manifest.value.source == w.source && d.manifest.value.release == Some(w.identity)
    && forall t :: t in d.manifest.value.assets ==> FitsRelease(w, t, d.manifest.value.assets[t], true)
  }

  lemma RetainsAll(before: Disk, between: Disk, after: Disk)
    requires Retains(before, between) && Retains(between, after)
    ensures Retains(before, after)
  {
  }

  lemma RecoveryRetains(w: Release, d: Disk)
    requires d.manifest.Some? && PrefixOk(w, d.manifest.value) && Recoverable(w, d)
    ensures Retains(d, Recovered(w, d))
    ensures d.manifest.value.release == Some(w.identity) ==> Current(w, Recovered(w, d))
  {
    var m := d.manifest.value;
    if m.pending.Some? && m.pending.value.validated && m.pending.value.table in m.assets {
      assert m.pending.value.asset == m.assets[m.pending.value.table];
    }
  }

  lemma EnsuringRetains(w: Release, d: Disk, t: Table, hex: string, response: Response)
    requires Current(w, d) && Ready(w, d, t, hex, response)
    ensures Retains(d, Ensured(w, d, t, Flatten(response.blocks)))
    ensures Current(w, Ensured(w, d, t, Flatten(response.blocks)))
  {
    if Published(t) !in d.files && t in d.manifest.value.assets {
      assert d.manifest.value.assets[t] == FullRecord(w, t, Flatten(response.blocks));
    }
  }

  /** What makes recovery stop, in terms of the bytes on disk. */
  ghost predicate RefusesPending(w: Release, d: Disk, outcome: Outcome)
    requires d.manifest.Some?
  {
    match d.manifest.value.pending
    case None => outcome == Done
    case Some(p) =>
      var path := Published(p.asset.named);
      if !p.validated then (outcome == if path in d.files then UnownedInput else Done)
      else if path in d.files then
        (outcome == if p.partial !in d.files && Describes(w, p.asset, d.files[path]) then Done else UnownedInput)
      else
        (outcome == if p.partial in d.files && Describes(w, p.asset, d.files[p.partial]) then Done
                    else MissingPartial)
  }

  /** A published file that its record does not describe, or that has no record. */
  predicate Changed(w: Release, d: Disk, t: Table)
    requires d.manifest.Some?
  {
    && Published(t) in d.files
    && (t in d.manifest.value.assets ==> !Describes(w, d.manifest.value.assets[t], d.files[Published(t)]))
  }

  /** The release publishes the table under the URL the corpus names. */
  predicate Offered(w: Release, t: Table) {
    t in w.urls && t in w.assets && w.assets[t].url == w.urls[t]
  }

  predicate Served(w: Release, server: Table -> Response, t: Table) {
    server(t).complete && IsAsset(w, t, Flatten(server(t).blocks))
  }

  class Root {
    var disk: Disk
    ghost var disks: seq<Disk>
    ghost var steps: seq<Step>

    /** The durable states passed through so far form a run that ends in the current one. */
    ghost predicate Valid(w: Release)
      reads this
    {
      IsRun(w, disks, steps) && disks[|disks| - 1] == disk
    }

    /** Reopen whatever a previous process left behind. */
    constructor (d: Disk)
      ensures disk == d && disks == [d] && steps == []
    {
      disk := d;
      disks := [d];
      steps := [];
    }

    /** One atomic, durable change. */
    method Do(w: Release, step: Step)
      requires Valid(w) && Enabled(w, disk, step)
      modifies this
      ensures Valid(w) && disk == Apply(w, old(disk), step)
      ensures disks == old(disks) + [disk] && steps == old(steps) + [step]
    {
      disk := Apply(w, disk, step);
      disks := disks + [disk];
      steps := steps + [step];
    }

    /** `recover_pending` */
    method RecoverPending(w: Release) returns (outcome: Outcome)
      requires Valid(w) && disk.manifest.Some?
      requires disk.manifest.value.pending.Some? ==> disk.manifest.value.pending.value.partial.Partial?
      modifies this
      ensures Valid(w) && old(disks) <= disks && old(steps) <= steps
      ensures outcome == Done <==> Recoverable(w, old(disk))
      ensures outcome == Done ==> disk == Recovered(w, old(disk))
      ensures outcome != Done ==> disk == old(disk) && outcome in {UnownedInput, MissingPartial}
      ensures RefusesPending(w, old(disk), outcome)
    {
      if disk.manifest.value.pending.None? {
        return Done;
      }
      var p := disk.manifest.value.pending.value;
      var path := Published(p.asset.named);
      if !p.validated {
        if path in disk.files {
          return UnownedInput;
        }
        if p.partial in disk.files {
          Do(w, Discard);
        }
        Do(w, Stage);
        Do(w, Abandon);
        return Done;
      }
      if path in disk.files {
        if p.partial in disk.files || !MatchesRecord(w, disk, path, p.asset) {
          return UnownedInput;
        }
      } else {
        if !MatchesRecord(w, disk, p.partial, p.asset) {
          return MissingPartial;
        }
        Do(w, Publish);
      }
      Do(w, Stage);
      Do(w, Commit);
      outcome := Done;
    }

    /** Create the partial exclusively and append the blocks as they arrive. */
    method Transfer(w: Release, blocks: seq<Content>) returns (content: Content)
      requires Valid(w) && Downloading(disk) && PartialOf(disk).Partial? && PartialOf(disk) !in disk.files
      modifies this
      ensures Valid(w) && old(disks) <= disks && old(steps) <= steps
      ensures content == Flatten(blocks)
      ensures disk == old(disk).(files := old(disk).files[PartialOf(old(disk)) := content])
    {
      content := [];
      Do(w, Write(content));
      for i := 0 to |blocks|
        invariant Valid(w) && old(disks) <= disks && old(steps) <= steps
        invariant content == Flatten(blocks[..i])
        invariant disk == old(disk).(files := old(disk).files[PartialOf(old(disk)) := content])
      {
        assert blocks[..i + 1][..i] == blocks[..i];
        content := content + blocks[i];
        Do(w, Write(content));
      }
      assert blocks[..|blocks|] == blocks;
    }

    /** Journal, transfer, validate, publish and commit one table. */
    method FetchTable(w: Release, t: Table, hex: string, response: Response) returns (outcome: Outcome)
      requires Valid(w) && disk.manifest.Some? && disk.manifest.value.pending.None?
      requires Offered(w, t) && Published(t) !in disk.files
      modifies this
      ensures Valid(w) && old(disks) <= disks && old(steps) <= steps
      ensures outcome !in {NotOwned, Drift, UnownedInput}
      ensures outcome == Done <==> Fetchable(w, old(disk), t, hex, response)
      ensures outcome == Done ==> disk == Fetched(w, old(disk), t, Flatten(response.blocks))
      ensures outcome != Done ==> disk == Begun(w, old(disk), t, hex)
    {
      Do(w, Stage);
      Do(w, Begin(t, hex));
      assert disk == Begun(w, old(disk), t, hex);
      if Partial(t, hex) in disk.files {
        return PartialExists;
      }
      var content := Transfer(w, response.blocks);
      outcome := CheckContent(w, disk.manifest.value, t, response, content);
      if outcome != Done {
        Do(w, Discard);
        assert disk.files == old(disk.files);
        return;
      }
      outcome := Checkpoint(w, t, content);
      assert disk.files == old(disk.files)[Published(t) := content];
    }

    /** Journal the hashed partial and publish it. */
    method Checkpoint(w: Release, t: Table, content: Content) returns (outcome: Outcome)
      requires Valid(w) && Downloading(disk) && Offered(w, t) && IsAsset(w, t, content)
      requires disk.manifest.value.pending.value.table == t
      requires disk.manifest.value.pending.value.asset == NewRecord(w, t)
      requires PartialOf(disk).Partial? && PartialOf(disk) in disk.files && disk.files[PartialOf(disk)] == content
      requires Published(t) !in disk.files
      modifies this
      ensures Valid(w) && old(disks) <= disks && old(steps) <= steps
      ensures outcome == Done
      ensures disk.manifest == Some(old(disk.manifest.value).(pending := None,
        assets := old(disk.manifest.value.assets)[t := FullRecord(w, t, content)]))
      ensures disk.files == (old(disk.files) - {old(PartialOf(disk))})[Published(t) := content]
      ensures disk.temps == old(disk.temps)
    {
      Do(w, Stage);
      Do(w, Validate);
      outcome := RecoverPending(w);
    }

    /** `download`: check the retained prefix, resolve the journal, then fetch every missing table. */
    method Download(w: Release, hexes: Table -> string, server: Table -> Response) returns (outcome: Outcome)
      requires Valid(w) && WellFormed(w)
      modifies this
      ensures Valid(w) && old(disks) <= disks && old(steps) <= steps
      ensures outcome == Done ==> Complete(w, disk)
      ensures outcome == NotOwned <==> !Restartable(old(disk))
      ensures outcome in {NotOwned, Drift} ==> disk == old(disk)
      ensures Retains(old(disk), disk)
      ensures Restartable(old(disk)) && Smooth(w, old(disk), server) ==> outcome == Done
    {
      if !Restartable(disk) {
        return NotOwned;
      }
      if disk.manifest.Some? && !PrefixOk(w, disk.manifest.value) {
        return Drift;
      }
      outcome := Prepare(w);
      if outcome == Done {
        outcome := FetchMissing(w, hexes, server, |old(disks)| - 1);
      }
    }

    /** Refresh the manifest and resolve the journal. */
    method Prepare(w: Release) returns (outcome: Outcome)
      requires Valid(w) && (disk.manifest.Some? ==> PrefixOk(w, disk.manifest.value))
      modifies this
      ensures Valid(w) && old(disks) <= disks && old(steps) <= steps
      ensures outcome !in {NotOwned, Drift}
      ensures outcome == Done ==>
        disk.manifest.Some? && disk.manifest.value.pending.None? && Current(w, disk)
      ensures Sound(w, old(disk)) ==> outcome == Done
      ensures Retains(old(disk), disk)
    {
      Do(w, Stage);
      Do(w, Refresh);
      RunIsRecoverable(w, disks, steps, |old(disks)| - 1);
      ghost var refreshed := disk;
      outcome := RecoverPending(w);
      if outcome == Done {
        RecoveryRetains(w, refreshed);
      }
    }

    /** The loop over the corpus' tables. `first` is the state the whole download started from. */
    method FetchMissing(w: Release, hexes: Table -> string, server: Table -> Response, ghost first: nat)
      returns (outcome: Outcome)
      requires Valid(w) && WellFormed(w) && first < |disks|
      requires disk.manifest.Some? && disk.manifest.value.pending.None? && Current(w, disk)
      modifies this
      ensures Valid(w) && old(disks) <= disks && old(steps) <= steps
      ensures outcome == Done ==> Complete(w, disk)
      ensures outcome !in {NotOwned, Drift}
      ensures Smooth(w, old(disks)[first], server) ==> outcome == Done
      ensures Retains(old(disk), disk)
    {
      for i := 0 to |w.order|
        invariant Valid(w) && old(disks) <= disks && old(steps) <= steps
        invariant disk.manifest.Some? && disk.manifest.value.pending.None? && Current(w, disk)
        invariant AllCommitted(w, disk, w.order[..i]) && Retains(old(disk), disk)
      {
        var t := w.order[i];
        ghost var before := disk;
        assert disks[first] == old(disks)[first];
        outcome := NextTable(w, t, hexes(t), server, first, w.order[..i]);
        RetainsAll(old(disk), before, disk);
        if outcome != Done {
          return;
        }
        assert w.order[..i + 1] == w.order[..i] + [t];
      }
      assert w.order[..|w.order|] == w.order;
      CommittedIsComplete(w, disk);
      outcome := Done;
    }

    /** One turn of the loop, after the tables in `done`. */
    method NextTable(
      w: Release, t: Table, hex: string, server: Table -> Response, ghost first: nat, ghost done: seq<Table>)
      returns (outcome: Outcome)
      requires Valid(w) && t in w.urls && first < |disks|
      requires disk.manifest.Some? && disk.manifest.value.pending.None?
      requires Current(w, disk) && AllCommitted(w, disk, done)
      modifies this
      ensures Valid(w) && old(disks) <= disks && old(steps) <= steps
      ensures outcome !in {NotOwned, Drift}
      ensures Retains(old(disk), disk)
      ensures Smooth(w, old(disks)[first], server) ==> outcome == Done
      ensures outcome == Done ==>
        && disk.manifest.Some? && disk.manifest.value.pending.None?
        && Current(w, disk) && AllCommitted(w, disk, done + [t])
    {
      ghost var before := disk;
      RunIsReady(w, disks, steps, first, t, hex, server);
      outcome := EnsureTable(w, t, hex, server(t));
      if outcome == Done {
        EnsureKeepsCommitted(w, before, t, Flatten(server(t).blocks), done);
        EnsuringRetains(w, before, t, hex, server(t));
      }
    }

    /** One turn of the loop: keep a committed input that is intact, fetch one that is absent. */
    method EnsureTable(w: Release, t: Table, hex: string, response: Response) returns (outcome: Outcome)
      requires Valid(w) && t in w.urls
      requires disk.manifest.Some? && disk.manifest.value.pending.None?
      modifies this
      ensures Valid(w) && old(disks) <= disks && old(steps) <= steps
      ensures outcome !in {NotOwned, Drift}
      ensures outcome == Done <==> Ready(w, old(disk), t, hex, response)
      ensures outcome == Done ==> disk == Ensured(w, old(disk), t, Flatten(response.blocks))
      ensures outcome == UnownedInput <==> Offered(w, t) && Changed(w, old(disk), t)
      ensures outcome == UnownedInput ==> disk == old(disk)
      ensures outcome != Done ==> Retains(old(disk), disk) && disk.files == old(disk.files)
    {
      if t !in w.assets {
        return MissingAsset;
      }
      if w.assets[t].url != w.urls[t] {
        return UrlMismatch;
      }
      if Published(t) in disk.files {
        if t !in disk.manifest.value.assets
           || !MatchesRecord(w, disk, Published(t), disk.manifest.value.assets[t]) {
          return UnownedInput;
        }
        return Done;
      }
      outcome := FetchTable(w, t, hex, response);
    }
  }

  /** The checks between the last byte and the validated checkpoint. */
  function CheckContent(w: Release, m: Manifest, t: Table, response: Response, content: Content): Outcome
    requires t in w.assets
  {
    if !response.complete then TransferFailed
    else if |content| != w.assets[t].size then SizeMismatch
    else if w.assets[t].digest.Some? && w.assets[t].digest.value != w.sha256(content) then DigestMismatch
    else if t in m.assets && m.assets[t].sha256 != Some(w.sha256(content)) then DigestMismatch
    else Done
  }

  predicate Fetchable(w: Release, d: Disk, t: Table, hex: string, response: Response)
    requires t in w.assets && d.manifest.Some?
  {
    && Partial(t, hex) !in d.files
    && CheckContent(w, d.manifest.value, t, response, Flatten(response.blocks)) == Done
  }

  function FullRecord(w: Release, t: Table, content: Content): Record
    requires t in w.urls && t in w.assets
  {
    NewRecord(w, t).(sha256 := Some(w.sha256(content)))
  }

  /** The root after one table was downloaded and committed. */
  function Fetched(w: Release, d: Disk, t: Table, content: Content): Disk
    requires d.manifest.Some? && t in w.urls && t in w.assets
  {
    var m := d.manifest.value;
    d.(manifest := Some(m.(assets := m.assets[t := FullRecord(w, t, content)])),
       files := d.files[Published(t) := content])
  }

  /** The root after a download was journalled and then failed. */
  function Begun(w: Release, d: Disk, t: Table, hex: string): Disk
    requires d.manifest.Some? && t in w.urls && t in w.assets
  {
    d.(manifest := Some(d.manifest.value.(
      pending := Some(Pending(t, false, Partial(t, hex), NewRecord(w, t))))))
  }

  /** The release offers every table, and the server delivers those that are not on disk yet. */
  ghost predicate Suffices(w: Release, d: Disk, server: Table -> Response) {
    forall t :: t in w.urls ==> Offered(w, t) && (Held(d, t) || Served(w, server, t))
  }

  /** Nobody interfered with the root, and what is missing can be had. */
  ghost predicate Smooth(w: Release, d: Disk, server: Table -> Response) {
    Sound(w, d) && Suffices(w, d, server)
  }

  ghost predicate AllCommitted(w: Release, d: Disk, tables: seq<Table>)
    requires d.manifest.Some?
  {
    forall t :: t in tables ==>
      t in d.manifest.value.assets && MatchesRecord(w, d, Published(t), d.manifest.value.assets[t])
  }

  lemma CommittedIsComplete(w: Release, d: Disk)
    requires WellFormed(w) && Current(w, d) && d.manifest.value.pending.None? && AllCommitted(w, d, w.order)
    ensures Complete(w, d)
  {
  }

  lemma RunIsRecoverable(w: Release, disks: seq<Disk>, steps: seq<Step>, first: nat)
    requires IsRun(w, disks, steps) && first < |disks|
    ensures Sound(w, disks[first]) && disks[|disks| - 1].manifest.Some? ==> Recoverable(w, disks[|disks| - 1])
  {
    if Sound(w, disks[first]) {
      RunsAreSound(w, disks, steps, first, |disks| - 1);
    }
  }

  /** The loop gets past table `t`. */
  predicate Ready(w: Release, d: Disk, t: Table, hex: string, response: Response)
    requires d.manifest.Some?
  {
    && Offered(w, t)
    && (if Published(t) in d.files then
          t in d.manifest.value.assets && MatchesRecord(w, d, Published(t), d.manifest.value.assets[t])
        else Fetchable(w, d, t, hex, response))
  }

  function Ensured(w: Release, d: Disk, t: Table, content: Content): Disk
    requires d.manifest.Some? && Offered(w, t)
  {
    if Published(t) in d.files then d else Fetched(w, d, t, content)
  }

  lemma SoundIsReady(w: Release, d: Disk, t: Table, hex: string, server: Table -> Response)
    requires Sound(w, d) && d.manifest.Some? && d.manifest.value.pending.None?
    requires Offered(w, t) && (t in d.manifest.value.assets || Served(w, server, t))
    ensures Ready(w, d, t, hex, server(t))
  {
  }

  /** From a sound root with nothing pending, no table can stop the loop. */
  lemma RunIsReady(
    w: Release, disks: seq<Disk>, steps: seq<Step>, first: nat, t: Table, hex: string, server: Table -> Response)
    requires IsRun(w, disks, steps) && first < |disks| && t in w.urls
    requires disks[|disks| - 1].manifest.Some? && disks[|disks| - 1].manifest.value.pending.None?
    ensures Smooth(w, disks[first], server) ==> Ready(w, disks[|disks| - 1], t, hex, server(t))
  {
    if Smooth(w, disks[first], server) {
      var last := |disks| - 1;
      RunsAreSound(w, disks, steps, first, last);
      if Held(disks[first], t) {
        HeldIsForever(w, disks, steps, first, last, t);
      }
      SoundIsReady(w, disks[last], t, hex, server);
    }
  }

  lemma EnsureKeepsCommitted(w: Release, d: Disk, t: Table, content: Content, tables: seq<Table>)
    requires d.manifest.Some? && Offered(w, t) && AllCommitted(w, d, tables)
    requires if Published(t) in d.files
             then t in d.manifest.value.assets && MatchesRecord(w, d, Published(t), d.manifest.value.assets[t])
             else |content| == w.assets[t].size
    ensures AllCommitted(w, Ensured(w, d, t, content), tables + [t])
  {
  }

  /** Crash any run from an empty root at any point, and run `download` again on what is left. */
  method RestartAfterCrash(
    w: Release, left: Disk, hexes: Table -> string, server: Table -> Response,
    ghost disks: seq<Disk>, ghost steps: seq<Step>, ghost at: nat)
    returns (outcome: Outcome, after: Disk)
    requires WellFormed(w)
    requires IsRun(w, disks, steps) && disks[0] == EMPTY_ROOT && at < |disks| && disks[at] == left
    ensures Sound(w, after)
    ensures outcome == Done ==> Complete(w, after)
    ensures outcome == NotOwned <==> Stranded(steps, at)
    ensures !Stranded(steps, at) && Suffices(w, left, server) ==> outcome == Done
  {
    EmptyRootIsSound(w);
    RunsAreSound(w, disks, steps, 0, at);
    RestartableUnlessStranded(w, disks, steps, at);
    var root := new Root(left);
    outcome := root.Download(w, hexes, server);
    after := root.disk;
    RunsAreSound(w, root.disks, root.steps, 0, |root.disks| - 1);
  }
}
