/** The durable states of a JOB data root, the atomic steps a download takes on them, and what
    every sequence of steps keeps. A crash loses the process and leaves the last durable state. */
module JobJournal {
  import opened Wrappers

  type Content = seq<nat>
  type Digest = string
  type Table = string

  /** One asset of the upstream release. */
  datatype Asset = Asset(url: string, id: int, size: nat, digest: Option<Digest>)

  /** What is fixed across restarts: the corpus, the release it names and the digest function. */
  datatype Release = Release(
    source: int,
    identity: int,
    order: seq<Table>,
    urls: map<Table, string>,
    assets: map<Table, Asset>,
    sha256: Content -> Digest)

  datatype FileName = Published(table: Table) | Partial(table: Table, hex: string)

  datatype Record = Record(named: Table, url: string, assetId: int, size: nat, sha256: Option<Digest>)

  datatype Pending = Pending(table: Table, validated: bool, partial: FileName, asset: Record)

  datatype Manifest = Manifest(
    source: int, release: Option<int>, assets: map<Table, Record>, pending: Option<Pending>)

  /** `temps` counts the leftovers of manifest writes that were cut short before their rename. */
  datatype Disk = Disk(manifest: Option<Manifest>, temps: nat, files: map<FileName, Content>)

  const EMPTY_ROOT: Disk := Disk(None, 0, map[])

  ghost predicate WellFormed(w: Release) {
    forall t :: t in w.urls <==> t in w.order
  }

  // ----- the read-only checks

  /** `verify_release_record` */
  predicate FitsRelease(w: Release, table: Table, r: Record, validated: bool) {
    && table in w.urls
    && r.named == table
    && r.url == w.urls[table]
    && table in w.assets
    && w.assets[table].url == r.url
    && w.assets[table].id == r.assetId
    && w.assets[table].size == r.size
    && (validated ==>
      r.sha256.Some? && (w.assets[table].digest.Some? ==> w.assets[table].digest == r.sha256))
  }

  /** The pending record repeats every field it has of the retained one. */
  predicate Repeats(r: Record, kept: Record) {
    && r.named == kept.named && r.url == kept.url && r.assetId == kept.assetId && r.size == kept.size
    && (r.sha256.Some? ==> r.sha256 == kept.sha256)
  }

  /** `verify_pending` */
  predicate PendingOk(w: Release, m: Manifest, p: Pending) {
    && p.table in w.urls
    && p.partial.Partial? && p.partial.table == p.table
    && FitsRelease(w, p.table, p.asset, p.validated)
    && (p.table in m.assets ==> Repeats(p.asset, m.assets[p.table]))
  }

  /** `matches_record` */
  predicate MatchesRecord(w: Release, d: Disk, f: FileName, r: Record) {
    f in d.files && |d.files[f]| == r.size && Some(w.sha256(d.files[f])) == r.sha256
  }

  /** `download` goes on from this root rather than calling it foreign. */
  predicate Restartable(d: Disk) {
    d.manifest.Some? || (d.temps == 0 && d.files == map[])
  }

  /** The prefix checks `download` makes before its first write. */
  predicate PrefixOk(w: Release, m: Manifest) {
    && m.source == w.source
    && (m.release.Some? ==> m.release == Some(w.identity))
    && (m.assets != map[] || m.pending.Some? ==> m.release.Some?)
    && (forall t :: t in m.assets ==> FitsRelease(w, t, m.assets[t], true))
    && (m.pending.Some? ==> PendingOk(w, m, m.pending.value))
  }

  // ----- the atomic steps

  datatype Step =
    | Stage                                // the temporary file of a manifest write appears
    | Refresh                              // first or refreshed manifest, renamed into place
    | Begin(table: Table, hex: string)     // journal a download
    | Write(content: Content)              // the partial file holds `content`
    | Discard                              // remove the partial of an unfinished download
    | Validate                             // journal the hashed, complete partial
    | Publish                              // rename the partial to its published name
    | Commit                               // move the pending record into the assets
    | Abandon                              // forget an unfinished download

  function NewRecord(w: Release, table: Table): Record
    requires table in w.urls && table in w.assets
  {
    Record(table, w.urls[table], w.assets[table].id, w.assets[table].size, None)
  }

  predicate Downloading(d: Disk) {
    d.manifest.Some? && d.manifest.value.pending.Some? && !d.manifest.value.pending.value.validated
  }

  predicate Validated(d: Disk) {
    d.manifest.Some? && d.manifest.value.pending.Some? && d.manifest.value.pending.value.validated
  }

  function PartialOf(d: Disk): FileName
    requires Downloading(d) || Validated(d)
  {
    d.manifest.value.pending.value.partial
  }

  /** The downloaded bytes are those of the release, as far as the release says. */
  predicate IsAsset(w: Release, table: Table, content: Content) {
    && table in w.assets
    && |content| == w.assets[table].size
    && (w.assets[table].digest.Some? ==> w.assets[table].digest == Some(w.sha256(content)))
  }

  /** The guard the code has established when it takes a step. */
  predicate Enabled(w: Release, d: Disk, step: Step) {
    match step
    case Stage => true
    case Refresh => d.temps > 0 && (d.manifest.Some? ==> PrefixOk(w, d.manifest.value))
    case Begin(t, _) =>
      && d.temps > 0 && d.manifest.Some? && d.manifest.value.pending.None?
      && t in w.urls && t in w.assets && w.assets[t].url == w.urls[t]
      && Published(t) !in d.files
    case Write(_) => Downloading(d) && PartialOf(d).Partial?
    case Discard => Downloading(d) && PartialOf(d).Partial?
    case Validate =>
      && d.temps > 0 && Downloading(d)
      && PartialOf(d) in d.files
      && IsAsset(w, d.manifest.value.pending.value.table, d.files[PartialOf(d)])
    case Publish =>
      && Validated(d) && PartialOf(d).Partial?
      && Published(d.manifest.value.pending.value.asset.named) !in d.files
      && MatchesRecord(w, d, PartialOf(d), d.manifest.value.pending.value.asset)
    case Commit =>
      && d.temps > 0 && Validated(d)
      && PartialOf(d) !in d.files
      && MatchesRecord(w, d, Published(d.manifest.value.pending.value.asset.named),
                       d.manifest.value.pending.value.asset)
    case Abandon =>
      && d.temps > 0 && Downloading(d)
      && PartialOf(d) !in d.files
      && Published(d.manifest.value.pending.value.asset.named) !in d.files
  }

  /** A manifest write's rename: the staged file becomes the manifest. */
  function Rename(d: Disk, m: Manifest): Disk
    requires d.temps > 0
  {
    d.(manifest := Some(m), temps := d.temps - 1)
  }

  function Apply(w: Release, d: Disk, step: Step): Disk
    requires Enabled(w, d, step)
  {
    match step
    case Stage => d.(temps := d.temps + 1)
    case Refresh =>
      var m := if d.manifest.Some? then d.manifest.value else Manifest(w.source, None, map[], None);
      Rename(d, m.(release := Some(w.identity)))
    case Begin(t, hex) =>
      Rename(d, d.manifest.value.(pending := Some(Pending(t, false, Partial(t, hex), NewRecord(w, t)))))
    case Write(content) => d.(files := d.files[PartialOf(d) := content])
    case Discard => d.(files := d.files - {PartialOf(d)})
    case Validate =>
      var p := d.manifest.value.pending.value;
      var record := p.asset.(sha256 := Some(w.sha256(d.files[p.partial])));
      Rename(d, d.manifest.value.(pending := Some(p.(validated := true, asset := record))))
    case Publish =>
      var p := d.manifest.value.pending.value;
      d.(files := (d.files - {p.partial})[Published(p.asset.named) := d.files[p.partial]])
    case Commit =>
      var m := d.manifest.value;
      Rename(d, m.(assets := m.assets[m.pending.value.table := m.pending.value.asset], pending := None))
    case Abandon => Rename(d, d.manifest.value.(pending := None))
  }

  // ----- what every step keeps

  /** Committed inputs are intact, nothing else is published, and the journal explains the rest. */
  ghost predicate Sound(w: Release, d: Disk) {
    match d.manifest
    case None => d.files == map[]
    case Some(m) =>
      && m.source == w.source && m.release == Some(w.identity)
      && (forall t :: t in m.assets ==>
        FitsRelease(w, t, m.assets[t], true) && MatchesRecord(w, d, Published(t), m.assets[t]))
      && (forall f :: f in d.files ==> OwnedFile(m, f))
      && (m.pending.Some? ==> PendingSound(w, d, m, m.pending.value))
  }

  /** A file is a committed input or belongs to the pending download. */
  ghost predicate OwnedFile(m: Manifest, f: FileName) {
    match f
    case Published(t) => t in m.assets || (m.pending.Some? && m.pending.value.validated && m.pending.value.table == t)
    case Partial(_, _) => m.pending.Some? && m.pending.value.partial == f
  }

  ghost predicate PendingSound(w: Release, d: Disk, m: Manifest, p: Pending) {
    && PendingOk(w, m, p)
    && p.table !in m.assets
    && (if !p.validated then p.asset.sha256.None? && Published(p.table) !in d.files
        else if Published(p.table) in d.files then
          p.partial !in d.files && MatchesRecord(w, d, Published(p.table), p.asset)
        else MatchesRecord(w, d, p.partial, p.asset))
  }

  /** The record has the size and the digest of these bytes. */
  predicate Describes(w: Release, r: Record, bytes: Content) {
    r.size == |bytes| && r.sha256 == Some(w.sha256(bytes))
  }

  /** The published bytes of the table are the recorded ones and those of the release. */
  ghost predicate Intact(w: Release, d: Disk, t: Table) {
    && t in w.urls && t in w.assets && Published(t) in d.files
    && d.manifest.Some? && t in d.manifest.value.assets
    && var r, asset, bytes := d.manifest.value.assets[t], w.assets[t], d.files[Published(t)];
      && Describes(w, r, bytes) && |bytes| == asset.size
      && (asset.digest.Some? ==> asset.digest.value == w.sha256(bytes))
      && r.named == t && r.url == asset.url == w.urls[t] && r.assetId == asset.id
  }

  /** Every recorded table is intact. */
  ghost predicate AllIntact(w: Release, d: Disk) {
    d.manifest.Some? ==> forall t :: t in d.manifest.value.assets ==> Intact(w, d, t)
  }

  lemma SoundIsIntact(w: Release, d: Disk)
    requires Sound(w, d)
    ensures AllIntact(w, d)
  {
  }

  lemma EmptyRootIsSound(w: Release)
    ensures Sound(w, EMPTY_ROOT)
  {
  }

  /** Every step keeps the root sound. */
  lemma StepKeepsSound(w: Release, d: Disk, step: Step)
    requires Sound(w, d) && Enabled(w, d, step)
    ensures Sound(w, Apply(w, d, step))
  {
  }

  // ----- whole runs, with crashes at any point

  /** `disks` are the durable states of a run that takes `steps`. */
  ghost predicate IsRun(w: Release, disks: seq<Disk>, steps: seq<Step>) {
    && |disks| == |steps| + 1
    && forall i :: 0 <= i < |steps| ==> Enabled(w, disks[i], steps[i]) && disks[i + 1] == Apply(w, disks[i], steps[i])
  }

  /** Every durable state of a run that starts sound is sound, wherever the run is cut. */
  lemma {:induction false} RunsAreSound(w: Release, disks: seq<Disk>, steps: seq<Step>, first: nat, last: nat)
    requires IsRun(w, disks, steps) && first <= last < |disks| && Sound(w, disks[first])
    ensures Sound(w, disks[last]) && AllIntact(w, disks[last])
    decreases last
  {
    if first < last {
      RunsAreSound(w, disks, steps, first, last - 1);
      StepKeepsSound(w, disks[last - 1], steps[last - 1]);
    }
    SoundIsIntact(w, disks[last]);
  }

  /** A committed input and its record never change again. */
  lemma StepKeepsCommitted(w: Release, d: Disk, step: Step, t: Table)
    requires Sound(w, d) && Enabled(w, d, step)
    requires d.manifest.Some? && t in d.manifest.value.assets
    ensures Apply(w, d, step).manifest.Some? && t in Apply(w, d, step).manifest.value.assets
    ensures Apply(w, d, step).manifest.value.assets[t] == d.manifest.value.assets[t]
    ensures Published(t) in Apply(w, d, step).files
    ensures Apply(w, d, step).files[Published(t)] == d.files[Published(t)]
  {
  }

  lemma {:induction false} CommittedIsForever(
    w: Release, disks: seq<Disk>, steps: seq<Step>, first: nat, last: nat, t: Table)
    requires IsRun(w, disks, steps) && first <= last < |disks| && Sound(w, disks[first])
    requires disks[first].manifest.Some? && t in disks[first].manifest.value.assets
    ensures Sound(w, disks[last]) && disks[last].manifest.Some? && t in disks[last].manifest.value.assets
    ensures disks[last].manifest.value.assets[t] == disks[first].manifest.value.assets[t]
    ensures Published(t) in disks[last].files && disks[last].files[Published(t)] == disks[first].files[Published(t)]
    decreases last
  {
    if first < last {
      CommittedIsForever(w, disks, steps, first, last - 1, t);
      StepKeepsSound(w, disks[last - 1], steps[last - 1]);
      StepKeepsCommitted(w, disks[last - 1], steps[last - 1], t);
    }
  }

  /** The table's bytes are already safe on disk. */
  predicate Held(d: Disk, t: Table) {
    && d.manifest.Some?
    && (t in d.manifest.value.assets ||
        (Validated(d) && d.manifest.value.pending.value.table == t))
  }

  /** No step loses a table whose bytes are safe. */
  lemma StepKeepsHeld(w: Release, d: Disk, step: Step, t: Table)
    requires Sound(w, d) && Enabled(w, d, step) && Held(d, t)
    ensures Held(Apply(w, d, step), t)
  {
  }

  lemma {:induction false} HeldIsForever(
    w: Release, disks: seq<Disk>, steps: seq<Step>, first: nat, last: nat, t: Table)
    requires IsRun(w, disks, steps) && first <= last < |disks| && Sound(w, disks[first]) && Held(disks[first], t)
    ensures Held(disks[last], t)
    decreases last
  {
    if first < last {
      HeldIsForever(w, disks, steps, first, last - 1, t);
      RunsAreSound(w, disks, steps, first, last - 1);
      StepKeepsHeld(w, disks[last - 1], steps[last - 1], t);
    }
  }

  // ----- which crash points a restart refuses

  /** The run was cut while its very first manifest write was still staged. */
  ghost predicate Stranded(steps: seq<Step>, i: nat)
    requires i <= |steps|
  {
    i > 0 && forall j :: 0 <= j < i ==> steps[j] == Stage
  }

  /** Of all crash points after an empty root, exactly the stranded ones cannot be restarted. */
  lemma {:induction false} RestartableUnlessStranded(w: Release, disks: seq<Disk>, steps: seq<Step>, i: nat)
    requires IsRun(w, disks, steps) && disks[0] == EMPTY_ROOT && i < |disks|
    ensures Restartable(disks[i]) <==> !Stranded(steps, i)
  {
    ManifestAppears(w, disks, steps, i);
  }

  lemma {:induction false} ManifestAppears(w: Release, disks: seq<Disk>, steps: seq<Step>, i: nat)
    requires IsRun(w, disks, steps) && disks[0] == EMPTY_ROOT && i < |disks|
    ensures disks[i].manifest.None? <==> forall j :: 0 <= j < i ==> steps[j] == Stage
    ensures disks[i].manifest.None? ==> disks[i].temps == i
  {
    if i > 0 {
      ManifestAppears(w, disks, steps, i - 1);
      assert Enabled(w, disks[i - 1], steps[i - 1]) && disks[i] == Apply(w, disks[i - 1], steps[i - 1]);
    }
  }

  /** One step from an empty root is enough to strand it. */
  lemma FirstWriteCanStrand(w: Release) returns (disks: seq<Disk>, steps: seq<Step>)
    ensures IsRun(w, disks, steps) && disks[0] == EMPTY_ROOT && Stranded(steps, |steps|)
    ensures Sound(w, disks[|steps|]) && !Restartable(disks[|steps|])
  {
    disks := [EMPTY_ROOT, Disk(None, 1, map[])];
    steps := [Stage];
  }
}
