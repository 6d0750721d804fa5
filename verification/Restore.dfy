/**
 Verified, atomic restore of a database from a backup directory, and the export that feeds it.
 */
module Restore {
  import opened Prelude

  const SNAPSHOT := "snapshot.sqlite3"
  const DUMP := "evidence_dump.json"
  const HASH_SPEC := "v2"

  /** An evidence row; an empty `evidenceHash` marks an unsealed legacy row. */
  datatype Row = Row(evidenceId: string, evidenceHash: string, body: string)

  datatype Manifest = Manifest(version: Option<int>, artifacts: Option<map<string, string>>, count: Option<int>)

  datatype DumpRecord = NotAnObject | DumpRecord(evidenceHash: string, canonical: Option<Bytes>)

  datatype EvidenceDump = EvidenceDump(version: Option<int>, hashSpec: Option<string>, evidence: Option<seq<DumpRecord>>)

  /** The hash, the canonical encoding of a row, and the file formats, as uninterpreted functions. A
      reader returns `None` where the text is not a JSON object, or the file not a readable database. */
  datatype Codec = Codec(
    sha256: Bytes -> string,
    canonical: (string, string) -> Bytes,
    readManifest: Bytes -> Option<Manifest>,
    writeManifest: Manifest -> Bytes,
    readDump: Bytes -> Option<EvidenceDump>,
    writeDump: EvidenceDump -> Bytes,
    readRows: Bytes -> Option<seq<Row>>)
  {
    ghost predicate Valid() {
      && (forall m :: readManifest(writeManifest(m)) == Some(m))
      && (forall d :: readDump(writeDump(d)) == Some(d))
    }

    function Seal(row: Row): string {
      sha256(canonical(row.evidenceId, row.body))
    }
  }

  // ------------------------------------------------------------ the integrity layers

  predicate ManifestOk(m: Manifest) {
    m.version == Some(1) && m.artifacts.Some? && m.artifacts.value.Keys == {SNAPSHOT, DUMP}
  }

  predicate RecordOk(c: Codec, r: DumpRecord) {
    r.DumpRecord? && (r.evidenceHash == "" || (r.canonical.Some? && c.sha256(r.canonical.value) == r.evidenceHash))
  }

  predicate DumpOk(c: Codec, m: Manifest, d: EvidenceDump) {
    && d.version == Some(1) && d.hashSpec == Some(HASH_SPEC) && d.evidence.Some?
    && m.count == Some(|d.evidence.value|)
    && forall i :: 0 <= i < |d.evidence.value| ==> RecordOk(c, d.evidence.value[i])
  }

  predicate RowOk(c: Codec, row: Row) {
    row.evidenceHash == "" || c.Seal(row) == row.evidenceHash
  }

  function SealedCount(rows: seq<Row>): nat {
    if rows == [] then 0
    else SealedCount(rows[..|rows| - 1]) + (if rows[|rows| - 1].evidenceHash == "" then 0 else 1)
  }

  /** The count cross-check and the chain check over the staged rows: the number of verified rows. */
  function RowsVerdict(c: Codec, m: Manifest, rows: seq<Row>): Option<nat> {
    if m.count != Some(|rows|) || exists i :: 0 <= i < |rows| && !RowOk(c, rows[i]) then None
    else Some(SealedCount(rows))
  }

  method VerifyRows(c: Codec, m: Manifest, rows: seq<Row>) returns (verified: Option<nat>)
    ensures verified == RowsVerdict(c, m, rows)
  {
    if m.count != Some(|rows|) {
      return None;
    }
    var n := 0;
    for i := 0 to |rows|
      invariant forall j :: 0 <= j < i ==> RowOk(c, rows[j])
      invariant n == SealedCount(rows[..i])
    {
      assert rows[..i + 1][..i] == rows[..i];
      if rows[i].evidenceHash != "" {
        if c.Seal(rows[i]) != rows[i].evidenceHash {
          assert !RowOk(c, rows[i]);
          return None;
        }
        n := n + 1;
      }
    }
    assert rows[..|rows|] == rows;
    verified := Some(n);
  }

  /** `b` is a complete snapshot that the manifest attests: it has the manifest digest and row count,
      every sealed row re-hashes to its seal, and `n` rows are sealed. */
  predicate Attested(c: Codec, m: Manifest, b: Bytes, n: nat) {
    && ManifestOk(m)
    && c.sha256(b) == m.artifacts.value[SNAPSHOT]
    && c.readRows(b).Some?
    && RowsVerdict(c, m, c.readRows(b).value) == Some(n)
  }

  // ------------------------------------------------------------------ protocol

  /** The backup directory, the live database and the staging file next to it. */
  datatype Files = Files(manifest: Option<Bytes>, snapshot: Option<Bytes>, dump: Option<Bytes>,
                         live: Option<Bytes>, tmp: Option<Bytes>)

  /** `Refused` is a BackupVerificationError; `Other` is any other exception. */
  datatype Outcome = Restored(rows: nat) | Refused | Other

  datatype Pc =
    | ReadingManifest
    | Hashing(todo: set<string>)
    | ReadingDump
    | Clearing
    | Staging
    | CheckingDigest
    | CheckingRows
    | Replacing(rows: nat)
    | Cleaning(outcome: Outcome)
    | Done(outcome: Outcome)
    | Crashed

  datatype State = State(files: Files, pc: Pc, manifest: Manifest)

  datatype Action =
    | ReadManifest | HashArtifact(name: string) | ReadDump
    | Clear
    | Stage(bytes: Bytes)        // whatever was read while copying, torn or tampered with
    | CheckDigest | CheckRows
    | Replace
    | ReplaceThenOsFails         // the swap takes effect, yet the call reports an OSError
    | ReplaceThenRaises          // the swap takes effect, then another exception arrives
    | CleanUp | CleanUpFails
    | OsFails                    // an OSError of the current step
    | Raises                     // any other exception of the current step
    | Crash
    | Tamper(manifest: Option<Bytes>, snapshot: Option<Bytes>, dump: Option<Bytes>)
    | Plant(bytes: Bytes)        // somebody else creates the staging path

  predicate Staged(pc: Pc) {
    pc.CheckingDigest? || pc.CheckingRows? || pc.Replacing?
  }

  predicate InTry(pc: Pc) {
    pc.Clearing? || pc.Staging? || Staged(pc)
  }

  predicate Running(pc: Pc) {
    pc.ReadingManifest? || pc.Hashing? || pc.ReadingDump? || InTry(pc)
  }

  predicate Enabled(s: State, a: Action) {
    match a
    case ReadManifest => s.pc.ReadingManifest?
    case HashArtifact(name) => s.pc.Hashing? && name in s.pc.todo
    case ReadDump => s.pc.ReadingDump?
    case Clear => s.pc.Clearing?
    case Stage(_) => s.pc.Staging? && s.files.tmp.None? && s.files.snapshot.Some?
    case CheckDigest => s.pc.CheckingDigest?
    case CheckRows => s.pc.CheckingRows?
    case Replace => s.pc.Replacing? && s.files.tmp.Some?
    case ReplaceThenOsFails => s.pc.Replacing? && s.files.tmp.Some?
    case ReplaceThenRaises => s.pc.Replacing? && s.files.tmp.Some?
    case CleanUp => s.pc.Cleaning?
    case CleanUpFails => s.pc.Cleaning?
    case OsFails => Running(s.pc)
    case Raises => Running(s.pc)
    case Crash => Running(s.pc) || s.pc.Cleaning?
    case Tamper(_, _, _) => true
    case Plant(_) => Running(s.pc) && !Staged(s.pc)
  }

  /** Leaving with an outcome: inside the guarded part the staging file is removed first. */
  function Leave(s: State, o: Outcome): State {
    s.(pc := if InTry(s.pc) then Cleaning(o) else Done(o))
  }

  /** The staged file becomes the live one. */
  function Swap(s: State, o: Outcome): State {
    s.(files := s.files.(live := s.files.tmp, tmp := None), pc := Cleaning(o))
  }

  function ArtifactOf(f: Files, name: string): Option<Bytes> {
    if name == SNAPSHOT then f.snapshot else f.dump
  }

  function Step(c: Codec, s: State, a: Action): State
    requires Enabled(s, a)
  {
    match a
    case ReadManifest =>
      (match s.files.manifest
       case None => Leave(s, Refused)
       case Some(text) =>
         match c.readManifest(text)
         case None => Leave(s, Refused)
         case Some(m) => if ManifestOk(m) then s.(manifest := m, pc := Hashing({SNAPSHOT, DUMP})) else Leave(s, Refused))
    case HashArtifact(name) =>
      var file := ArtifactOf(s.files, name);
      if file.None? || s.manifest.artifacts.None? || name !in s.manifest.artifacts.value
         || c.sha256(file.value) != s.manifest.artifacts.value[name] then Leave(s, Refused)
      else s.(pc := if s.pc.todo == {name} then ReadingDump else Hashing(s.pc.todo - {name}))
    case ReadDump =>
      (match s.files.dump
       case None => Leave(s, Other)
       case Some(text) =>
         match c.readDump(text)
         case None => Leave(s, Refused)
         case Some(d) => if DumpOk(c, s.manifest, d) then s.(pc := Clearing) else Leave(s, Refused))
    case Clear => s.(files := s.files.(tmp := None), pc := Staging)
    case Stage(bytes) => s.(files := s.files.(tmp := Some(bytes)), pc := CheckingDigest)
    case CheckDigest =>
      if s.files.tmp.Some? && s.manifest.artifacts.Some? && SNAPSHOT in s.manifest.artifacts.value
         && c.sha256(s.files.tmp.value) == s.manifest.artifacts.value[SNAPSHOT] then s.(pc := CheckingRows)
      else Leave(s, Refused)
    case CheckRows =>
      (match s.files.tmp
       case None => Leave(s, Refused)
       case Some(b) =>
         match c.readRows(b)
         case None => Leave(s, Refused)
         case Some(rows) =>
           match RowsVerdict(c, s.manifest, rows)
           case None => Leave(s, Refused)
           case Some(n) => s.(pc := Replacing(n)))
    case Replace => Swap(s, Restored(s.pc.rows))
    case ReplaceThenOsFails => Swap(s, Refused)
    case ReplaceThenRaises => Swap(s, Other)
    case CleanUp => s.(files := s.files.(tmp := None), pc := Done(s.pc.outcome))
    case CleanUpFails => s.(pc := Done(Other))
    case OsFails => Leave(s, if InTry(s.pc) then Refused else Other)
    case Raises => Leave(s, Other)
    case Crash => s.(pc := Crashed)
    case Tamper(m, snap, d) => s.(files := s.files.(manifest := m, snapshot := snap, dump := d))
    case Plant(bytes) => s.(files := s.files.(tmp := Some(bytes)))
  }

  ghost predicate Next(c: Codec, s: State, s': State) {
    exists a :: Enabled(s, a) && s' == Step(c, s, a)
  }

  ghost predicate IsRun(c: Codec, run: seq<State>) {
    && run != [] && run[0].pc == ReadingManifest
    && forall i :: 0 <= i < |run| - 1 ==> Next(c, run[i], run[i + 1])
  }

  // ----------------------------------------------------------------- invariant

  /** The live database is the old one, or a complete snapshot that the manifest attests. */
  ghost predicate OldOrAttested(c: Codec, before: Option<Bytes>, s: State) {
    s.files.live == before || (s.files.live.Some? && exists n :: Attested(c, s.manifest, s.files.live.value, n))
  }

  ghost predicate Inv(c: Codec, before: Option<Bytes>, s: State) {
    && (!s.pc.ReadingManifest? && Running(s.pc) ==> ManifestOk(s.manifest))
    && (Running(s.pc) ==> s.files.live == before)
    && (s.pc.CheckingRows? ==> s.files.tmp.Some? && c.sha256(s.files.tmp.value) == s.manifest.artifacts.value[SNAPSHOT])
    && (s.pc.Replacing? ==> s.files.tmp.Some? && Attested(c, s.manifest, s.files.tmp.value, s.pc.rows))
    && (s.pc.Cleaning? || s.pc.Done? ==>
          match s.pc.outcome
          case Restored(n) => s.files.live.Some? && Attested(c, s.manifest, s.files.live.value, n)
          case Refused => OldOrAttested(c, before, s)
          case Other => OldOrAttested(c, before, s))
    && (s.pc.Crashed? ==> OldOrAttested(c, before, s))
    && (s.pc.Done? && s.pc.outcome.Restored? ==> s.files.tmp.None?)
  }

  lemma StepKeepsInv(c: Codec, before: Option<Bytes>, s: State, a: Action)
    requires Inv(c, before, s) && Enabled(s, a)
    ensures Inv(c, before, Step(c, s, a))
  {
  }

  lemma {:induction false} RunKeepsInv(c: Codec, run: seq<State>, i: nat)
    requires IsRun(c, run) && i < |run|
    ensures Inv(c, run[0].files.live, run[i])
  {
    if i > 0 {
      RunKeepsInv(c, run, i - 1);
      assert Next(c, run[i - 1], run[i - 1 + 1]);
      var a :| Enabled(run[i - 1], a) && run[i] == Step(c, run[i - 1], a);
      StepKeepsInv(c, run[0].files.live, run[i - 1], a);
    }
  }

  // ------------------------------------------------------------ whole-run laws

  /**
   Restore is atomic. In every state of every run, whatever is tampered with, fails or crashes, the live
   database is the old one or a complete attested snapshot; success means attested, with the reported
   number of sealed rows, and no staging file left.
   */
  lemma RestoreIsAtomic(c: Codec, run: seq<State>, i: nat)
    requires IsRun(c, run) && i < |run|
    ensures OldOrAttested(c, run[0].files.live, run[i])
    ensures run[i].pc.Done? && run[i].pc.outcome.Restored? ==>
      run[i].files.live.Some? && Attested(c, run[i].manifest, run[i].files.live.value, run[i].pc.outcome.rows)
      && run[i].files.tmp.None?
  {
    RunKeepsInv(c, run, i);
  }

  /** The live database changes at most once in a run. */
  lemma {:induction false} LiveChangesOnce(c: Codec, run: seq<State>, i: nat, j: nat)
    requires IsRun(c, run) && i <= j < |run| && run[i].files.live != run[0].files.live
    ensures run[j].files.live == run[i].files.live
    decreases j
  {
    if i < j {
      LiveChangesOnce(c, run, i, j - 1);
      RunKeepsInv(c, run, j - 1);
      assert Next(c, run[j - 1], run[j - 1 + 1]);
    }
  }

  // ------------------------------------------------------- undisturbed restores

  /** The backup directory passes every check that comes before staging. */
  predicate DirectoryOk(c: Codec, f: Files, m: Manifest) {
    && f.manifest.Some? && c.readManifest(f.manifest.value) == Some(m) && ManifestOk(m)
    && HashOk(c, f, m, SNAPSHOT) && HashOk(c, f, m, DUMP)
    && DumpLayer(c, f, m)
  }

  /** The backup directory passes every integrity layer. */
  ghost predicate AllLayers(c: Codec, f: Files, m: Manifest) {
    DirectoryOk(c, f, m) && exists n :: Attested(c, m, f.snapshot.value, n)
  }

  predicate HashOk(c: Codec, f: Files, m: Manifest, name: string) {
    && m.artifacts.Some? && name in m.artifacts.value && ArtifactOf(f, name).Some?
    && c.sha256(ArtifactOf(f, name).value) == m.artifacts.value[name]
  }

  predicate DumpLayer(c: Codec, f: Files, m: Manifest) {
    f.dump.Some? && c.readDump(f.dump.value).Some? && DumpOk(c, m, c.readDump(f.dump.value).value)
  }

  /** Nobody interferes, and the copy is the file. */
  predicate Undisturbed(s: State, a: Action) {
    !a.Tamper? && !a.Plant? && (a.Stage? ==> s.files.snapshot == Some(a.bytes))
  }

  /** What has been checked by the time the program reaches a point. */
  ghost predicate Checked(c: Codec, s: State) {
    var f, m := s.files, s.manifest;
    && (!s.pc.ReadingManifest? && Running(s.pc) ==>
          f.manifest.Some? && c.readManifest(f.manifest.value) == Some(m) && ManifestOk(m))
    && (s.pc.Hashing? ==> forall name :: name in {SNAPSHOT, DUMP} && name !in s.pc.todo ==> HashOk(c, f, m, name))
    && (s.pc.ReadingDump? || InTry(s.pc) ==> HashOk(c, f, m, SNAPSHOT) && HashOk(c, f, m, DUMP))
    && (InTry(s.pc) ==> DumpLayer(c, f, m))
    && (Staged(s.pc) ==> f.tmp == f.snapshot)
    && (s.pc.Replacing? ==> f.snapshot.Some? && Attested(c, m, f.snapshot.value, s.pc.rows))
    && ((s.pc.Cleaning? || s.pc.Done?) && s.pc.outcome.Restored? ==> AllLayers(c, f, m) && f.live == f.snapshot)
  }

  lemma StepKeepsChecked(c: Codec, s: State, a: Action)
    requires Checked(c, s) && Enabled(s, a) && Undisturbed(s, a)
    ensures Checked(c, Step(c, s, a))
    ensures var f, f' := s.files, Step(c, s, a).files;
            f'.manifest == f.manifest && f'.snapshot == f.snapshot && f'.dump == f.dump
  {
    if a.HashArtifact? {
      HashKeepsChecked(c, s, a.name);
    }
  }

  lemma HashKeepsChecked(c: Codec, s: State, name: string)
    requires Checked(c, s) && Enabled(s, HashArtifact(name))
    ensures Checked(c, Step(c, s, HashArtifact(name)))
  {
    if HashOk(c, s.files, s.manifest, name) && s.pc.todo != {name} {
      assert forall n :: n in {SNAPSHOT, DUMP} && n !in s.pc.todo - {name} ==> HashOk(c, s.files, s.manifest, n);
    }
  }

  /** A run in which nobody interferes. */
  ghost predicate IsQuietRun(c: Codec, run: seq<State>) {
    && run != [] && run[0].pc == ReadingManifest
    && forall i :: 0 <= i < |run| - 1 ==> QuietNext(c, run[i], run[i + 1])
  }

  ghost predicate QuietNext(c: Codec, s: State, s': State) {
    exists a :: Enabled(s, a) && Undisturbed(s, a) && s' == Step(c, s, a)
  }

  lemma {:induction false} QuietRunChecked(c: Codec, run: seq<State>, i: nat)
    requires IsQuietRun(c, run) && i < |run|
    ensures Checked(c, run[i])
    ensures var f, f' := run[0].files, run[i].files;
            f'.manifest == f.manifest && f'.snapshot == f.snapshot && f'.dump == f.dump
  {
    if i > 0 {
      QuietRunChecked(c, run, i - 1);
      assert QuietNext(c, run[i - 1], run[i - 1 + 1]);
      var a :| Enabled(run[i - 1], a) && Undisturbed(run[i - 1], a) && run[i] == Step(c, run[i - 1], a);
      StepKeepsChecked(c, run[i - 1], a);
    }
  }

  /** Fails closed at whichever layer is violated: an undisturbed restore succeeds only from a backup
      that passes every layer, and then the live database is the backup's snapshot. */
  lemma EveryLayerIsEnforced(c: Codec, run: seq<State>, i: nat)
    requires IsQuietRun(c, run) && i < |run| && run[i].pc.Done? && run[i].pc.outcome.Restored?
    ensures AllLayers(c, run[0].files, run[i].manifest) && run[i].files.live == run[0].files.snapshot
  {
    QuietRunChecked(c, run, i);
  }

  /** What an attested snapshot guarantees to its reader, spelled out. */
  lemma AttestedMeans(c: Codec, m: Manifest, b: Bytes, n: nat)
    requires Attested(c, m, b, n)
    ensures m.version == Some(1) && m.artifacts.Some? && m.artifacts.value.Keys == {"snapshot.sqlite3", "evidence_dump.json"}
    ensures c.sha256(b) == m.artifacts.value["snapshot.sqlite3"] && c.readRows(b).Some?
    ensures var rows := c.readRows(b).value;
            && m.count == Some(|rows|)
            && (forall i :: 0 <= i < |rows| && rows[i].evidenceHash != "" ==>
                  c.sha256(c.canonical(rows[i].evidenceId, rows[i].body)) == rows[i].evidenceHash)
            && n == |set i | 0 <= i < |rows| && rows[i].evidenceHash != ""|
  {
    var rows := c.readRows(b).value;
    forall i | 0 <= i < |rows| && rows[i].evidenceHash != ""
      ensures c.Seal(rows[i]) == rows[i].evidenceHash
    {
      assert RowOk(c, rows[i]);
    }
    SealedCounts(rows);
  }

  /** What a dump that passes its layer has been checked for, spelled out. */
  lemma DumpMeans(c: Codec, f: Files, m: Manifest)
    ensures DumpLayer(c, f, m) <==>
      && f.dump.Some? && c.readDump(f.dump.value).Some?
      && var d := c.readDump(f.dump.value).value;
      && d.version == Some(1) && d.hashSpec == Some("v2") && d.evidence.Some?
      && m.count == Some(|d.evidence.value|)
      && forall i :: 0 <= i < |d.evidence.value| ==>
           var record := d.evidence.value[i];
           && record.DumpRecord?
           && (record.evidenceHash != "" ==> record.canonical.Some? && c.sha256(record.canonical.value) == record.evidenceHash)
  {
  }

  lemma {:induction false} SealedCounts(rows: seq<Row>)
    ensures SealedCount(rows) == |set i | 0 <= i < |rows| && rows[i].evidenceHash != ""|
  {
    if rows != [] {
      var n := |rows| - 1;
      SealedCounts(rows[..n]);
      var front := set i | 0 <= i < n && rows[..n][i].evidenceHash != "";
      var all := set i | 0 <= i < |rows| && rows[i].evidenceHash != "";
      assert all == if rows[n].evidenceHash != "" then front + {n} else front;
    }
  }

  // -------------------------------------------------------------------- export

  function RecordOf(c: Codec, row: Row): DumpRecord {
    DumpRecord(row.evidenceHash, Some(c.canonical(row.evidenceId, row.body)))
  }

  /** The serialisation loop of the export: fails on the first row whose seal is broken. */
  method DumpRecords(c: Codec, rows: seq<Row>) returns (records: Option<seq<DumpRecord>>)
    ensures records.None? <==> exists i :: 0 <= i < |rows| && !RowOk(c, rows[i])
    ensures records.Some? ==> |records.value| == |rows|
    ensures records.Some? ==> forall i :: 0 <= i < |rows| ==> records.value[i] == RecordOf(c, rows[i])
    ensures records.Some? ==> forall i :: 0 <= i < |rows| ==>
      && records.value[i].DumpRecord? && records.value[i].evidenceHash == rows[i].evidenceHash
      && records.value[i].canonical == Some(c.canonical(rows[i].evidenceId, rows[i].body))
      && (rows[i].evidenceHash != "" ==> c.sha256(c.canonical(rows[i].evidenceId, rows[i].body)) == rows[i].evidenceHash)
  {
    var done: seq<DumpRecord> := [];
    for i := 0 to |rows|
      invariant |done| == i
      invariant forall j :: 0 <= j < i ==> RowOk(c, rows[j]) && done[j] == RecordOf(c, rows[j])
    {
      if rows[i].evidenceHash != "" && c.Seal(rows[i]) != rows[i].evidenceHash {
        assert !RowOk(c, rows[i]);
        return None;
      }
      done := done + [RecordOf(c, rows[i])];
    }
    records := Some(done);
  }

  /** Writes snapshot, dump and manifest, in this order, unless a manifest is already there. `copy` is
      the consistent snapshot that the database engine makes. */
  method ExportBackup(c: Codec, f: Files, copy: Bytes) returns (r: Option<Files>)
    ensures r.Some? <==>
      && f.live.Some? && f.manifest.None? && c.readRows(copy).Some?
      && forall i :: 0 <= i < |c.readRows(copy).value| ==> RowOk(c, c.readRows(copy).value[i])
    ensures r.Some? ==> IsExport(c, copy, r.value) && r.value.live == f.live && r.value.tmp == f.tmp
  {
    if f.live.None? || f.manifest.Some? || c.readRows(copy).None? {
      return None;
    }
    var rows := c.readRows(copy).value;
    var records := DumpRecords(c, rows);
    if records.None? {
      return None;
    }
    var dump := c.writeDump(EvidenceDump(Some(1), Some(HASH_SPEC), records));
    var manifest := Manifest(Some(1), Some(map[SNAPSHOT := c.sha256(copy), DUMP := c.sha256(dump)]), Some(|rows|));
    r := Some(f.(manifest := Some(c.writeManifest(manifest)), snapshot := Some(copy), dump := Some(dump)));
  }

  ghost predicate IsExport(c: Codec, copy: Bytes, f: Files) {
    && f.snapshot == Some(copy) && c.readRows(copy).Some?
    && var rows := c.readRows(copy).value;
    && (forall i :: 0 <= i < |rows| ==> RowOk(c, rows[i]))
    && exists records: seq<DumpRecord> ::
         && |records| == |rows| && (forall i :: 0 <= i < |rows| ==> records[i] == RecordOf(c, rows[i]))
         && f.dump == Some(c.writeDump(EvidenceDump(Some(1), Some(HASH_SPEC), Some(records))))
         && f.manifest == Some(c.writeManifest(ManifestFor(c, copy, f.dump.value, |rows|)))
  }

  function ManifestFor(c: Codec, copy: Bytes, dump: Bytes, count: nat): Manifest {
    Manifest(Some(1), Some(map[SNAPSHOT := c.sha256(copy), DUMP := c.sha256(dump)]), Some(count))
  }

  /** Record `i` of an exported dump carries the seal and the preimage of row `i` of the exported snapshot. */
  lemma ExportMirrorsRows(c: Codec, copy: Bytes, f: Files)
    requires c.Valid() && IsExport(c, copy, f)
    ensures f.dump.Some? && c.readDump(f.dump.value).Some? && c.readDump(f.dump.value).value.evidence.Some?
    ensures var rows, records := c.readRows(copy).value, c.readDump(f.dump.value).value.evidence.value;
            && |records| == |rows|
            && forall i :: 0 <= i < |rows| ==>
                 records[i] == DumpRecord(rows[i].evidenceHash, Some(c.canonical(rows[i].evidenceId, rows[i].body)))
  {
  }

  /** What was exported passes every integrity layer. */
  lemma ExportPassesChecks(c: Codec, copy: Bytes, f: Files) returns (m: Manifest)
    requires c.Valid() && IsExport(c, copy, f)
    ensures AllLayers(c, f, m) && Attested(c, m, copy, SealedCount(c.readRows(copy).value))
  {
    var rows := c.readRows(copy).value;
    var records: seq<DumpRecord> :|
      && |records| == |rows| && (forall i :: 0 <= i < |rows| ==> records[i] == RecordOf(c, rows[i]))
      && f.dump == Some(c.writeDump(EvidenceDump(Some(1), Some(HASH_SPEC), Some(records))))
      && f.manifest == Some(c.writeManifest(ManifestFor(c, copy, f.dump.value, |rows|)));
    m := ManifestFor(c, copy, f.dump.value, |rows|);
    assert ManifestOk(m);
    assert DumpOk(c, m, EvidenceDump(Some(1), Some(HASH_SPEC), Some(records))) by {
      forall i | 0 <= i < |records|
        ensures RecordOk(c, records[i])
      {
        assert RowOk(c, rows[i]);
      }
    }
    assert Attested(c, m, copy, SealedCount(rows));
  }
}
