/**
 The restore as a program over the file system: what it does when nobody interferes, step by step a
 run of the restore protocol.
 */
module RestoreProgram {
  import opened Prelude
  import opened Restore

  lemma QuietStep(c: Codec, run: seq<State>, a: Action) returns (longer: seq<State>)
    requires IsQuietRun(c, run) && Enabled(run[|run| - 1], a) && Undisturbed(run[|run| - 1], a)
    ensures IsQuietRun(c, longer) && longer[0] == run[0]
    ensures longer[|longer| - 1] == Step(c, run[|run| - 1], a)
  {
    longer := run + [Step(c, run[|run| - 1], a)];
    forall i | 0 <= i < |longer| - 1
      ensures QuietNext(c, longer[i], longer[i + 1])
    {
      if i < |run| - 1 {
        assert QuietNext(c, run[i], run[i + 1]);
      } else {
        assert Enabled(longer[i], a) && Undisturbed(longer[i], a) && longer[i + 1] == Step(c, longer[i], a);
      }
    }
  }

  /** `run` is an undisturbed run from the given files to the given state. */
  ghost predicate Reaches(c: Codec, run: seq<State>, f: Files, m0: Manifest, s: State) {
    IsQuietRun(c, run) && run[0] == State(f, ReadingManifest, m0) && run[|run| - 1] == s
  }

  /** The per-record check of the dump. */
  method CheckRecords(c: Codec, records: seq<DumpRecord>) returns (ok: bool)
    ensures ok <==> forall i :: 0 <= i < |records| ==> RecordOk(c, records[i])
  {
    for i := 0 to |records|
      invariant forall j :: 0 <= j < i ==> RecordOk(c, records[j])
    {
      var record := records[i];
      if record.NotAnObject? {
        assert !RecordOk(c, records[i]);
        return false;
      }
      if record.evidenceHash != "" {
        if record.canonical.None? || c.sha256(record.canonical.value) != record.evidenceHash {
          assert !RecordOk(c, records[i]);
          return false;
        }
      }
    }
    return true;
  }

  /** The structure, count and record checks of the dump. */
  method CheckDump(c: Codec, m: Manifest, text: Bytes) returns (ok: bool)
    ensures ok <==> c.readDump(text).Some? && DumpOk(c, m, c.readDump(text).value)
  {
    match c.readDump(text)
    case None => return false;
    case Some(d) =>
      if d.version != Some(1) || d.hashSpec != Some(HASH_SPEC) || d.evidence.None? || m.count != Some(|d.evidence.value|) {
        return false;
      }
      ok := CheckRecords(c, d.evidence.value);
  }

  class FileSystem {
    var files: Files

    constructor (files: Files)
      ensures this.files == files
    {
      this.files := files;
    }

    method ReadManifest(c: Codec) returns (m: Option<Manifest>)
      ensures m.Some? <==>
        files.manifest.Some? && c.readManifest(files.manifest.value).Some? && ManifestOk(c.readManifest(files.manifest.value).value)
      ensures m.Some? ==> m == c.readManifest(files.manifest.value)
    {
      if files.manifest.None? {
        return None;
      }
      match c.readManifest(files.manifest.value)
      case None => return None;
      case Some(x) => return if ManifestOk(x) then Some(x) else None;
    }

    /** Hashes the artifacts that the manifest names. */
    method HashArtifacts(c: Codec, m: Manifest, ghost run0: seq<State>, ghost m0: Manifest)
      returns (ok: bool, ghost run: seq<State>)
      requires ManifestOk(m) && Reaches(c, run0, files, m0, State(files, Hashing({SNAPSHOT, DUMP}), m))
      ensures ok <==> HashOk(c, files, m, SNAPSHOT) && HashOk(c, files, m, DUMP)
      ensures Reaches(c, run, files, m0, State(files, if ok then ReadingDump else Done(Refused), m))
    {
      var todo := {SNAPSHOT, DUMP};
      run := run0;
      while todo != {}
        invariant todo <= {SNAPSHOT, DUMP}
        invariant forall name :: name in {SNAPSHOT, DUMP} && name !in todo ==> HashOk(c, files, m, name)
        invariant Reaches(c, run, files, m0, State(files, if todo == {} then ReadingDump else Hashing(todo), m))
      {
        var name :| name in todo;
        run := QuietStep(c, run, HashArtifact(name));
        var file := ArtifactOf(files, name);
        if file.None? || c.sha256(file.value) != m.artifacts.value[name] {
          assert !HashOk(c, files, m, name);
          return false, run;
        }
        todo := todo - {name};
      }
      ok := true;
    }

    /** Everything that is checked before the file system is touched. */
    method CheckDirectory(c: Codec, ghost m0: Manifest) returns (m: Option<Manifest>, ghost run: seq<State>)
      ensures m.Some? ==> DirectoryOk(c, files, m.value) && Reaches(c, run, files, m0, State(files, Clearing, m.value))
      ensures m.None? ==> forall x :: !DirectoryOk(c, files, x)
      ensures m.None? ==> exists x :: Reaches(c, run, files, m0, State(files, Done(Refused), x))
    {
      run := [State(files, ReadingManifest, m0)];
      var read := ReadManifest(c);
      run := QuietStep(c, run, Action.ReadManifest);
      if read.None? {
        assert Reaches(c, run, files, m0, State(files, Done(Refused), m0));
        return None, run;
      }
      var hashed;
      hashed, run := HashArtifacts(c, read.value, run, m0);
      if !hashed {
        return None, run;
      }
      var checked := CheckDump(c, read.value, files.dump.value);
      run := QuietStep(c, run, ReadDump);
      if !checked {
        assert Reaches(c, run, files, m0, State(files, Done(Refused), read.value));
        return None, run;
      }
      return read, run;
    }

    /** Stages the snapshot, checks the staged copy, and swaps it in; the staging file is always removed. */
    method Materialise(c: Codec, m: Manifest, ghost run0: seq<State>, ghost m0: Manifest)
      returns (r: Outcome, ghost run: seq<State>)
      requires DirectoryOk(c, files, m) && Reaches(c, run0, files, m0, State(files, Clearing, m))
      modifies this
      ensures Reaches(c, run, old(files), m0, State(files, Done(r), m))
      ensures r.Restored? <==> AllLayers(c, old(files), m)
      ensures r == Refused || (r.Restored? && Attested(c, m, old(files).snapshot.value, r.rows))
      ensures files == old(files).(tmp := None, live := if r.Restored? then old(files).snapshot else old(files).live)
    {
      run := QuietStep(c, run0, Clear);
      files := files.(tmp := None);
      var bytes := files.snapshot.value;
      run := QuietStep(c, run, Stage(bytes));
      files := files.(tmp := Some(bytes));
      run := QuietStep(c, run, CheckDigest);
      assert run[|run| - 1] == State(files, CheckingRows, m);
      run := QuietStep(c, run, CheckRows);
      var rows := c.readRows(bytes);
      var verified := None;
      if rows.Some? {
        verified := VerifyRows(c, m, rows.value);
      }
      match verified {
        case None => r := Refused;
        case Some(n) =>
          assert Attested(c, m, bytes, n);
          run := QuietStep(c, run, Replace);
          files := files.(live := files.tmp, tmp := None);
          r := Restored(n);
      }
      run := QuietStep(c, run, CleanUp);
      files := files.(tmp := None);
    }

    /**
     `restore_backup` without interference: it restores exactly the backups that pass every layer, refuses
     all others, replaces the live database by the backup's snapshot or leaves it alone, and every step it
     takes is a step of the protocol.
     */
    method RestoreBackup(c: Codec, ghost m0: Manifest) returns (r: Outcome, ghost run: seq<State>)
      modifies this
      ensures r.Restored? <==> exists m :: AllLayers(c, old(files), m)
      ensures !r.Restored? ==> r == Refused && files.live == old(files).live
      ensures r.Restored? ==> files == old(files).(tmp := None, live := old(files).snapshot)
      ensures exists m :: Reaches(c, run, old(files), m0, State(files, Done(r), m))
    {
      var m;
      m, run := CheckDirectory(c, m0);
      if m.None? {
        return Refused, run;
      }
      r, run := Materialise(c, m.value, run, m0);
    }
  }
}
