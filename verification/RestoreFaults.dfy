/**
 Exactly which faults break "a failed restore leaves the live database untouched".
 */
module RestoreFaults {
  import opened Prelude
  import opened Restore

  /** Faults after which an error can be raised over a replaced database. */
  predicate Betrays(a: Action) {
    a == ReplaceThenOsFails || a == ReplaceThenRaises || a == CleanUpFails
  }

  predicate Betrayed(faults: set<Action>) {
    exists a :: a in faults && Betrays(a)
  }

  /** Failing checks and system calls before the swap, crashes and tampering are always allowed. */
  predicate Permitted(faults: set<Action>, a: Action) {
    Betrays(a) ==> a in faults
  }

  ghost predicate NextWith(c: Codec, faults: set<Action>, s: State, s': State) {
    exists a :: Permitted(faults, a) && Enabled(s, a) && s' == Step(c, s, a)
  }

  ghost predicate IsRunWith(c: Codec, faults: set<Action>, run: seq<State>) {
    && run != [] && run[0].pc == ReadingManifest
    && forall i :: 0 <= i < |run| - 1 ==> NextWith(c, faults, run[i], run[i + 1])
  }

  /** The restore has raised an error. */
  predicate Raised(s: State) {
    s.pc.Done? && !s.pc.outcome.Restored?
  }

  // ---------------------------------------------------------------- the safe half

  ghost predicate Kept(faults: set<Action>, before: Option<Bytes>, s: State) {
    && (Running(s.pc) ==> s.files.live == before)
    && ((s.pc.Cleaning? || s.pc.Done?) && s.pc.outcome.Refused? && ReplaceThenOsFails !in faults ==> s.files.live == before)
    && ((s.pc.Cleaning? || s.pc.Done?) && !s.pc.outcome.Restored? && !Betrayed(faults) ==> s.files.live == before)
  }

  lemma StepKeeps(c: Codec, faults: set<Action>, before: Option<Bytes>, s: State, a: Action)
    requires Kept(faults, before, s) && Permitted(faults, a) && Enabled(s, a)
    ensures Kept(faults, before, Step(c, s, a))
  {
    if Betrays(a) {
      assert Betrayed(faults);
    }
  }

  lemma {:induction false} RunKeeps(c: Codec, faults: set<Action>, run: seq<State>, i: nat)
    requires IsRunWith(c, faults, run) && i < |run|
    ensures Kept(faults, run[0].files.live, run[i])
  {
    if i > 0 {
      RunKeeps(c, faults, run, i - 1);
      assert NextWith(c, faults, run[i - 1], run[i - 1 + 1]);
      var a :| Permitted(faults, a) && Enabled(run[i - 1], a) && run[i] == Step(c, run[i - 1], a);
      StepKeeps(c, faults, run[0].files.live, run[i - 1], a);
    }
  }

  // ------------------------------------------------------------------- witnesses

  lemma Extend(c: Codec, faults: set<Action>, run: seq<State>, a: Action) returns (longer: seq<State>)
    requires IsRunWith(c, faults, run) && Permitted(faults, a) && Enabled(run[|run| - 1], a)
    ensures IsRunWith(c, faults, longer) && longer[0] == run[0]
    ensures longer[|longer| - 1] == Step(c, run[|run| - 1], a)
  {
    longer := run + [Step(c, run[|run| - 1], a)];
    forall i | 0 <= i < |longer| - 1
      ensures NextWith(c, faults, longer[i], longer[i + 1])
    {
      assert i < |run| - 1 ==> NextWith(c, faults, run[i], run[i + 1]);
    }
  }

  /** The checks of an export, up to the point before staging. */
  lemma Checks(c: Codec, copy: Bytes, f: Files, m0: Manifest, faults: set<Action>) returns (run: seq<State>, m: Manifest)
    requires c.Valid() && IsExport(c, copy, f)
    ensures IsRunWith(c, faults, run) && run[0] == State(f, ReadingManifest, m0)
    ensures run[|run| - 1] == State(f, Clearing, m)
    ensures Attested(c, m, copy, SealedCount(c.readRows(copy).value))
  {
    m := ExportPassesChecks(c, copy, f);
    run := [State(f, ReadingManifest, m0)];
    run := Extend(c, faults, run, ReadManifest);
    assert run[|run| - 1] == State(f, Hashing({SNAPSHOT, DUMP}), m);
    run := Extend(c, faults, run, HashArtifact(SNAPSHOT));
    assert {SNAPSHOT, DUMP} - {SNAPSHOT} == {DUMP};
    assert run[|run| - 1] == State(f, Hashing({DUMP}), m);
    run := Extend(c, faults, run, HashArtifact(DUMP));
    run := Extend(c, faults, run, ReadDump);
  }

  /** The exported snapshot, staged and checked, is about to be swapped in. */
  lemma Stages(c: Codec, copy: Bytes, f: Files, m0: Manifest, faults: set<Action>) returns (run: seq<State>, m: Manifest)
    requires c.Valid() && IsExport(c, copy, f)
    ensures IsRunWith(c, faults, run) && run[0] == State(f, ReadingManifest, m0)
    ensures run[|run| - 1] == State(f.(tmp := Some(copy)), Replacing(SealedCount(c.readRows(copy).value)), m)
  {
    run, m := Checks(c, copy, f, m0, faults);
    run := Extend(c, faults, run, Clear);
    run := Extend(c, faults, run, Stage(copy));
    run := Extend(c, faults, run, CheckDigest);
    run := Extend(c, faults, run, CheckRows);
  }

  lemma AnyRunIsARun(c: Codec, faults: set<Action>, run: seq<State>)
    requires IsRunWith(c, faults, run)
    ensures IsRun(c, run)
  {
    forall i | 0 <= i < |run| - 1
      ensures Next(c, run[i], run[i + 1])
    {
      assert NextWith(c, faults, run[i], run[i + 1]);
    }
  }

  /** What was exported restores: without faults every layer passes and the live database becomes the
      exported snapshot, whatever it was before. */
  lemma ExportRestores(c: Codec, copy: Bytes, f: Files, m0: Manifest) returns (run: seq<State>)
    requires c.Valid() && IsExport(c, copy, f)
    ensures IsRunWith(c, {}, run) && IsRun(c, run) && run[0] == State(f, ReadingManifest, m0)
    ensures var s := run[|run| - 1];
            s.files.live == Some(copy) && s.pc == Done(Restored(SealedCount(c.readRows(copy).value)))
  {
    var m: Manifest;
    run, m := Stages(c, copy, f, m0, {});
    run := Extend(c, {}, run, Replace);
    run := Extend(c, {}, run, CleanUp);
    AnyRunIsARun(c, {}, run);
  }

  /** Each betraying fault, on its own, raises an error over the restored export; with a swap that reports an
      OSError this is even the error that claims an untouched database. */
  lemma EachFaultBetrays(c: Codec, copy: Bytes, f: Files, m0: Manifest, faults: set<Action>, a: Action)
    returns (run: seq<State>)
    requires c.Valid() && IsExport(c, copy, f) && a in faults && Betrays(a)
    ensures IsRunWith(c, faults, run) && run[0] == State(f, ReadingManifest, m0)
    ensures Raised(run[|run| - 1]) && run[|run| - 1].files.live == Some(copy)
    ensures a == ReplaceThenOsFails ==> run[|run| - 1].pc.outcome == Refused
  {
    var m: Manifest;
    run, m := Stages(c, copy, f, m0, faults);
    if a == CleanUpFails {
      run := Extend(c, faults, run, Replace);
      run := Extend(c, faults, run, CleanUpFails);
    } else {
      run := Extend(c, faults, run, a);
      run := Extend(c, faults, run, CleanUp);
    }
  }

  // --------------------------------------------------------------------- exactly

  /** All runs from these files that raise an error leave the live database as it was. */
  ghost predicate FailsClosed(c: Codec, f: Files, faults: set<Action>) {
    forall run: seq<State> :: IsRunWith(c, faults, run) && run[0].files == f && Raised(run[|run| - 1]) ==>
      run[|run| - 1].files.live == f.live
  }

  /** The same for BackupVerificationError alone, whose message says that the live database is untouched. */
  ghost predicate RefusesTruly(c: Codec, f: Files, faults: set<Action>) {
    forall run: seq<State> :: IsRunWith(c, faults, run) && run[0].files == f && run[|run| - 1].pc == Done(Refused) ==>
      run[|run| - 1].files.live == f.live
  }

  /**
   For every set of faults that may happen, and every backup that would change the live database: the restore
   fails closed if and only if no betraying fault is among them, and its refusals are true if and only if no swap
   takes effect while reporting an OSError.
   */
  lemma FailsClosedExactly(c: Codec, copy: Bytes, f: Files, m0: Manifest, faults: set<Action>)
    requires c.Valid() && IsExport(c, copy, f) && f.live != Some(copy)
    ensures FailsClosed(c, f, faults) <==> forall a :: a in faults ==> !Betrays(a)
    ensures RefusesTruly(c, f, faults) <==> ReplaceThenOsFails !in faults
  {
    SafeHalf(c, f, faults);
    if Betrayed(faults) {
      var a :| a in faults && Betrays(a);
      var run := EachFaultBetrays(c, copy, f, m0, faults, a);
      assert run[0].files == f;
    }
    if ReplaceThenOsFails in faults {
      var run := EachFaultBetrays(c, copy, f, m0, faults, ReplaceThenOsFails);
      assert run[0].files == f;
    }
  }

  /** The safe half needs no export: it holds from any files whatsoever. */
  lemma SafeHalf(c: Codec, f: Files, faults: set<Action>)
    ensures !Betrayed(faults) ==> FailsClosed(c, f, faults)
    ensures ReplaceThenOsFails !in faults ==> RefusesTruly(c, f, faults)
  {
    forall run: seq<State> | IsRunWith(c, faults, run) && run[0].files == f
      ensures Kept(faults, f.live, run[|run| - 1])
    {
      RunKeeps(c, faults, run, |run| - 1);
    }
  }
}
