/**
 Exactly which faults a publication survives: "exactly one of them wins, the other is told that the
 file already exists" against every set of faults that may happen.
 */
module PublishFaults {
  import opened Prelude
  import opened Publish

  /** Faults after which nobody may win. */
  predicate Spoils(a: Action) {
    || a == CreateFails || a == WriteFails || a == WriteFailsUnlinkFails
    || a == LinkFailsAfterEffect || a == ReserveFails || a == CloseFails
    || a == ReplaceFails || a == ReplaceFailsAfterEffect || a == Crash
  }

  /** Faults after which a loser reports a failure instead of an existing file. */
  predicate Muffles(a: Action) {
    a == LinkExistsUnlinkFails || a == ReserveExistsUnlinkFails
  }

  /** Refused links, failing clean-ups and what a process does about its own failed replace are always allowed. */
  predicate Permitted(faults: set<Action>, a: Action) {
    Spoils(a) || Muffles(a) ==> a in faults
  }

  ghost predicate NextWith(faults: set<Action>, payloads: seq<Bytes>, s: State, s': State) {
    |payloads| == |s.procs| &&
    exists p: nat, a :: Permitted(faults, a) && Enabled(s, p, a) && s' == Step(payloads, s, p, a)
  }

  ghost predicate IsRunWith(faults: set<Action>, payloads: seq<Bytes>, run: seq<State>) {
    && run != [] && Initial(payloads, run[0]) && run[0].target == Absent
    && forall i :: 0 <= i < |run| - 1 ==> NextWith(faults, payloads, run[i], run[i + 1])
  }

  predicate AllDone(s: State) {
    s.procs != [] && forall p :: 0 <= p < |s.procs| ==> s.procs[p].pc.Done?
  }

  /** A run of at least one process, from no file until all have returned, with no other faults than these. */
  ghost predicate IsFinished(faults: set<Action>, payloads: seq<Bytes>, run: seq<State>) {
    IsRunWith(faults, payloads, run) && AllDone(run[|run| - 1])
  }

  predicate Wins(s: State, w: nat) {
    w < |s.procs| && s.procs[w].pc == Done(Success)
  }

  ghost predicate OneWinner(s: State) {
    exists w: nat :: Wins(s, w) && forall p: nat :: Wins(s, p) ==> p == w
  }

  /** One process wins and all the others are told that the file exists. */
  ghost predicate AsDocumented(s: State) {
    exists w: nat :: Wins(s, w) && forall p: nat :: p < |s.procs| && p != w ==> s.procs[p].pc == Done(Exists)
  }

  // ---------------------------------------------------------------- invariant

  predicate Spoilt(faults: set<Action>) {
    exists a :: a in faults && Spoils(a)
  }

  predicate Muffled(faults: set<Action>) {
    exists a :: a in faults && Muffles(a)
  }

  /** Whatever is at the target was put there by a process that won or still holds its reservation. */
  ghost predicate Backed(s: State) {
    match s.target
    case Absent => forall p: nat :: p < |s.procs| ==> !s.procs[p].pc.Ending? && !s.procs[p].pc.Done?
    case Original(_) => false
    case Reservation(p) => p < |s.procs| && s.procs[p].pc == Reserved
    case Published(p, _) => Won(s, p)
  }

  predicate Told(pc: Pc) {
    pc.Ending? || pc.Done? ==> pc.result == Success || pc.result == Exists
  }

  ghost predicate FaultInv(faults: set<Action>, s: State) {
    && Backed(s)
    && (forall p: nat :: p < |s.procs| ==> s.procs[p].pc != Undoing)
    && (!Muffled(faults) ==> forall p: nat :: p < |s.procs| ==> Told(s.procs[p].pc))
  }

  lemma StepKeepsFaultInv(faults: set<Action>, payloads: seq<Bytes>, s: State, p: nat, a: Action)
    requires !Spoilt(faults) && Permitted(faults, a)
    requires Inv(payloads, s) && FaultInv(faults, s) && Enabled(s, p, a)
    ensures FaultInv(faults, Step(payloads, s, p, a))
  {
    assert ProcessInv(payloads, s, p);
    assert !Spoils(a);
    if !Muffled(faults) {
      assert !Muffles(a);
    }
  }

  lemma {:induction false} RunKeepsFaultInv(faults: set<Action>, payloads: seq<Bytes>, run: seq<State>, i: nat)
    requires !Spoilt(faults) && IsRunWith(faults, payloads, run) && i < |run|
    ensures Inv(payloads, run[i]) && FaultInv(faults, run[i])
  {
    if i > 0 {
      RunKeepsFaultInv(faults, payloads, run, i - 1);
      var s := run[i - 1];
      assert NextWith(faults, payloads, s, run[i - 1 + 1]);
      var p: nat, a :| Permitted(faults, a) && Enabled(s, p, a) && run[i] == Step(payloads, s, p, a);
      StepKeepsInv(payloads, s, p, a);
      StepKeepsFaultInv(faults, payloads, s, p, a);
    }
  }

  /** Without spoiling faults exactly one process wins; without muffling ones all others are told. */
  lemma FinishedWell(faults: set<Action>, payloads: seq<Bytes>, run: seq<State>)
    requires !Spoilt(faults) && IsFinished(faults, payloads, run)
    ensures OneWinner(run[|run| - 1])
    ensures !Muffled(faults) ==> AsDocumented(run[|run| - 1])
  {
    var s := run[|run| - 1];
    RunKeepsFaultInv(faults, payloads, run, |run| - 1);
    assert s.procs[0].pc.Done?;
    var w := s.target.owner;
    assert s.procs[w].pc.Done?;
    assert Wins(s, w);
    forall p: nat | Wins(s, p)
      ensures p == w
    {
      assert ProcessInv(payloads, s, p);
    }
    if !Muffled(faults) {
      forall p: nat | p < |s.procs| && p != w
        ensures s.procs[p].pc == Done(Exists)
      {
        assert s.procs[p].pc.Done? && Told(s.procs[p].pc) && !Wins(s, p);
      }
    }
  }

  // ----------------------------------------------------------------- witnesses

  lemma Extend(faults: set<Action>, payloads: seq<Bytes>, run: seq<State>, p: nat, a: Action) returns (longer: seq<State>)
    requires IsRunWith(faults, payloads, run) && |payloads| == |run[|run| - 1].procs|
    requires Permitted(faults, a) && Enabled(run[|run| - 1], p, a)
    ensures IsRunWith(faults, payloads, longer)
    ensures longer[|longer| - 1] == Step(payloads, run[|run| - 1], p, a)
  {
    longer := run + [Step(payloads, run[|run| - 1], p, a)];
    forall i | 0 <= i < |longer| - 1
      ensures NextWith(faults, payloads, longer[i], longer[i + 1])
    {
      assert i < |run| - 1 ==> NextWith(faults, payloads, run[i], run[i + 1]);
    }
  }

  /** One process on its own, up to a complete temporary file. */
  lemma Prepare(faults: set<Action>, payload: Bytes) returns (run: seq<State>)
    ensures IsRunWith(faults, [payload], run)
    ensures run[|run| - 1] == State(Absent, [Process(Written, Some(payload))])
  {
    run := [State(Absent, [Process(Start, None)])];
    run := Extend(faults, [payload], run, 0, Create);
    run := Extend(faults, [payload], run, 0, WriteAll);
  }

  lemma PrepareReserved(faults: set<Action>, payload: Bytes) returns (run: seq<State>)
    ensures IsRunWith(faults, [payload], run)
    ensures run[|run| - 1] == State(Reservation(0), [Process(Reserved, Some(payload))])
  {
    run := Prepare(faults, payload);
    run := Extend(faults, [payload], run, 0, LinkFails);
    run := Extend(faults, [payload], run, 0, Reserve);
  }

  lemma Finish(faults: set<Action>, payload: Bytes, run: seq<State>) returns (longer: seq<State>)
    requires IsRunWith(faults, [payload], run) && |run[|run| - 1].procs| == 1
    requires var pc := run[|run| - 1].procs[0].pc; pc.Ending? && pc.result != Success
    ensures IsFinished(faults, [payload], longer) && !OneWinner(longer[|longer| - 1])
  {
    longer := Extend(faults, [payload], run, 0, CleanUp);
  }

  /** A process that fails before it comes to the target. */
  lemma EarlyLoss(faults: set<Action>, a: Action, payload: Bytes) returns (run: seq<State>)
    requires a in faults && (a == CreateFails || a == WriteFails || a == WriteFailsUnlinkFails || a == Crash)
    ensures IsFinished(faults, [payload], run) && !OneWinner(run[|run| - 1])
  {
    run := [State(Absent, [Process(Start, None)])];
    if a == Crash || a == CreateFails {
      run := Extend(faults, [payload], run, 0, a);
    } else {
      run := Extend(faults, [payload], run, 0, Create);
      run := Extend(faults, [payload], run, 0, a);
    }
    if a != Crash {
      run := Finish(faults, payload, run);
    }
  }

  lemma LateLoss(faults: set<Action>, a: Action, payload: Bytes) returns (run: seq<State>)
    requires a in faults && (a == LinkFailsAfterEffect || a == ReserveFails || a == CloseFails)
    ensures IsFinished(faults, [payload], run) && !OneWinner(run[|run| - 1])
  {
    if a == CloseFails {
      run := PrepareReserved(faults, payload);
      run := Extend(faults, [payload], run, 0, CloseFails);
    } else {
      run := Prepare(faults, payload);
      if a == ReserveFails {
        run := Extend(faults, [payload], run, 0, LinkFails);
        run := Extend(faults, [payload], run, 0, ReserveFails);
      } else {
        run := Extend(faults, [payload], run, 0, LinkFailsAfterEffect);
        run := Extend(faults, [payload], run, 0, ReserveExists);
      }
    }
    run := Finish(faults, payload, run);
  }

  lemma ReplaceLoss(faults: set<Action>, a: Action, payload: Bytes) returns (run: seq<State>)
    requires a in faults && (a == ReplaceFails || a == ReplaceFailsAfterEffect)
    ensures IsFinished(faults, [payload], run) && !OneWinner(run[|run| - 1])
  {
    run := PrepareReserved(faults, payload);
    run := Extend(faults, [payload], run, 0, a);
    run := Extend(faults, [payload], run, 0, Undo);
    run := Finish(faults, payload, run);
  }

  /** Every spoiling fault, on its own, can leave a lone publisher without success. */
  lemma EachFaultSpoils(faults: set<Action>, a: Action, payload: Bytes) returns (run: seq<State>)
    requires a in faults && Spoils(a)
    ensures IsFinished(faults, [payload], run) && !OneWinner(run[|run| - 1])
  {
    if a == CreateFails || a == WriteFails || a == WriteFailsUnlinkFails || a == Crash {
      run := EarlyLoss(faults, a, payload);
    } else if a == ReplaceFails || a == ReplaceFailsAfterEffect {
      run := ReplaceLoss(faults, a, payload);
    } else {
      run := LateLoss(faults, a, payload);
    }
  }

  /** Two processes, the first of which has won, and the second is about to link. */
  lemma FirstWins(faults: set<Action>, x: Bytes, y: Bytes) returns (run: seq<State>)
    ensures IsRunWith(faults, [x, y], run)
    ensures run[|run| - 1] == State(Published(0, x), [Process(Done(Success), None), Process(Written, Some(y))])
  {
    run := [State(Absent, [Process(Start, None), Process(Start, None)])];
    run := Extend(faults, [x, y], run, 0, Create);
    run := Extend(faults, [x, y], run, 0, WriteAll);
    run := Extend(faults, [x, y], run, 0, Link);
    run := Extend(faults, [x, y], run, 0, CleanUp);
    assert run[|run| - 1] == State(Published(0, x), [Process(Done(Success), None), Process(Start, None)]);
    run := Extend(faults, [x, y], run, 1, Create);
    run := Extend(faults, [x, y], run, 1, WriteAll);
  }

  /** Every muffling fault can make the loser report something else. */
  lemma EachFaultMuffles(faults: set<Action>, a: Action, x: Bytes, y: Bytes) returns (run: seq<State>)
    requires a in faults && Muffles(a)
    ensures IsFinished(faults, [x, y], run) && !AsDocumented(run[|run| - 1])
  {
    run := FirstWins(faults, x, y);
    if a == ReserveExistsUnlinkFails {
      run := Extend(faults, [x, y], run, 1, LinkFails);
    }
    run := Extend(faults, [x, y], run, 1, a);
    assert run[|run| - 1] == State(Published(0, x), [Process(Done(Success), None), Process(Ending(Failed), Some(y))]);
    run := Report(faults, x, y, run);
  }

  lemma Report(faults: set<Action>, x: Bytes, y: Bytes, run: seq<State>) returns (longer: seq<State>)
    requires IsRunWith(faults, [x, y], run)
    requires run[|run| - 1] == State(Published(0, x), [Process(Done(Success), None), Process(Ending(Failed), Some(y))])
    ensures IsFinished(faults, [x, y], longer) && !AsDocumented(longer[|longer| - 1])
  {
    longer := Extend(faults, [x, y], run, 1, CleanUp);
    var s := longer[|longer| - 1];
    assert s.procs[1].pc == Done(Failed);
  }

  // -------------------------------------------------------------------- exactly

  /** Every finished run, of any number of processes, has exactly one winner precisely if no spoiling fault may happen. */
  lemma OneWinnerExactly(faults: set<Action>)
    ensures (forall payloads, run :: IsFinished(faults, payloads, run) ==> OneWinner(run[|run| - 1])) <==>
            forall a :: a in faults ==> !Spoils(a)
  {
    if Spoilt(faults) {
      var a :| a in faults && Spoils(a);
      var run := EachFaultSpoils(faults, a, []);
      assert IsFinished(faults, [[]], run);
    } else {
      forall payloads, run | IsFinished(faults, payloads, run)
        ensures OneWinner(run[|run| - 1])
      {
        FinishedWell(faults, payloads, run);
      }
    }
  }

  /** The documented outcome, one winner and all others told, precisely if no spoiling or muffling fault may happen. */
  lemma DocumentedExactly(faults: set<Action>)
    ensures (forall payloads, run :: IsFinished(faults, payloads, run) ==> AsDocumented(run[|run| - 1])) <==>
            forall a :: a in faults ==> !Spoils(a) && !Muffles(a)
  {
    if Spoilt(faults) {
      var a :| a in faults && Spoils(a);
      var run := EachFaultSpoils(faults, a, []);
      DocumentedHasOneWinner(run[|run| - 1]);
      assert IsFinished(faults, [[]], run);
    } else if Muffled(faults) {
      var a :| a in faults && Muffles(a);
      var run := EachFaultMuffles(faults, a, [], []);
      assert IsFinished(faults, [[], []], run);
    } else {
      forall payloads, run | IsFinished(faults, payloads, run)
        ensures AsDocumented(run[|run| - 1])
      {
        FinishedWell(faults, payloads, run);
      }
    }
  }

  lemma DocumentedHasOneWinner(s: State)
    ensures AsDocumented(s) ==> OneWinner(s)
  {
    if AsDocumented(s) {
      var w: nat :| Wins(s, w) && forall p: nat :: p < |s.procs| && p != w ==> s.procs[p].pc == Done(Exists);
      forall p: nat | Wins(s, p)
        ensures p == w
      {
      }
    }
  }
}
