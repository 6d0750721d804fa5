/**
 Exclusive publication of one file by any number of processes: write a private temporary file,
 then hard-link it to the target, or reserve the target and replace the reservation.
 */
module Publish {
  import opened Prelude

  datatype Outcome = Success | Exists | Failed | Crashed

  /** Where a process is in `_publish_new_file`. */
  datatype Pc =
    | Start
    | Writing          // the temporary file exists, its content is partial
    | Written          // complete and synced; the link comes next
    | LinkRefused      // the link raised an error other than "exists"
    | Reserved         // this process created the empty target
    | Undoing          // the replace raised; the reservation is to be removed
    | Ending(result: Outcome)  // only the clean-up of the temporary file is left
    | Done(result: Outcome)

  datatype Target = Absent | Original(content: Bytes) | Reservation(owner: nat) | Published(owner: nat, content: Bytes)

  datatype Process = Process(pc: Pc, tmp: Option<Bytes>)

  datatype State = State(target: Target, procs: seq<Process>)

  datatype Action =
    | Create | CreateFails
    | WriteSome(bytes: Bytes) | WriteAll | WriteFails
    | WriteFailsUnlinkFails      // and the temporary file cannot be removed either
    | Link | LinkExists | LinkFails
    | LinkExistsUnlinkFails      // refused, but removing the temporary file raises first
    | LinkFailsAfterEffect       // the link is in place, yet the call reports an error
    | Reserve | ReserveExists | ReserveFails
    | ReserveExistsUnlinkFails   // as for the link
    | CloseFails                 // closing the reservation's descriptor raises
    | Replace | ReplaceFails
    | ReplaceFailsAfterEffect    // the replace happened, then an exception arrived
    | Undo | UndoFails
    | CleanUp | CleanUpFails
    | Crash                      // before the outcome is decided

  predicate Enabled(s: State, p: nat, a: Action) {
    p < |s.procs| &&
    var pc := s.procs[p].pc;
    match a
    case Create => pc == Start
    case CreateFails => pc == Start
    case WriteSome(_) => pc == Writing
    case WriteAll => pc == Writing
    case WriteFails => pc == Writing
    case WriteFailsUnlinkFails => pc == Writing
    case Link => pc == Written && s.target == Absent
    case LinkExists => pc == Written && s.target != Absent
    case LinkExistsUnlinkFails => pc == Written && s.target != Absent
    case LinkFails => pc == Written
    case LinkFailsAfterEffect => pc == Written && s.target == Absent
    case Reserve => pc == LinkRefused && s.target == Absent
    case ReserveExists => pc == LinkRefused && s.target != Absent
    case ReserveExistsUnlinkFails => pc == LinkRefused && s.target != Absent
    case ReserveFails => pc == LinkRefused
    case CloseFails => pc == Reserved
    case Replace => pc == Reserved && s.procs[p].tmp.Some?
    case ReplaceFails => pc == Reserved
    case ReplaceFailsAfterEffect => pc == Reserved && s.procs[p].tmp.Some?
    case Undo => pc == Undoing
    case UndoFails => pc == Undoing
    case CleanUp => pc.Ending?
    case CleanUpFails => pc.Ending?
    case Crash => !pc.Ending? && !pc.Done?
  }

  /** The file that a link or a replace by `p` puts at the target. */
  function Publication(s: State, p: nat): Target
    requires p < |s.procs|
  {
    Published(p, if s.procs[p].tmp.Some? then s.procs[p].tmp.value else [])
  }

  function Step(payloads: seq<Bytes>, s: State, p: nat, a: Action): State
    requires |payloads| == |s.procs| && Enabled(s, p, a)
  {
    var me := s.procs[p];
    var (target, after) :=
      match a
      case Create => (s.target, Process(Writing, Some([])))
      case CreateFails => (s.target, me.(pc := Ending(Failed)))
      case WriteSome(bytes) => (s.target, me.(tmp := Some(bytes)))
      case WriteAll => (s.target, Process(Written, Some(payloads[p])))
      case WriteFails => (s.target, Process(Ending(Failed), None))
      case WriteFailsUnlinkFails => (s.target, me.(pc := Ending(Failed)))
      case Link => (Publication(s, p), me.(pc := Ending(Success)))
      case LinkExists => (s.target, Process(Ending(Exists), None))
      case LinkExistsUnlinkFails => (s.target, me.(pc := Ending(Failed)))
      case LinkFails => (s.target, me.(pc := LinkRefused))
      case LinkFailsAfterEffect => (Publication(s, p), me.(pc := LinkRefused))
      case Reserve => (Reservation(p), me.(pc := Reserved))
      case ReserveExists => (s.target, Process(Ending(Exists), None))
      case ReserveExistsUnlinkFails => (s.target, me.(pc := Ending(Failed)))
      case ReserveFails => (s.target, me.(pc := Ending(Failed)))
      case CloseFails => (s.target, me.(pc := Ending(Failed)))
      case Replace => (Publication(s, p), Process(Ending(Success), None))
      case ReplaceFails => (s.target, me.(pc := Undoing))
      case ReplaceFailsAfterEffect => (Publication(s, p), Process(Undoing, None))
      case Undo => (Absent, me.(pc := Ending(Failed)))
      case UndoFails => (s.target, me.(pc := Ending(Failed)))
      case CleanUp => (s.target, Process(Done(me.pc.result), None))
      case CleanUpFails => (s.target, me.(pc := Done(me.pc.result)))
      case Crash => (s.target, me.(pc := Done(Crashed)));
    State(target, s.procs[p := after])
  }

  ghost predicate Next(payloads: seq<Bytes>, s: State, s': State) {
    |payloads| == |s.procs| && exists p: nat, a :: Enabled(s, p, a) && s' == Step(payloads, s, p, a)
  }

  ghost predicate Initial(payloads: seq<Bytes>, s: State) {
    && |s.procs| == |payloads|
    && (s.target.Absent? || s.target.Original?)
    && forall p :: 0 <= p < |s.procs| ==> s.procs[p] == Process(Start, None)
  }

  /** Any interleaving of the processes' steps. */
  ghost predicate IsRun(payloads: seq<Bytes>, run: seq<State>) {
    && run != [] && Initial(payloads, run[0])
    && forall i :: 0 <= i < |run| - 1 ==> Next(payloads, run[i], run[i + 1])
  }

  predicate Ended(pc: Pc, result: Outcome) {
    pc == Ending(result) || pc == Done(result)
  }

  predicate Won(s: State, p: nat) {
    p < |s.procs| && Ended(s.procs[p].pc, Success)
  }

  // --------------------------------------------------------------- invariant

  /** What holds of one process: a writer past the write holds its whole payload, a process in the
      reserved or undoing state owns the target, and a winner's payload is at the target. */
  predicate ProcessInv(payloads: seq<Bytes>, s: State, p: nat)
    requires |payloads| == |s.procs| && p < |s.procs|
  {
    var me := s.procs[p];
    && (me.pc.Written? || me.pc.LinkRefused? || me.pc.Reserved? ==> me.tmp == Some(payloads[p]))
    && (me.pc == Reserved ==> s.target == Reservation(p))
    && (me.pc == Undoing ==> s.target == Reservation(p) || s.target == Published(p, payloads[p]))
    && (Ended(me.pc, Success) ==> s.target == Published(p, payloads[p]))
  }

  /** What holds of the target: only the process that put it there can still be working on it. */
  predicate TargetInv(payloads: seq<Bytes>, s: State)
    requires |payloads| == |s.procs|
  {
    match s.target
    case Absent => true
    case Original(_) => true
    case Reservation(p) =>
      p < |s.procs| &&
      var pc := s.procs[p].pc; pc == Reserved || pc == Undoing || Ended(pc, Failed) || Ended(pc, Crashed)
    case Published(p, content) =>
      p < |s.procs| && content == payloads[p] &&
      var pc := s.procs[p].pc; pc == LinkRefused || pc == Undoing || pc.Ending? || pc.Done?
  }

  ghost predicate Inv(payloads: seq<Bytes>, s: State) {
    && |payloads| == |s.procs|
    && TargetInv(payloads, s)
    && forall p: nat :: p < |s.procs| ==> ProcessInv(payloads, s, p)
  }

  lemma StepKeepsInv(payloads: seq<Bytes>, s: State, p: nat, a: Action)
    requires Inv(payloads, s) && Enabled(s, p, a)
    ensures Inv(payloads, Step(payloads, s, p, a))
  {
    var s' := Step(payloads, s, p, a);
    assert ProcessInv(payloads, s, p);
    forall q: nat | q < |s'.procs|
      ensures ProcessInv(payloads, s', q)
    {
      assert ProcessInv(payloads, s, q);
    }
  }

  /** The target only ever changes from absent, or by the process that owns it while it has not won. */
  lemma StepRespectsOwner(payloads: seq<Bytes>, s: State, p: nat, a: Action)
    requires Inv(payloads, s) && Enabled(s, p, a)
    ensures var s' := Step(payloads, s, p, a);
            s'.target != s.target ==>
              s.target == Absent || ((s.target == Reservation(p) || s.target == Published(p, payloads[p])) && !Won(s, p))
    ensures var s' := Step(payloads, s, p, a); forall q: nat :: Won(s, q) ==> Won(s', q)
  {
    assert ProcessInv(payloads, s, p);
  }

  lemma {:induction false} RunKeepsInv(payloads: seq<Bytes>, run: seq<State>, i: nat)
    requires IsRun(payloads, run) && i < |run|
    ensures Inv(payloads, run[i])
  {
    if i > 0 {
      RunKeepsInv(payloads, run, i - 1);
      assert Next(payloads, run[i - 1], run[i - 1 + 1]);
      var p: nat, a :| Enabled(run[i - 1], p, a) && run[i] == Step(payloads, run[i - 1], p, a);
      StepKeepsInv(payloads, run[i - 1], p, a);
    }
  }

  // ------------------------------------------------------------ whole-run laws

  /** Once a process has won, it stays the winner and its whole payload stays at the target; and a
      file that was there from the start is never touched. */
  lemma {:induction false} PublicationIsFinal(payloads: seq<Bytes>, run: seq<State>, i: nat, j: nat)
    requires IsRun(payloads, run) && i <= j < |run|
    ensures forall p: nat :: Won(run[i], p) ==> Won(run[j], p) && p < |payloads| && run[j].target == Published(p, payloads[p])
    ensures run[i].target.Original? ==> run[j].target == run[i].target
    decreases j - i
  {
    RunKeepsInv(payloads, run, i);
    assert forall p: nat :: Won(run[i], p) ==> ProcessInv(payloads, run[i], p);
    if i < j {
      assert Next(payloads, run[i], run[i + 1]);
      var q: nat, a :| Enabled(run[i], q, a) && run[i + 1] == Step(payloads, run[i], q, a);
      StepRespectsOwner(payloads, run[i], q, a);
      PublicationIsFinal(payloads, run, i + 1, j);
    }
  }

  /** At most one process ever wins, over all states of a run. */
  lemma AtMostOneWinner(payloads: seq<Bytes>, run: seq<State>, i: nat, j: nat, p: nat, q: nat)
    requires IsRun(payloads, run) && i < |run| && j < |run|
    requires Won(run[i], p) && Won(run[j], q)
    ensures p == q
  {
    PublicationIsFinal(payloads, run, i, |run| - 1);
    PublicationIsFinal(payloads, run, j, |run| - 1);
  }

  /** No reader ever sees a torn file: the target is absent, the original, an empty reservation, or
      one process's whole payload; and a process in the reserved state owns the target. */
  lemma TargetIsNeverTorn(payloads: seq<Bytes>, run: seq<State>, i: nat)
    requires IsRun(payloads, run) && i < |run|
    ensures match run[i].target
            case Absent => run[0].target == Absent
            case Original(_) => run[i].target == run[0].target
            case Reservation(p) => p < |payloads| && run[0].target == Absent
            case Published(p, content) => p < |payloads| && content == payloads[p] && run[0].target == Absent
    ensures forall p: nat :: p < |run[i].procs| && run[i].procs[p].pc == Reserved ==> run[i].target == Reservation(p)
  {
    RunKeepsInv(payloads, run, i);
    forall p: nat | p < |run[i].procs| && run[i].procs[p].pc == Reserved
      ensures run[i].target == Reservation(p)
    {
      assert ProcessInv(payloads, run[i], p);
    }
    OriginalIsInitial(payloads, run, i);
    PublicationIsFinal(payloads, run, 0, i);
  }

  lemma {:induction false} OriginalIsInitial(payloads: seq<Bytes>, run: seq<State>, i: nat)
    requires IsRun(payloads, run) && i < |run|
    ensures run[i].target.Original? ==> run[0].target == run[i].target
  {
    if i > 0 {
      OriginalIsInitial(payloads, run, i - 1);
      assert Next(payloads, run[i - 1], run[i - 1 + 1]);
    }
  }

  // ------------------------------------------------------------ exactly one

  ghost predicate Faulty(s: State) {
    exists p :: 0 <= p < |s.procs| && (Ended(s.procs[p].pc, Failed) || Ended(s.procs[p].pc, Crashed))
  }

  /** A process that was told "exists" was told the truth, unless some process failed or crashed. */
  ghost predicate LosersLost(s: State) {
    s.target == Absent && !Faulty(s) ==> forall p :: 0 <= p < |s.procs| ==> !Ended(s.procs[p].pc, Exists)
  }

  lemma StepKeepsLosers(payloads: seq<Bytes>, s: State, p: nat, a: Action)
    requires Inv(payloads, s) && LosersLost(s) && Enabled(s, p, a)
    ensures LosersLost(Step(payloads, s, p, a))
  {
    var s' := Step(payloads, s, p, a);
    assert ProcessInv(payloads, s, p);
    if a == Undo {
      assert Ended(s'.procs[p].pc, Failed);
    } else if Faulty(s) {
      var q :| 0 <= q < |s.procs| && (Ended(s.procs[q].pc, Failed) || Ended(s.procs[q].pc, Crashed));
      assert Ended(s'.procs[q].pc, Failed) || Ended(s'.procs[q].pc, Crashed);
    }
  }

  lemma {:induction false} RunKeepsLosers(payloads: seq<Bytes>, run: seq<State>, i: nat)
    requires IsRun(payloads, run) && i < |run|
    ensures LosersLost(run[i])
  {
    if i > 0 {
      RunKeepsLosers(payloads, run, i - 1);
      RunKeepsInv(payloads, run, i - 1);
      assert Next(payloads, run[i - 1], run[i - 1 + 1]);
      var p: nat, a :| Enabled(run[i - 1], p, a) && run[i] == Step(payloads, run[i - 1], p, a);
      StepKeepsLosers(payloads, run[i - 1], p, a);
    }
  }

  /**
   If every process finished, none failed or crashed, and no file was there, then the target holds
   one process's payload, all others were told "exists", and that process either won or was itself
   told "exists" because its link took effect while reporting an error.
   */
  lemma SomebodyPublishes(payloads: seq<Bytes>, run: seq<State>) returns (winner: nat)
    requires IsRun(payloads, run) && |payloads| > 0 && run[0].target == Absent
    requires var s := run[|run| - 1]; !Faulty(s) && forall p :: 0 <= p < |s.procs| ==> s.procs[p].pc.Done?
    ensures var s := run[|run| - 1];
            && |s.procs| == |payloads| && winner < |s.procs| && s.target == Published(winner, payloads[winner])
            && (s.procs[winner].pc == Done(Success) || s.procs[winner].pc == Done(Exists))
            && forall p :: 0 <= p < |s.procs| && p != winner ==> s.procs[p].pc == Done(Exists)
  {
    var n := |run| - 1;
    var s := run[n];
    RunKeepsInv(payloads, run, n);
    RunKeepsLosers(payloads, run, n);
    TargetIsNeverTorn(payloads, run, n);
    assert ProcessInv(payloads, s, 0);
    forall p | 0 <= p < |s.procs|
      ensures s.procs[p].pc == Done(Success) || s.procs[p].pc == Done(Exists)
      ensures s.procs[p].pc == Done(Success) ==> s.target == Published(p, payloads[p])
    {
      FourOutcomes(s.procs[p].pc.result);
      assert !Ended(s.procs[p].pc, Failed) && !Ended(s.procs[p].pc, Crashed);
      assert ProcessInv(payloads, s, p);
    }
    assert Ended(s.procs[0].pc, Exists) ==> s.target != Absent;
    winner := s.target.owner;
  }

  lemma FourOutcomes(o: Outcome)
    ensures o == Success || o == Exists || o == Failed || o == Crashed
  {
    match o
    case Success =>
    case Exists =>
    case Failed =>
    case Crashed =>
  }

  lemma ExtendRun(payloads: seq<Bytes>, run: seq<State>, p: nat, a: Action) returns (longer: seq<State>)
    requires IsRun(payloads, run) && |payloads| == |run[|run| - 1].procs| && Enabled(run[|run| - 1], p, a)
    ensures IsRun(payloads, longer) && longer[0] == run[0]
    ensures longer[|longer| - 1] == Step(payloads, run[|run| - 1], p, a)
  {
    longer := run + [Step(payloads, run[|run| - 1], p, a)];
    forall i | 0 <= i < |longer| - 1
      ensures Next(payloads, longer[i], longer[i + 1])
    {
      assert i < |run| - 1 ==> Next(payloads, run[i], run[i + 1]);
    }
  }

  /** One of two processes has reserved the target, and the other one is told that it exists. */
  lemma OneReserves(x: Bytes, y: Bytes) returns (run: seq<State>)
    ensures IsRun([x, y], run) && run[0].target == Absent
    ensures run[|run| - 1] == State(Reservation(0), [Process(Reserved, Some(x)), Process(Ending(Exists), None)])
  {
    run := [State(Absent, [Process(Start, None), Process(Start, None)])];
    run := ExtendRun([x, y], run, 0, Create);
    run := ExtendRun([x, y], run, 0, WriteAll);
    run := ExtendRun([x, y], run, 0, LinkFails);
    run := ExtendRun([x, y], run, 0, Reserve);
    assert run[|run| - 1] == State(Reservation(0), [Process(Reserved, Some(x)), Process(Start, None)]);
    run := ExtendRun([x, y], run, 1, Create);
    run := ExtendRun([x, y], run, 1, WriteAll);
    run := ExtendRun([x, y], run, 1, LinkExists);
  }

  /** With a failing replace, "exactly one of them wins" is false: everybody can lose, and no file is left. */
  lemma EverybodyCanLose(x: Bytes, y: Bytes) returns (run: seq<State>)
    ensures IsRun([x, y], run) && run[0].target == Absent
    ensures run[|run| - 1] == State(Absent, [Process(Ending(Failed), Some(x)), Process(Ending(Exists), None)])
  {
    run := OneReserves(x, y);
    run := ExtendRun([x, y], run, 0, ReplaceFails);
    run := ExtendRun([x, y], run, 0, Undo);
  }
}
