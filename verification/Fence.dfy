/**
 Durable step writes guarded by fencing tokens.
 */
module Fence {
  import opened Prelude

  datatype ExecutionStep = ExecutionStep(stepId: string, tenantId: string, body: string)

  datatype Write = Write(step: ExecutionStep, token: Option<int>)

  datatype FenceError = StaleFencingToken

  /** `enforce_write_fence`: a write without a token is unconditional. */
  predicate WriteAllowed(storedFence: int, token: Option<int>) {
    token.None? || storedFence <= token.value
  }

  datatype Durable = Durable(steps: map<string, ExecutionStep>, fences: map<string, int>) {
    function FenceOf(id: string): int {
      if id in fences then fences[id] else 0
    }

    predicate Accepts(w: Write) {
      WriteAllowed(FenceOf(w.step.stepId), w.token)
    }

    /** The store after a write; a stale write changes nothing. */
    function After(w: Write): Durable {
      var id := w.step.stepId;
      if !Accepts(w) then this
      else Durable(steps[id := w.step], if w.token.Some? then fences[id := w.token.value] else fences)
    }
  }

  const EMPTY := Durable(map[], map[])

  class InMemoryDurableRepo {
    var steps: map<string, ExecutionStep>
    var fences: map<string, int>

    ghost function Contents(): Durable
      reads this
    {
      Durable(steps, fences)
    }

    constructor ()
      ensures Contents() == EMPTY
    {
      steps, fences := map[], map[];
    }

    method GetByStepId(tenant: string, id: string) returns (r: Option<ExecutionStep>)
      ensures r == if id in steps && steps[id].tenantId == tenant then Some(steps[id]) else None
    {
      r := if id in steps && steps[id].tenantId == tenant then Some(steps[id]) else None;
    }

    method Save(step: ExecutionStep, token: Option<int>) returns (r: Result<ExecutionStep, FenceError>)
      modifies this
      ensures r == if old(Contents()).Accepts(Write(step, token)) then Ok(step) else Err(StaleFencingToken)
      ensures Contents() == old(Contents()).After(Write(step, token))
    {
      var stored := if step.stepId in fences then fences[step.stepId] else 0;
      if token.Some? && stored > token.value {
        return Err(StaleFencingToken);
      }
      if token.Some? {
        fences := fences[step.stepId := token.value];
      }
      steps := steps[step.stepId := step];
      r := Ok(step);
    }
  }

  // ---------------------------------------------------------------- histories

  /** The store after a history of writes by any mix of writers. */
  function Run(h: seq<Write>): Durable {
    if h == [] then EMPTY else Run(h[..|h| - 1]).After(h[|h| - 1])
  }

  predicate AcceptedAt(h: seq<Write>, i: nat)
    requires i < |h|
  {
    Run(h[..i]).Accepts(h[i])
  }

  predicate Carries(w: Write, id: string) {
    w.step.stepId == id && w.token.Some?
  }

  /** `top` is the highest token presented for a step, accepted or not, counting from zero. */
  ghost predicate IsTop(h: seq<Write>, id: string, top: int) {
    && 0 <= top
    && (forall i :: 0 <= i < |h| && Carries(h[i], id) ==> h[i].token.value <= top)
    && (top == 0 || exists i :: 0 <= i < |h| && Carries(h[i], id) && h[i].token.value == top)
  }

  /** The fence is always the highest token ever presented, so it never decreases. */
  lemma {:induction false} FenceIsTop(h: seq<Write>, id: string)
    ensures IsTop(h, id, Run(h).FenceOf(id))
  {
    if h != [] {
      var n := |h| - 1;
      var front := h[..n];
      FenceIsTop(front, id);
      var top := Run(front).FenceOf(id);
      if top != 0 {
        var i :| 0 <= i < |front| && Carries(front[i], id) && front[i].token.value == top;
        assert h[i] == front[i];
      }
      assert forall i :: 0 <= i < n ==> h[i] == front[i];
      assert Run(h) == Run(front).After(h[n]);
    }
  }

  lemma FenceNeverDecreases(h: seq<Write>, id: string, i: nat, j: nat)
    requires i <= j <= |h|
    ensures Run(h[..i]).FenceOf(id) <= Run(h[..j]).FenceOf(id)
  {
    FenceIsTop(h[..i], id);
    FenceIsTop(h[..j], id);
    var top := Run(h[..i]).FenceOf(id);
    if top != 0 {
      var k :| 0 <= k < i && Carries(h[..i][k], id) && h[..i][k].token.value == top;
      assert h[..j][k] == h[..i][k];
    }
  }

  /** Acceptance from the history alone: no earlier write of the step carried a higher token. */
  lemma AcceptedExactly(h: seq<Write>, i: nat)
    requires i < |h|
    ensures AcceptedAt(h, i) <==>
            || h[i].token.None?
            || (0 <= h[i].token.value && forall j :: 0 <= j < i && Carries(h[j], h[i].step.stepId) ==>
                  h[j].token.value <= h[i].token.value)
  {
    var id := h[i].step.stepId;
    FenceIsTop(h[..i], id);
    assert forall j :: 0 <= j < i ==> h[..i][j] == h[j];
    var top := Run(h[..i]).FenceOf(id);
    if top != 0 {
      var k :| 0 <= k < i && Carries(h[..i][k], id) && h[..i][k].token.value == top;
      assert h[k].token.value == top && Carries(h[k], id);
    }
  }

  /** The tokens accepted for one step ascend. */
  lemma AcceptedTokensAscend(h: seq<Write>, i: nat, j: nat)
    requires i < j < |h| && h[i].step.stepId == h[j].step.stepId
    requires h[i].token.Some? && h[j].token.Some? && AcceptedAt(h, j)
    ensures h[i].token.value <= h[j].token.value
  {
    AcceptedExactly(h, j);
    assert Carries(h[i], h[j].step.stepId);
  }

  /** A write without a token, or a rejected one, leaves every fence alone; a rejected one leaves everything. */
  lemma FenceOnlyMovesByToken(s: Durable, w: Write)
    ensures !s.Accepts(w) ==> s.After(w) == s
    ensures w.token.None? ==> s.After(w).fences == s.fences
    ensures forall id :: id != w.step.stepId ==>
              s.After(w).FenceOf(id) == s.FenceOf(id) && (id in s.After(w).steps <==> id in s.steps)
              && (id in s.steps ==> s.After(w).steps[id] == s.steps[id])
  {
  }

  /** The stored step is the last accepted write of that step, for every history. */
  lemma {:induction false} StoredIsLastAccepted(h: seq<Write>, id: string, i: nat)
    requires i < |h| && h[i].step.stepId == id && AcceptedAt(h, i)
    requires forall j :: i < j < |h| && h[j].step.stepId == id ==> !AcceptedAt(h, j)
    ensures id in Run(h).steps && Run(h).steps[id] == h[i].step
  {
    var n := |h| - 1;
    assert Run(h) == Run(h[..n]).After(h[n]);
    if i < n {
      var front := h[..n];
      assert forall j :: 0 <= j < n ==> front[j] == h[j] && front[..j] == h[..j];
      assert AcceptedAt(front, i) && forall j :: i < j < n && front[j].step.stepId == id ==> !AcceptedAt(front, j);
      StoredIsLastAccepted(front, id, i);
      if h[n].step.stepId == id {
        assert !AcceptedAt(h, n);
      }
    }
  }

  lemma {:induction false} StoredNeedsAcceptance(h: seq<Write>, id: string)
    requires id in Run(h).steps
    ensures exists i :: 0 <= i < |h| && h[i].step.stepId == id && AcceptedAt(h, i)
  {
    var n := |h| - 1;
    assert Run(h) == Run(h[..n]).After(h[n]);
    if h[n].step.stepId == id && AcceptedAt(h, n) {
    } else {
      StoredNeedsAcceptance(h[..n], id);
      var i :| 0 <= i < n && h[..n][i].step.stepId == id && AcceptedAt(h[..n], i);
      assert h[..n][..i] == h[..i];
      assert AcceptedAt(h, i);
    }
  }

  /**
   Without token-less writes the newest writer wins: the stored step is the last write among
   those carrying the highest token seen.
   */
  lemma NewestTokenWins(h: seq<Write>, id: string, i: nat)
    requires forall j :: 0 <= j < |h| && h[j].step.stepId == id ==> h[j].token.Some?
    requires i < |h| && Carries(h[i], id) && 0 <= h[i].token.value
    requires forall j :: 0 <= j < |h| && Carries(h[j], id) ==> h[j].token.value <= h[i].token.value
    requires forall j :: i < j < |h| && Carries(h[j], id) ==> h[j].token.value < h[i].token.value
    ensures id in Run(h).steps && Run(h).steps[id] == h[i].step
    ensures Run(h).FenceOf(id) == h[i].token.value
  {
    AcceptedExactly(h, i);
    forall j | i < j < |h| && h[j].step.stepId == id
      ensures !AcceptedAt(h, j)
    {
      AcceptedExactly(h, j);
    }
    StoredIsLastAccepted(h, id, i);
    FenceIsTop(h, id);
  }

  /** A step all of whose writers carried negative tokens is never stored. */
  lemma NegativeTokensNeverStored(h: seq<Write>, id: string)
    requires forall j :: 0 <= j < |h| && h[j].step.stepId == id ==> h[j].token.Some? && h[j].token.value < 0
    ensures id !in Run(h).steps
  {
    if id in Run(h).steps {
      StoredNeedsAcceptance(h, id);
      var i :| 0 <= i < |h| && h[i].step.stepId == id && AcceptedAt(h, i);
      AcceptedExactly(h, i);
    }
  }
}
