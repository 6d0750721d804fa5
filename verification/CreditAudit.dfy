/**
 The run-level account of the ledger: an append-only ledger cannot forget a reset that was not clean, so it
 adds up after a run if and only if every operation of the run was clean.
 */
module CreditAudit {
  import opened Prelude
  import opened Credits
  import opened CreditLaws
  import opened CreditBalance

  /** The ledger claims more than an empty wallet has, and no entry shows it yet. */
  predicate Drifting(a: Account) {
    Drift(a) > 0 && a.wallet.Some? && a.wallet.value.granted == 0 && a.wallet.value.consumed == 0
  }

  predicate Tainted(a: Account) {
    !Audited(a.ledger) || Drifting(a)
  }

  lemma TaintedIsNotBalanced(a: Account)
    ensures Tainted(a) ==> !Balanced(a)
  {
  }

  // ---------------------------------------------------------------- the ledger

  lemma AuditedPrefix(ledger: seq<Entry>, longer: seq<Entry>)
    requires ledger <= longer
    ensures Audited(longer) ==> Audited(ledger)
  {
    forall i | 0 <= i < |ledger|
      ensures longer[i] == ledger[i] && longer[..i + 1] == ledger[..i + 1]
    {
    }
  }

  /** An entry that moves the wallet by its own amount exposes an earlier drift. */
  lemma EntryExposes(ledger: seq<Entry>, e: Entry)
    requires e.balanceAfter != Sum(ledger) + e.delta
    ensures !Audited(ledger + [e])
  {
    var longer := ledger + [e];
    SumAppend(ledger, e);
    assert longer[..|ledger| + 1] == longer && longer[|ledger|] == e;
  }

  lemma PostExposes(a: Account, w: Wallet, key: Key, delta: int)
    requires !Audited(a.ledger) || w.Available() != Sum(a.ledger) + delta
    ensures !Audited(Post(a, w, key, delta).ledger)
  {
    var e := Entry(key, delta, w.Available());
    AuditedPrefix(a.ledger, a.ledger + [e]);
    if w.Available() != Sum(a.ledger) + delta {
      EntryExposes(a.ledger, e);
    }
  }

  // --------------------------------------------------------- an unclean reset

  lemma UncleanResetTaints(b: Account)
    requires Inv(b) && b.wallet.Some? && Balanced(b) && !CleanReset(b)
    ensures Tainted(Reset(b, b.wallet.value))
  {
    var w := b.wallet.value;
    ResetEffect(b);
    if w.Available() > 0 && !HasKey(b.ledger, ExpireKey(w.periodEnd)) {
      PostExposes(b, ResetWallet(w), ExpireKey(w.periodEnd), -w.Available());
    }
  }

  lemma CreditedTaints(c: Account, amount: int, end: real, id: string)
    requires c.wallet.Some? && Tainted(c)
    ensures !Audited(Credited(c, amount, end, id).ledger)
  {
    var v := c.wallet.value;
    PostExposes(c, v.(granted := v.granted + amount, periodEnd := end, enforced := true), GrantKey(id), amount);
  }

  /** From a balanced account every operation that is not clean leaves a taint. */
  lemma UncleanTaints(a: Account, op: Op)
    requires Inv(a) && Balanced(a) && !Clean(a, op)
    ensures Tainted(Do(a, op))
  {
    SweptAccount(a, SweptAt(op));
    var b := SweepAll(a, SweptAt(op));
    UncleanResetTaints(b);
    match op
    case DoAllocate(amount, start, end, id, t) => CreditedTaints(Reset(b, b.wallet.value), amount, end, id);
    case DoExpire(now) =>
    case DoDeactivate(now) => EnforcementIsNoTaint(Reset(b, b.wallet.value));
  }

  lemma EnforcementIsNoTaint(a: Account)
    requires a.wallet.Some?
    ensures Tainted(a.(wallet := Some(a.wallet.value.(enforced := false)))) <==> Tainted(a)
  {
  }

  // ---------------------------------------------------------- a taint is for good

  lemma LongerExposes(ledger: seq<Entry>, longer: seq<Entry>)
    requires ledger <= longer && |ledger| < |longer|
    requires !Audited(ledger) || longer[|ledger|].balanceAfter != Sum(ledger) + longer[|ledger|].delta
    ensures !Audited(longer)
  {
    AuditedPrefix(ledger, longer);
    SumUpTo(ledger, longer);
  }

  lemma SumUpTo(ledger: seq<Entry>, longer: seq<Entry>)
    requires ledger <= longer && |ledger| < |longer|
    ensures Sum(longer[..|ledger| + 1]) == Sum(ledger) + longer[|ledger|].delta
  {
    assert longer[..|ledger| + 1] == ledger + [longer[|ledger|]];
    SumAppend(ledger, longer[|ledger|]);
  }

  lemma FirstRelease(a: Account, b: Account, now: real)
    requires SweptTo(a, b, now, |a.holds|)
    ensures b == a || (a.ledger <= b.ledger && |a.ledger| < |b.ledger| && a.wallet.Some? &&
                       var e := b.ledger[|a.ledger|]; e.delta == 1 && e.balanceAfter == Balance(a) + 1)
  {
    var lapsed := Lapsed(a.holds, now, |a.holds|);
    if lapsed == [] {
      assert b.holds == a.holds && b.ledger == a.ledger && b.wallet == a.wallet;
    } else {
      assert b.ledger[|a.ledger| + 0] == Entry(ReleaseKey(lapsed[0]), 1, Balance(a) + 0 + 1);
    }
  }

  lemma SweepTaints(a: Account, now: real)
    requires Inv(a) && Tainted(a)
    ensures var b := SweepAll(a, now); !Audited(b.ledger) || b == a
  {
    SweepExactly(a, now, |a.holds|);
    var b := SweepAll(a, now);
    FirstRelease(a, b, now);
    if b != a {
      LongerExposes(a.ledger, b.ledger);
    }
  }

  lemma SweptIsTainted(a: Account, now: real)
    requires Inv(a) && Tainted(a)
    ensures var b := SweepAll(a, now); Inv(b) && Tainted(b) && (b.wallet.Some? <==> a.wallet.Some?)
  {
    SweepTaints(a, now);
    SweepKeepsInv(a, now, |a.holds|);
  }

  /** An empty wallet has nothing to reset, so a drift is not cured that way either. */
  lemma ResetTaints(b: Account)
    requires Inv(b) && b.wallet.Some? && Tainted(b)
    ensures Tainted(Reset(b, b.wallet.value))
  {
    var w := b.wallet.value;
    if !Audited(b.ledger) {
      if w.Available() > 0 && !HasKey(b.ledger, ExpireKey(w.periodEnd)) {
        PostExposes(b, ResetWallet(w), ExpireKey(w.periodEnd), -w.Available());
      }
    } else {
      assert NothingToReset(w);
    }
  }

  lemma AllocateTaints(a: Account, amount: int, start: real, end: real, id: string, t: Clock)
    requires Inv(a) && Tainted(a)
    ensures Tainted(Allocate(a, amount, start, end, id, t))
  {
    if amount > 0 && !HasKey(a.ledger, GrantKey(id)) {
      if a.wallet.None? {
        PostExposes(a, Wallet(amount, 0, 0, end, true), GrantKey(id), amount);
      } else {
        SweptIsTainted(a, t.swept);
        ResetTaints(SweepAll(a, t.swept));
        CreditedTaints(Renew(SweepAll(a, t.swept), start, t.now), amount, end, id);
      }
    }
  }

  lemma ReserveTaints(a: Account, plan: string, t: Clock, ttl: real)
    requires Inv(a) && Tainted(a)
    ensures Tainted(Reserve(a, plan, t, ttl))
  {
    SweptIsTainted(a, t.swept);
    if a.wallet.Some? {
      PlaceTaints(SweepAll(a, t.swept), plan, t.now + ttl);
    }
  }

  lemma PlaceTaints(b: Account, plan: string, expiresAt: real)
    requires b.wallet.Some? && Tainted(b)
    ensures Tainted(PlaceIfAvailable(b, plan, expiresAt))
  {
    var w := b.wallet.value;
    PostExposes(b.(holds := b.holds + [Hold(plan, Held, expiresAt)]), w.(reserved := w.reserved + 1), ReserveKey(|b.holds|), -1);
  }

  lemma FinalizeTaints(a: Account, i: nat, billable: bool)
    requires Inv(a) && Tainted(a)
    ensures Tainted(Finalize(a, i, billable))
  {
    if a.wallet.Some? && i < |a.holds| && a.holds[i].status == Held {
      ReleaseKeepsInv(a, i, Released);
      ReleaseTaints(a, a.wallet.value, i, Released);
      ConsumeTaints(a, a.wallet.value, i);
    }
  }

  lemma ReleaseTaints(a: Account, w: Wallet, i: nat, status: HoldStatus)
    requires Tainted(a) && a.wallet == Some(w) && w.reserved >= 1 && i < |a.holds|
    ensures Tainted(Release(a, w, i, status))
  {
    PostExposes(a.(holds := a.holds[i := a.holds[i].(status := status)]), w.(reserved := Lowered(w.reserved)), ReleaseKey(i), 1);
  }

  lemma ConsumeTaints(a: Account, w: Wallet, i: nat)
    requires Tainted(a) && a.wallet == Some(w) && w.reserved >= 1 && i < |a.holds|
    ensures Tainted(Consume(a, w, i))
  {
    PostExposes(a.(holds := a.holds[i := a.holds[i].(status := Consumed)]),
                w.(consumed := w.consumed + 1, reserved := Lowered(w.reserved)), ConsumeKey(a.holds[i].plan), 0);
  }

  lemma ExpireTaints(a: Account, now: real)
    requires Inv(a) && Tainted(a)
    ensures Tainted(ExpireRemaining(a, now))
  {
    SweptIsTainted(a, now);
    if a.wallet.Some? {
      ResetTaints(SweepAll(a, now));
    }
  }

  lemma UpgradeTaints(a: Account, credits: int, id: string)
    requires Inv(a) && Tainted(a)
    ensures Tainted(Upgrade(a, credits, id))
  {
    if a.wallet.Some? {
      var w := a.wallet.value;
      PostExposes(a, w.(granted := credits), GrantKey(id), credits - w.granted);
    }
  }

  lemma TaintStays(a: Account, op: Op)
    requires Inv(a) && Tainted(a)
    ensures Tainted(Do(a, op))
  {
    match op
    case DoAllocate(amount, start, end, id, t) => AllocateTaints(a, amount, start, end, id, t);
    case DoReserve(plan, t, ttl) => ReserveTaints(a, plan, t, ttl);
    case DoFinalize(i, billable) => FinalizeTaints(a, i, billable);
    case DoExpire(now) => ExpireTaints(a, now);
    case DoDeactivate(now) =>
      ExpireTaints(a, now);
      if a.wallet.Some? {
        EnforcementIsNoTaint(ExpireRemaining(a, now));
      }
    case DoUpgrade(credits, id) => UpgradeTaints(a, credits, id);
    case DoAttach(now) =>
  }

  // ------------------------------------------------------------------ whole runs

  /** The operation at position `i` is clean in the account that it meets. */
  predicate CleanStep(ops: seq<Op>, i: nat)
    requires i < |ops|
  {
    Clean(Run(ops[..i]), ops[i])
  }

  predicate IsCleanRun(ops: seq<Op>) {
    ops == [] || (IsCleanRun(ops[..|ops| - 1]) && CleanStep(ops, |ops| - 1))
  }

  lemma FrontStep(ops: seq<Op>, i: nat)
    requires i < |ops| - 1
    ensures CleanStep(ops[..|ops| - 1], i) <==> CleanStep(ops, i)
  {
    assert ops[..|ops| - 1][..i] == ops[..i];
  }

  lemma {:induction false} CleanAtEveryStep(ops: seq<Op>)
    ensures IsCleanRun(ops) <==> forall i: nat :: i < |ops| ==> CleanStep(ops, i)
  {
    if ops != [] {
      var n := |ops| - 1;
      CleanAtEveryStep(ops[..n]);
      forall i: nat | i < n
        ensures CleanStep(ops[..n], i) <==> CleanStep(ops, i)
      {
        FrontStep(ops, i);
      }
    }
  }

  lemma {:induction false} BalancedOrTainted(ops: seq<Op>)
    ensures if IsCleanRun(ops) then Balanced(Run(ops)) else Tainted(Run(ops))
  {
    if ops != [] {
      var front, op := ops[..|ops| - 1], ops[|ops| - 1];
      BalancedOrTainted(front);
      RunKeepsInv(front);
      NextIsBalancedOrTainted(Run(front), op, IsCleanRun(front));
    }
  }

  lemma NextIsBalancedOrTainted(a: Account, op: Op, clean: bool)
    requires Inv(a) && if clean then Balanced(a) else Tainted(a)
    ensures if clean && Clean(a, op) then Balanced(Do(a, op)) else Tainted(Do(a, op))
  {
    if !clean {
      TaintStays(a, op);
    } else if Clean(a, op) {
      BalanceKeptExactly(a, op);
    } else {
      UncleanTaints(a, op);
    }
  }

  /**
   After a run the ledger sums to a balance that is not negative and every entry carries the right running
   balance, if and only if every operation of the run was clean.
   */
  lemma RunBalancedExactly(ops: seq<Op>)
    ensures Balanced(Run(ops)) <==> forall i: nat :: i < |ops| ==> CleanStep(ops, i)
  {
    CleanAtEveryStep(ops);
    BalancedOrTainted(ops);
    TaintedIsNotBalanced(Run(ops));
  }
}
