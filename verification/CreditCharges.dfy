/**
 Which operations record which keys; in particular, a plan is charged exactly by a billable outcome.
 */
module CreditCharges {
  import opened Prelude
  import opened Credits
  import opened CreditLaws

  // ------------------------------------------------------------- keys, step by step

  lemma SweepKeys(a: Account, now: real, k: Key)
    requires Inv(a) && !k.ReleaseKey?
    ensures HasKey(SweepAll(a, now).ledger, k) <==> HasKey(a.ledger, k)
  {
    SweepExactly(a, now, |a.holds|);
    SweepKeepsInv(a, now, |a.holds|);
    var b := SweepAll(a, now);
    if HasKey(a.ledger, k) {
      var i :| 0 <= i < |a.ledger| && a.ledger[i].key == k;
      assert b.ledger[i] == a.ledger[i];
    }
  }

  lemma PostKeys(a: Account, w: Wallet, key: Key, delta: int, k: Key)
    ensures HasKey(Post(a, w, key, delta).ledger, k) <==> HasKey(a.ledger, k) || k == key
  {
    HasKeyAppend(a.ledger, Entry(key, delta, w.Available()), k);
  }

  lemma ResetKeys(b: Account, k: Key)
    requires b.wallet.Some? && !k.ExpireKey?
    ensures HasKey(Reset(b, b.wallet.value).ledger, k) <==> HasKey(b.ledger, k)
  {
    var w := b.wallet.value;
    PostKeys(b, ResetWallet(w), ExpireKey(w.periodEnd), -w.Available(), k);
  }

  lemma CreditedKeys(c: Account, amount: int, end: real, id: string, k: Key)
    requires c.wallet.Some?
    ensures HasKey(Credited(c, amount, end, id).ledger, k) <==> HasKey(c.ledger, k) || k == GrantKey(id)
  {
    var v := c.wallet.value;
    PostKeys(c, v.(granted := v.granted + amount, periodEnd := end, enforced := true), GrantKey(id), amount, k);
  }

  /** Apart from releases and expiries, an allocation of a positive amount records its own key and no other. */
  lemma AllocateKeys(a: Account, amount: int, start: real, end: real, id: string, t: Clock, k: Key)
    requires Inv(a) && amount > 0 && !k.ReleaseKey? && !k.ExpireKey?
    ensures HasKey(Allocate(a, amount, start, end, id, t).ledger, k) <==> HasKey(a.ledger, k) || k == GrantKey(id)
  {
    if !HasKey(a.ledger, GrantKey(id)) {
      if a.wallet.None? {
        PostKeys(a, Wallet(amount, 0, 0, end, true), GrantKey(id), amount, k);
      } else {
        var b := SweepAll(a, t.swept);
        SweepKeys(a, t.swept, k);
        ResetKeys(b, k);
        CreditedKeys(Renew(b, start, t.now), amount, end, id, k);
      }
    }
  }

  // ------------------------------------------------------------------- charges

  /** The operation settles a live hold of the plan as billable. */
  predicate Bills(a: Account, op: Op, plan: string) {
    && op.DoFinalize? && op.billable && a.wallet.Some? && op.hold < |a.holds|
    && a.holds[op.hold].status == Held && a.holds[op.hold].plan == plan
  }

  lemma ReserveCharges(a: Account, plan: string, t: Clock, ttl: real, p: string)
    requires Inv(a)
    ensures WasConsumed(Reserve(a, plan, t, ttl), p) <==> WasConsumed(a, p)
  {
    SweepKeys(a, t.swept, ConsumeKey(p));
    if a.wallet.Some? {
      var b := SweepAll(a, t.swept);
      var w := b.wallet.value;
      PostKeys(b.(holds := b.holds + [Hold(plan, Held, t.now + ttl)]), w.(reserved := w.reserved + 1), ReserveKey(|b.holds|), -1,
               ConsumeKey(p));
    }
  }

  lemma ExpireCharges(a: Account, now: real, p: string)
    requires Inv(a)
    ensures WasConsumed(ExpireRemaining(a, now), p) <==> WasConsumed(a, p)
  {
    SweepKeys(a, now, ConsumeKey(p));
    if a.wallet.Some? {
      ResetKeys(SweepAll(a, now), ConsumeKey(p));
    }
  }

  lemma FinalizeCharges(a: Account, i: nat, billable: bool, p: string)
    requires Inv(a)
    ensures WasConsumed(Finalize(a, i, billable), p) <==> WasConsumed(a, p) || Bills(a, DoFinalize(i, billable), p)
  {
    if a.wallet.Some? && i < |a.holds| && a.holds[i].status == Held {
      var w, h := a.wallet.value, a.holds[i];
      PostKeys(a.(holds := a.holds[i := h.(status := Released)]), w.(reserved := Lowered(w.reserved)), ReleaseKey(i), 1, ConsumeKey(p));
      PostKeys(a.(holds := a.holds[i := h.(status := Consumed)]),
               w.(consumed := w.consumed + 1, reserved := Lowered(w.reserved)), ConsumeKey(h.plan), 0, ConsumeKey(p));
    }
  }

  lemma UpgradeCharges(a: Account, credits: int, id: string, p: string)
    ensures WasConsumed(Upgrade(a, credits, id), p) <==> WasConsumed(a, p)
  {
    if a.wallet.Some? {
      PostKeys(a, a.wallet.value.(granted := credits), GrantKey(id), credits - a.wallet.value.granted, ConsumeKey(p));
    }
  }

  /** An operation charges a plan that was not charged before exactly when it bills a live hold of it. */
  lemma DoCharges(a: Account, op: Op, p: string)
    requires Inv(a)
    ensures WasConsumed(Do(a, op), p) <==> WasConsumed(a, p) || Bills(a, op, p)
  {
    match op
    case DoAllocate(amount, start, end, id, t) =>
      if amount > 0 {
        AllocateKeys(a, amount, start, end, id, t, ConsumeKey(p));
      }
    case DoReserve(plan, t, ttl) => ReserveCharges(a, plan, t, ttl, p);
    case DoFinalize(i, billable) => FinalizeCharges(a, i, billable, p);
    case DoExpire(now) => ExpireCharges(a, now, p);
    case DoDeactivate(now) => ExpireCharges(a, now, p);
    case DoUpgrade(credits, id) => UpgradeCharges(a, credits, id, p);
    case DoAttach(now) =>
  }

  predicate BillsAt(ops: seq<Op>, i: nat, plan: string)
    requires i < |ops|
  {
    Bills(Run(ops[..i]), ops[i], plan)
  }

  ghost predicate Billed(ops: seq<Op>, plan: string) {
    exists i: nat :: i < |ops| && BillsAt(ops, i, plan)
  }

  lemma BilledFront(ops: seq<Op>, plan: string)
    requires ops != []
    ensures Billed(ops, plan) <==> Billed(ops[..|ops| - 1], plan) || BillsAt(ops, |ops| - 1, plan)
  {
    var n := |ops| - 1;
    var front := ops[..n];
    forall i: nat | i < n
      ensures BillsAt(front, i, plan) <==> BillsAt(ops, i, plan)
    {
      assert front[..i] == ops[..i] && front[i] == ops[i];
    }
  }

  /**
   Only a billable outcome ever charges, and it always does: after every run a plan has a charge in the ledger if and
   only if some operation of the run settled a live hold of that plan as billable.
   */
  lemma {:induction false} ChargedExactly(ops: seq<Op>, plan: string)
    ensures HasKey(Run(ops).ledger, ConsumeKey(plan)) <==> Billed(ops, plan)
  {
    if ops != [] {
      var n := |ops| - 1;
      ChargedExactly(ops[..n], plan);
      RunKeepsInv(ops[..n]);
      DoCharges(Run(ops[..n]), ops[n], plan);
      BilledFront(ops, plan);
    }
  }
}
