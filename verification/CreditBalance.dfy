/**
 When the credit ledger adds up: the sum of its movements against the wallet's available balance.
 */
module CreditBalance {
  import opened Prelude
  import opened Credits
  import opened CreditLaws

  function Sum(ledger: seq<Entry>): int {
    if ledger == [] then 0 else Sum(ledger[..|ledger| - 1]) + ledger[|ledger| - 1].delta
  }

  lemma SumAppend(ledger: seq<Entry>, e: Entry)
    ensures Sum(ledger + [e]) == Sum(ledger) + e.delta
  {
    assert (ledger + [e])[..|ledger|] == ledger;
  }

  function Balance(a: Account): int {
    if a.wallet.None? then 0 else a.wallet.value.Available()
  }

  /** By how much the ledger exceeds the balance it is meant to explain. */
  function Drift(a: Account): int {
    Sum(a.ledger) - Balance(a)
  }

  /** Every entry's recorded balance is the sum of the movements up to it. */
  predicate Audited(ledger: seq<Entry>) {
    forall i :: 0 <= i < |ledger| ==> ledger[i].balanceAfter == Sum(ledger[..i + 1])
  }

  predicate Balanced(a: Account) {
    Drift(a) == 0 && Balance(a) >= 0 && Audited(a.ledger)
  }

  lemma PostEffect(a: Account, w: Wallet, key: Key, delta: int)
    ensures Drift(Post(a, w, key, delta)) == Drift(a) + Balance(a) + delta - w.Available()
    ensures Balanced(a) && w.Available() == Balance(a) + delta >= 0 ==> Balanced(Post(a, w, key, delta))
  {
    var e := Entry(key, delta, w.Available());
    var longer := a.ledger + [e];
    SumAppend(a.ledger, e);
    if Balanced(a) && w.Available() == Balance(a) + delta {
      forall i | 0 <= i < |longer|
        ensures longer[i].balanceAfter == Sum(longer[..i + 1])
      {
        if i < |a.ledger| {
          assert longer[..i + 1] == a.ledger[..i + 1] && longer[i] == a.ledger[i];
        } else {
          assert longer[..i + 1] == longer;
        }
      }
    }
  }

  lemma HoldEffect(a: Account, i: nat, status: HoldStatus)
    requires Inv(a) && a.wallet.Some? && i < |a.holds| && a.holds[i].status == Held
    requires status == Released || status == Expired
    ensures var b := Release(a, a.wallet.value, i, status); Drift(b) == Drift(a) && (Balanced(a) ==> Balanced(b))
  {
    ReleaseKeepsInv(a, i, status);
    var w := a.wallet.value;
    PostEffect(a.(holds := a.holds[i := a.holds[i].(status := status)]), w.(reserved := Lowered(w.reserved)), ReleaseKey(i), 1);
  }

  lemma ConsumeEffect(a: Account, i: nat)
    requires Inv(a) && a.wallet.Some? && i < |a.holds| && a.holds[i].status == Held && !WasConsumed(a, a.holds[i].plan)
    ensures var b := Consume(a, a.wallet.value, i); Drift(b) == Drift(a) && (Balanced(a) ==> Balanced(b))
  {
    ConsumeKeepsInv(a, i);
    var w := a.wallet.value;
    PostEffect(a.(holds := a.holds[i := a.holds[i].(status := Consumed)]),
               w.(consumed := w.consumed + 1, reserved := Lowered(w.reserved)), ConsumeKey(a.holds[i].plan), 0);
  }

  lemma {:induction false} SweepEffect(a: Account, now: real, n: nat)
    requires Inv(a) && n <= |a.holds|
    ensures var b := Sweep(a, now, n); Drift(b) == Drift(a) && (Balanced(a) ==> Balanced(b))
  {
    if n > 0 {
      SweepKeepsInv(a, now, n - 1);
      SweepEffect(a, now, n - 1);
      var b, i := Sweep(a, now, n - 1), n - 1;
      if b.wallet.Some? && b.holds[i].status == Held && b.holds[i].expiresAt < now && !HasKey(b.ledger, ReleaseKey(i)) {
        HoldEffect(b, i, Expired);
      }
    }
  }

  // -------------------------------------------------------------------- resets

  /** The reset meets no live hold, and can record what it expires. */
  predicate CleanReset(b: Account) {
    b.wallet.Some? ==>
      var w := b.wallet.value;
      w.reserved == 0 && (w.Available() <= 0 || !HasKey(b.ledger, ExpireKey(w.periodEnd)))
  }

  /** The exact drift of a reset: the live holds if the expiry is recorded, all unused credits if not. */
  lemma ResetDrift(b: Account)
    requires b.wallet.Some?
    ensures var w, c := b.wallet.value, Reset(b, b.wallet.value);
            Drift(c) == Drift(b) + (if NothingToReset(w) then 0
                                    else if w.Available() > 0 && !HasKey(b.ledger, ExpireKey(w.periodEnd)) then w.reserved
                                    else w.granted - w.consumed)
  {
    var w := b.wallet.value;
    if w.Available() > 0 && !HasKey(b.ledger, ExpireKey(w.periodEnd)) {
      PostEffect(b, ResetWallet(w), ExpireKey(w.periodEnd), -w.Available());
    }
  }

  lemma ResetEffect(b: Account)
    requires Inv(b) && b.wallet.Some? && Balanced(b)
    ensures var c := Reset(b, b.wallet.value);
            if CleanReset(b) then Balanced(c) else Drift(c) > 0
  {
    ResetDrift(b);
    var w := b.wallet.value;
    assert w.Available() >= 0 && w.reserved >= 0;
    if CleanReset(b) {
      CleanResetBalanced(b);
    }
  }

  lemma CleanResetBalanced(b: Account)
    requires b.wallet.Some? && Balanced(b) && CleanReset(b)
    ensures Balanced(Reset(b, b.wallet.value))
  {
    var w := b.wallet.value;
    if w.Available() > 0 {
      PostEffect(b, ResetWallet(w), ExpireKey(w.periodEnd), -w.Available());
    }
  }

  /** Whether an operation resets the period, and the account at that moment. */
  predicate Resets(a: Account, op: Op) {
    a.wallet.Some? &&
    match op
    case DoAllocate(amount, start, end, id, t) =>
      amount > 0 && !HasKey(a.ledger, GrantKey(id)) && (start >= a.wallet.value.periodEnd || a.wallet.value.periodEnd <= t.now)
    case DoExpire(now) => Balance(SweepAll(a, now)) > 0
    case DoDeactivate(now) => Balance(SweepAll(a, now)) > 0
    case _ => false
  }

  /** What the clock reads when the operation sweeps. */
  function SweptAt(op: Op): real {
    match op
    case DoAllocate(_, _, _, _, t) => t.swept
    case DoReserve(_, t, _) => t.swept
    case DoExpire(now) => now
    case DoDeactivate(now) => now
    case _ => 0.0
  }

  predicate Clean(a: Account, op: Op) {
    Resets(a, op) ==> CleanReset(SweepAll(a, SweptAt(op)))
  }

  lemma AllocateEffect(a: Account, amount: int, start: real, end: real, id: string, t: Clock)
    requires Inv(a)
    ensures var op, b := DoAllocate(amount, start, end, id, t), Allocate(a, amount, start, end, id, t);
            && (!Resets(a, op) ==> Drift(b) == Drift(a))
            && (Balanced(a) && Clean(a, op) ==> Balanced(b))
            && (Balanced(a) && !Clean(a, op) ==> Drift(b) > 0)
  {
    if amount > 0 && !HasKey(a.ledger, GrantKey(id)) {
      if a.wallet.None? {
        PostEffect(a, Wallet(amount, 0, 0, end, true), GrantKey(id), amount);
      } else {
        RenewEffect(a, start, t);
        GrantEffect(Renew(SweepAll(a, t.swept), start, t.now), amount, end, id);
      }
    }
  }

  predicate RollsOver(a: Account, start: real, now: real) {
    a.wallet.Some? && (start >= a.wallet.value.periodEnd || a.wallet.value.periodEnd <= now)
  }

  lemma RenewEffect(a: Account, start: real, t: Clock)
    requires Inv(a) && a.wallet.Some?
    ensures var b := SweepAll(a, t.swept);
            var c := Renew(b, start, t.now);
            && (!RollsOver(a, start, t.now) ==> Drift(c) == Drift(a))
            && (Balanced(a) && (RollsOver(a, start, t.now) ==> CleanReset(b)) ==> Balanced(c))
            && (Balanced(a) && RollsOver(a, start, t.now) && !CleanReset(b) ==> Drift(c) > 0)
  {
    SweptAccount(a, t.swept);
    if Balanced(a) {
      ResetEffect(SweepAll(a, t.swept));
    }
  }

  lemma GrantEffect(c: Account, amount: int, end: real, id: string)
    requires c.wallet.Some? && amount > 0
    ensures var d := Credited(c, amount, end, id);
            Drift(d) == Drift(c) && (Balanced(c) ==> Balanced(d))
  {
    var v := c.wallet.value;
    PostEffect(c, v.(granted := v.granted + amount, periodEnd := end, enforced := true), GrantKey(id), amount);
  }

  lemma ExpireTail(b: Account)
    requires Inv(b) && b.wallet.Some?
    ensures var c := ExpireAvailable(b);
            && (Balance(b) <= 0 ==> Drift(c) == Drift(b))
            && (Balanced(b) && (Balance(b) > 0 ==> CleanReset(b)) ==> Balanced(c))
            && (Balanced(b) && Balance(b) > 0 && !CleanReset(b) ==> Drift(c) > 0)
  {
    if Balanced(b) {
      ResetEffect(b);
    }
  }

  lemma ExpireEffect(a: Account, now: real)
    requires Inv(a)
    ensures var op, b := DoExpire(now), ExpireRemaining(a, now);
            && (!Resets(a, op) ==> Drift(b) == Drift(a))
            && (Balanced(a) && Clean(a, op) ==> Balanced(b))
            && (Balanced(a) && !Clean(a, op) ==> Drift(b) > 0)
  {
    SweptAccount(a, now);
    if a.wallet.Some? {
      ExpireTail(SweepAll(a, now));
    }
  }

  /** A sweep neither makes nor hides a difference. */
  lemma SweptAccount(a: Account, now: real)
    requires Inv(a)
    ensures var b := SweepAll(a, now);
            && Inv(b) && Drift(b) == Drift(a) && (Balanced(a) ==> Balanced(b))
            && (b.wallet.Some? <==> a.wallet.Some?)
            && (a.wallet.Some? ==> b.wallet.value.periodEnd == a.wallet.value.periodEnd)
  {
    SweepKeepsInv(a, now, |a.holds|);
    SweepEffect(a, now, |a.holds|);
  }

  lemma ReserveEffect(a: Account, plan: string, t: Clock, ttl: real)
    requires Inv(a)
    ensures var b := Reserve(a, plan, t, ttl); Drift(b) == Drift(a) && (Balanced(a) ==> Balanced(b))
  {
    SweptAccount(a, t.swept);
    if a.wallet.Some? {
      ReserveTail(SweepAll(a, t.swept), plan, t.now + ttl);
    }
  }

  lemma ReserveTail(b: Account, plan: string, expiresAt: real)
    requires b.wallet.Some?
    ensures var c := PlaceIfAvailable(b, plan, expiresAt); Drift(c) == Drift(b) && (Balanced(b) ==> Balanced(c))
  {
    PlaceEffect(b, plan, expiresAt);
  }

  lemma PlaceEffect(b: Account, plan: string, expiresAt: real)
    requires b.wallet.Some?
    ensures var c := Place(b, plan, expiresAt);
            Drift(c) == Drift(b) && (Balanced(b) && Balance(b) >= 1 ==> Balanced(c))
  {
    var w := b.wallet.value;
    PostEffect(b.(holds := b.holds + [Hold(plan, Held, expiresAt)]), w.(reserved := w.reserved + 1), ReserveKey(|b.holds|), -1);
  }

  /**
   From a balanced account an operation keeps the ledger and the wallet in agreement exactly when it
   does not reset the period over a live hold or an already recorded expiry.
   */
  lemma BalanceKeptExactly(a: Account, op: Op)
    requires Inv(a) && Balanced(a)
    ensures Clean(a, op) ==> Balanced(Do(a, op))
    ensures !Clean(a, op) ==> Drift(Do(a, op)) > 0
  {
    match op
    case DoAllocate(amount, start, end, id, t) => AllocateEffect(a, amount, start, end, id, t);
    case DoReserve(plan, t, ttl) => ReserveEffect(a, plan, t, ttl);
    case DoFinalize(i, billable) => FinalizeEffect(a, i, billable);
    case DoExpire(now) => ExpireEffect(a, now);
    case DoDeactivate(now) => DeactivateEffect(a, now);
    case DoUpgrade(credits, id) => UpgradeEffect(a, credits, id);
    case DoAttach(now) =>
  }

  lemma FinalizeEffect(a: Account, i: nat, billable: bool)
    requires Inv(a)
    ensures var b := Finalize(a, i, billable); Drift(b) == Drift(a) && (Balanced(a) ==> Balanced(b))
  {
    if a.wallet.Some? && i < |a.holds| && a.holds[i].status == Held {
      HoldEffect(a, i, Released);
      if !WasConsumed(a, a.holds[i].plan) {
        ConsumeEffect(a, i);
      }
    }
  }

  lemma DeactivateEffect(a: Account, now: real)
    requires Inv(a)
    ensures var op, b := DoDeactivate(now), Deactivate(a, now);
            && (Balanced(a) && Clean(a, op) ==> Balanced(b))
            && (Balanced(a) && !Clean(a, op) ==> Drift(b) > 0)
  {
    ExpireEffect(a, now);
    assert Resets(a, DoExpire(now)) == Resets(a, DoDeactivate(now));
    var b := ExpireRemaining(a, now);
    assert Balance(Deactivate(a, now)) == Balance(b);
  }

  lemma UpgradeEffect(a: Account, credits: int, id: string)
    requires Inv(a)
    ensures var b := Upgrade(a, credits, id); Drift(b) == Drift(a) && (Balanced(a) ==> Balanced(b))
  {
    if a.wallet.Some? {
      var w := a.wallet.value;
      PostEffect(a, w.(granted := credits), GrantKey(id), credits - w.granted);
    }
  }

  // -------------------------------------------------------------------- witness

  lemma {:induction false} RunSnoc(ops: seq<Op>, op: Op)
    ensures Run(ops + [op]) == Do(Run(ops), op)
  {
    assert (ops + [op])[..|ops|] == ops;
  }

  lemma RunThree(first: Op, second: Op, third: Op)
    ensures Run([first, second, third]) == Do(Do(Do(NEW_TENANT, first), second), third)
    ensures Inv(Do(Do(NEW_TENANT, first), second))
  {
    RunSnoc([], first);
    assert [] + [first] == [first];
    RunSnoc([first], second);
    assert [first] + [second] == [first, second];
    RunSnoc([first, second], third);
    assert [first, second] + [third] == [first, second, third];
    RunKeepsInv([first, second]);
  }

  /** A hold that lives across a renewal, whatever the allowance, the plan and the periods: the ledger then
      claims more than the wallet has. */
  lemma HoldAcrossRenewalDrifts(amount: int, start: real, end: real, end': real, id: string, id': string, plan: string, ttl: real)
    returns (ops: seq<Op>)
    requires amount > 0 && start < end < end' && start + ttl >= end && id != id'
    ensures |ops| == 3 && Drift(Run(ops)) > 0
    ensures ops[0] == DoAllocate(amount, start, end, id, Clock(start, start))
    ensures ops[1] == DoReserve(plan, Clock(start, start), ttl)
    ensures ops[2] == DoAllocate(amount, end, end', id', Clock(end, end))
  {
    var t := Clock(start, start);
    var first, hold := DoAllocate(amount, start, end, id, t), DoReserve(plan, t, ttl);
    var renewal := DoAllocate(amount, end, end', id', Clock(end, end));
    ops := [first, hold, renewal];
    RunThree(first, hold, renewal);
    var a1 := Do(NEW_TENANT, first);
    FirstGrant(a1, amount, start, end, id, t);
    HoldPlaced(a1, amount, end, id, plan, t, ttl);
    RenewHeld(Do(a1, hold), amount, end, end', id', Hold(plan, Held, start + ttl));
  }

  lemma FirstGrant(a: Account, amount: int, start: real, end: real, id: string, t: Clock)
    requires amount > 0 && a == Allocate(NEW_TENANT, amount, start, end, id, t)
    ensures a.wallet == Some(Wallet(amount, 0, 0, end, true)) && a.holds == [] && Balanced(a)
    ensures forall k :: HasKey(a.ledger, k) <==> k == GrantKey(id)
  {
    PostEffect(NEW_TENANT, Wallet(amount, 0, 0, end, true), GrantKey(id), amount);
    forall k
      ensures HasKey(a.ledger, k) <==> k == GrantKey(id)
    {
      HasKeyAppend([], Entry(GrantKey(id), amount, amount), k);
    }
  }

  lemma HoldPlaced(a: Account, amount: int, end: real, id: string, plan: string, t: Clock, ttl: real)
    requires amount > 0 && a.wallet == Some(Wallet(amount, 0, 0, end, true)) && a.holds == [] && Balanced(a)
    requires forall k :: HasKey(a.ledger, k) <==> k == GrantKey(id)
    ensures var b := Reserve(a, plan, t, ttl);
            && b.wallet == Some(Wallet(amount, 0, 1, end, true)) && b.holds == [Hold(plan, Held, t.now + ttl)] && Balanced(b)
            && forall id' :: id' != id ==> !HasKey(b.ledger, GrantKey(id'))
  {
    assert SweepAll(a, t.swept) == a;
    PlaceEffect(a, plan, t.now + ttl);
    forall id' | id' != id
      ensures !HasKey(Reserve(a, plan, t, ttl).ledger, GrantKey(id'))
    {
      HasKeyAppend(a.ledger, Entry(ReserveKey(0), -1, amount - 1), GrantKey(id'));
    }
  }

  lemma RenewHeld(a: Account, amount: int, end: real, end': real, id: string, h: Hold)
    requires amount > 0 && h.status == Held && h.expiresAt >= end
    requires a.wallet == Some(Wallet(amount, 0, 1, end, true)) && a.holds == [h]
    requires !HasKey(a.ledger, GrantKey(id)) && Inv(a) && Balanced(a)
    ensures Drift(Do(a, DoAllocate(amount, end, end', id, Clock(end, end)))) > 0
  {
    assert Sweep(a, end, 1) == Sweep(a, end, 0) == a;
    AllocateEffect(a, amount, end, end', id, Clock(end, end));
  }
}
