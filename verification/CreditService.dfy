/**
 The credit service over its mutable wallet, ledger and holds.
 */
module CreditService {
  import opened Prelude
  import opened Credits
  import opened CreditLaws

  /** `Unbilled` in evaluation mode, `Refused` where InsufficientCreditsError is raised. */
  datatype HoldOutcome = Unbilled | AlreadyBilled | Placed(hold: nat) | Refused

  datatype Settlement = NoHold | Charged | Freed

  /** What is available once every lapsed hold has given its credit back. */
  ghost function CreditsAfterSweep(a: Account, now: real): int
    requires a.wallet.Some?
  {
    a.wallet.value.Available() + |Lapsed(a.holds, now, |a.holds|)|
  }

  /** A grant: the last entry books the amount, the wallet is enforced until the end of the new period and holds the
      amount on top of what the period keeps, which is nothing if it rolls over. Lapsed holds give their credit back. */
  ghost predicate IsGrant(a: Account, b: Account, amount: int, start: real, end: real, id: string, t: Clock) {
    && b.wallet.Some? && a.ledger <= b.ledger && |a.ledger| < |b.ledger|
    && var w' := b.wallet.value;
    && b.ledger[|b.ledger| - 1] == Entry(GrantKey(id), amount, w'.granted - w'.consumed - w'.reserved)
    && w'.periodEnd == end && w'.enforced
    && (a.wallet.None? ==> w'.granted == amount && w'.consumed == 0 && w'.reserved == 0)
    && (a.wallet.Some? ==>
          var w := a.wallet.value;
          var rolled := start >= w.periodEnd || w.periodEnd <= t.now;
          && w'.granted == (if rolled then 0 else w.granted) + amount
          && w'.consumed == (if rolled then 0 else w.consumed)
          && w'.reserved == w.reserved - |Lapsed(a.holds, t.swept, |a.holds|)|)
  }

  lemma GrantMeans(a: Account, amount: int, start: real, end: real, id: string, t: Clock)
    requires Inv(a) && a.wallet.Some? && amount > 0 && !HasKey(a.ledger, GrantKey(id))
    ensures IsGrant(a, Allocate(a, amount, start, end, id, t), amount, start, end, id, t)
  {
    SweepExactly(a, t.swept, |a.holds|);
  }

  /** One credit held for a plan. */
  ghost predicate IsHeld(a: Account, b: Account, plan: string, expiresAt: real) {
    && a.wallet.Some?
    && b.wallet == Some(a.wallet.value.(reserved := a.wallet.value.reserved + 1))
    && b.holds == a.holds + [Hold(plan, Held, expiresAt)]
    && b.ledger == a.ledger + [Entry(ReserveKey(|a.holds|), -1, a.wallet.value.Available() - 1)]
  }

  class RecoveryCreditService {
    var wallet: Option<Wallet>
    var ledger: seq<Entry>
    var holds: seq<Hold>

    ghost function Contents(): Account
      reads this
    {
      Account(wallet, ledger, holds)
    }

    /** Ledger keys are unique and tell the state of the holds, and the reserved counter is their number. */
    ghost predicate Valid()
      reads this
    {
      Inv(Contents())
    }

    constructor ()
      ensures Valid() && Contents() == NEW_TENANT
    {
      wallet, ledger, holds := None, [], [];
    }

    method Record(w: Wallet, key: Key, delta: int)
      modifies this
      ensures Contents() == Post(old(Contents()), w, key, delta)
    {
      wallet := Some(w);
      ledger := ledger + [Entry(key, delta, w.Available())];
    }

    /** Lazy expiry: releases exactly the live holds whose time has passed, one ledger entry each. */
    method SweepExpiredHolds(now: real)
      requires Valid()
      modifies this
      ensures Valid() && Contents() == SweepAll(old(Contents()), now)
      ensures SweptTo(old(Contents()), Contents(), now, |old(holds)|)
      ensures forall j :: 0 <= j < |holds| ==> !HasLapsed(holds[j], now)
    {
      SweepExactly(Contents(), now, |holds|);
      SweepKeepsInv(Contents(), now, |holds|);
      NothingLapsedIsLeft(Contents(), now);
      ReleaseLapsed(now);
    }

    method ReleaseLapsed(now: real)
      modifies this
      ensures Contents() == SweepAll(old(Contents()), now)
    {
      ghost var before := Contents();
      for i := 0 to |holds|
        invariant |holds| == |before.holds|
        invariant Contents() == Sweep(before, now, i)
      {
        if wallet.Some? && holds[i].status == Held && holds[i].expiresAt < now && !HasKey(ledger, ReleaseKey(i)) {
          var w := wallet.value;
          holds := holds[i := holds[i].(status := Expired)];
          Record(w.(reserved := Lowered(w.reserved)), ReleaseKey(i), 1);
        }
      }
    }

    /** Starts the period over. Credits that were available go into the ledger, once per period end; live
        holds stay, so the new balance is minus their number. */
    method ResetPeriod()
      requires Valid() && wallet.Some?
      modifies this
      ensures Valid() && Contents() == Reset(old(Contents()), old(wallet).value)
      ensures wallet == Some(old(wallet).value.(granted := 0, consumed := 0)) && holds == old(holds)
      ensures var w := old(wallet).value;
              ledger == if w.Available() > 0 && !HasKey(old(ledger), ExpireKey(w.periodEnd))
                        then old(ledger) + [Entry(ExpireKey(w.periodEnd), -w.Available(), -w.reserved)] else old(ledger)
    {
      ResetKeepsInv(Contents());
      var w := wallet.value;
      if w.Available() > 0 && !HasKey(ledger, ExpireKey(w.periodEnd)) {
        Record(ResetWallet(w), ExpireKey(w.periodEnd), -w.Available());
      } else {
        wallet := Some(ResetWallet(w));
      }
    }

    /** What an allocation does first in an existing wallet: sweep, then roll the period over if it is due. */
    method RollOver(start: real, t: Clock)
      requires Valid() && wallet.Some?
      modifies this
      ensures Valid() && wallet.Some? && Contents() == Renew(SweepAll(old(Contents()), t.swept), start, t.now)
    {
      SweepExpiredHolds(t.swept);
      if start >= wallet.value.periodEnd || wallet.value.periodEnd <= t.now {
        ResetPeriod();
      }
    }

    method AllocateCredits(amount: int, start: real, end: real, id: string, t: Clock) returns (recorded: bool)
      requires Valid()
      modifies this
      ensures Valid()
      ensures Contents() == Allocate(old(Contents()), amount, start, end, id, t)
      ensures recorded <==> amount > 0 && !HasKey(old(ledger), GrantKey(id))
      ensures !recorded ==> Contents() == old(Contents())
      ensures recorded ==> IsGrant(old(Contents()), Contents(), amount, start, end, id, t)
    {
      if amount <= 0 || HasKey(ledger, GrantKey(id)) {
        return false;
      }
      AllocateKeepsInv(Contents(), amount, start, end, id, t);
      if wallet.None? {
        Record(Wallet(amount, 0, 0, end, true), GrantKey(id), amount);
        return true;
      }
      GrantMeans(Contents(), amount, start, end, id, t);
      RollOver(start, t);
      var v := wallet.value;
      Record(v.(granted := v.granted + amount, periodEnd := end, enforced := true), GrantKey(id), amount);
      recorded := true;
    }

    /** The live hold of a plan. */
    method FindHold(plan: string) returns (r: Option<nat>)
      ensures r.Some? <==> HasHeld(holds, plan)
      ensures r.Some? ==> r.value < |holds| && holds[r.value].plan == plan && holds[r.value].status == Held
    {
      for i := 0 to |holds|
        invariant forall j :: 0 <= j < i ==> !(holds[j].status == Held && holds[j].plan == plan)
      {
        if holds[i].status == Held && holds[i].plan == plan {
          return Some(i);
        }
      }
      r := None;
    }

    /** Unbilled in evaluation mode, already billed for a plan that was charged, the live hold of the plan if
        it has one, a new hold if a credit is available after the sweep, and refused otherwise. */
    method ReserveForExecution(plan: string, t: Clock, ttl: real) returns (r: HoldOutcome)
      requires Valid()
      modifies this
      ensures Valid()
      ensures Contents() == Reserve(old(Contents()), plan, t, ttl)
      ensures r == Unbilled <==> old(wallet).None? || !old(wallet).value.enforced
      ensures r == AlreadyBilled <==> r != Unbilled && HasKey(old(ledger), ConsumeKey(plan))
      ensures r.Placed? <==>
        && r != Unbilled && r != AlreadyBilled
        && (HasHeld(old(holds), plan) || CreditsAfterSweep(old(Contents()), t.swept) >= 1)
      ensures r.Placed? ==> r.hold < |holds| && holds[r.hold].plan == plan && holds[r.hold].status == Held
      ensures r.Placed? && !HasHeld(old(holds), plan) ==> r.hold == |old(holds)| && holds[r.hold].expiresAt == t.now + ttl
      ensures r == Unbilled || r == AlreadyBilled || HasHeld(old(holds), plan) ==> Contents() == old(Contents())
      ensures r == Refused ==> SweptTo(old(Contents()), Contents(), t.swept, |old(holds)|)
      ensures r.Placed? && !HasHeld(old(holds), plan) ==>
        exists swept :: SweptTo(old(Contents()), swept, t.swept, |old(holds)|) && IsHeld(swept, Contents(), plan, t.now + ttl)
    {
      if wallet.None? || !wallet.value.enforced {
        return Unbilled;
      }
      if HasKey(ledger, ConsumeKey(plan)) {
        return AlreadyBilled;
      }
      var live := FindHold(plan);
      if live.Some? {
        return Placed(live.value);
      }
      ReserveKeepsInv(Contents(), plan, t, ttl);
      SweepExpiredHolds(t.swept);
      ghost var swept := Contents();
      var placed := PlaceHold(plan, t.now + ttl);
      r := if placed then Placed(|holds| - 1) else Refused;
    }

    /** Holds one credit if there is one. */
    method PlaceHold(plan: string, expiresAt: real) returns (placed: bool)
      requires wallet.Some?
      modifies this
      ensures Contents() == PlaceIfAvailable(old(Contents()), plan, expiresAt)
      ensures placed <==> old(wallet).value.Available() >= 1
      ensures if placed then IsHeld(old(Contents()), Contents(), plan, expiresAt) else Contents() == old(Contents())
    {
      var w := wallet.value;
      placed := w.Available() >= 1;
      if placed {
        var i := |holds|;
        holds := holds + [Hold(plan, Held, expiresAt)];
        Record(w.(reserved := w.reserved + 1), ReserveKey(i), -1);
      }
    }

    method FinalizeHold(i: nat, billable: bool) returns (r: Settlement)
      requires Valid()
      modifies this
      ensures Valid()
      ensures Contents() == Finalize(old(Contents()), i, billable)
      ensures r == NoHold <==> old(wallet).None? || i >= |old(holds)| || old(holds)[i].status != Held
      ensures r == Charged <==> r != NoHold && billable && !HasKey(old(ledger), ConsumeKey(old(holds)[i].plan))
      ensures r == NoHold ==> Contents() == old(Contents())
      ensures r == Charged ==>
        var w, plan := old(wallet).value, old(holds)[i].plan;
        && wallet == Some(w.(consumed := w.consumed + 1, reserved := w.reserved - 1))
        && holds == old(holds)[i := old(holds)[i].(status := Consumed)]
        && ledger == old(ledger) + [Entry(ConsumeKey(plan), 0, w.Available())]
      ensures r == Freed ==>
        var w := old(wallet).value;
        && wallet == Some(w.(reserved := w.reserved - 1))
        && holds == old(holds)[i := old(holds)[i].(status := Released)]
        && ledger == old(ledger) + [Entry(ReleaseKey(i), 1, w.Available() + 1)]
    {
      DoKeepsInv(Contents(), DoFinalize(i, billable));
      if wallet.None? || i >= |holds| || holds[i].status != Held {
        return NoHold;
      }
      ReleaseKeepsInv(Contents(), i, Released);
      var w, plan := wallet.value, holds[i].plan;
      if billable && !HasKey(ledger, ConsumeKey(plan)) {
        holds := holds[i := holds[i].(status := Consumed)];
        Record(w.(consumed := w.consumed + 1, reserved := Lowered(w.reserved)), ConsumeKey(plan), 0);
        return Charged;
      }
      holds := holds[i := holds[i].(status := Released)];
      Record(w.(reserved := Lowered(w.reserved)), ReleaseKey(i), 1);
      r := Freed;
    }

    /** Returns the unused credits of the period, which the wallet then no longer has. */
    method ExpireUnused(now: real) returns (expired: int)
      requires Valid()
      modifies this
      ensures Valid()
      ensures Contents() == ExpireRemaining(old(Contents()), now)
      ensures old(wallet).None? ==> expired == 0
      ensures old(wallet).Some? ==>
        var left := CreditsAfterSweep(old(Contents()), now); expired == if left <= 0 then 0 else left
      ensures expired == 0 ==> SweptTo(old(Contents()), Contents(), now, |old(holds)|)
      ensures expired > 0 ==> wallet.Some? && wallet.value.granted == 0 && wallet.value.consumed == 0
    {
      DoKeepsInv(Contents(), DoExpire(now));
      if wallet.None? {
        return 0;
      }
      SweepExpiredHolds(now);
      expired := 0;
      if wallet.value.Available() > 0 {
        expired := wallet.value.Available();
        ResetPeriod();
      }
    }

    /** Cancellation: expires what is left and stops enforcement. */
    method DeactivateWallet(now: real) returns (expired: int)
      requires Valid()
      modifies this
      ensures Valid()
      ensures Contents() == Deactivate(old(Contents()), now)
      ensures wallet.Some? ==> !wallet.value.enforced
      ensures old(wallet).None? ==> expired == 0
      ensures old(wallet).Some? ==>
        var left := CreditsAfterSweep(old(Contents()), now); expired == if left <= 0 then 0 else left
    {
      DoKeepsInv(Contents(), DoDeactivate(now));
      expired := ExpireUnused(now);
      if wallet.Some? && wallet.value.enforced {
        wallet := Some(wallet.value.(enforced := false));
      }
    }

    /** Links a subscription, creating an empty wallet that is not enforced. */
    method AttachSubscription(now: real)
      requires Valid()
      modifies this
      ensures Valid()
      ensures Contents() == Attach(old(Contents()), now)
      ensures ledger == old(ledger) && holds == old(holds)
      ensures wallet == if old(wallet).Some? then old(wallet) else Some(Wallet(0, 0, 0, now, false))
    {
      DoKeepsInv(Contents(), DoAttach(now));
      if wallet.None? {
        wallet := Some(Wallet(0, 0, 0, now, false));
      }
    }

    method ApplyPlanUpgrade(credits: int, id: string) returns (difference: int)
      requires Valid()
      modifies this
      ensures Valid()
      ensures Contents() == Upgrade(old(Contents()), credits, id)
      ensures difference >= 0 && (difference > 0 <==> Contents() != old(Contents()))
      ensures difference > 0 <==>
        && credits > 0 && !HasKey(old(ledger), GrantKey(id)) && old(wallet).Some? && old(wallet).value.enforced
        && credits > old(wallet).value.granted
      ensures difference > 0 ==>
        var w := old(wallet).value;
        && difference == credits - w.granted && wallet == Some(w.(granted := credits)) && holds == old(holds)
        && ledger == old(ledger) + [Entry(GrantKey(id), difference, w.Available() + difference)]
    {
      DoKeepsInv(Contents(), DoUpgrade(credits, id));
      if credits <= 0 || HasKey(ledger, GrantKey(id)) || wallet.None? || !wallet.value.enforced {
        return 0;
      }
      var w := wallet.value;
      if credits <= w.granted {
        return 0;
      }
      Record(w.(granted := credits), GrantKey(id), credits - w.granted);
      difference := credits - w.granted;
    }
  }
}
