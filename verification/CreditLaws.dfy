/**
 What every sequence of credit operations keeps: unique ledger keys, honest hold counts, one charge per
 plan; and exactly what the sweep of expired holds does.
 */
module CreditLaws {
  import opened Prelude
  import opened Credits

  // ------------------------------------------------------------------ counting

  function HeldCount(holds: seq<Hold>): nat {
    if holds == [] then 0 else (if holds[0].status == Held then 1 else 0) + HeldCount(holds[1..])
  }

  lemma {:induction false} HeldAppend(holds: seq<Hold>, h: Hold)
    ensures HeldCount(holds + [h]) == HeldCount(holds) + (if h.status == Held then 1 else 0)
  {
    if holds == [] {
      assert holds + [h] == [h] && [h][1..] == [];
    } else {
      HeldAppend(holds[1..], h);
      assert (holds + [h])[1..] == holds[1..] + [h];
    }
  }

  lemma {:induction false} HeldSettle(holds: seq<Hold>, i: nat, status: HoldStatus)
    requires i < |holds| && holds[i].status == Held && status != Held
    ensures HeldCount(holds[i := holds[i].(status := status)]) == HeldCount(holds) - 1
  {
    var after := holds[i := holds[i].(status := status)];
    if i == 0 {
      assert after[1..] == holds[1..];
    } else {
      HeldSettle(holds[1..], i - 1, status);
      assert after[1..] == holds[1..][i - 1 := holds[1..][i - 1].(status := status)];
    }
  }

  lemma HasKeyAppend(ledger: seq<Entry>, e: Entry, key: Key)
    ensures HasKey(ledger + [e], key) <==> HasKey(ledger, key) || e.key == key
  {
    var longer := ledger + [e];
    if HasKey(ledger, key) {
      var i :| 0 <= i < |ledger| && ledger[i].key == key;
      assert longer[i].key == key;
    }
    if e.key == key {
      assert longer[|ledger|].key == key;
    }
  }

  // ----------------------------------------------------------------- invariant

  predicate UniqueKeys(ledger: seq<Entry>) {
    forall i, j :: 0 <= i < j < |ledger| ==> ledger[i].key != ledger[j].key
  }

  ghost predicate Billed(holds: seq<Hold>, plan: string) {
    exists i :: 0 <= i < |holds| && holds[i].plan == plan && holds[i].status == Consumed
  }

  /** No plan has two live holds, or two consumed ones. */
  predicate OnePerPlan(holds: seq<Hold>) {
    forall i, j :: 0 <= i < j < |holds| && holds[i].plan == holds[j].plan && holds[i].status == holds[j].status ==>
      holds[i].status != Held && holds[i].status != Consumed
  }

  /** The keys in the ledger tell the state of the holds. */
  ghost predicate KeysMatchHolds(ledger: seq<Entry>, holds: seq<Hold>) {
    && (forall i: nat :: HasKey(ledger, ReserveKey(i)) ==> i < |holds|)
    && (forall i: nat :: HasKey(ledger, ReleaseKey(i)) ==>
          i < |holds| && (holds[i].status == Released || holds[i].status == Expired))
    && (forall plan :: HasKey(ledger, ConsumeKey(plan)) <==> Billed(holds, plan))
  }

  ghost predicate Inv(a: Account) {
    && (a.wallet.None? ==> a.ledger == [] && a.holds == [])
    && (a.wallet.Some? ==> a.wallet.value.reserved == HeldCount(a.holds))
    && UniqueKeys(a.ledger) && OnePerPlan(a.holds) && KeysMatchHolds(a.ledger, a.holds)
  }

  /** Posting a grant or an expiry under a new key touches neither holds nor their keys. */
  lemma PostKeepsInv(a: Account, w: Wallet, key: Key, delta: int)
    requires Inv(a) && w.reserved == HeldCount(a.holds)
    requires (key.GrantKey? || key.ExpireKey?) && !HasKey(a.ledger, key)
    ensures Inv(Post(a, w, key, delta))
  {
    var e := Entry(key, delta, w.Available());
    forall k
      ensures HasKey(a.ledger + [e], k) <==> HasKey(a.ledger, k) || k == key
    {
      HasKeyAppend(a.ledger, e, k);
    }
  }

  lemma SettledKeys(ledger: seq<Entry>, holds: seq<Hold>, i: nat, status: HoldStatus, e: Entry)
    requires KeysMatchHolds(ledger, holds) && i < |holds| && holds[i].status == Held
    requires e.key == if status == Consumed then ConsumeKey(holds[i].plan) else ReleaseKey(i)
    requires status != Held
    ensures KeysMatchHolds(ledger + [e], holds[i := holds[i].(status := status)])
  {
    var after := holds[i := holds[i].(status := status)];
    forall k
      ensures HasKey(ledger + [e], k) <==> HasKey(ledger, k) || k == e.key
    {
      HasKeyAppend(ledger, e, k);
    }
    forall plan
      ensures Billed(after, plan) <==> Billed(holds, plan) || (status == Consumed && plan == holds[i].plan)
    {
      if Billed(holds, plan) {
        var j :| 0 <= j < |holds| && holds[j].plan == plan && holds[j].status == Consumed;
        assert after[j] == holds[j];
      }
      if Billed(after, plan) {
        var j :| 0 <= j < |after| && after[j].plan == plan && after[j].status == Consumed;
        assert j != i ==> after[j] == holds[j];
      }
      if status == Consumed && plan == holds[i].plan {
        assert after[i].plan == plan && after[i].status == Consumed;
      }
    }
  }

  lemma ReleaseKeepsInv(a: Account, i: nat, status: HoldStatus)
    requires Inv(a) && a.wallet.Some? && i < |a.holds| && a.holds[i].status == Held
    requires status == Released || status == Expired
    ensures !HasKey(a.ledger, ReleaseKey(i))
    ensures Inv(Release(a, a.wallet.value, i, status))
    ensures a.wallet.value.reserved >= 1
  {
    HeldSettle(a.holds, i, status);
    var b := Release(a, a.wallet.value, i, status);
    SettledKeys(a.ledger, a.holds, i, status, b.ledger[|a.ledger|]);
  }

  lemma ConsumeKeepsInv(a: Account, i: nat)
    requires Inv(a) && a.wallet.Some? && i < |a.holds| && a.holds[i].status == Held
    requires !WasConsumed(a, a.holds[i].plan)
    ensures Inv(Consume(a, a.wallet.value, i))
    ensures a.wallet.value.reserved >= 1
  {
    HeldSettle(a.holds, i, Consumed);
    var b := Consume(a, a.wallet.value, i);
    SettledKeys(a.ledger, a.holds, i, Consumed, b.ledger[|a.ledger|]);
    assert !Billed(a.holds, a.holds[i].plan);
  }

  /** A sweep only turns live holds into expired ones, and only adds release keys. */
  lemma {:induction false} SweepKeepsInv(a: Account, now: real, n: nat)
    requires Inv(a) && n <= |a.holds|
    ensures var b := Sweep(a, now, n);
            && Inv(b)
            && (forall j :: 0 <= j < |a.holds| ==> b.holds[j].plan == a.holds[j].plan)
            && (forall j :: 0 <= j < |a.holds| ==> b.holds[j].status == a.holds[j].status || b.holds[j].status == Expired)
            && (forall k: Key :: HasKey(b.ledger, k) && !k.ReleaseKey? ==> HasKey(a.ledger, k))
            && (a.wallet.Some? ==> b.wallet.value.periodEnd == a.wallet.value.periodEnd)
  {
    if n > 0 {
      SweepKeepsInv(a, now, n - 1);
      var b, i := Sweep(a, now, n - 1), n - 1;
      if b.wallet.Some? && b.holds[i].status == Held && b.holds[i].expiresAt < now && !HasKey(b.ledger, ReleaseKey(i)) {
        ReleaseKeepsInv(b, i, Expired);
        var c := Sweep(a, now, n);
        forall k: Key | HasKey(c.ledger, k) && !k.ReleaseKey?
          ensures HasKey(a.ledger, k)
        {
          HasKeyAppend(b.ledger, c.ledger[|b.ledger|], k);
        }
      }
    }
  }

  // ------------------------------------------------------------------ the sweep

  predicate HasLapsed(h: Hold, now: real) {
    h.status == Held && h.expiresAt < now
  }

  /** The numbers below `n` of the live holds whose time has passed, in order. */
  function Lapsed(holds: seq<Hold>, now: real, n: nat): (r: seq<nat>)
    requires n <= |holds|
    ensures forall i: nat :: i in r <==> i < n && HasLapsed(holds[i], now)
    ensures forall k :: 0 <= k < |r| ==> r[k] < n
    ensures forall j, k :: 0 <= j < k < |r| ==> r[j] < r[k]
  {
    if n == 0 then [] else Lapsed(holds, now, n - 1) + (if HasLapsed(holds[n - 1], now) then [n - 1] else [])
  }

  /** `b` is `a` with its lapsed holds below `n` expired and nothing else touched: one release entry and
      one credit back for each of them, in order. */
  ghost predicate SweptTo(a: Account, b: Account, now: real, n: nat)
    requires n <= |a.holds|
  {
    var lapsed := Lapsed(a.holds, now, n);
    && |b.holds| == |a.holds|
    && (forall j :: 0 <= j < |a.holds| ==>
          b.holds[j] == if j < n && HasLapsed(a.holds[j], now) then a.holds[j].(status := Expired) else a.holds[j])
    && a.ledger <= b.ledger && |b.ledger| == |a.ledger| + |lapsed|
    && (a.wallet.None? ==> b.wallet.None? && lapsed == [])
    && (a.wallet.Some? ==>
          var w := a.wallet.value;
          && b.wallet == Some(w.(reserved := w.reserved - |lapsed|))
          && forall k :: 0 <= k < |lapsed| ==>
               b.ledger[|a.ledger| + k] == Entry(ReleaseKey(lapsed[k]), 1, w.Available() + k + 1))
  }

  lemma SweepNext(a: Account, now: real, n: nat)
    requires Inv(a) && 0 < n <= |a.holds|
    ensures var b, i := Sweep(a, now, n - 1), n - 1;
            if HasLapsed(b.holds[i], now)
            then b.wallet.Some? && b.wallet.value.reserved >= 1 && Sweep(a, now, n) == Release(b, b.wallet.value, i, Expired)
            else Sweep(a, now, n) == b
  {
    SweepKeepsInv(a, now, n - 1);
    var b, i := Sweep(a, now, n - 1), n - 1;
    if HasLapsed(b.holds[i], now) {
      ReleaseKeepsInv(b, i, Expired);
    }
  }

  /** The sweep releases exactly the live holds whose time has passed. */
  lemma {:induction false} SweepExactly(a: Account, now: real, n: nat)
    requires Inv(a) && n <= |a.holds|
    ensures SweptTo(a, Sweep(a, now, n), now, n)
  {
    if n > 0 {
      SweepExactly(a, now, n - 1);
      SweepNext(a, now, n);
      SweptNext(a, Sweep(a, now, n - 1), Sweep(a, now, n), now, n - 1);
    }
  }

  lemma SweptNext(a: Account, b: Account, b': Account, now: real, i: nat)
    requires i < |a.holds| && SweptTo(a, b, now, i)
    requires if HasLapsed(b.holds[i], now)
             then b.wallet.Some? && b.wallet.value.reserved >= 1 && b' == Release(b, b.wallet.value, i, Expired)
             else b' == b
    ensures SweptTo(a, b', now, i + 1)
  {
    if HasLapsed(b.holds[i], now) {
      SweptOne(a, b, now, i);
    } else {
      SweptNone(a, b, now, i);
    }
  }

  lemma SweptOne(a: Account, b: Account, now: real, i: nat)
    requires i < |a.holds| && SweptTo(a, b, now, i) && a.wallet.Some?
    requires HasLapsed(b.holds[i], now) && b.wallet.value.reserved >= 1
    ensures SweptTo(a, Release(b, b.wallet.value, i, Expired), now, i + 1)
  {
  }

  lemma SweptNone(a: Account, b: Account, now: real, i: nat)
    requires i < |a.holds| && SweptTo(a, b, now, i) && !HasLapsed(b.holds[i], now)
    ensures SweptTo(a, b, now, i + 1)
  {
  }

  /** After a sweep no live hold is past its time. */
  lemma NothingLapsedIsLeft(a: Account, now: real)
    requires Inv(a)
    ensures forall j :: 0 <= j < |SweepAll(a, now).holds| ==> !HasLapsed(SweepAll(a, now).holds[j], now)
  {
    SweepExactly(a, now, |a.holds|);
  }

  lemma PlaceKeepsInv(b: Account, plan: string, expiresAt: real)
    requires Inv(b) && b.wallet.Some? && !WasConsumed(b, plan) && !HasHeld(b.holds, plan)
    ensures Inv(Place(b, plan, expiresAt))
  {
    var w, h := b.wallet.value, Hold(plan, Held, expiresAt);
    HeldAppend(b.holds, h);
    PlacedKeys(b.ledger, b.holds, h, Entry(ReserveKey(|b.holds|), -1, w.Available() - 1));
    PlacedOnce(b.holds, h);
  }

  lemma PlacedKeys(ledger: seq<Entry>, holds: seq<Hold>, h: Hold, e: Entry)
    requires KeysMatchHolds(ledger, holds) && h.status == Held && e.key == ReserveKey(|holds|) && UniqueKeys(ledger)
    ensures KeysMatchHolds(ledger + [e], holds + [h]) && UniqueKeys(ledger + [e])
  {
    var after := holds + [h];
    forall k
      ensures HasKey(ledger + [e], k) <==> HasKey(ledger, k) || k == e.key
    {
      HasKeyAppend(ledger, e, k);
    }
    forall p
      ensures Billed(after, p) <==> Billed(holds, p)
    {
      if Billed(holds, p) {
        var j :| 0 <= j < |holds| && holds[j].plan == p && holds[j].status == Consumed;
        assert after[j] == holds[j];
      }
    }
  }

  lemma PlacedOnce(holds: seq<Hold>, h: Hold)
    requires OnePerPlan(holds) && h.status == Held && !HasHeld(holds, h.plan)
    ensures OnePerPlan(holds + [h])
  {
    forall j | 0 <= j < |holds| && holds[j].plan == h.plan
      ensures holds[j].status != Held
    {
    }
  }

  lemma ResetKeepsInv(a: Account)
    requires Inv(a) && a.wallet.Some?
    ensures Inv(Reset(a, a.wallet.value))
    ensures Reset(a, a.wallet.value).wallet == Some(ResetWallet(a.wallet.value))
    ensures forall id :: HasKey(Reset(a, a.wallet.value).ledger, GrantKey(id)) ==> HasKey(a.ledger, GrantKey(id))
  {
    var w := a.wallet.value;
    if w.Available() > 0 && !HasKey(a.ledger, ExpireKey(w.periodEnd)) {
      PostKeepsInv(a, ResetWallet(w), ExpireKey(w.periodEnd), -w.Available());
      var b := Reset(a, w);
      forall id | HasKey(b.ledger, GrantKey(id))
        ensures HasKey(a.ledger, GrantKey(id))
      {
        HasKeyAppend(a.ledger, b.ledger[|a.ledger|], GrantKey(id));
      }
    }
  }

  /** No operation ever repeats a ledger key, miscounts the holds, or opens a second hold for a plan. */
  lemma DoKeepsInv(a: Account, op: Op)
    requires Inv(a)
    ensures Inv(Do(a, op))
  {
    match op
    case DoAllocate(amount, start, end, id, t) => AllocateKeepsInv(a, amount, start, end, id, t);
    case DoReserve(plan, t, ttl) => ReserveKeepsInv(a, plan, t, ttl);
    case DoFinalize(i, billable) => FinalizeKeepsInv(a, i, billable);
    case DoExpire(now) => ExpireKeepsInv(a, now);
    case DoDeactivate(now) => ExpireKeepsInv(a, now);
    case DoUpgrade(credits, id) => UpgradeKeepsInv(a, credits, id);
    case DoAttach(now) =>
  }

  lemma ReserveKeepsInv(a: Account, plan: string, t: Clock, ttl: real)
    requires Inv(a)
    ensures Inv(Reserve(a, plan, t, ttl))
  {
    SweepKeepsInv(a, t.swept, |a.holds|);
    var b := SweepAll(a, t.swept);
    if a.wallet.Some? && !WasConsumed(a, plan) && !HasHeld(a.holds, plan) {
      assert !HasHeld(b.holds, plan) && !WasConsumed(b, plan);
      PlaceKeepsInv(b, plan, t.now + ttl);
    }
  }

  lemma FinalizeKeepsInv(a: Account, i: nat, billable: bool)
    requires Inv(a)
    ensures Inv(Finalize(a, i, billable))
  {
    if a.wallet.Some? && i < |a.holds| && a.holds[i].status == Held {
      ReleaseKeepsInv(a, i, Released);
      if !WasConsumed(a, a.holds[i].plan) {
        ConsumeKeepsInv(a, i);
      }
    }
  }

  lemma UpgradeKeepsInv(a: Account, credits: int, id: string)
    requires Inv(a)
    ensures Inv(Upgrade(a, credits, id))
  {
    if a.wallet.Some? && !HasKey(a.ledger, GrantKey(id)) {
      PostKeepsInv(a, a.wallet.value.(granted := credits), GrantKey(id), credits - a.wallet.value.granted);
    }
  }

  lemma ExpireKeepsInv(a: Account, now: real)
    requires Inv(a)
    ensures Inv(ExpireRemaining(a, now))
  {
    SweepKeepsInv(a, now, |a.holds|);
    if a.wallet.Some? {
      ResetKeepsInv(SweepAll(a, now));
    }
  }

  lemma AllocateKeepsInv(a: Account, amount: int, start: real, end: real, id: string, t: Clock)
    requires Inv(a)
    ensures Inv(Allocate(a, amount, start, end, id, t))
  {
    if amount > 0 && !HasKey(a.ledger, GrantKey(id)) {
      if a.wallet.None? {
        PostKeepsInv(a, Wallet(amount, 0, 0, end, true), GrantKey(id), amount);
      } else {
        RenewedKeepsInv(a, start, t, id);
        CreditedKeepsInv(Renew(SweepAll(a, t.swept), start, t.now), amount, end, id);
      }
    }
  }

  lemma CreditedKeepsInv(c: Account, amount: int, end: real, id: string)
    requires Inv(c) && c.wallet.Some? && !HasKey(c.ledger, GrantKey(id))
    ensures Inv(Credited(c, amount, end, id))
  {
    var v := c.wallet.value;
    PostKeepsInv(c, v.(granted := v.granted + amount, periodEnd := end, enforced := true), GrantKey(id), amount);
  }

  lemma RenewedKeepsInv(a: Account, start: real, t: Clock, id: string)
    requires Inv(a) && a.wallet.Some? && !HasKey(a.ledger, GrantKey(id))
    ensures var c := Renew(SweepAll(a, t.swept), start, t.now); Inv(c) && !HasKey(c.ledger, GrantKey(id))
  {
    SweepKeepsInv(a, t.swept, |a.holds|);
    ResetKeepsInv(SweepAll(a, t.swept));
  }

  lemma {:induction false} RunKeepsInv(ops: seq<Op>)
    ensures Inv(Run(ops))
  {
    if ops != [] {
      RunKeepsInv(ops[..|ops| - 1]);
      DoKeepsInv(Run(ops[..|ops| - 1]), ops[|ops| - 1]);
    }
  }

  /** A plan is charged at most once in its lifetime, however often it is executed or resumed. */
  lemma BilledAtMostOnce(ops: seq<Op>, plan: string, i: nat, j: nat)
    requires i < |Run(ops).ledger| && j < |Run(ops).ledger|
    requires Run(ops).ledger[i].key == ConsumeKey(plan) == Run(ops).ledger[j].key
    ensures i == j && Billed(Run(ops).holds, plan)
  {
    RunKeepsInv(ops);
    assert HasKey(Run(ops).ledger, ConsumeKey(plan));
  }

  /** The wallet's reserved counter is the number of live holds, after every run. */
  lemma ReservedIsHonest(ops: seq<Op>)
    ensures Run(ops).wallet.Some? ==> Run(ops).wallet.value.reserved == |set i | 0 <= i < |Run(ops).holds| && Run(ops).holds[i].status == Held|
  {
    RunKeepsInv(ops);
    HeldIsCardinality(Run(ops).holds);
  }

  lemma {:induction false} HeldIsCardinality(holds: seq<Hold>)
    ensures HeldCount(holds) == |set i | 0 <= i < |holds| && holds[i].status == Held|
  {
    if holds != [] {
      var n := |holds| - 1;
      HeldIsCardinality(holds[..n]);
      HeldAppend(holds[..n], holds[n]);
      assert holds == holds[..n] + [holds[n]];
      var front := set i | 0 <= i < n && holds[..n][i].status == Held;
      var all := set i | 0 <= i < |holds| && holds[i].status == Held;
      assert all == if holds[n].status == Held then front + {n} else front;
    }
  }
}
