/**
 How often one event is paid out, over all deliveries of it in a run, and exactly when that is at most once.
 */
module WebhookPayouts {
  import opened Prelude
  import opened Webhook

  /** The number of allocations that deliveries of `e` added to the ledger in the course of a run. */
  function Payouts(cfg: Config, b: Billing, h: seq<Delivery>, e: Event): int {
    if h == [] then 0
    else
      var n := |h| - 1;
      var before := Run(cfg, b, h[..n]);
      Payouts(cfg, b, h[..n], e) +
      (if h[n].event == e then |Deliver(cfg, before, h[n]).ledger| - |before.ledger| else 0)
  }

  predicate SameKey(a: Allocation, k: Allocation) {
    a.marker == k.marker && a.start == k.start
  }

  predicate OnlyGrants(effects: seq<Effect>, k: Allocation) {
    forall i :: 0 <= i < |effects| && effects[i].Grant? ==> SameKey(effects[i].allocation, k)
  }

  lemma HasKeyGrows(ledger: seq<Allocation>, longer: seq<Allocation>, k: Allocation)
    requires ledger <= longer && HasKey(ledger, k)
    ensures HasKey(longer, k)
  {
    var i :| 0 <= i < |ledger| && ledger[i].marker == k.marker && ledger[i].start == k.start;
    assert longer[i] == ledger[i];
  }

  lemma {:induction false} WritesGrow(b: Billing, effects: seq<Effect>)
    ensures b.ledger <= ApplyAll(b, effects).ledger
  {
    if effects != [] {
      WritesGrow(b, effects[..|effects| - 1]);
    }
  }

  /** Writes that grant a single key add at most one allocation, and none if the key is there. */
  lemma {:induction false} OneKeyOnce(b: Billing, effects: seq<Effect>, k: Allocation)
    requires OnlyGrants(effects, k)
    ensures var after := ApplyAll(b, effects).ledger;
            after == b.ledger || (!HasKey(b.ledger, k) && |after| == |b.ledger| + 1 && HasKey(after, k))
  {
    if effects != [] {
      var n := |effects| - 1;
      OneKeyOnce(b, effects[..n], k);
      var mid, e := ApplyAll(b, effects[..n]), effects[n];
      if e.Grant? && !HasKey(mid.ledger, e.allocation) {
        assert SameKey(e.allocation, k);
        var after := mid.ledger + [e.allocation];
        assert after[|mid.ledger|] == e.allocation;
      }
    }
  }

  lemma DeliveryLedger(cfg: Config, b: Billing, d: Delivery)
    ensures Deliver(cfg, b, d).ledger ==
            ApplyAll(b.(events := b.events[d.event.eventId := EventRecord(false, "")]), Performed(cfg, b, d)).ledger
    ensures b.ledger <= Deliver(cfg, b, d).ledger
  {
    WritesGrow(b.(events := b.events[d.event.eventId := EventRecord(false, "")]), Performed(cfg, b, d));
  }

  // ----------------------------------------------------------------- at most once

  /** The event cannot reach a grant, or its invoice has a usable line. A caller can tell from the payload. */
  predicate PinsItsPeriod(e: Event) {
    e.eventId == "" || e.eventType != "invoice.paid" || e.object_.subscription == "" || HasGoodLine(e.object_.lines)
  }

  /** The only key that deliveries of such an event can grant. */
  function KeyOf(e: Event): Allocation {
    Allocation(e.object_.subscription, if HasGoodLine(e.object_.lines) then FirstGoodLine(e.object_.lines).0 else 0, 0)
  }

  lemma GrantsOnlyItsKey(cfg: Config, b: Billing, d: Delivery)
    requires PinsItsPeriod(d.event)
    ensures OnlyGrants(Performed(cfg, b, d), KeyOf(d.event))
  {
    if HasGoodLine(d.event.object_.lines) {
      assert Trunc(FirstGoodLine(d.event.object_.lines).0 as real) == FirstGoodLine(d.event.object_.lines).0;
    }
  }

  lemma {:induction false} PaidOnce(cfg: Config, b: Billing, h: seq<Delivery>, e: Event)
    requires PinsItsPeriod(e)
    ensures 0 <= Payouts(cfg, b, h, e) <= 1
    ensures Payouts(cfg, b, h, e) == 1 ==> HasKey(Run(cfg, b, h).ledger, KeyOf(e))
  {
    if h != [] {
      var n := |h| - 1;
      PaidOnce(cfg, b, h[..n], e);
      var before, d := Run(cfg, b, h[..n]), h[n];
      DeliveryLedger(cfg, before, d);
      if Payouts(cfg, b, h[..n], e) == 1 {
        HasKeyGrows(before.ledger, Deliver(cfg, before, d).ledger, KeyOf(e));
      }
      if d.event == e {
        GrantsOnlyItsKey(cfg, before, d);
        OneKeyOnce(before.(events := before.events[e.eventId := EventRecord(false, "")]), Performed(cfg, before, d), KeyOf(e));
      }
    }
  }

  // -------------------------------------------------------------------- witnesses

  const CREDITS_ONLY := Config(map["p" := 100], false, true)

  function WithPeriod(start: real, end: real): Subscription {
    Subscription("s", "t", "p", Active, false, start, end)
  }

  /** A payment that reaches the grant, in a state without that key, adds one allocation. */
  lemma PaysOnce(b: Billing, d: Delivery, s: Subscription)
    requires !PinsItsPeriod(d.event) && Attempts(b, d) && (d.fate == Completes || d.fate == CrashesAfter(1))
    requires d.event.object_.subscription in b.subscriptions && b.subscriptions[d.event.object_.subscription] == s
    requires s.planId == "p" && s.tenantId == "t"
    requires forall i :: 0 <= i < |b.ledger| ==> b.ledger[i].start != Trunc(PeriodOf(d.event.object_, s, d.now).0)
    ensures var a := Allocation(d.event.object_.subscription, Trunc(PeriodOf(d.event.object_, s, d.now).0), 100);
            Deliver(CREDITS_ONLY, b, d).ledger == b.ledger + [a]
    ensures Deliver(CREDITS_ONLY, b, d).subscriptions == b.subscriptions
    ensures d.fate == CrashesAfter(1) ==> Deliver(CREDITS_ONLY, b, d).events == b.events[d.event.eventId := EventRecord(false, "")]
  {
    var o := d.event.object_;
    var period := PeriodOf(o, s, d.now);
    var e := Grant(Allocation(o.subscription, Trunc(period.0), 100), "t", period);
    PaymentGrants(b, d, s, e);
    DeliversOne(b, d, e);
  }

  lemma PaymentGrants(b: Billing, d: Delivery, s: Subscription, e: Effect)
    requires !PinsItsPeriod(d.event) && s.planId == "p" && s.tenantId == "t"
    requires d.event.object_.subscription in b.subscriptions && b.subscriptions[d.event.object_.subscription] == s
    requires var period := PeriodOf(d.event.object_, s, d.now);
             e == Grant(Allocation(d.event.object_.subscription, Trunc(period.0), 100), "t", period)
    ensures Handle(CREDITS_ONLY, b, d.event, d.now) == Some([e])
  {
    assert AllocateCredits(CREDITS_ONLY, d.event.object_, s, d.now) == [e];
    assert [] + [e] == [e];
  }

  lemma DeliversOne(b: Billing, d: Delivery, e: Effect)
    requires Attempts(b, d) && (d.fate == Completes || d.fate == CrashesAfter(1))
    requires Handle(CREDITS_ONLY, b, d.event, d.now) == Some([e]) && e.Grant? && !HasKey(b.ledger, e.allocation)
    ensures var b' := Deliver(CREDITS_ONLY, b, d);
            && b'.ledger == b.ledger + [e.allocation] && b'.subscriptions == b.subscriptions
            && (d.fate == CrashesAfter(1) ==> b'.events == b.events[d.event.eventId := EventRecord(false, "")])
  {
    assert Performed(CREDITS_ONLY, b, d) == [e];
    SingleWrite(b.(events := b.events[d.event.eventId := EventRecord(false, "")]), e);
  }

  lemma SingleWrite(b: Billing, e: Effect)
    ensures ApplyAll(b, [e]) == Apply(b, e)
  {
    assert [e][..0] == [];
    assert ApplyAll(b, []) == b;
  }

  lemma RunSnoc(cfg: Config, b: Billing, h: seq<Delivery>, d: Delivery, e: Event)
    ensures Run(cfg, b, h + [d]) == Deliver(cfg, Run(cfg, b, h), d)
    ensures Payouts(cfg, b, h + [d], e) == Payouts(cfg, b, h, e) +
            (if d.event == e then |Run(cfg, b, h + [d]).ledger| - |Run(cfg, b, h).ledger| else 0)
  {
    assert (h + [d])[..|h|] == h;
  }

  /** Without a usable line and without a proper subscription period: a crash between the grant and the
      final save, then a redelivery a second later, pays the event twice. */
  lemma DegeneratePeriodGrantsTwice(e: Event) returns (b: Billing, h: seq<Delivery>)
    requires !PinsItsPeriod(e)
    ensures Payouts(CREDITS_ONLY, b, h, e) == 2
  {
    var m, s := e.object_.subscription, WithPeriod(0.0, 0.0);
    b := Billing(map[], map[m := s], [], []);
    var d, d' := Delivery(e, 10.0, CrashesAfter(1)), Delivery(e, 11.0, Completes);
    PaysOnce(b, d, s);
    var b1 := Deliver(CREDITS_ONLY, b, d);
    assert Trunc(PeriodOf(e.object_, s, 10.0).0) == 10 && Trunc(PeriodOf(e.object_, s, 11.0).0) == 11;
    PaysOnce(b1, d', s);
    RunSnoc(CREDITS_ONLY, b, [], d, e);
    RunSnoc(CREDITS_ONLY, b, [] + [d], d', e);
    h := [] + [d] + [d'];
  }

  /** Nor is a proper subscription period at every delivery enough: it may move between them. */
  lemma MovedPeriodGrantsTwice(e: Event, id: string) returns (b: Billing, h: seq<Delivery>)
    requires !PinsItsPeriod(e) && id != "" && id != e.eventId
    ensures Payouts(CREDITS_ONLY, b, h, e) == 2
    ensures forall i :: 0 <= i <= |h| ==> Proper(Run(CREDITS_ONLY, b, h[..i]))
  {
    var m := e.object_.subscription;
    b := Billing(map[], map[m := WithPeriod(1.0, 10.0)], [], []);
    var moved := Event(id, "customer.subscription.updated", EventObject(m, "", [], Some(Active), 20, 30));
    var d, u, d' := Delivery(e, 5.0, CrashesAfter(1)), Delivery(moved, 6.0, Completes), Delivery(e, 7.0, Completes);
    h := [d, u, d'];
    PaidThenMoved(e, b, d, u);
    var b2 := Deliver(CREDITS_ONLY, Deliver(CREDITS_ONLY, b, d), u);
    PaidAgain(e, b2, d');
    ThreeDeliveries(b, d, u, d', e);
  }

  lemma PaidThenMoved(e: Event, b: Billing, d: Delivery, u: Delivery)
    requires !PinsItsPeriod(e) && d == Delivery(e, 5.0, CrashesAfter(1))
    requires b == Billing(map[], map[e.object_.subscription := WithPeriod(1.0, 10.0)], [], [])
    requires u.event.eventId != "" && u.event.eventId != e.eventId && u.fate == Completes
    requires u.event.eventType == "customer.subscription.updated"
    requires u.event.object_ == EventObject(e.object_.subscription, "", [], Some(Active), 20, 30)
    ensures var b1 := Deliver(CREDITS_ONLY, b, d);
            var b2 := Deliver(CREDITS_ONLY, b1, u);
            && |b1.ledger| == 1 && b1.subscriptions == b.subscriptions
            && b2.ledger == [Allocation(e.object_.subscription, 1, 100)]
            && b2.subscriptions == map[e.object_.subscription := WithPeriod(20.0, 30.0)] && !Settled(b2, e.eventId)
  {
    var s := WithPeriod(1.0, 10.0);
    PaysOnce(b, d, s);
    assert Trunc(PeriodOf(e.object_, s, 5.0).0) == 1;
    Moves(Deliver(CREDITS_ONLY, b, d), u, e.object_.subscription, s, WithPeriod(20.0, 30.0));
  }

  lemma PaidAgain(e: Event, b: Billing, d: Delivery)
    requires !PinsItsPeriod(e) && d == Delivery(e, 7.0, Completes) && !Settled(b, e.eventId)
    requires b.ledger == [Allocation(e.object_.subscription, 1, 100)]
    requires b.subscriptions == map[e.object_.subscription := WithPeriod(20.0, 30.0)]
    ensures var b' := Deliver(CREDITS_ONLY, b, d); |b'.ledger| == 2 && b'.subscriptions == b.subscriptions
  {
    var s := WithPeriod(20.0, 30.0);
    assert Trunc(PeriodOf(e.object_, s, 7.0).0) == 20;
    PaysOnce(b, d, s);
  }

  lemma ThreeDeliveries(b: Billing, d: Delivery, u: Delivery, d': Delivery, e: Event)
    requires d.event == e && u.event != e && d'.event == e
    ensures var b1 := Deliver(CREDITS_ONLY, b, d);
            var b2 := Deliver(CREDITS_ONLY, b1, u);
            var b3 := Deliver(CREDITS_ONLY, b2, d');
            && Payouts(CREDITS_ONLY, b, [d, u, d'], e) == (|b1.ledger| - |b.ledger|) + (|b3.ledger| - |b2.ledger|)
            && (Proper(b) && Proper(b1) && Proper(b2) && Proper(b3) ==>
                  forall i :: 0 <= i <= 3 ==> Proper(Run(CREDITS_ONLY, b, [d, u, d'][..i])))
  {
    var h := [d, u, d'];
    RunSnoc(CREDITS_ONLY, b, [], d, e);
    RunSnoc(CREDITS_ONLY, b, [d], u, e);
    RunSnoc(CREDITS_ONLY, b, [d, u], d', e);
    assert [] + [d] == [d] && [d] + [u] == [d, u] && [d, u] + [d'] == h;
    assert h[..0] == [] && h[..1] == [d] && h[..2] == [d, u] && h[..3] == h;
    assert Run(CREDITS_ONLY, b, []) == b;
  }

  lemma Moves(b: Billing, u: Delivery, m: string, s: Subscription, s': Subscription)
    requires b.subscriptions == map[m := s] && Attempts(b, u) && u.fate == Completes
    requires u.event.eventType == "customer.subscription.updated" && s == WithPeriod(1.0, 10.0) && s' == WithPeriod(20.0, 30.0)
    requires u.event.object_ == EventObject(m, "", [], Some(Active), 20, 30)
    ensures var b' := Deliver(CREDITS_ONLY, b, u);
            && b'.subscriptions == map[m := s'] && b'.ledger == b.ledger
            && b'.events == b.events[u.event.eventId := EventRecord(true, "")]
  {
    assert Performed(CREDITS_ONLY, b, u) == [SaveSubscription(m, s')];
    SingleWrite(b.(events := b.events[u.event.eventId := EventRecord(false, "")]), SaveSubscription(m, s'));
  }

  predicate Proper(b: Billing) {
    forall m :: m in b.subscriptions ==> b.subscriptions[m].periodStart < b.subscriptions[m].periodEnd
  }

  // ---------------------------------------------------------------------- exactly

  /**
   An event is paid out at most once, whatever the configuration, the state it meets, the other events,
   the clock and the crashes, if and only if it pins its period: no grant to reach, or a usable invoice line.
   */
  lemma PaidAtMostOnceExactly(e: Event)
    ensures (forall cfg, b, h :: Payouts(cfg, b, h, e) <= 1) <==> PinsItsPeriod(e)
  {
    if PinsItsPeriod(e) {
      forall cfg, b, h
        ensures Payouts(cfg, b, h, e) <= 1
      {
        PaidOnce(cfg, b, h, e);
      }
    } else {
      var b, h := DegeneratePeriodGrantsTwice(e);
      assert Payouts(CREDITS_ONLY, b, h, e) == 2;
    }
  }
}
