/**
 What holds after every sequence of webhook deliveries, with crashes between any two writes.
 */
module WebhookLaws {
  import opened Prelude
  import opened Webhook

  // -------------------------------------------------------- absorbing records

  lemma {:induction false} WritesKeepEvents(b: Billing, effects: seq<Effect>)
    ensures ApplyAll(b, effects).events == b.events
  {
    if effects != [] {
      WritesKeepEvents(b, effects[..|effects| - 1]);
    }
  }

  /** A delivery of a settled event changes nothing at all, and no delivery unsettles an event. */
  lemma DeliverKeepsSettled(cfg: Config, b: Billing, d: Delivery, id: string)
    requires Settled(b, id)
    ensures d.event.eventId == id ==> Deliver(cfg, b, d) == b && Performed(cfg, b, d) == []
    ensures id in Deliver(cfg, b, d).events && Deliver(cfg, b, d).events[id] == b.events[id]
  {
    if Attempts(b, d) {
      WritesKeepEvents(b.(events := b.events[d.event.eventId := EventRecord(false, "")]), Performed(cfg, b, d));
    }
  }

  /** Processed and failed records are absorbing over every run. */
  lemma {:induction false} SettledForever(cfg: Config, b: Billing, h: seq<Delivery>, id: string)
    requires Settled(b, id)
    ensures id in Run(cfg, b, h).events && Run(cfg, b, h).events[id] == b.events[id]
    ensures forall i :: 0 <= i < |h| && h[i].event.eventId == id ==> Performed(cfg, Run(cfg, b, h[..i]), h[i]) == []
  {
    if h != [] {
      var n := |h| - 1;
      SettledForever(cfg, b, h[..n], id);
      DeliverKeepsSettled(cfg, Run(cfg, b, h[..n]), h[n], id);
      forall i | 0 <= i < |h| && h[i].event.eventId == id
        ensures Performed(cfg, Run(cfg, b, h[..i]), h[i]) == []
      {
        if i < n {
          assert h[..n][..i] == h[..i] && h[..n][i] == h[i];
        }
      }
    }
  }

  /** A completed delivery settles its event, unless the handler raised. */
  lemma CompletionSettles(cfg: Config, b: Billing, d: Delivery)
    requires Attempts(b, d) && d.fate == Completes
    ensures Settled(Deliver(cfg, b, d), d.event.eventId)
  {
    WritesKeepEvents(b.(events := b.events[d.event.eventId := EventRecord(false, "")]), Performed(cfg, b, d));
  }

  // ------------------------------------------------------------ invoice history

  ghost predicate UniqueInvoices(invoices: seq<Invoice>) {
    forall i, j :: 0 <= i < j < |invoices| && invoices[i].providerInvoiceId.Some? ==>
      invoices[i].providerInvoiceId != invoices[j].providerInvoiceId
  }

  /** Only a handler's first write can be an invoice, and then one whose id is not on record. */
  ghost predicate InvoiceFirst(b: Billing, effects: seq<Effect>) {
    && (forall i :: 1 <= i < |effects| ==> !effects[i].SaveInvoice?)
    && (effects != [] && effects[0].SaveInvoice? && effects[0].invoice.providerInvoiceId.Some? ==>
          !HasInvoice(b.invoices, effects[0].invoice.providerInvoiceId.value))
  }

  lemma HandlersWriteInvoiceFirst(cfg: Config, b: Billing, e: Event, now: real)
    ensures var r := Handle(cfg, b, e, now); r.Some? ==> InvoiceFirst(b, r.value)
  {
  }

  lemma {:induction false} WritesKeepInvoicesUnique(b: Billing, effects: seq<Effect>)
    requires UniqueInvoices(b.invoices) && InvoiceFirst(b, effects)
    ensures UniqueInvoices(ApplyAll(b, effects).invoices)
  {
    if effects != [] {
      var n := |effects| - 1;
      WritesKeepInvoicesUnique(b, effects[..n]);
      if n == 0 && effects[0].SaveInvoice? {
        assert effects[..0] == [];
        forall i | 0 <= i < |b.invoices| && b.invoices[i].providerInvoiceId.Some?
          ensures b.invoices[i].providerInvoiceId != effects[0].invoice.providerInvoiceId
        {
          if b.invoices[i].providerInvoiceId == effects[0].invoice.providerInvoiceId {
            assert HasInvoice(b.invoices, b.invoices[i].providerInvoiceId.value);
          }
        }
      }
    }
  }

  /** At most one invoice row exists per provider invoice id, over every run. */
  lemma {:induction false} InvoicesStayUnique(cfg: Config, b: Billing, h: seq<Delivery>)
    requires UniqueInvoices(b.invoices)
    ensures UniqueInvoices(Run(cfg, b, h).invoices)
  {
    if h != [] {
      var n := |h| - 1;
      InvoicesStayUnique(cfg, b, h[..n]);
      var c, d := Run(cfg, b, h[..n]), h[n];
      HandlersWriteInvoiceFirst(cfg, c, d.event, d.now);
      var pending := c.(events := c.events[d.event.eventId := EventRecord(false, "")]);
      assert InvoiceFirst(pending, Performed(cfg, c, d));
      WritesKeepInvoicesUnique(pending, Performed(cfg, c, d));
    }
  }

  // ---------------------------------------------------------------- the ledger

  ghost predicate UniqueKeys(ledger: seq<Allocation>) {
    forall i, j :: 0 <= i < j < |ledger| ==> ledger[i].marker != ledger[j].marker || ledger[i].start != ledger[j].start
  }

  /** No handler changes whose plan or tenant a subscription belongs to. */
  ghost predicate SamePlans(b: Billing, b': Billing) {
    && b.subscriptions.Keys == b'.subscriptions.Keys
    && forall m :: m in b.subscriptions ==>
         b'.subscriptions[m].planId == b.subscriptions[m].planId && b'.subscriptions[m].tenantId == b.subscriptions[m].tenantId
  }

  /** Every allocation is for a known subscription and of its plan's credits. */
  ghost predicate Priced(cfg: Config, b: Billing) {
    && UniqueKeys(b.ledger)
    && forall i :: 0 <= i < |b.ledger| ==>
         b.ledger[i].marker in b.subscriptions && b.ledger[i].amount == Credits(cfg, b.subscriptions[b.ledger[i].marker])
  }

  ghost predicate PlanRespecting(cfg: Config, b: Billing, e: Effect) {
    match e
    case SaveInvoice(_) => true
    case SaveSubscription(m, s) =>
      m in b.subscriptions && s.planId == b.subscriptions[m].planId && s.tenantId == b.subscriptions[m].tenantId
    case Grant(a, t, _) =>
      && a.marker in b.subscriptions && t == b.subscriptions[a.marker].tenantId
      && a.amount == Credits(cfg, b.subscriptions[a.marker])
  }

  lemma HandlersRespectPlans(cfg: Config, b: Billing, d: Delivery)
    ensures forall i :: 0 <= i < |Performed(cfg, b, d)| ==> PlanRespecting(cfg, b, Performed(cfg, b, d)[i])
  {
  }

  lemma WriteKeepsPriced(cfg: Config, b0: Billing, b: Billing, e: Effect)
    requires SamePlans(b0, b) && Priced(cfg, b) && PlanRespecting(cfg, b0, e)
    ensures SamePlans(b0, Apply(b, e)) && Priced(cfg, Apply(b, e))
    ensures forall m :: Starts(Apply(b, e).ledger, m) ==
              Starts(b.ledger, m) + (if e.Grant? && e.allocation.marker == m then {e.allocation.start} else {})
  {
    if e.Grant? {
      var a := e.allocation;
      if HasKey(b.ledger, a) {
        var i :| 0 <= i < |b.ledger| && b.ledger[i].marker == a.marker && b.ledger[i].start == a.start;
        assert a.start in Starts(b.ledger, a.marker);
      } else {
        var longer := b.ledger + [a];
        forall m
          ensures Starts(longer, m) == Starts(b.ledger, m) + (if a.marker == m then {a.start} else {})
        {
          StartsAppend(b.ledger, a, m);
        }
      }
    }
  }

  /** The period starts for which credits are on record. */
  ghost function Starts(ledger: seq<Allocation>, m: string): set<int> {
    set i | 0 <= i < |ledger| && ledger[i].marker == m :: ledger[i].start
  }

  lemma StartsAppend(ledger: seq<Allocation>, a: Allocation, m: string)
    ensures Starts(ledger + [a], m) == Starts(ledger, m) + (if a.marker == m then {a.start} else {})
  {
    var longer := ledger + [a];
    forall x | x in Starts(ledger, m) + (if a.marker == m then {a.start} else {})
      ensures x in Starts(longer, m)
    {
      if x in Starts(ledger, m) {
        var i :| 0 <= i < |ledger| && ledger[i].marker == m && ledger[i].start == x;
        assert longer[i] == ledger[i];
      } else {
        assert longer[|ledger|] == a;
      }
    }
    forall x | x in Starts(longer, m)
      ensures x in Starts(ledger, m) + (if a.marker == m then {a.start} else {})
    {
      var i :| 0 <= i < |longer| && longer[i].marker == m && longer[i].start == x;
      assert i < |ledger| ==> longer[i] == ledger[i];
    }
  }

  ghost function GrantedBy(effects: seq<Effect>, m: string): set<int> {
    if effects == [] then {}
    else
      var e := effects[|effects| - 1];
      GrantedBy(effects[..|effects| - 1], m) + (if e.Grant? && e.allocation.marker == m then {e.allocation.start} else {})
  }

  lemma {:induction false} WritesKeepPriced(cfg: Config, b0: Billing, b: Billing, effects: seq<Effect>)
    requires SamePlans(b0, b) && Priced(cfg, b)
    requires forall i :: 0 <= i < |effects| ==> PlanRespecting(cfg, b0, effects[i])
    ensures SamePlans(b0, ApplyAll(b, effects)) && Priced(cfg, ApplyAll(b, effects))
    ensures forall m :: Starts(ApplyAll(b, effects).ledger, m) == Starts(b.ledger, m) + GrantedBy(effects, m)
  {
    if effects != [] {
      var n := |effects| - 1;
      WritesKeepPriced(cfg, b0, b, effects[..n]);
      WriteKeepsPriced(cfg, b0, ApplyAll(b, effects[..n]), effects[n]);
    }
  }

  /** The period starts granted to a subscription in the course of a run, read off the deliveries. */
  ghost function GrantedStarts(cfg: Config, b: Billing, h: seq<Delivery>, m: string): set<int> {
    if h == [] then {}
    else
      var n := |h| - 1;
      GrantedStarts(cfg, b, h[..n], m) + GrantedBy(Performed(cfg, Run(cfg, b, h[..n]), h[n]), m)
  }

  lemma {:induction false} RunKeepsPriced(cfg: Config, b: Billing, h: seq<Delivery>)
    requires Priced(cfg, b)
    ensures SamePlans(b, Run(cfg, b, h)) && Priced(cfg, Run(cfg, b, h))
    ensures forall m :: Starts(Run(cfg, b, h).ledger, m) == Starts(b.ledger, m) + GrantedStarts(cfg, b, h, m)
  {
    if h != [] {
      var n := |h| - 1;
      RunKeepsPriced(cfg, b, h[..n]);
      DeliverKeepsPriced(cfg, Run(cfg, b, h[..n]), h[n]);
    }
  }

  lemma DeliverKeepsPriced(cfg: Config, c: Billing, d: Delivery)
    requires Priced(cfg, c)
    ensures SamePlans(c, Deliver(cfg, c, d)) && Priced(cfg, Deliver(cfg, c, d))
    ensures forall m :: Starts(Deliver(cfg, c, d).ledger, m) == Starts(c.ledger, m) + GrantedBy(Performed(cfg, c, d), m)
  {
    HandlersRespectPlans(cfg, c, d);
    var pending := c.(events := c.events[d.event.eventId := EventRecord(false, "")]);
    WritesKeepPriced(cfg, c, pending, Performed(cfg, c, d));
  }

  ghost function TotalFor(ledger: seq<Allocation>, m: string): int {
    if ledger == [] then 0
    else
      var a := ledger[|ledger| - 1];
      TotalFor(ledger[..|ledger| - 1], m) + (if a.marker == m then a.amount else 0)
  }

  /** All allocations of a subscription are of one amount. */
  predicate FlatRate(ledger: seq<Allocation>, m: string, credits: int) {
    forall i :: 0 <= i < |ledger| && ledger[i].marker == m ==> ledger[i].amount == credits
  }

  lemma FrontOf(ledger: seq<Allocation>, m: string, credits: int)
    requires ledger != [] && UniqueKeys(ledger) && FlatRate(ledger, m, credits)
    ensures UniqueKeys(ledger[..|ledger| - 1]) && FlatRate(ledger[..|ledger| - 1], m, credits)
  {
    var front := ledger[..|ledger| - 1];
    assert forall i :: 0 <= i < |front| ==> front[i] == ledger[i];
  }

  lemma {:induction false} TotalIsCount(ledger: seq<Allocation>, m: string, credits: int)
    requires UniqueKeys(ledger) && FlatRate(ledger, m, credits)
    ensures TotalFor(ledger, m) == credits * |Starts(ledger, m)|
  {
    if ledger != [] {
      var n := |ledger| - 1;
      var front, a := ledger[..n], ledger[n];
      FrontOf(ledger, m, credits);
      TotalIsCount(front, m, credits);
      NewStart(ledger, m);
      if a.marker == m {
        OneMore(credits, |Starts(front, m)|);
      }
    }
  }

  lemma NewStart(ledger: seq<Allocation>, m: string)
    requires ledger != [] && UniqueKeys(ledger)
    ensures var n := |ledger| - 1;
            |Starts(ledger, m)| == |Starts(ledger[..n], m)| + (if ledger[n].marker == m then 1 else 0)
  {
    var n := |ledger| - 1;
    var front, a := ledger[..n], ledger[n];
    assert ledger == front + [a];
    StartsAppend(front, a, m);
    if a.marker == m {
      LastStartIsNew(ledger, m);
    }
  }

  lemma LastStartIsNew(ledger: seq<Allocation>, m: string)
    requires ledger != [] && UniqueKeys(ledger) && ledger[|ledger| - 1].marker == m
    ensures ledger[|ledger| - 1].start !in Starts(ledger[..|ledger| - 1], m)
  {
    var n := |ledger| - 1;
    forall i | 0 <= i < n && ledger[..n][i].marker == m
      ensures ledger[..n][i].start != ledger[n].start
    {
      assert ledger[i] == ledger[..n][i];
    }
  }

  lemma OneMore(k: int, n: nat)
    ensures k * (n + 1) == k * n + k
  {
  }

  /**
   Credits are granted once per billing period: over every run from an empty ledger, the total granted
   to a subscription is its plan's credits times the number of distinct period starts granted.
   */
  lemma GrantedOncePerPeriod(cfg: Config, b: Billing, h: seq<Delivery>, m: string)
    requires b.ledger == [] && m in b.subscriptions
    ensures TotalFor(Run(cfg, b, h).ledger, m) ==
            Credits(cfg, b.subscriptions[m]) * |GrantedStarts(cfg, b, h, m)|
  {
    RunKeepsPriced(cfg, b, h);
    var c := Run(cfg, b, h);
    TotalIsCount(c.ledger, m, Credits(cfg, b.subscriptions[m]));
    assert Starts(c.ledger, m) == {} + GrantedStarts(cfg, b, h, m);
  }

  /** What a write of a handler may be: credits are granted on a payment only, to a known subscription with a
      tenant, and at its plan's positive allowance; an invoice is recorded as paid only by a payment. */
  ghost predicate AllowedWrite(cfg: Config, b: Billing, event: Event, e: Effect) {
    var o := event.object_;
    && (e.Grant? ==>
          && event.eventType == "invoice.paid" && cfg.hasCredits
          && o.subscription in b.subscriptions && b.subscriptions[o.subscription].tenantId != ""
          && e.allocation.marker == o.subscription
          && e.allocation.amount == Credits(cfg, b.subscriptions[o.subscription]) > 0)
    && (e.SaveInvoice? ==>
          && o.subscription in b.subscriptions && e.invoice.subscriptionId == b.subscriptions[o.subscription].id
          && (e.invoice.status == "paid" <==> event.eventType == "invoice.paid")
          && (o.id != "" ==> e.invoice.providerInvoiceId == Some(o.id)))
    && (e.SaveSubscription? ==> event.eventType != "invoice.paid")
  }

  /** A delivery performs writes of the handler, from the first on. */
  lemma PerformedIsHandled(cfg: Config, b: Billing, d: Delivery, i: nat)
    requires i < |Performed(cfg, b, d)|
    ensures var r := Handle(cfg, b, d.event, d.now); r.Some? && i < |r.value| && Performed(cfg, b, d)[i] == r.value[i]
  {
  }

  lemma HandlerWrites(cfg: Config, b: Billing, event: Event, now: real, i: nat)
    requires var r := Handle(cfg, b, event, now); r.Some? && i < |r.value|
    ensures AllowedWrite(cfg, b, event, Handle(cfg, b, event, now).value[i])
  {
    var o := event.object_;
    if event.eventType == "invoice.paid" {
      assert o.subscription in b.subscriptions;
      var s := b.subscriptions[o.subscription];
      var invoices, grants := RecordInvoice(cfg, b, o, s, "paid"), AllocateCredits(cfg, o, s, now);
      assert (invoices + grants)[i] == if i < |invoices| then invoices[i] else grants[i - |invoices|];
    } else if event.eventType == "invoice.payment_failed" {
      assert o.subscription in b.subscriptions;
    }
  }

  lemma GrantsOnlyOnPayment(cfg: Config, b: Billing, d: Delivery, i: nat)
    requires i < |Performed(cfg, b, d)|
    ensures AllowedWrite(cfg, b, d.event, Performed(cfg, b, d)[i])
  {
    PerformedIsHandled(cfg, b, d, i);
    HandlerWrites(cfg, b, d.event, d.now, i);
  }

  // ------------------------------------------------------- redelivery of one event

  /** All deliveries of an invoice with a usable line grant one and the same key, whatever the clock
      reads and however often the subscription changed in between. */
  lemma LinePinsTheKey(cfg: Config, b: Billing, d: Delivery, m: string)
    requires HasGoodLine(d.event.object_.lines)
    ensures GrantedBy(Performed(cfg, b, d), m) <=
            if m == d.event.object_.subscription then {FirstGoodLine(d.event.object_.lines).0} else {}
  {
    var start := FirstGoodLine(d.event.object_.lines).0;
    assert Trunc(start as real) == start;
    var effects := Performed(cfg, b, d);
    forall i | 0 <= i < |effects| && effects[i].Grant?
      ensures effects[i].allocation.marker == d.event.object_.subscription && effects[i].allocation.start == start
    {
    }
    GrantedByOnly(effects, m, d.event.object_.subscription, start);
  }

  lemma {:induction false} GrantedByOnly(effects: seq<Effect>, m: string, marker: string, start: int)
    requires forall i :: 0 <= i < |effects| && effects[i].Grant? ==>
      effects[i].allocation.marker == marker && effects[i].allocation.start == start
    ensures GrantedBy(effects, m) <= if m == marker then {start} else {}
  {
    if effects != [] {
      GrantedByOnly(effects[..|effects| - 1], m, marker, start);
    }
  }

  /** The period start derived from one state of a subscription is independent of the clock exactly when
      the invoice has a usable line or that state a proper period. */
  lemma ClockFreeExactly(o: EventObject, s: Subscription)
    ensures (forall now, now' :: Trunc(PeriodOf(o, s, now).0) == Trunc(PeriodOf(o, s, now').0)) <==>
            HasGoodLine(o.lines) || s.periodEnd > s.periodStart
  {
    if !HasGoodLine(o.lines) && s.periodEnd <= s.periodStart {
      assert Trunc(PeriodOf(o, s, 0.0).0) == 0;
      assert Trunc(PeriodOf(o, s, 1.0).0) == 1;
    }
  }
}
