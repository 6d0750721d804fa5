/**
 What a completed delivery leaves in the stores, event type by event type, in terms of the payload and the stores
 before it.
 */
module WebhookOutcomes {
  import opened Prelude
  import opened Webhook
  import WebhookLaws

  /** The event is new, or was attempted without an outcome, and its delivery runs to the end. */
  predicate RunsToTheEnd(b: Billing, d: Delivery) {
    var id := d.event.eventId;
    && id != "" && d.event.eventType != "" && d.fate == Completes
    && (id in b.events ==> !b.events[id].processed && b.events[id].error == "")
  }

  // ------------------------------------------------------------------ completion

  lemma CompletedDelivery(cfg: Config, b: Billing, d: Delivery, effects: seq<Effect>)
    requires RunsToTheEnd(b, d) && Handle(cfg, b, d.event, d.now) == Some(effects)
    ensures var b', after := Deliver(cfg, b, d), ApplyAll(b, effects);
            && b'.events == b.events[d.event.eventId := EventRecord(true, "")]
            && b'.subscriptions == after.subscriptions && b'.invoices == after.invoices && b'.ledger == after.ledger
  {
    var pending := b.(events := b.events[d.event.eventId := EventRecord(false, "")]);
    WebhookLaws.WritesKeepEvents(pending, effects);
    EventsDoNotMatter(b, pending, effects);
  }

  lemma {:induction false} EventsDoNotMatter(b: Billing, c: Billing, effects: seq<Effect>)
    requires c == b.(events := c.events)
    ensures ApplyAll(c, effects) == ApplyAll(b, effects).(events := ApplyAll(c, effects).events)
  {
    if effects != [] {
      EventsDoNotMatter(b, c, effects[..|effects| - 1]);
    }
  }

  /** A delivery that is cut short leaves its event open to a retry after a crash, and on record as failed after an
      exception with a message. */
  lemma InterruptedDelivery(cfg: Config, b: Billing, d: Delivery)
    requires Attempts(b, d) && !d.fate.Completes? && Handle(cfg, b, d.event, d.now).Some?
    ensures var b' := Deliver(cfg, b, d);
            b'.events == b.events[d.event.eventId := EventRecord(false, if d.fate.RaisesAfter? then d.fate.message else "")]
  {
    WebhookLaws.WritesKeepEvents(b.(events := b.events[d.event.eventId := EventRecord(false, "")]), Performed(cfg, b, d));
  }

  lemma ApplyOne(b: Billing, e: Effect)
    ensures ApplyAll(b, [e]) == Apply(b, e)
  {
    assert [e][..0] == [];
    assert ApplyAll(b, []) == b;
  }

  lemma ApplyThen(b: Billing, x: seq<Effect>, y: seq<Effect>)
    requires |y| <= 1
    ensures ApplyAll(b, x + y) == ApplyAll(ApplyAll(b, x), y)
  {
    if y == [] {
      assert x + y == x;
    } else {
      assert (x + y)[..|x|] == x;
      ApplyOne(ApplyAll(b, x), y[0]);
      assert y == [y[0]];
    }
  }

  // --------------------------------------------------------------------- invoices

  predicate OnFile(invoices: seq<Invoice>, id: string) {
    exists i :: 0 <= i < |invoices| && invoices[i].providerInvoiceId == Some(id)
  }

  /** An invoice is recorded unless invoices are not kept or this one is on file. */
  ghost predicate InvoiceRecorded(cfg: Config, before: seq<Invoice>, after: seq<Invoice>, o: EventObject, s: Subscription, status: string) {
    if !cfg.hasInvoices || (o.id != "" && OnFile(before, o.id)) then after == before
    else after == before + [Invoice(if o.id == "" then None else Some(o.id), s.id, status)]
  }

  lemma RecordsInvoice(cfg: Config, b: Billing, o: EventObject, s: Subscription, status: string)
    ensures |RecordInvoice(cfg, b, o, s, status)| <= 1
    ensures var after := ApplyAll(b, RecordInvoice(cfg, b, o, s, status));
            && after == b.(invoices := after.invoices)
            && InvoiceRecorded(cfg, b.invoices, after.invoices, o, s, status)
  {
    var effects := RecordInvoice(cfg, b, o, s, status);
    if effects != [] {
      ApplyOne(b, effects[0]);
      assert effects == [effects[0]];
    }
  }

  // --------------------------------------------------------------------- payments

  predicate IsUsable(line: Option<(int, int)>) {
    line.Some? && line.value.0 != 0 && line.value.1 != 0 && line.value.0 < line.value.1
  }

  /** The start, in seconds, of the period that a payment is for: that of the first usable line; without one the
      subscription's, if that is a proper period; otherwise the time of the delivery. */
  ghost predicate BillingStart(o: EventObject, s: Subscription, now: real, start: int) {
    if exists i :: 0 <= i < |o.lines| && IsUsable(o.lines[i])
    then exists i :: 0 <= i < |o.lines| && IsUsable(o.lines[i]) && start == o.lines[i].value.0 &&
           forall j :: 0 <= j < i ==> !IsUsable(o.lines[j])
    else start == Trunc(if s.periodStart < s.periodEnd then s.periodStart else now)
  }

  lemma StartOfPeriod(o: EventObject, s: Subscription, now: real)
    ensures BillingStart(o, s, now, Trunc(PeriodOf(o, s, now).0))
  {
    assert forall i :: 0 <= i < |o.lines| ==> (IsUsable(o.lines[i]) <==> GoodLine(o.lines[i]));
    if HasGoodLine(o.lines) {
      var first := FirstGoodLine(o.lines);
      assert Trunc(first.0 as real) == first.0;
      var i :| 0 <= i < |o.lines| && GoodLine(o.lines[i]) && o.lines[i].value == first &&
               forall j :: 0 <= j < i ==> !GoodLine(o.lines[j]);
      assert IsUsable(o.lines[i]);
    }
  }

  lemma StartUnique(o: EventObject, s: Subscription, now: real, x: int, y: int)
    requires BillingStart(o, s, now, x) && BillingStart(o, s, now, y)
    ensures x == y
  {
  }

  predicate OnLedger(ledger: seq<Allocation>, m: string, start: int) {
    exists i :: 0 <= i < |ledger| && ledger[i].marker == m && ledger[i].start == start
  }

  /** The subscription's plan has credits to grant, and there is a tenant to grant them to. */
  predicate Entitled(cfg: Config, s: Subscription) {
    cfg.hasCredits && s.tenantId != "" && s.planId in cfg.plans && cfg.plans[s.planId] > 0
  }

  lemma AllocatesCredits(cfg: Config, b: Billing, o: EventObject, s: Subscription, now: real, start: int)
    requires BillingStart(o, s, now, start)
    ensures |AllocateCredits(cfg, o, s, now)| <= 1
    ensures var after := ApplyAll(b, AllocateCredits(cfg, o, s, now));
            && after == b.(ledger := after.ledger)
            && after.ledger == if !Entitled(cfg, s) || OnLedger(b.ledger, o.subscription, start) then b.ledger
                               else b.ledger + [Allocation(o.subscription, start, cfg.plans[s.planId])]
  {
    StartOfPeriod(o, s, now);
    StartUnique(o, s, now, start, Trunc(PeriodOf(o, s, now).0));
    var effects := AllocateCredits(cfg, o, s, now);
    if effects != [] {
      ApplyOne(b, effects[0]);
      assert effects == [effects[0]];
    }
  }

  /**
   A verified payment is credited: a completed delivery of a paid invoice for a known subscription leaves an
   allocation of the plan's credits under the subscription and its billing start, unless one is on record, and
   leaves the invoice on file as paid.
   */
  lemma PaymentIsCredited(cfg: Config, b: Billing, d: Delivery, start: int)
    requires RunsToTheEnd(b, d) && d.event.eventType == "invoice.paid"
    requires var o := d.event.object_;
             && o.subscription != "" && o.subscription in b.subscriptions
             && BillingStart(o, b.subscriptions[o.subscription], d.now, start)
    ensures var o, b' := d.event.object_, Deliver(cfg, b, d);
            var s := b.subscriptions[o.subscription];
            && b'.events == b.events[d.event.eventId := EventRecord(true, "")]
            && b'.subscriptions == b.subscriptions
            && InvoiceRecorded(cfg, b.invoices, b'.invoices, o, s, "paid")
            && b'.ledger == (if !Entitled(cfg, s) || OnLedger(b.ledger, o.subscription, start) then b.ledger
                             else b.ledger + [Allocation(o.subscription, start, cfg.plans[s.planId])])
            && (Entitled(cfg, s) ==> OnLedger(b'.ledger, o.subscription, start))
  {
    var o := d.event.object_;
    var s := b.subscriptions[o.subscription];
    var invoices, grants := RecordInvoice(cfg, b, o, s, "paid"), AllocateCredits(cfg, o, s, d.now);
    CompletedDelivery(cfg, b, d, invoices + grants);
    RecordsInvoice(cfg, b, o, s, "paid");
    AllocatesCredits(cfg, ApplyAll(b, invoices), o, s, d.now, start);
    ApplyThen(b, invoices, grants);
    var b' := Deliver(cfg, b, d);
    if Entitled(cfg, s) && !OnLedger(b.ledger, o.subscription, start) {
      assert b'.ledger[|b.ledger|] == Allocation(o.subscription, start, cfg.plans[s.planId]);
    }
  }

  /** The case of an invoice with a usable line, spelled out. */
  lemma LineIsCredited(cfg: Config, b: Billing, d: Delivery, i: nat)
    requires RunsToTheEnd(b, d) && d.event.eventType == "invoice.paid"
    requires var o := d.event.object_;
             && o.subscription != "" && o.subscription in b.subscriptions && Entitled(cfg, b.subscriptions[o.subscription])
             && i < |o.lines| && IsUsable(o.lines[i]) && forall j :: 0 <= j < i ==> !IsUsable(o.lines[j])
    ensures var o, ledger := d.event.object_, Deliver(cfg, b, d).ledger;
            var start := o.lines[i].value.0;
            && OnLedger(ledger, o.subscription, start)
            && (!OnLedger(b.ledger, o.subscription, start) ==>
                  ledger == b.ledger + [Allocation(o.subscription, start, cfg.plans[b.subscriptions[o.subscription].planId])])
  {
    PaymentIsCredited(cfg, b, d, d.event.object_.lines[i].value.0);
  }

  // ------------------------------------------------------------- the other events

  /** A failed payment: the subscription is past due, the invoice is on file as open, and nothing is granted. */
  lemma FailureIsRecorded(cfg: Config, b: Billing, d: Delivery)
    requires RunsToTheEnd(b, d) && d.event.eventType == "invoice.payment_failed"
    requires d.event.object_.subscription != "" && d.event.object_.subscription in b.subscriptions
    ensures var o, b' := d.event.object_, Deliver(cfg, b, d);
            var s := b.subscriptions[o.subscription];
            && b'.events == b.events[d.event.eventId := EventRecord(true, "")]
            && b'.subscriptions == b.subscriptions[o.subscription := s.(status := PastDue)]
            && InvoiceRecorded(cfg, b.invoices, b'.invoices, o, s, "open") && b'.ledger == b.ledger
  {
    var o := d.event.object_;
    var s := b.subscriptions[o.subscription];
    var invoices := RecordInvoice(cfg, b, o, s, "open");
    var change := if s.status == PastDue then [] else [SaveSubscription(o.subscription, s.(status := PastDue))];
    CompletedDelivery(cfg, b, d, invoices + change);
    RecordsInvoice(cfg, b, o, s, "open");
    ApplyThen(b, invoices, change);
    MarksPastDue(ApplyAll(b, invoices), o.subscription, s, change);
  }

  lemma MarksPastDue(b: Billing, m: string, s: Subscription, change: seq<Effect>)
    requires m in b.subscriptions && b.subscriptions[m] == s
    requires change == if s.status == PastDue then [] else [SaveSubscription(m, s.(status := PastDue))]
    ensures ApplyAll(b, change) == b.(subscriptions := b.subscriptions[m := s.(status := PastDue)])
  {
    if s.status == PastDue {
      assert b.subscriptions[m := s] == b.subscriptions;
    } else {
      ApplyOne(b, SaveSubscription(m, s.(status := PastDue)));
    }
  }

  /** An update: the subscription takes the status and period of the event; with an unknown status nothing changes
      and the event is on record as failed. */
  lemma UpdateIsStored(cfg: Config, b: Billing, d: Delivery)
    requires RunsToTheEnd(b, d) && d.event.eventType == "customer.subscription.updated"
    requires d.event.object_.id in b.subscriptions
    ensures var o, b' := d.event.object_, Deliver(cfg, b, d);
            var s := b.subscriptions[o.id];
            && b'.invoices == b.invoices && b'.ledger == b.ledger
            && (o.status.Some? ==>
                  && b'.events == b.events[d.event.eventId := EventRecord(true, "")]
                  && b'.subscriptions == b.subscriptions[o.id := s.(status := o.status.value,
                                             periodStart := o.periodStart as real, periodEnd := o.periodEnd as real)])
            && (o.status.None? ==>
                  && b'.subscriptions == b.subscriptions && d.event.eventId in b'.events
                  && !b'.events[d.event.eventId].processed && b'.events[d.event.eventId].error != "")
  {
    var o := d.event.object_;
    if o.status.Some? {
      var e := SaveSubscription(o.id, b.subscriptions[o.id].(status := o.status.value,
                                  periodStart := o.periodStart as real, periodEnd := o.periodEnd as real));
      CompletedDelivery(cfg, b, d, [e]);
      ApplyOne(b, e);
    } else {
      assert Performed(cfg, b, d) == [];
      assert ApplyAll(b.(events := b.events[d.event.eventId := EventRecord(false, "")]), []).events
          == b.events[d.event.eventId := EventRecord(false, "")];
    }
  }

  /** A deletion cancels the subscription and changes nothing else. */
  lemma DeletionCancels(cfg: Config, b: Billing, d: Delivery)
    requires RunsToTheEnd(b, d) && d.event.eventType == "customer.subscription.deleted"
    requires d.event.object_.id in b.subscriptions
    ensures var o, b' := d.event.object_, Deliver(cfg, b, d);
            && b'.events == b.events[d.event.eventId := EventRecord(true, "")]
            && b'.subscriptions == b.subscriptions[o.id := b.subscriptions[o.id].(status := Canceled)]
            && b'.invoices == b.invoices && b'.ledger == b.ledger
  {
    var o := d.event.object_;
    var e := SaveSubscription(o.id, b.subscriptions[o.id].(status := Canceled));
    CompletedDelivery(cfg, b, d, [e]);
    ApplyOne(b, e);
  }

  /** The subscription that an event is about. */
  function Subject(e: Event): string {
    if e.eventType == "invoice.paid" || e.eventType == "invoice.payment_failed" then e.object_.subscription else e.object_.id
  }

  predicate IsHandled(e: Event) {
    || e.eventType == "invoice.paid" || e.eventType == "invoice.payment_failed"
    || e.eventType == "customer.subscription.updated" || e.eventType == "customer.subscription.deleted"
  }

  /** Events of other types, and events about unknown subscriptions, are marked processed and leave all else alone. */
  lemma OthersAreSkipped(cfg: Config, b: Billing, d: Delivery)
    requires RunsToTheEnd(b, d)
    requires !IsHandled(d.event) || Subject(d.event) !in b.subscriptions
    ensures Deliver(cfg, b, d) == b.(events := b.events[d.event.eventId := EventRecord(true, "")])
  {
    CompletedDelivery(cfg, b, d, []);
    assert ApplyAll(b, []) == b;
  }
}
