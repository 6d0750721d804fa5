/**
 Billing webhooks: event records, invoice history and credit grants under redelivery and crashes.
 */
module Webhook {
  import opened Prelude

  datatype Status = Active | PastDue | Canceled | Incomplete | IncompleteExpired | Trialing | Unpaid

  datatype Subscription = Subscription(id: string, tenantId: string, planId: string, status: Status, yearly: bool,
                                       periodStart: real, periodEnd: real)

  datatype Invoice = Invoice(providerInvoiceId: Option<string>, subscriptionId: string, status: string)

  /** An allocation in the credit ledger; `marker` and `start` make up its idempotency key. */
  datatype Allocation = Allocation(marker: string, start: int, amount: int)

  /** An event record: `processed`, or the message of a failed attempt, or neither. */
  datatype EventRecord = EventRecord(processed: bool, error: string)

  datatype Billing = Billing(
    events: map<string, EventRecord>,
    subscriptions: map<string, Subscription>,  // by provider subscription id
    invoices: seq<Invoice>,
    ledger: seq<Allocation>)

  /** Plans by id with their monthly credits, and which optional services are wired in. */
  datatype Config = Config(plans: map<string, int>, hasInvoices: bool, hasCredits: bool)

  /** The part of an event object that the handlers read. A line is its period, or `None` if malformed. */
  datatype EventObject = EventObject(id: string, subscription: string, lines: seq<Option<(int, int)>>,
                                     status: Option<Status>, periodStart: int, periodEnd: int)

  datatype Event = Event(eventId: string, eventType: string, object_: EventObject)

  // ---------------------------------------------------------- billing periods

  predicate GoodLine(line: Option<(int, int)>) {
    line.Some? && line.value.0 != 0 && line.value.1 != 0 && line.value.1 > line.value.0
  }

  predicate HasGoodLine(lines: seq<Option<(int, int)>>) {
    exists i :: 0 <= i < |lines| && GoodLine(lines[i])
  }

  function FirstGoodLine(lines: seq<Option<(int, int)>>): (r: (int, int))
    requires HasGoodLine(lines)
    ensures exists i :: 0 <= i < |lines| && GoodLine(lines[i]) && lines[i].value == r &&
              forall j :: 0 <= j < i ==> !GoodLine(lines[j])
  {
    if GoodLine(lines[0]) then lines[0].value
    else
      assert HasGoodLine(lines[1..]) by {
        var i :| 0 <= i < |lines| && GoodLine(lines[i]);
        assert lines[1..][i - 1] == lines[i];
      }
      var r := FirstGoodLine(lines[1..]);
      assert exists i :: 0 <= i < |lines| && GoodLine(lines[i]) && lines[i].value == r &&
               forall j :: 0 <= j < i ==> !GoodLine(lines[j]) by {
        var i :| 0 <= i < |lines[1..]| && GoodLine(lines[1..][i]) && lines[1..][i].value == r &&
                 forall j :: 0 <= j < i ==> !GoodLine(lines[1..][j]);
        assert lines[i + 1] == lines[1..][i];
        assert forall j :: 1 <= j < i + 1 ==> lines[j] == lines[1..][j - 1];
      }
      r
  }

  const SECONDS_PER_DAY := 86400.0

  /** The period of an invoice: its first usable line, else the subscription's, else counted from `now`. */
  function PeriodOf(o: EventObject, s: Subscription, now: real): (r: (real, real))
    ensures r.0 < r.1
  {
    if HasGoodLine(o.lines) then (FirstGoodLine(o.lines).0 as real, FirstGoodLine(o.lines).1 as real)
    else if s.periodEnd > s.periodStart then (s.periodStart, s.periodEnd)
    else (now, now + (if s.yearly then 365.0 else 30.0) * SECONDS_PER_DAY)
  }

  method ExtractInvoicePeriod(o: EventObject, s: Subscription, now: real) returns (start: real, end: real)
    ensures (start, end) == PeriodOf(o, s, now)
    ensures forall i :: 0 <= i < |o.lines| && GoodLine(o.lines[i]) && (forall j :: 0 <= j < i ==> !GoodLine(o.lines[j])) ==>
              start == o.lines[i].value.0 as real && end == o.lines[i].value.1 as real
    ensures !HasGoodLine(o.lines) && s.periodStart < s.periodEnd ==> start == s.periodStart && end == s.periodEnd
    ensures !HasGoodLine(o.lines) && s.periodStart >= s.periodEnd ==>
              start == now && end - start == if s.yearly then 31536000.0 else 2592000.0
  {
    for i := 0 to |o.lines|
      invariant forall j :: 0 <= j < i ==> !GoodLine(o.lines[j])
    {
      if GoodLine(o.lines[i]) {
        return o.lines[i].value.0 as real, o.lines[i].value.1 as real;
      }
    }
    if s.periodEnd > s.periodStart {
      return s.periodStart, s.periodEnd;
    }
    var days := if s.yearly then 365.0 else 30.0;
    return now, now + days * SECONDS_PER_DAY;
  }

  /** `int(t)`: towards zero. */
  function Trunc(t: real): (r: int)
    ensures t >= 0.0 ==> r as real <= t < r as real + 1.0
    ensures t <= 0.0 ==> r as real - 1.0 < t <= r as real
  {
    if t >= 0.0 then t.Floor else -((-t).Floor)
  }

  // ----------------------------------------------------------------- handlers

  /** One durable write of a handler. */
  datatype Effect =
    | SaveInvoice(invoice: Invoice)
    | SaveSubscription(marker: string, subscription: Subscription)
    | Grant(allocation: Allocation, tenantId: string, period: (real, real))

  predicate HasKey(ledger: seq<Allocation>, a: Allocation) {
    exists i :: 0 <= i < |ledger| && ledger[i].marker == a.marker && ledger[i].start == a.start
  }

  predicate HasInvoice(invoices: seq<Invoice>, providerId: string) {
    exists i :: 0 <= i < |invoices| && invoices[i].providerInvoiceId == Some(providerId)
  }

  /** `RecoveryCreditService.allocate` as far as grants go: a recorded key makes it a no-op. */
  function Apply(b: Billing, e: Effect): Billing {
    match e
    case SaveInvoice(i) => b.(invoices := b.invoices + [i])
    case SaveSubscription(m, s) => b.(subscriptions := b.subscriptions[m := s])
    case Grant(a, _, _) => if HasKey(b.ledger, a) then b else b.(ledger := b.ledger + [a])
  }

  function ApplyAll(b: Billing, effects: seq<Effect>): Billing {
    if effects == [] then b else Apply(ApplyAll(b, effects[..|effects| - 1]), effects[|effects| - 1])
  }

  function RecordInvoice(cfg: Config, b: Billing, o: EventObject, s: Subscription, status: string): seq<Effect> {
    if !cfg.hasInvoices || (o.id != "" && HasInvoice(b.invoices, o.id)) then []
    else [SaveInvoice(Invoice(if o.id == "" then None else Some(o.id), s.id, status))]
  }

  function Credits(cfg: Config, s: Subscription): int {
    if s.planId in cfg.plans then cfg.plans[s.planId] else 0
  }

  function AllocateCredits(cfg: Config, o: EventObject, s: Subscription, now: real): seq<Effect> {
    if !cfg.hasCredits || s.tenantId == "" || Credits(cfg, s) <= 0 then []
    else
      var period := PeriodOf(o, s, now);
      [Grant(Allocation(o.subscription, Trunc(period.0), Credits(cfg, s)), s.tenantId, period)]
  }

  /** What a handler writes, in order; `None` where it raises before writing. */
  function Handle(cfg: Config, b: Billing, e: Event, now: real): Option<seq<Effect>> {
    var o := e.object_;
    if e.eventType == "invoice.paid" then
      if o.subscription == "" || o.subscription !in b.subscriptions then Some([])
      else
        var s := b.subscriptions[o.subscription];
        Some(RecordInvoice(cfg, b, o, s, "paid") + AllocateCredits(cfg, o, s, now))
    else if e.eventType == "invoice.payment_failed" then
      if o.subscription == "" || o.subscription !in b.subscriptions then Some([])
      else
        var s := b.subscriptions[o.subscription];
        Some(RecordInvoice(cfg, b, o, s, "open") +
             (if s.status == PastDue then [] else [SaveSubscription(o.subscription, s.(status := PastDue))]))
    else if e.eventType == "customer.subscription.updated" then
      if o.id !in b.subscriptions then Some([])
      else if o.status.None? then None
      else Some([SaveSubscription(o.id, b.subscriptions[o.id].(status := o.status.value,
                                    periodStart := o.periodStart as real, periodEnd := o.periodEnd as real))])
    else if e.eventType == "customer.subscription.deleted" then
      if o.id !in b.subscriptions then Some([])
      else Some([SaveSubscription(o.id, b.subscriptions[o.id].(status := Canceled))])
    else Some([])
  }

  // --------------------------------------------------------------- deliveries

  /** How far a delivery gets: to the end, or `writes` handler writes and then a crash or an exception. */
  datatype Fate = Completes | CrashesFirst | CrashesAfter(writes: nat) | RaisesAfter(writes: nat, message: string)

  datatype Delivery = Delivery(event: Event, now: real, fate: Fate)

  predicate Settled(b: Billing, eventId: string) {
    eventId in b.events && (b.events[eventId].processed || b.events[eventId].error != "")
  }

  /** The delivery reaches the handler. */
  predicate Attempts(b: Billing, d: Delivery) {
    d.event.eventId != "" && d.event.eventType != "" && !Settled(b, d.event.eventId) && !d.fate.CrashesFirst?
  }

  function Take(effects: seq<Effect>, n: nat): seq<Effect> {
    if n <= |effects| then effects[..n] else effects
  }

  /** The handler writes that a delivery performs. */
  function Performed(cfg: Config, b: Billing, d: Delivery): seq<Effect> {
    if !Attempts(b, d) then []
    else match Handle(cfg, b, d.event, d.now)
      case None => []
      case Some(effects) =>
        match d.fate
        case Completes => effects
        case CrashesFirst => []
        case CrashesAfter(n) => Take(effects, n)
        case RaisesAfter(n, _) => Take(effects, n)
  }

  /** `execute`: record the attempt, run the handler, record the outcome. */
  function Deliver(cfg: Config, b: Billing, d: Delivery): Billing {
    if !Attempts(b, d) then b
    else
      var id := d.event.eventId;
      var after := ApplyAll(b.(events := b.events[id := EventRecord(false, "")]), Performed(cfg, b, d));
      match Handle(cfg, b, d.event, d.now)
      case None => after.(events := after.events[id := EventRecord(false, "not a valid SubscriptionStatus")])
      case Some(_) =>
        match d.fate
        case Completes => after.(events := after.events[id := EventRecord(true, "")])
        case CrashesFirst => after
        case CrashesAfter(_) => after
        case RaisesAfter(_, message) => after.(events := after.events[id := EventRecord(false, message)])
  }

  function Run(cfg: Config, b: Billing, h: seq<Delivery>): Billing {
    if h == [] then b else Deliver(cfg, Run(cfg, b, h[..|h| - 1]), h[|h| - 1])
  }

  // ------------------------------------------------------------- the use case

  class HandleWebhookUseCase {
    const cfg: Config
    var events: map<string, EventRecord>
    var subscriptions: map<string, Subscription>
    var invoices: seq<Invoice>
    var ledger: seq<Allocation>

    ghost function Contents(): Billing
      reads this
    {
      Billing(events, subscriptions, invoices, ledger)
    }

    constructor (cfg: Config, subscriptions: map<string, Subscription>)
      ensures this.cfg == cfg && Contents() == Billing(map[], subscriptions, [], [])
    {
      this.cfg, this.subscriptions := cfg, subscriptions;
      events, invoices, ledger := map[], [], [];
    }

    method Write(e: Effect)
      modifies this
      ensures Contents() == Apply(old(Contents()), e)
    {
      match e {
        case SaveInvoice(i) => invoices := invoices + [i];
        case SaveSubscription(m, s) => subscriptions := subscriptions[m := s];
        case Grant(a, _, _) =>
          if !HasKey(ledger, a) {
            ledger := ledger + [a];
          }
      }
    }

    /** One delivery, with the point at which the process dies or the handler raises. */
    method Execute(d: Delivery)
      modifies this
      ensures Contents() == Deliver(cfg, old(Contents()), d)
    {
      var id := d.event.eventId;
      if id == "" || d.event.eventType == "" {
        return;
      }
      if id in events && (events[id].processed || events[id].error != "") {
        return;
      }
      if d.fate.CrashesFirst? {
        return;
      }
      var handled := Handle(cfg, Billing(events, subscriptions, invoices, ledger), d.event, d.now);
      events := events[id := EventRecord(false, "")];
      ghost var pending := Contents();
      if handled.None? {
        events := events[id := EventRecord(false, "not a valid SubscriptionStatus")];
        return;
      }
      var effects := match d.fate
        case Completes => handled.value
        case CrashesFirst => []
        case CrashesAfter(n) => Take(handled.value, n)
        case RaisesAfter(n, _) => Take(handled.value, n);
      for k := 0 to |effects|
        invariant Contents() == ApplyAll(pending, effects[..k])
      {
        assert effects[..k + 1][..k] == effects[..k];
        Write(effects[k]);
      }
      assert effects[..|effects|] == effects;
      match d.fate {
        case Completes => events := events[id := EventRecord(true, "")];
        case CrashesFirst =>
        case CrashesAfter(_) =>
        case RaisesAfter(_, message) => events := events[id := EventRecord(false, message)];
      }
    }
  }
}
