/**
 Webhook deliveries against the credit service: the grants of a run of deliveries, passed on to the wallet of
 their tenant, record exactly the allocations of the run.
 */
module CreditGrants {
  import opened Prelude
  import opened Credits
  import opened CreditLaws
  import CreditCharges
  import Webhook
  import WebhookLaws

  // ------------------------------------------------------------------ key strings

  function Digits(n: nat): (r: string)
    ensures r != [] && forall i :: 0 <= i < |r| ==> '0' <= r[i] <= '9'
  {
    var last := ['0' + (n % 10) as char];
    if n < 10 then last else Digits(n / 10) + last
  }

  function Value(s: string): nat
    requires forall i :: 0 <= i < |s| ==> '0' <= s[i] <= '9'
  {
    if s == [] then 0 else 10 * Value(s[..|s| - 1]) + (s[|s| - 1] as int - '0' as int)
  }

  lemma {:induction false} ValueOfDigits(n: nat)
    ensures Value(Digits(n)) == n
  {
    var s := Digits(n);
    if n < 10 {
      assert s[..0] == [] && Value([]) == 0;
    } else {
      ValueOfDigits(n / 10);
      assert s[..|s| - 1] == Digits(n / 10);
    }
  }

  /** `str(n)` */
  function Decimal(n: int): (r: string)
    ensures forall i :: 0 <= i < |r| ==> r[i] != ':'
  {
    if n < 0 then "-" + Digits(-n) else Digits(n)
  }

  lemma DecimalInjective(m: int, n: int)
    requires Decimal(m) == Decimal(n)
    ensures m == n
  {
    var s, t := Decimal(m), Decimal(n);
    assert m < 0 <==> s[0] == '-';
    assert n < 0 <==> t[0] == '-';
    ValueOfDigits(if m < 0 then -m else m);
    ValueOfDigits(if n < 0 then -n else n);
    if m < 0 {
      assert Digits(-m) == s[1..] == t[1..] == Digits(-n);
    }
  }

  /** The idempotency key of an allocation: `alloc:<marker>:<start>`. */
  function AllocKey(marker: string, start: int): string {
    "alloc:" + (marker + ":" + Decimal(start))
  }

  lemma LastColon(x: string, d: string, y: string, e: string)
    requires x + ":" + d == y + ":" + e
    requires (forall i :: 0 <= i < |d| ==> d[i] != ':') && (forall i :: 0 <= i < |e| ==> e[i] != ':')
    ensures x == y && d == e
  {
    var s, t := x + ":" + d, y + ":" + e;
    assert s[|x|] == ':' && t[|y|] == ':';
    assert x == s[..|x|] && y == t[..|y|] && d == s[|x| + 1..] && e == t[|y| + 1..];
  }

  lemma AllocKeyInjective(m: string, start: int, m': string, start': int)
    requires AllocKey(m, start) == AllocKey(m', start')
    ensures m == m' && start == start'
  {
    assert AllocKey(m, start)[6..] == m + ":" + Decimal(start);
    assert AllocKey(m', start')[6..] == m' + ":" + Decimal(start');
    LastColon(m, Decimal(start), m', Decimal(start'));
    DecimalInjective(start, start');
  }

  // --------------------------------------------------------------- a run of deliveries

  function FundBy(a: Account, e: Webhook.Effect, tenant: string, t: Clock): Account {
    if e.Grant? && e.tenantId == tenant
    then Allocate(a, e.allocation.amount, e.period.0, e.period.1, AllocKey(e.allocation.marker, e.allocation.start), t)
    else a
  }

  /** Passes the grants for one tenant among a handler's writes on to the tenant's account. */
  function Fund(a: Account, effects: seq<Webhook.Effect>, tenant: string, t: Clock): Account {
    if effects == [] then a
    else
      var n := |effects| - 1; FundBy(Fund(a, effects[..n], tenant, t), effects[n], tenant, t)
  }

  /** `clocks` gives the readings that the credit service takes for each delivery. */
  function FundRun(cfg: Webhook.Config, b: Webhook.Billing, h: seq<Webhook.Delivery>, tenant: string, clocks: nat -> Clock): Account {
    if h == [] then NEW_TENANT
    else
      var n := |h| - 1;
      Fund(FundRun(cfg, b, h[..n], tenant, clocks), Webhook.Performed(cfg, Webhook.Run(cfg, b, h[..n]), h[n]), tenant, clocks(n))
  }

  predicate HasGrant(a: Account, m: string, start: int) {
    HasKey(a.ledger, GrantKey(AllocKey(m, start)))
  }

  predicate OfTenant(b: Webhook.Billing, m: string, tenant: string) {
    m in b.subscriptions && b.subscriptions[m].tenantId == tenant
  }

  predicate GoodGrant(b: Webhook.Billing, e: Webhook.Effect) {
    e.Grant? ==> e.allocation.amount > 0 && OfTenant(b, e.allocation.marker, e.tenantId)
  }

  lemma {:induction false} FundKeys(b: Webhook.Billing, a: Account, effects: seq<Webhook.Effect>, tenant: string, t: Clock)
    requires Inv(a) && forall i :: 0 <= i < |effects| ==> GoodGrant(b, effects[i])
    ensures Inv(Fund(a, effects, tenant, t))
    ensures forall m, start :: HasGrant(Fund(a, effects, tenant, t), m, start) <==>
              HasGrant(a, m, start) || (OfTenant(b, m, tenant) && start in WebhookLaws.GrantedBy(effects, m))
  {
    if effects != [] {
      var n := |effects| - 1;
      FundKeys(b, a, effects[..n], tenant, t);
      forall m, start
        ensures HasGrant(Fund(a, effects, tenant, t), m, start) <==>
                HasGrant(a, m, start) || (OfTenant(b, m, tenant) && start in WebhookLaws.GrantedBy(effects, m))
      {
        FundOne(b, Fund(a, effects[..n], tenant, t), effects[n], tenant, t, m, start);
      }
      assert GoodGrant(b, effects[n]);
      FundKeepsInv(Fund(a, effects[..n], tenant, t), effects[n], tenant, t);
    }
  }

  lemma FundKeepsInv(a: Account, e: Webhook.Effect, tenant: string, t: Clock)
    requires Inv(a)
    ensures Inv(FundBy(a, e, tenant, t))
  {
    if e.Grant? {
      AllocateKeepsInv(a, e.allocation.amount, e.period.0, e.period.1, AllocKey(e.allocation.marker, e.allocation.start), t);
    }
  }

  lemma FundOne(b: Webhook.Billing, a: Account, e: Webhook.Effect, tenant: string, t: Clock, m: string, start: int)
    requires Inv(a) && GoodGrant(b, e)
    ensures HasGrant(FundBy(a, e, tenant, t), m, start) <==>
            HasGrant(a, m, start) ||
            (OfTenant(b, m, tenant) && e.Grant? && e.allocation.marker == m && e.allocation.start == start)
  {
    if e.Grant? && e.tenantId == tenant {
      var id := AllocKey(e.allocation.marker, e.allocation.start);
CreditCharges.AllocateKeys(a, e.allocation.amount, e.period.0, e.period.1, id, t, GrantKey(AllocKey(m, start)));
      if AllocKey(m, start) == id {
        AllocKeyInjective(m, start, e.allocation.marker, e.allocation.start);
      }
    }
  }

  lemma DeliveriesGrantWell(cfg: Webhook.Config, b: Webhook.Billing, c: Webhook.Billing, d: Webhook.Delivery)
    requires WebhookLaws.SamePlans(b, c)
    ensures var effects := Webhook.Performed(cfg, c, d); forall i :: 0 <= i < |effects| ==> GoodGrant(b, effects[i])
  {
    var effects := Webhook.Performed(cfg, c, d);
    WebhookLaws.HandlersRespectPlans(cfg, c, d);
    forall i | 0 <= i < |effects|
      ensures GoodGrant(b, effects[i])
    {
      WebhookLaws.GrantsOnlyOnPayment(cfg, c, d, i);
      assert WebhookLaws.PlanRespecting(cfg, c, effects[i]);
    }
  }

  lemma {:induction false} FundRunKeys(cfg: Webhook.Config, b: Webhook.Billing, h: seq<Webhook.Delivery>, tenant: string, clocks: nat -> Clock)
    requires b.ledger == []
    ensures Inv(FundRun(cfg, b, h, tenant, clocks))
    ensures forall m, start :: HasGrant(FundRun(cfg, b, h, tenant, clocks), m, start) <==>
              OfTenant(b, m, tenant) && start in WebhookLaws.GrantedStarts(cfg, b, h, m)
  {
    if h != [] {
      var n := |h| - 1;
      FundRunKeys(cfg, b, h[..n], tenant, clocks);
      WebhookLaws.RunKeepsPriced(cfg, b, h[..n]);
      var c := Webhook.Run(cfg, b, h[..n]);
      DeliveriesGrantWell(cfg, b, c, h[n]);
      FundKeys(b, FundRun(cfg, b, h[..n], tenant, clocks), Webhook.Performed(cfg, c, h[n]), tenant, clocks(n));
    }
  }

  /**
   Over every run of deliveries from an empty ledger, the credit account of a tenant records a key if and
   only if the run's ledger holds that allocation for one of the tenant's subscriptions.
   */
  lemma LedgersAgree(cfg: Webhook.Config, b: Webhook.Billing, h: seq<Webhook.Delivery>, tenant: string, clocks: nat -> Clock, m: string, start: int)
    requires b.ledger == []
    ensures HasGrant(FundRun(cfg, b, h, tenant, clocks), m, start) <==>
            OfTenant(b, m, tenant) && Webhook.HasKey(Webhook.Run(cfg, b, h).ledger, Webhook.Allocation(m, start, 0))
  {
    FundRunKeys(cfg, b, h, tenant, clocks);
    WebhookLaws.RunKeepsPriced(cfg, b, h);
    KeyIsStart(Webhook.Run(cfg, b, h).ledger, m, start);
    assert WebhookLaws.Starts(b.ledger, m) == {};
  }

  lemma KeyIsStart(ledger: seq<Webhook.Allocation>, m: string, start: int)
    ensures Webhook.HasKey(ledger, Webhook.Allocation(m, start, 0)) <==> start in WebhookLaws.Starts(ledger, m)
  {
  }
}
