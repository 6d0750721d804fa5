/**
 Recovery credits of one tenant: a wallet, an append-only ledger and holds around executions.
 */
module Credits {
  import opened Prelude

  /** `granted` is the allowance allocated for the current period. */
  datatype Wallet = Wallet(granted: int, consumed: int, reserved: int, periodEnd: real, enforced: bool) {
    function Available(): int { granted - consumed - reserved }
  }

  /** Idempotency keys; the prefixes of the key strings keep the families apart. */
  datatype Key =
    | GrantKey(id: string)        // alloc:... and adjust:..., chosen by the caller
    | ReserveKey(hold: nat)
    | ReleaseKey(hold: nat)
    | ConsumeKey(plan: string)
    | ExpireKey(periodEnd: real)

  datatype Entry = Entry(key: Key, delta: int, balanceAfter: int)

  datatype HoldStatus = Held | Consumed | Released | Expired

  datatype Hold = Hold(plan: string, status: HoldStatus, expiresAt: real)

  /** Holds are numbered in the order in which they were placed. */
  datatype Account = Account(wallet: Option<Wallet>, ledger: seq<Entry>, holds: seq<Hold>)

  /** The two clock readings of an operation that sweeps: its own, and the one that the sweep takes. */
  datatype Clock = Clock(now: real, swept: real)

  predicate HasKey(ledger: seq<Entry>, key: Key) {
    exists i :: 0 <= i < |ledger| && ledger[i].key == key
  }

  /** Saves the wallet and appends an entry that records the resulting balance. */
  function Post(a: Account, w: Wallet, key: Key, delta: int): Account {
    a.(wallet := Some(w), ledger := a.ledger + [Entry(key, delta, w.Available())])
  }

  function Lowered(n: int): int { if n >= 1 then n - 1 else 0 }

  // ------------------------------------------------------------------ settling

  function Release(a: Account, w: Wallet, i: nat, status: HoldStatus): Account
    requires i < |a.holds|
  {
    Post(a.(holds := a.holds[i := a.holds[i].(status := status)]), w.(reserved := Lowered(w.reserved)), ReleaseKey(i), 1)
  }

  function Consume(a: Account, w: Wallet, i: nat): Account
    requires i < |a.holds|
  {
    Post(a.(holds := a.holds[i := a.holds[i].(status := Consumed)]),
         w.(consumed := w.consumed + 1, reserved := Lowered(w.reserved)), ConsumeKey(a.holds[i].plan), 0)
  }

  /** Releases the expired holds numbered below `n`. */
  function Sweep(a: Account, now: real, n: nat): (r: Account)
    requires n <= |a.holds|
    ensures |r.holds| == |a.holds| && (r.wallet.Some? <==> a.wallet.Some?)
  {
    if n == 0 then a
    else
      var b := Sweep(a, now, n - 1);
      var i := n - 1;
      if b.wallet.Some? && b.holds[i].status == Held && b.holds[i].expiresAt < now && !HasKey(b.ledger, ReleaseKey(i))
      then Release(b, b.wallet.value, i, Expired)
      else b
  }

  function SweepAll(a: Account, now: real): Account {
    Sweep(a, now, |a.holds|)
  }

  // ---------------------------------------------------------------- operations

  /** `_expire_remaining_locked`: nothing to reset in an empty wallet. */
  predicate NothingToReset(w: Wallet) {
    w.Available() <= 0 && w.consumed == 0 && w.granted == 0
  }

  function ResetWallet(w: Wallet): Wallet {
    if NothingToReset(w) then w else w.(granted := 0, consumed := 0)
  }

  /** The reset as `allocate` and `expire_remaining` record it: the unused remainder goes into the
      ledger unless there is none or the period's key is already there. */
  function Reset(a: Account, w: Wallet): Account {
    if w.Available() <= 0 || HasKey(a.ledger, ExpireKey(w.periodEnd)) then a.(wallet := Some(ResetWallet(w)))
    else Post(a, ResetWallet(w), ExpireKey(w.periodEnd), -w.Available())
  }

  /** The period roll-over of `allocate`: the wallet's period has ended or the new one starts later. */
  function Renew(a: Account, start: real, now: real): (r: Account)
    requires a.wallet.Some?
    ensures r.wallet.Some?
  {
    var w := a.wallet.value;
    if start >= w.periodEnd || w.periodEnd <= now then Reset(a, w) else a
  }

  /** The new allowance and its entry. */
  function Credited(c: Account, amount: int, end: real, id: string): Account
    requires c.wallet.Some?
  {
    var v := c.wallet.value;
    Post(c, v.(granted := v.granted + amount, periodEnd := end, enforced := true), GrantKey(id), amount)
  }

  function Allocate(a: Account, amount: int, start: real, end: real, id: string, t: Clock): Account {
    if amount <= 0 || HasKey(a.ledger, GrantKey(id)) then a
    else if a.wallet.None? then Post(a, Wallet(amount, 0, 0, end, true), GrantKey(id), amount)
    else Credited(Renew(SweepAll(a, t.swept), start, t.now), amount, end, id)
  }

  predicate WasConsumed(a: Account, plan: string) { HasKey(a.ledger, ConsumeKey(plan)) }

  predicate HasHeld(holds: seq<Hold>, plan: string) {
    exists i :: 0 <= i < |holds| && holds[i].status == Held && holds[i].plan == plan
  }

  function Place(a: Account, plan: string, expiresAt: real): Account
    requires a.wallet.Some?
  {
    var w := a.wallet.value;
    Post(a.(holds := a.holds + [Hold(plan, Held, expiresAt)]), w.(reserved := w.reserved + 1), ReserveKey(|a.holds|), -1)
  }

  function PlaceIfAvailable(b: Account, plan: string, expiresAt: real): Account
    requires b.wallet.Some?
  {
    if b.wallet.value.Available() < 1 then b else Place(b, plan, expiresAt)
  }

  /** `reserve_for_execution`: places a hold only if the plan has none, was never billed, and a credit is available. */
  function Reserve(a: Account, plan: string, t: Clock, ttl: real): Account {
    if a.wallet.None? || !a.wallet.value.enforced || WasConsumed(a, plan) || HasHeld(a.holds, plan) then a
    else PlaceIfAvailable(SweepAll(a, t.swept), plan, t.now + ttl)
  }

  function Finalize(a: Account, i: nat, billable: bool): Account {
    if a.wallet.None? || i >= |a.holds| || a.holds[i].status != Held then a
    else if billable && !WasConsumed(a, a.holds[i].plan) then Consume(a, a.wallet.value, i)
    else Release(a, a.wallet.value, i, Released)
  }

  function ExpireAvailable(b: Account): Account
    requires b.wallet.Some?
  {
    if b.wallet.value.Available() <= 0 then b else Reset(b, b.wallet.value)
  }

  /** `expire_remaining` keeps the wallet as it is when nothing is left to expire. */
  function ExpireRemaining(a: Account, now: real): Account {
    if a.wallet.None? then a else ExpireAvailable(SweepAll(a, now))
  }

  function Deactivate(a: Account, now: real): Account {
    var b := ExpireRemaining(a, now);
    if b.wallet.None? then b else b.(wallet := Some(b.wallet.value.(enforced := false)))
  }

  function Upgrade(a: Account, credits: int, id: string): Account {
    if credits <= 0 || HasKey(a.ledger, GrantKey(id)) || a.wallet.None? || !a.wallet.value.enforced
       || credits <= a.wallet.value.granted then a
    else Post(a, a.wallet.value.(granted := credits), GrantKey(id), credits - a.wallet.value.granted)
  }

  function Attach(a: Account, now: real): Account {
    if a.wallet.None? then a.(wallet := Some(Wallet(0, 0, 0, now, false))) else a
  }

  datatype Op =
    | DoAllocate(amount: int, start: real, end: real, id: string, t: Clock)
    | DoReserve(plan: string, t: Clock, ttl: real)
    | DoFinalize(hold: nat, billable: bool)
    | DoExpire(now: real)
    | DoDeactivate(now: real)
    | DoUpgrade(credits: int, id: string)
    | DoAttach(now: real)

  function Do(a: Account, op: Op): Account {
    match op
    case DoAllocate(amount, start, end, id, t) => Allocate(a, amount, start, end, id, t)
    case DoReserve(plan, t, ttl) => Reserve(a, plan, t, ttl)
    case DoFinalize(i, billable) => Finalize(a, i, billable)
    case DoExpire(now) => ExpireRemaining(a, now)
    case DoDeactivate(now) => Deactivate(a, now)
    case DoUpgrade(credits, id) => Upgrade(a, credits, id)
    case DoAttach(now) => Attach(a, now)
  }

  const NEW_TENANT := Account(None, [], [])

  function Run(ops: seq<Op>): Account {
    if ops == [] then NEW_TENANT else Do(Run(ops[..|ops| - 1]), ops[|ops| - 1])
  }
}
