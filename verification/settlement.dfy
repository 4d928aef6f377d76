/** Accounting facts of one request, and what they mean after any run of updates. */
module Settlement {
  import opened Wrappers

  type Time = int

  datatype Basis = GatewayPricing | ReservedEstimate | FallbackPricing | ProviderReported | KnownAndUnknown
  datatype Reason = PricingUnavailable | ProviderUsageMissing | AwaitingUsage | StreamCancelled
  datatype Status = Reserved | Pending | Settled | Unconfirmed | BackendFailed | CancelPending | Released | CancelUnconfirmed

  datatype Scope = Provider | Model | Key

  // The hold on one budget scope.
  datatype Account = Account(reserved: Option<real>, charge: Option<real>, status: Option<Status>)

  datatype Billing = Billing(accounts: map<Scope, Account>, reservedAt: Option<Time>, updatedAt: Option<Time>,
                             reason: Option<Reason>, awaitingSince: Option<Time>, basis: Option<Basis>,
                             subtotal: Option<real>, unknown: Option<nat>, pending: Option<nat>)

  const NO_ACCOUNT := Account(None, None, None)
  const NO_BILLING := Billing(map[], None, None, None, None, None, None, None, None)

  datatype Call = Call(provider: string, model: string, prompt: Option<int>, completion: Option<int>,
                       total: Option<int>, cost: Option<real>)

  datatype Facts = Facts(model: Option<string>, provider: Option<string>, deployment: Option<string>,
                         prompt: Option<int>, completion: Option<int>, total: Option<int>,
                         cost: Option<real>, billing: Option<Billing>)
  {
    function Current(): Billing {
      if billing.Some? then billing.value else NO_BILLING
    }

    function On(s: Scope): Account {
      AccountIn(Current(), s)
    }
  }

  function AccountAt(accounts: map<Scope, Account>, s: Scope): Account {
    if s in accounts then accounts[s] else NO_ACCOUNT
  }

  function AccountIn(b: Billing, s: Scope): Account {
    AccountAt(b.accounts, s)
  }

  const NO_FACTS := Facts(None, None, None, None, None, None, None, None)

  function Or<T>(a: Option<T>, b: Option<T>): Option<T> {
    if a.Some? then a else b
  }

  // ---- settlement of one call ----

  function SettleBilling(b: Billing, c: Call, now: Time): Billing {
    if c.cost.Some? then b.(basis := Some(GatewayPricing), reason := None, awaitingSince := None)
    else
      var b' := b.(awaitingSince := Or(b.awaitingSince, Some(now)));
      if b.basis == Some(FallbackPricing) then b'
      else
        b'.(basis := Some(ReservedEstimate),
        reason := Some(if c.prompt.Some? then PricingUnavailable else ProviderUsageMissing))
  }

  function Settle(f: Facts, c: Call, now: Time): Facts {
    Facts(Some(c.model), Some(c.provider), Or(f.deployment, Some(c.provider)),
          Or(c.prompt, f.prompt), Or(c.completion, f.completion), Or(c.total, f.total),
          Or(c.cost, f.cost), Some(SettleBilling(f.Current(), c, now)))
  }

  function MarkReported(f: Facts): Facts {
    if f.billing.Some? then f.(billing := Some(f.billing.value.(basis := Some(ProviderReported)))) else f
  }

  // ---- responses of a Realtime session ----

  const I64_MIN := -0x8000_0000_0000_0000
  const I64_MAX := 0x7FFF_FFFF_FFFF_FFFF

  function SaturatingAdd(a: int, b: int): int {
    if a + b > I64_MAX then I64_MAX else if a + b < I64_MIN then I64_MIN else a + b
  }

  function CountOf(n: Option<nat>): nat {
    if n.Some? then n.value else 0
  }

  function AddAmount(total: Option<real>, amount: Option<real>): Option<real> {
    if amount.None? then total else Some((if total.Some? then total.value else 0.0) + amount.value)
  }

  function StartAccount(a: Account, r: Account): Account {
    Account(AddAmount(a.reserved, r.reserved), a.charge,
            if r.reserved.Some? && a.status != Some(Unconfirmed) then Some(Pending) else a.status)
  }

  function FinishAccount(a: Account, r: Account): Account {
    Account(a.reserved, AddAmount(a.charge, r.charge),
            if r.status.None? then a.status
            else if a.status == Some(Unconfirmed) || r.status != Some(Settled) then Some(Unconfirmed)
            else Some(Settled))
  }

  function StartAccounts(accounts: map<Scope, Account>, r: Facts): map<Scope, Account> {
    map s: Scope | s in ALL_SCOPES :: StartAccount(AccountAt(accounts, s), r.On(s))
  }

  function FinishAccounts(accounts: map<Scope, Account>, r: Facts): map<Scope, Account> {
    map s: Scope | s in ALL_SCOPES :: FinishAccount(AccountAt(accounts, s), r.On(s))
  }

  function StartBilling(b: Billing, r: Facts, now: Time): Billing {
    Billing(StartAccounts(b.accounts, r), Or(r.Current().reservedAt, b.reservedAt), b.updatedAt,
            if CountOf(b.unknown) == 0 then Some(AwaitingUsage) else b.reason,
            Or(b.awaitingSince, Some(now)), b.basis,
            Or(b.subtotal, Some(0.0)), Or(b.unknown, Some(0)), Some(CountOf(b.pending) + 1))
  }

  // The session takes over the names of the response, and its cost is open again.
  function Start(f: Facts, r: Facts, now: Time): Facts {
    f.(provider := r.provider, model := r.model, deployment := r.deployment, cost := None,
       billing := Some(StartBilling(f.Current(), r, now)))
  }

  function FinishBilling(b: Billing, r: Facts, now: Time): Billing {
    var pending := if CountOf(b.pending) == 0 then 0 else CountOf(b.pending) - 1;
    var unknown := if r.cost.Some? then b.unknown else Some(CountOf(b.unknown) + 1);
    var allKnown := CountOf(unknown) == 0 && pending == 0;
    Billing(FinishAccounts(b.accounts, r), b.reservedAt, Some(now),
            if allKnown then None
            else if r.cost.None? && CountOf(b.unknown) == 0 then Or(r.Current().reason, Some(ProviderUsageMissing))
            else b.reason,
            if allKnown then None else if r.cost.None? then Or(b.awaitingSince, Some(now)) else b.awaitingSince,
            Some(if allKnown then GatewayPricing else KnownAndUnknown),
            AddAmount(b.subtotal, r.cost), unknown, Some(pending))
  }

  // The session's cost is known once every response is finished with a known cost.
  function Finish(f: Facts, r: Facts, now: Time): Facts {
    var b := FinishBilling(f.Current(), r, now);
    f.(total := if r.total.Some? then Some(SaturatingAdd(if f.total.Some? then f.total.value else 0, r.total.value)) else f.total,
       cost := if b.basis == Some(GatewayPricing) then b.subtotal else None,
       billing := Some(b))
  }

  const ALL_SCOPES: set<Scope> := {Provider, Model, Key}

  // ---- runs ----

  // Everything that updates the facts of a request; each entry happens under the lock. Await marks
  // a settlement or a cancellation as pending; an outcome is acknowledged, with the status
  // Settled, or it failed. The facts of a Realtime session also start and finish responses, each
  // given by its own facts.
  datatype Op =
    | Settlement(call: Call, now: Time)
    | MarkedReported
    | Named(provider: string, model: string)
    | Holds(providerHold: Option<real>, modelHold: Option<real>, now: Time)
    | KeyHold(amount: real, now: Time)
    | FallbackCharge(now: Time)
    | EstimatedCharge(reason: Reason, now: Time)
    | Await(scope: Scope, reserved: Option<real>, status: Status, now: Time)
    | Outcome(scope: Scope, reserved: Option<real>, amount: real, status: Status, now: Time)
    | Cancellation(scope: Scope, confirmed: bool, now: Time)
    | Started(response: Facts, now: Time)
    | Finished(response: Facts, now: Time)

  function Put(b: Billing, s: Scope, a: Account): Billing {
    b.(accounts := b.accounts[s := a])
  }

  function Open(b: Billing, now: Time): Billing {
    b.(awaitingSince := Or(b.awaitingSince, Some(now)))
  }

  function Hold(b: Billing, s: Scope, amount: Option<real>): Billing {
    if amount.None? then b
    else
      Put(b, s, AccountIn(b, s).(reserved := amount, status := Some(Reserved)))
  }

  // The entries that are closures over the billing.
  predicate IsEdit(op: Op) {
    && !op.Settlement? && !op.MarkedReported? && !op.Named? && !op.Started? && !op.Finished?
    && (op.Holds? ==> op.providerHold.Some? || op.modelHold.Some?)
  }

  function Edit(b: Billing, op: Op): Billing
    requires IsEdit(op)
  {
    match op
    case Holds(providerHold, modelHold, now) =>
      var held := Hold(Hold(b, Provider, providerHold), Model, modelHold);
      Open(held, now).(reservedAt := Some(now), reason := Some(AwaitingUsage))
    case KeyHold(amount, now) =>
      Open(Hold(b, Key, Some(amount)), now).(reservedAt := Or(b.reservedAt, Some(now)))
    case FallbackCharge(now) => Open(b, now).(basis := Some(FallbackPricing), reason := Some(PricingUnavailable))
    case EstimatedCharge(reason, now) => Open(b, now).(basis := Some(ReservedEstimate), reason := Some(reason))
    case Await(s, reserved, status, now) =>
      var a := AccountIn(b, s);
      Put(b, s, a.(reserved := Or(a.reserved, reserved), status := Some(status))).(updatedAt := Some(now))
    case Outcome(s, reserved, amount, status, now) =>
      var a := AccountIn(b, s);
      Put(b, s, Account(Or(a.reserved, reserved), if status == Settled then Some(amount) else a.charge,
                        Some(status))).(updatedAt := Some(now))
    case Cancellation(s, confirmed, now) =>
      var a := AccountIn(b, s);
      Put(b, s, a.(charge := if confirmed then Some(0.0) else a.charge,
                   status := Some(if confirmed then Released else CancelUnconfirmed))).(updatedAt := Some(now))
    case _ => b
  }

  function Apply(f: Facts, op: Op): Facts {
    match op
    case Settlement(call, now) => Settle(f, call, now)
    case MarkedReported => MarkReported(f)
    case Named(provider, model) =>
      f.(provider := Some(provider), model := Some(model), deployment := Or(f.deployment, Some(provider)))
    case Started(response, now) => Start(f, response, now)
    case Finished(response, now) => Finish(f, response, now)
    case _ => if IsEdit(op) then f.(billing := Some(Edit(f.Current(), op))) else f
  }

  function After(ops: seq<Op>): Facts {
    if ops == [] then NO_FACTS else Apply(After(ops[..|ops| - 1]), ops[|ops| - 1])
  }

  // The entries explain the facts.
  ghost predicate Explained(ops: seq<Op>, f: Facts) {
    After(ops) == f
  }

  lemma OneMoreEntry(ops: seq<Op>, op: Op)
    ensures After(ops + [op]) == Apply(After(ops), op)
  {
    assert (ops + [op])[..|ops|] == ops;
  }

  // Whatever run explains the facts before, with these entries it explains the facts after.
  ghost predicate Continues(f: Facts, more: seq<Op>, f': Facts) {
    forall ops | Explained(ops, f) :: Explained(ops + more, f')
  }

  lemma OneEntryContinues(f: Facts, op: Op)
    ensures Continues(f, [op], Apply(f, op))
  {
    forall ops | Explained(ops, f) ensures Explained(ops + [op], Apply(f, op)) {
      OneMoreEntry(ops, op);
    }
  }

  lemma ContinuationsCompose(f: Facts, a: Op, f': Facts, b: Op, f'': Facts)
    requires Continues(f, [a], f') && Continues(f', [b], f'')
    ensures Continues(f, [a, b], f'')
  {
    forall ops | Explained(ops, f) ensures Explained(ops + [a, b], f'') {
      var first := ops + [a];
      assert Explained(first, f');
      assert first + [b] == ops + [a, b];
    }
  }

  /** The facts handle of one request. */
  class RequestLedgerFacts {
    var model: Option<string>
    var provider: Option<string>
    var deployment: Option<string>
    var prompt: Option<int>
    var completion: Option<int>
    var total: Option<int>
    var cost: Option<real>
    var billing: Option<Billing>

    // The handle's contents, as a snapshot takes them.
    function Snapshot(): Facts
      reads this
    {
      Facts(model, provider, deployment, prompt, completion, total, cost, billing)
    }

    constructor ()
      ensures Explained([], Snapshot())
    {
      model, provider, deployment, prompt, completion, total, cost, billing := None, None, None, None, None, None, None, None;
    }

    method RecordSettlement(c: Call, now: Time)
      modifies this
      ensures Continues(old(Snapshot()), [Settlement(c, now)], Snapshot())
      ensures Snapshot() == Settle(old(Snapshot()), c, now)
    {
      provider := Some(c.provider);
      model := Some(c.model);
      if deployment.None? {
        deployment := Some(c.provider);
      }
      if c.prompt.Some? {
        prompt := c.prompt;
      }
      if c.completion.Some? {
        completion := c.completion;
      }
      if c.total.Some? {
        total := c.total;
      }
      var b := if billing.Some? then billing.value else NO_BILLING;
      if c.cost.Some? {
        cost := c.cost;
        b := b.(basis := Some(GatewayPricing));
        b := b.(reason := None);
        b := b.(awaitingSince := None);
      } else if b.basis != Some(FallbackPricing) {
        b := b.(basis := Some(ReservedEstimate));
        b := b.(reason := Some(if c.prompt.Some? then PricingUnavailable else ProviderUsageMissing));
      }
      if c.cost.None? && b.awaitingSince.None? {
        b := b.(awaitingSince := Some(now));
      }
      billing := Some(b);
      OneEntryContinues(old(Snapshot()), Settlement(c, now));
    }

    // The update is the closure that a caller passes in. When it edits the billing as an entry
    // does, the call continues the run by that entry.
    method UpdateBilling(update: Billing -> Billing)
      modifies `billing
      ensures billing == Some(update(old(Snapshot()).Current()))
      ensures forall op | IsEdit(op) && update(old(Snapshot()).Current()) == Edit(old(Snapshot()).Current(), op) ::
                Continues(old(Snapshot()), [op], Snapshot())
    {
      var b := if billing.Some? then billing.value else NO_BILLING;
      billing := Some(update(b));
      ghost var f := old(Snapshot());
      forall op | IsEdit(op) && update(f.Current()) == Edit(f.Current(), op) ensures Continues(f, [op], Snapshot()) {
        OneEntryContinues(f, op);
      }
    }

    /** Without a billing there is no charge to mark. Otherwise the basis says from now on who
        reported the charge, and the call continues the run by that entry. */
    method MarkProviderReportedCharge()
      modifies `billing
      ensures billing.Some? <==> old(billing).Some?
      ensures billing.Some? ==> Snapshot().Current().basis == Some(ProviderReported)
      ensures Continues(old(Snapshot()), [MarkedReported], Snapshot())
    {
      if billing.Some? {
        billing := Some(billing.value.(basis := Some(ProviderReported)));
      }
      OneEntryContinues(old(Snapshot()), MarkedReported);
    }

    /** A reservation names provider and model, and then, if a budget tracks it, records the
        holds: two entries, since the lock is released in between. */
    method RecordReservation(provider: string, model: string, providerHold: Option<real>, modelHold: Option<real>, now: Time)
      modifies this
      ensures Continues(old(Snapshot()), [Named(provider, model), Holds(providerHold, modelHold, now)], Snapshot())
    {
      this.provider := Some(provider);
      this.model := Some(model);
      if deployment.None? {
        deployment := Some(provider);
      }
      ghost var f, named := old(Snapshot()), Snapshot();
      var holds := Holds(providerHold, modelHold, now);
      OneEntryContinues(f, Named(provider, model));
      OneEntryContinues(named, holds);
      if providerHold.Some? || modelHold.Some? {
        UpdateBilling(b => Edit(b, holds));
      }
      ContinuationsCompose(f, Named(provider, model), named, holds, Snapshot());
    }

    // A session takes on one more response.
    method StartResponse(response: Facts, now: Time)
      modifies this
      ensures Continues(old(Snapshot()), [Started(response, now)], Snapshot())
    {
      provider := response.provider;
      model := response.model;
      deployment := response.deployment;
      var b := StartedBilling(if billing.Some? then billing.value else NO_BILLING, response, now);
      billing := Some(b);
      cost := None;
      OneEntryContinues(old(Snapshot()), Started(response, now));
    }

    // A response of the session is over.
    method FinishResponse(response: Facts, now: Time)
      modifies this
      ensures Continues(old(Snapshot()), [Finished(response, now)], Snapshot())
    {
      if response.total.Some? {
        total := Some(SaturatingAdd(if total.Some? then total.value else 0, response.total.value));
      }
      var b := FinishedBilling(if billing.Some? then billing.value else NO_BILLING, response, now);
      billing := Some(b);
      var allKnown := CountOf(b.unknown) == 0 && CountOf(b.pending) == 0;
      cost := if allKnown then b.subtotal else None;
      OneEntryContinues(old(Snapshot()), Finished(response, now));
    }
  }

  method StartedBilling(billing: Billing, response: Facts, now: Time) returns (b: Billing)
    ensures b == StartBilling(billing, response, now)
  {
    b := billing;
    if b.subtotal.None? {
      b := b.(subtotal := Some(0.0));
    }
    if b.unknown.None? {
      b := b.(unknown := Some(0));
    }
    b := b.(pending := Some(CountOf(b.pending) + 1));
    if b.unknown == Some(0) {
      b := b.(reason := Some(AwaitingUsage));
    }
    if b.awaitingSince.None? {
      b := b.(awaitingSince := Some(now));
    }
    b := b.(accounts := StartAccounts(b.accounts, response));
    if response.Current().reservedAt.Some? {
      b := b.(reservedAt := response.Current().reservedAt);
    }
  }

  method FinishedBilling(billing: Billing, response: Facts, now: Time) returns (b: Billing)
    ensures b == FinishBilling(billing, response, now)
  {
    b := billing;
    b := b.(pending := Some(if CountOf(b.pending) == 0 then 0 else CountOf(b.pending) - 1));
    if response.cost.Some? {
      b := b.(subtotal := AddAmount(b.subtotal, response.cost));
    } else {
      if CountOf(b.unknown) == 0 {
        b := b.(reason := Or(response.Current().reason, Some(ProviderUsageMissing)));
      }
      b := b.(unknown := Some(CountOf(b.unknown) + 1));
      if b.awaitingSince.None? {
        b := b.(awaitingSince := Some(now));
      }
    }
    b := b.(accounts := FinishAccounts(b.accounts, response), updatedAt := Some(now));
    if CountOf(b.unknown) == 0 && CountOf(b.pending) == 0 {
      b := b.(reason := None);
      b := b.(awaitingSince := None);
      b := b.(basis := Some(GatewayPricing));
    } else {
      b := b.(basis := Some(KnownAndUnknown));
    }
  }
}
