/** The facts of a request after any run of entries: values, and waiting for the supplier. */
module SettlementRuns {
  import opened Wrappers
  import opened Settlement

  // ---- last and first known values ----

  ghost predicate IsLast<T(!new)>(xs: seq<Option<T>>, r: Option<T>) {
    if r.None? then forall k | 0 <= k < |xs| :: xs[k].None?
    else exists k | 0 <= k < |xs| :: xs[k] == r && forall j | k < j < |xs| :: xs[j].None?
  }

  ghost predicate IsFirst<T(!new)>(xs: seq<Option<T>>, r: Option<T>) {
    if r.None? then forall k | 0 <= k < |xs| :: xs[k].None?
    else exists k | 0 <= k < |xs| :: xs[k] == r && forall j | 0 <= j < k :: xs[j].None?
  }

  lemma LastOfMore<T(!new)>(xs: seq<Option<T>>, r: Option<T>, x: Option<T>)
    requires IsLast(xs, r)
    ensures IsLast(xs + [x], Or(x, r))
  {
    var more := xs + [x];
    assert more[|xs|] == x;
    if x.None? && r.Some? {
      var k :| 0 <= k < |xs| && xs[k] == r && forall j | k < j < |xs| :: xs[j].None?;
      assert more[k] == r;
    }
  }

  lemma FirstOfMore<T(!new)>(xs: seq<Option<T>>, r: Option<T>, x: Option<T>)
    requires IsFirst(xs, r)
    ensures IsFirst(xs + [x], Or(r, x))
  {
    var more := xs + [x];
    assert more[|xs|] == x;
    if r.Some? {
      var k :| 0 <= k < |xs| && xs[k] == r && forall j | 0 <= j < k :: xs[j].None?;
      assert more[k] == r;
    }
  }

  lemma FirstIsKnown<T(!new)>(xs: seq<Option<T>>, r: Option<T>)
    requires IsFirst(xs, r) && |xs| > 0 && xs[0].Some?
    ensures r == xs[0]
  {
  }

  function Map<T>(ops: seq<Op>, f: Op -> Option<T>): (xs: seq<Option<T>>)
    ensures |xs| == |ops| && forall k | 0 <= k < |ops| :: xs[k] == f(ops[k])
  {
    seq(|ops|, k requires 0 <= k < |ops| => f(ops[k]))
  }

  // What each entry sets, given the entries before it.
  ghost function Sets<T>(ops: seq<Op>, of: (seq<Op>, Op) -> Option<T>): (xs: seq<Option<T>>)
    ensures |xs| == |ops| && forall k | 0 <= k < |ops| :: xs[k] == of(ops[..k], ops[k])
  {
    seq(|ops|, k requires 0 <= k < |ops| => of(ops[..k], ops[k]))
  }

  lemma SetsOfMore<T(!new)>(ops: seq<Op>, op: Op, of: (seq<Op>, Op) -> Option<T>, r: Option<T>)
    requires IsLast(Sets(ops, of), r)
    ensures IsLast(Sets(ops + [op], of), Or(of(ops, op), r))
  {
    var all := ops + [op];
    forall k | 0 <= k < |all| ensures Sets(all, of)[k] == (Sets(ops, of) + [of(ops, op)])[k] {
      assert all[..k] == ops[..k];
    }
    assert Sets(all, of) == Sets(ops, of) + [of(ops, op)];
    LastOfMore(Sets(ops, of), r, of(ops, op));
  }

  // Some entry does this, and no later one ends it.
  ghost predicate Stands(ops: seq<Op>, does: (seq<Op>, Op) -> bool, ends: (seq<Op>, Op) -> bool) {
    exists k | 0 <= k < |ops| :: StandsFrom(ops, k, does, ends)
  }

  ghost predicate StandsFrom(ops: seq<Op>, k: nat, does: (seq<Op>, Op) -> bool, ends: (seq<Op>, Op) -> bool)
    requires k < |ops|
  {
    does(ops[..k], ops[k]) && forall j | k < j < |ops| :: !ends(ops[..j], ops[j])
  }

  lemma StandsOfMore(ops: seq<Op>, op: Op, does: (seq<Op>, Op) -> bool, ends: (seq<Op>, Op) -> bool)
    ensures Stands(ops + [op], does, ends) <==> does(ops, op) || (Stands(ops, does, ends) && !ends(ops, op))
  {
    var all := ops + [op];
    assert all[|ops|] == op && all[..|ops|] == ops;
    forall k | 0 <= k < |ops| ensures StandsFrom(all, k, does, ends) <==> StandsFrom(ops, k, does, ends) && !ends(ops, op) {
      SameBefore(ops, op, k, does, ends);
    }
    assert StandsFrom(all, |ops|, does, ends) <==> does(ops, op);
  }

  lemma SameBefore(ops: seq<Op>, op: Op, k: nat, does: (seq<Op>, Op) -> bool, ends: (seq<Op>, Op) -> bool)
    requires k < |ops|
    ensures StandsFrom(ops + [op], k, does, ends) <==> StandsFrom(ops, k, does, ends) && !ends(ops, op)
  {
    var all := ops + [op];
    assert all[|ops|] == op && all[..|ops|] == ops;
    assert forall j | 0 <= j < |ops| :: all[j] == ops[j] && all[..j] == ops[..j];
  }

  // ---- the responses of a session ----

  // Finished responses without a known cost.
  function Unknown(ops: seq<Op>): nat {
    if ops == [] then 0
    else
      var op := ops[|ops| - 1];
      Unknown(ops[..|ops| - 1]) + if op.Finished? && op.response.cost.None? then 1 else 0
  }

  // Responses started and not finished; a finish without a start counts for nothing.
  function Outstanding(ops: seq<Op>): nat {
    if ops == [] then 0
    else
      var n, op := Outstanding(ops[..|ops| - 1]), ops[|ops| - 1];
      if op.Started? then n + 1 else if op.Finished? && n > 0 then n - 1 else n
  }

  // The known costs of the finished responses.
  function Subtotal(ops: seq<Op>): real {
    if ops == [] then 0.0
    else
      var op := ops[|ops| - 1];
      Subtotal(ops[..|ops| - 1]) + if op.Finished? && op.response.cost.Some? then op.response.cost.value else 0.0
  }

  predicate AllKnown(ops: seq<Op>) {
    Unknown(ops) == 0 && Outstanding(ops) == 0
  }

  lemma CountsOfMore(ops: seq<Op>, op: Op)
    ensures Unknown(ops + [op]) == Unknown(ops) + if op.Finished? && op.response.cost.None? then 1 else 0
    ensures Outstanding(ops + [op]) ==
            if op.Started? then Outstanding(ops) + 1
            else if op.Finished? && Outstanding(ops) > 0 then Outstanding(ops) - 1
            else Outstanding(ops)
    ensures Subtotal(ops + [op])
            == Subtotal(ops) + if op.Finished? && op.response.cost.Some? then op.response.cost.value else 0.0
  {
    assert (ops + [op])[..|ops|] == ops;
  }

  ghost predicate Counts(ops: seq<Op>, b: Billing) {
    && CountOf(b.unknown) == Unknown(ops) && CountOf(b.pending) == Outstanding(ops)
    && AddAmount(b.subtotal, Some(0.0)) == Some(Subtotal(ops))
    && (b.subtotal.None? ==> forall op | op in ops :: op.Finished? ==> op.response.cost.None?)
  }

  lemma CountsAfterOne(ops: seq<Op>, op: Op, f: Facts)
    requires Counts(ops, f.Current())
    ensures Counts(ops + [op], Apply(f, op).Current())
  {
    CountsOfMore(ops, op);
    if !op.Started? && !op.Finished? {
      OthersKeepCounters(f, op);
    }
    assert forall o :: o in ops + [op] <==> o in ops || o == op;
  }

  lemma OthersKeepCounters(f: Facts, op: Op)
    requires !op.Started? && !op.Finished?
    ensures var b, b' := f.Current(), Apply(f, op).Current();
            b'.subtotal == b.subtotal && b'.unknown == b.unknown && b'.pending == b.pending
  {
  }

  /** The counters of the session are what its entries say. */
  lemma {:induction false} CountsAfterRun(ops: seq<Op>)
    ensures Counts(ops, After(ops).Current())
  {
    if ops != [] {
      var before, op := ops[..|ops| - 1], ops[|ops| - 1];
      CountsAfterRun(before);
      assert ops == before + [op];
      CountsAfterOne(before, op, After(before));
    }
  }

  function Starts(ops: seq<Op>): nat {
    if ops == [] then 0 else Starts(ops[..|ops| - 1]) + if ops[|ops| - 1].Started? then 1 else 0
  }

  function Finishes(ops: seq<Op>): nat {
    if ops == [] then 0 else Finishes(ops[..|ops| - 1]) + if ops[|ops| - 1].Finished? then 1 else 0
  }

  /** When no response finishes that has not started, the outstanding ones are the difference. */
  lemma {:induction false} OutstandingIsTheDifference(ops: seq<Op>)
    requires forall k | 0 <= k <= |ops| :: Finishes(ops[..k]) <= Starts(ops[..k])
    ensures Outstanding(ops) == Starts(ops) - Finishes(ops)
  {
    if ops != [] {
      var before := ops[..|ops| - 1];
      forall k | 0 <= k <= |before| ensures Finishes(before[..k]) <= Starts(before[..k]) {
        assert before[..k] == ops[..k];
      }
      OutstandingIsTheDifference(before);
      assert ops[..|ops|] == ops;
    }
  }

  // ---- values ----

  // An optional value is the one last set, or none if none was ever set.
  ghost predicate IsLastSet<T(!new)>(xs: seq<Option<Option<T>>>, v: Option<T>) {
    IsLast(xs, Some(v)) || (IsLast(xs, None) && v == None)
  }

  lemma LastSetOfMore<T(!new)>(ops: seq<Op>, op: Op, of: (seq<Op>, Op) -> Option<Option<T>>, v: Option<T>)
    requires IsLastSet(Sets(ops, of), v)
    ensures IsLastSet(Sets(ops + [op], of), if of(ops, op).Some? then of(ops, op).value else v)
  {
    if IsLast(Sets(ops, of), Some(v)) {
      SetsOfMore(ops, op, of, Some(v));
    } else {
      SetsOfMore(ops, op, of, None);
    }
  }

  // A known settlement sets the cost; the start of a response opens it; the end of a response
  // closes it with the sum, if all responses are finished with known costs.
  function CostSet(before: seq<Op>, op: Op): Option<Option<real>> {
    match op
    case Settlement(call, _) => if call.cost.Some? then Some(call.cost) else None
    case Started(_, _) => Some(None)
    case Finished(_, _) => Some(if AllKnown(before + [op]) then Some(Subtotal(before + [op])) else None)
    case _ => None
  }

  function ProviderSet(before: seq<Op>, op: Op): Option<Option<string>> {
    match op
    case Settlement(call, _) => Some(Some(call.provider))
    case Named(provider, _) => Some(Some(provider))
    case Started(response, _) => Some(response.provider)
    case _ => None
  }

  function ModelSet(before: seq<Op>, op: Op): Option<Option<string>> {
    match op
    case Settlement(call, _) => Some(Some(call.model))
    case Named(_, model) => Some(Some(model))
    case Started(response, _) => Some(response.model)
    case _ => None
  }

  function PromptOf(op: Op): Option<int> {
    if op.Settlement? then op.call.prompt else None
  }

  function CompletionOf(op: Op): Option<int> {
    if op.Settlement? then op.call.completion else None
  }

  // The last settled total, and on top of it the totals of the responses finished since.
  function Tokens(ops: seq<Op>, add: (int, int) -> int): Option<int> {
    if ops == [] then None
    else
      var before, op := Tokens(ops[..|ops| - 1], add), ops[|ops| - 1];
      match op
      case Settlement(call, _) => Or(call.total, before)
      case Finished(response, _) =>
        if response.total.None? then before
        else Some(add(if before.Some? then before.value else 0, response.total.value))
      case _ => before
  }

  function Add(a: int, b: int): int {
    a + b
  }

  // The tokens that an entry reports.
  function TotalOf(op: Op): Option<int> {
    match op
    case Settlement(call, _) => call.total
    case Finished(response, _) => response.total
    case _ => None
  }

  // The entry with which the current response of a session began, or the first entry.
  function Begin(ops: seq<Op>): (start: nat)
    ensures start <= |ops| && (start < |ops| || ops == [])
    ensures forall k | start < k < |ops| :: !ops[k].Started?
    ensures start > 0 ==> ops[start].Started?
  {
    if ops == [] then 0
    else if ops[|ops| - 1].Started? then |ops| - 1
    else Begin(ops[..|ops| - 1])
  }

  // The deployment an entry brings along.
  function DeploymentOf(op: Op): Option<string> {
    match op
    case Settlement(call, _) => Some(call.provider)
    case Named(provider, _) => Some(provider)
    case Started(response, _) => response.deployment
    case _ => None
  }

  lemma MapOfMore<T(!new)>(ops: seq<Op>, op: Op, of: Op -> Option<T>, r: Option<T>)
    ensures IsLast(Map(ops, of), r) ==> IsLast(Map(ops + [op], of), Or(of(op), r))
    ensures IsFirst(Map(ops, of), r) ==> IsFirst(Map(ops + [op], of), Or(r, of(op)))
  {
    assert Map(ops + [op], of) == Map(ops, of) + [of(op)];
    if IsLast(Map(ops, of), r) {
      LastOfMore(Map(ops, of), r, of(op));
    }
    if IsFirst(Map(ops, of), r) {
      FirstOfMore(Map(ops, of), r, of(op));
    }
  }

  // How one entry changes the values.
  ghost predicate SetsValues(ops: seq<Op>, f: Facts, op: Op, f': Facts) {
    && f'.cost == (if CostSet(ops, op).Some? then CostSet(ops, op).value else f.cost)
    && f'.prompt == Or(PromptOf(op), f.prompt)
    && f'.completion == Or(CompletionOf(op), f.completion)
    && f'.provider == (if ProviderSet(ops, op).Some? then ProviderSet(ops, op).value else f.provider)
    && f'.model == (if ModelSet(ops, op).Some? then ModelSet(ops, op).value else f.model)
    && f'.deployment == (if op.Started? then op.response.deployment else Or(f.deployment, DeploymentOf(op)))
  }

  lemma ApplySetsValues(ops: seq<Op>, f: Facts, op: Op)
    requires Counts(ops, f.Current())
    ensures SetsValues(ops, f, op, Apply(f, op))
  {
    CountsAfterOne(ops, op, f);
  }

  // Prompt and completion tokens are the last known ones; cost, provider and model are the last
  // set ones; the deployment is the first one brought along since the current response began.
  ghost predicate Values(ops: seq<Op>, f: Facts) {
    && IsLastSet(Sets(ops, CostSet), f.cost)
    && IsLast(Map(ops, PromptOf), f.prompt)
    && IsLast(Map(ops, CompletionOf), f.completion)
    && IsLastSet(Sets(ops, ProviderSet), f.provider)
    && IsLastSet(Sets(ops, ModelSet), f.model)
    && IsFirst(Map(ops[Begin(ops)..], DeploymentOf), f.deployment)
  }

  lemma DeploymentAfterOne(ops: seq<Op>, op: Op, d: Option<string>)
    requires IsFirst(Map(ops[Begin(ops)..], DeploymentOf), d)
    ensures var all := ops + [op];
            IsFirst(Map(all[Begin(all)..], DeploymentOf), if op.Started? then op.response.deployment else Or(d, DeploymentOf(op)))
  {
    BeginOfMore(ops, op);
    if op.Started? {
      FirstAlone(op);
    } else {
      MapOfMore(ops[Begin(ops)..], op, DeploymentOf, d);
    }
  }

  lemma BeginOfMore(ops: seq<Op>, op: Op)
    ensures var all := ops + [op];
            all[Begin(all)..] == if op.Started? then [op] else ops[Begin(ops)..] + [op]
  {
    assert (ops + [op])[..|ops|] == ops;
  }

  lemma FirstAlone(op: Op)
    ensures IsFirst(Map([op], DeploymentOf), DeploymentOf(op))
  {
    var xs := Map([op], DeploymentOf);
    assert xs[0] == DeploymentOf(op);
  }

  lemma ValuesAfterOne(ops: seq<Op>, op: Op, f: Facts, f': Facts)
    requires Values(ops, f) && SetsValues(ops, f, op, f')
    ensures Values(ops + [op], f')
  {
    LastSetOfMore(ops, op, CostSet, f.cost);
    MapOfMore(ops, op, PromptOf, f.prompt);
    MapOfMore(ops, op, CompletionOf, f.completion);
    LastSetOfMore(ops, op, ProviderSet, f.provider);
    LastSetOfMore(ops, op, ModelSet, f.model);
    DeploymentAfterOne(ops, op, f.deployment);
  }

  /** The values after every run. */
  lemma {:induction false} ValuesAfterRun(ops: seq<Op>)
    ensures Values(ops, After(ops))
  {
    if ops == [] {
      NothingSet();
    } else {
      var before, op := ops[..|ops| - 1], ops[|ops| - 1];
      ValuesAfterRun(before);
      assert before + [op] == ops;
      ValuesAfterNext(before, op);
    }
  }

  lemma ValuesAfterNext(ops: seq<Op>, op: Op)
    requires Values(ops, After(ops))
    ensures Values(ops + [op], After(ops + [op]))
  {
    CountsAfterRun(ops);
    OneMoreEntry(ops, op);
    ApplySetsValues(ops, After(ops), op);
    ValuesAfterOne(ops, op, After(ops), After(ops + [op]));
  }

  lemma NothingSet()
    ensures Values([], NO_FACTS)
  {
    assert IsLast(Sets([], CostSet), None) && IsLast(Sets([], ProviderSet), None) && IsLast(Sets([], ModelSet), None);
  }

  lemma {:induction false} TokensAfterRun(ops: seq<Op>)
    ensures After(ops).total == Tokens(ops, SaturatingAdd)
  {
    if ops != [] {
      TokensAfterRun(ops[..|ops| - 1]);
    }
  }

  predicate CountsTokens(op: Op) {
    TotalOf(op).Some? ==> 0 <= TotalOf(op).value <= I64_MAX
  }

  /** Token counts that fit a 64-bit integer add up exactly, up to the greatest such integer. */
  lemma {:induction false} TokensAddUp(ops: seq<Op>)
    requires forall op | op in ops :: CountsTokens(op)
    ensures var sum := Tokens(ops, Add);
            && (sum.Some? ==> sum.value >= 0)
            && After(ops).total == if sum.Some? && sum.value > I64_MAX then Some(I64_MAX) else sum
  {
    if ops != [] {
      var op := ops[|ops| - 1];
      assert CountsTokens(op);
      TokensAddUp(ops[..|ops| - 1]);
    }
  }

  /** A session that has just finished a response has a cost exactly if every response is finished
      with a known cost, and then it is their sum. */
  lemma SessionCost(ops: seq<Op>)
    requires ops != [] && ops[|ops| - 1].Finished?
    ensures After(ops).cost == if AllKnown(ops) then Some(Subtotal(ops)) else None
  {
    var before, op := ops[..|ops| - 1], ops[|ops| - 1];
    CountsAfterRun(before);
    assert before + [op] == ops;
    ApplySetsValues(before, After(before), op);
  }

  // ---- waiting for the supplier ----

  predicate IsKnown(op: Op) {
    op.Settlement? && op.call.cost.Some?
  }

  // What ends the waiting: a known cost, or the end of a session's last open response.
  predicate Clears(before: seq<Op>, op: Op) {
    IsKnown(op) || (op.Finished? && AllKnown(before + [op]))
  }

  // The rest of the run behind the entry that last ended the waiting.
  function Trailing(ops: seq<Op>): (start: nat)
    ensures start <= |ops| && (start > 0 ==> Clears(ops[..start - 1], ops[start - 1]))
    ensures forall k | start <= k < |ops| :: !Clears(ops[..k], ops[k])
  {
    if ops == [] then 0
    else
      var before, op := ops[..|ops| - 1], ops[|ops| - 1];
      if Clears(before, op) then |ops|
      else
        assert forall k | 0 <= k < |before| :: before[..k] == ops[..k];
        Trailing(before)
  }

  // When an entry starts to wait for a charge.
  function OpenedAt(op: Op): Option<Time> {
    match op
    case Settlement(call, now) => if call.cost.None? then Some(now) else None
    case Holds(providerHold, modelHold, now) => if providerHold.Some? || modelHold.Some? then Some(now) else None
    case KeyHold(_, now) => Some(now)
    case FallbackCharge(now) => Some(now)
    case EstimatedCharge(_, now) => Some(now)
    case Started(_, now) => Some(now)
    case Finished(response, now) => if response.cost.None? then Some(now) else None
    case _ => None
  }

  predicate Opens(before: seq<Op>, op: Op) {
    OpenedAt(op).Some?
  }

  lemma NothingClearsAndOpens(ops: seq<Op>, op: Op)
    ensures !(Clears(ops, op) && Opens(ops, op))
  {
    CountsOfMore(ops, op);
  }

  // These also say why: all but key holds, and but the responses of a session behind one whose
  // cost stayed unknown.
  predicate Explains(before: seq<Op>, op: Op) {
    Opens(before, op) && !op.KeyHold? && (op.Started? || op.Finished? ==> Unknown(before) == 0)
  }

  ghost predicate Waiting(ops: seq<Op>, b: Billing) {
    && IsFirst(Map(ops[Trailing(ops)..], OpenedAt), b.awaitingSince)
    && (b.reason.Some? <==> Stands(ops, Explains, Clears))
    && (b.basis == Some(FallbackPricing) ==> b.reason.Some?)
  }

  lemma TrailingOfMore(ops: seq<Op>, op: Op)
    ensures var all := ops + [op];
            if Clears(ops, op) then all[Trailing(all)..] == [] else all[Trailing(all)..] == ops[Trailing(ops)..] + [op]
  {
    var all := ops + [op];
    assert all[..|ops|] == ops && all[|ops|] == op;
  }

  // How one entry changes the waiting.
  ghost predicate SetsWaiting(ops: seq<Op>, b: Billing, op: Op, b': Billing) {
    && b'.awaitingSince == (if Clears(ops, op) then None else Or(b.awaitingSince, OpenedAt(op)))
    && (b'.reason.Some? <==> !Clears(ops, op) && (b.reason.Some? || Explains(ops, op)))
    && (b'.basis == Some(FallbackPricing) ==> b'.reason.Some?)
  }

  lemma ApplySetsWaiting(ops: seq<Op>, f: Facts, op: Op)
    requires Counts(ops, f.Current())
    requires f.Current().basis == Some(FallbackPricing) ==> f.Current().reason.Some?
    ensures SetsWaiting(ops, f.Current(), op, Apply(f, op).Current())
  {
    CountsOfMore(ops, op);
  }

  lemma WaitingAfterOne(ops: seq<Op>, op: Op, b: Billing, b': Billing)
    requires Waiting(ops, b) && SetsWaiting(ops, b, op, b')
    ensures Waiting(ops + [op], b')
  {
    TrailingOfMore(ops, op);
    StandsOfMore(ops, op, Explains, Clears);
    NothingClearsAndOpens(ops, op);
    if !Clears(ops, op) {
      MapOfMore(ops[Trailing(ops)..], op, OpenedAt, b.awaitingSince);
    }
  }

  /** After every run: the request has been waiting since the first entry that opened a charge
      behind the one that last ended the waiting, and a reason is given exactly when an entry
      that says why stands. */
  lemma {:induction false} WaitingAfterRun(ops: seq<Op>)
    ensures Waiting(ops, After(ops).Current())
  {
    if ops != [] {
      var before, op := ops[..|ops| - 1], ops[|ops| - 1];
      WaitingAfterRun(before);
      CountsAfterRun(before);
      assert ops == before + [op];
      ApplySetsWaiting(before, After(before), op);
      WaitingAfterOne(before, op, After(before).Current(), After(ops).Current());
    } else {
      assert !Stands([], Explains, Clears);
    }
  }

  lemma {:induction false} WaitsIffOpen(ops: seq<Op>)
    ensures After(ops).Current().awaitingSince.Some? <==> Stands(ops, Opens, Clears)
  {
    if ops != [] {
      var before, op := ops[..|ops| - 1], ops[|ops| - 1];
      WaitsIffOpen(before);
      CountsAfterRun(before);
      WaitingAfterRun(before);
      assert ops == before + [op];
      ApplySetsWaiting(before, After(before), op);
      WaitsAfterOne(before, op, After(before).Current(), After(ops).Current());
    } else {
      assert !Stands([], Opens, Clears);
    }
  }

  lemma WaitsAfterOne(ops: seq<Op>, op: Op, b: Billing, b': Billing)
    requires SetsWaiting(ops, b, op, b')
    requires b.awaitingSince.Some? <==> Stands(ops, Opens, Clears)
    ensures b'.awaitingSince.Some? <==> Stands(ops + [op], Opens, Clears)
  {
    StandsOfMore(ops, op, Opens, Clears);
    NothingClearsAndOpens(ops, op);
  }


  /** A reason implies that the request waits. It waits without a reason exactly when some entry
      that opened a charge stands, and none that says why: key holds, and responses of a session
      behind one whose cost stayed unknown. */
  lemma WaitsWithoutReasonIffUnexplained(ops: seq<Op>)
    ensures var b := After(ops).Current();
            && (b.reason.Some? ==> b.awaitingSince.Some?)
            && (b.awaitingSince.Some? && b.reason.None? <==> Stands(ops, Opens, Clears) && !Stands(ops, Explains, Clears))
  {
    WaitingAfterRun(ops);
    WaitsIffOpen(ops);
    if Stands(ops, Explains, Clears) {
      var k :| 0 <= k < |ops| && StandsFrom(ops, k, Explains, Clears);
      assert StandsFrom(ops, k, Opens, Clears);
    }
  }

  /** For instance a key hold alone; or a response that starts behind a settled cost, after an
      earlier one ended without a cost. */
  lemma UnexplainedRuns(amount: real, r: Facts, c: Call, now: Time)
    requires r.cost == None && c.cost.Some?
    ensures var b := After([KeyHold(amount, now)]).Current();
            b.awaitingSince.Some? && b.reason.None?
    ensures var b := After([Started(r, now)] + [Finished(r, now)] + [Settlement(c, now)] + [Started(r, now)]).Current();
            b.awaitingSince.Some? && b.reason.None?
  {
    OneMoreEntry([], KeyHold(amount, now));
    OneMoreEntry([], Started(r, now));
    assert [] + [KeyHold(amount, now)] == [KeyHold(amount, now)] && [] + [Started(r, now)] == [Started(r, now)];
    OneMoreEntry([Started(r, now)], Finished(r, now));
    OneMoreEntry([Started(r, now)] + [Finished(r, now)], Settlement(c, now));
    OneMoreEntry([Started(r, now)] + [Finished(r, now)] + [Settlement(c, now)], Started(r, now));
  }

  // ---- runs of settlements alone ----

  predicate OnlySettlements(ops: seq<Op>) {
    forall op | op in ops :: op.Settlement?
  }

  lemma {:induction false} BasisAfterSettlements(ops: seq<Op>)
    requires OnlySettlements(ops)
    ensures After(ops).Current().basis ==
            if ops == [] then None
            else if IsKnown(ops[|ops| - 1]) then Some(GatewayPricing) else Some(ReservedEstimate)
  {
    if ops != [] {
      BasisAfterSettlements(ops[..|ops| - 1]);
    }
  }

  /** After settlements alone: the request waits exactly when the last cost was unknown, which is
      when a reason is given and when the charge is an estimate; and it waits since the first
      call of the trailing unknown ones. */
  lemma {:induction false} SettlementsAlone(ops: seq<Op>)
    requires OnlySettlements(ops) && ops != []
    ensures var b, unknown := After(ops).Current(), !IsKnown(ops[|ops| - 1]);
            && (b.awaitingSince.Some? <==> unknown)
            && (b.reason.Some? <==> unknown)
            && (b.basis == Some(ReservedEstimate) <==> unknown)
            && (unknown ==> Trailing(ops) < |ops| && b.awaitingSince == Some(ops[Trailing(ops)].now))
  {
    var before, op := ops[..|ops| - 1], ops[|ops| - 1];
    assert op in ops && ops == before + [op];
    WaitingAfterRun(ops);
    BasisAfterSettlements(ops);
    TrailingOfMore(before, op);
    StandsOfMore(before, op, Explains, Clears);
    if !IsKnown(op) {
      SinceTrailing(ops, After(ops).Current().awaitingSince);
    }
  }

  lemma SinceTrailing(ops: seq<Op>, since: Option<Time>)
    requires OnlySettlements(ops) && Trailing(ops) < |ops|
    requires IsFirst(Map(ops[Trailing(ops)..], OpenedAt), since)
    ensures since == Some(ops[Trailing(ops)].now)
  {
    var first, xs := ops[Trailing(ops)], Map(ops[Trailing(ops)..], OpenedAt);
    assert first in ops && !Clears(ops[..Trailing(ops)], first);
    assert xs[0] == OpenedAt(first);
    FirstIsKnown(xs, since);
  }

  /** One settlement on arbitrary facts leaves the reason out of step with the waiting exactly
      when a fallback charge without a reason meets an unknown cost. */
  lemma OutOfStepIffUnexplainedFallback(f: Facts, c: Call, now: Time)
    ensures var b, b' := f.Current(), Settle(f, c, now).Current();
            (b'.awaitingSince.Some? <==> b'.reason.Some?)
            <==> !(c.cost.None? && b.basis == Some(FallbackPricing) && b.reason.None?)
  {
  }
}
