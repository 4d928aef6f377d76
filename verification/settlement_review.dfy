/** Holds and charges of the three budget scopes after any run, and the requests to review. */
module SettlementReview {
  import opened Wrappers
  import opened Settlement
  import opened SettlementRuns

  predicate ScopeNeedsReview(a: Account, actual: real) {
    a.reserved.Some? && (a.status != Some(Settled) || a.charge != Some(actual))
  }

  /** Any of the three scopes. */
  method RequiresBudgetReview(f: Facts, actual: real) returns (r: bool)
    ensures r <==> exists s :: ScopeNeedsReview(f.On(s), actual)
  {
    var scopes := [Provider, Model, Key];
    r := false;
    for i := 0 to |scopes|
      invariant r <==> exists j | 0 <= j < i :: ScopeNeedsReview(f.On(scopes[j]), actual)
    {
      r := r || ScopeNeedsReview(f.On(scopes[i]), actual);
    }
    assert scopes[0] == Provider && scopes[1] == Model && scopes[2] == Key;
    forall s | ScopeNeedsReview(f.On(s), actual) ensures s in scopes {
      match s case Provider => case Model => case Key =>
    }
  }

  // ---- what an entry does to a scope ----

  predicate Reserves(op: Op, s: Scope) {
    match op
    case Holds(providerHold, modelHold, _) => (s == Provider && providerHold.Some?) || (s == Model && modelHold.Some?)
    case KeyHold(_, _) => s == Key
    case Await(scope, reserved, _, _) => scope == s && reserved.Some?
    case Outcome(scope, reserved, _, _, _) => scope == s && reserved.Some?
    case Started(response, _) => response.On(s).reserved.Some?
    case _ => false
  }

  // The status that an entry sets, whatever the status before.
  function StatusSet(op: Op, s: Scope): Option<Status> {
    match op
    case Holds(_, _, _) => if Reserves(op, s) then Some(Reserved) else None
    case KeyHold(_, _) => if s == Key then Some(Reserved) else None
    case Await(scope, _, status, _) => if scope == s then Some(status) else None
    case Outcome(scope, _, _, status, _) => if scope == s then Some(status) else None
    case Cancellation(scope, confirmed, _) =>
      if scope == s then Some(if confirmed then Released else CancelUnconfirmed) else None
    case _ => None
  }

  // The charge that an entry sets, whatever the charge before.
  function ChargeSet(op: Op, s: Scope): Option<real> {
    match op
    case Outcome(scope, _, amount, status, _) => if scope == s && status == Settled then Some(amount) else None
    case Cancellation(scope, confirmed, _) => if scope == s && confirmed then Some(0.0) else None
    case _ => None
  }

  // The status with which a response of a session ends.
  function EndStatus(op: Op, s: Scope): Option<Status> {
    if op.Finished? then op.response.On(s).status else None
  }

  // The charge that an entry sets or adds.
  function Charged(op: Op, s: Scope): Option<real> {
    if op.Finished? then op.response.On(s).charge else ChargeSet(op, s)
  }

  // How one entry changes the account of a scope.
  ghost predicate SetsAccount(op: Op, s: Scope, a: Account, a': Account) {
    && (a'.reserved.Some? <==> a.reserved.Some? || Reserves(op, s))
    && a'.charge == (if ChargeSet(op, s).Some? then ChargeSet(op, s) else AddAmount(a.charge, Charged(op, s)))
    && a'.status == (if StatusSet(op, s).Some? then StatusSet(op, s)
                     else if op.Started? && Reserves(op, s) && a.status != Some(Unconfirmed) then Some(Pending)
                     else if EndStatus(op, s).None? then a.status
                     else if a.status == Some(Unconfirmed) || EndStatus(op, s) != Some(Settled) then Some(Unconfirmed)
                     else Some(Settled))
  }

  lemma ApplySetsAccount(f: Facts, op: Op, s: Scope)
    ensures SetsAccount(op, s, f.On(s), Apply(f, op).On(s))
  {
    if IsEdit(op) {
      EditSetsAccount(f.Current(), op, s);
    }
  }

  lemma EditSetsAccount(b: Billing, op: Op, s: Scope)
    requires IsEdit(op)
    ensures SetsAccount(op, s, AccountIn(b, s), AccountIn(Edit(b, op), s))
  {
    if op.Holds? {
      var held := Hold(b, Provider, op.providerHold);
      HoldSetsAccount(b, Provider, op.providerHold, s);
      HoldSetsAccount(held, Model, op.modelHold, s);
    }
  }

  lemma HoldSetsAccount(b: Billing, held: Scope, amount: Option<real>, s: Scope)
    ensures AccountIn(Hold(b, held, amount), s) ==
            if s == held && amount.Some? then AccountIn(b, s).(reserved := amount, status := Some(Reserved)) else AccountIn(b, s)
  {
  }

  lemma AccountAfterOne(ops: seq<Op>, op: Op, s: Scope)
    ensures SetsAccount(op, s, After(ops).On(s), After(ops + [op]).On(s))
  {
    OneMoreEntry(ops, op);
    ApplySetsAccount(After(ops), op, s);
  }

  // ---- the hold ----

  ghost predicate HeldIn(ops: seq<Op>, s: Scope) {
    exists op | op in ops :: Reserves(op, s)
  }

  lemma {:induction false} HeldAfterRun(ops: seq<Op>, s: Scope)
    ensures After(ops).On(s).reserved.Some? <==> HeldIn(ops, s)
  {
    if ops != [] {
      var before, op := ops[..|ops| - 1], ops[|ops| - 1];
      HeldAfterRun(before, s);
      assert before + [op] == ops;
      AccountAfterOne(before, op, s);
      assert forall o :: o in ops <==> o in before || o == op;
    }
  }

  // ---- the status ----

  predicate Resets(op: Op, s: Scope) {
    StatusSet(op, s).Some?
  }

  predicate Spoils(op: Op, s: Scope) {
    StatusSet(op, s) == Some(Unconfirmed) || (EndStatus(op, s).Some? && EndStatus(op, s) != Some(Settled))
  }

  function ResetsOn(s: Scope): (seq<Op>, Op) -> bool {
    (before, op) => Resets(op, s)
  }

  function SpoilsOn(s: Scope): (seq<Op>, Op) -> bool {
    (before, op) => Spoils(op, s)
  }

  // A settlement of the scope failed, or a response ended without one, and no entry has set
  // another status since.
  ghost predicate IsSpoiled(ops: seq<Op>, s: Scope) {
    Stands(ops, SpoilsOn(s), ResetsOn(s))
  }

  lemma SpoiledOfMore(ops: seq<Op>, op: Op, s: Scope)
    ensures IsSpoiled(ops + [op], s) <==> Spoils(op, s) || (IsSpoiled(ops, s) && !Resets(op, s))
  {
    StandsOfMore(ops, op, SpoilsOn(s), ResetsOn(s));
  }

  /** The scope is unconfirmed exactly while it is spoiled: responses that settle later do not
      take that back. */
  lemma {:induction false} UnconfirmedIffSpoiled(ops: seq<Op>, s: Scope)
    ensures After(ops).On(s).status == Some(Unconfirmed) <==> IsSpoiled(ops, s)
  {
    if ops != [] {
      var before, op := ops[..|ops| - 1], ops[|ops| - 1];
      UnconfirmedIffSpoiled(before, s);
      assert before + [op] == ops;
      AccountAfterOne(before, op, s);
      SpoiledOfMore(before, op, s);
    } else {
      assert !IsSpoiled([], s);
    }
  }

  // An acknowledged outcome, which is the only entry of a request to set this status, or a response that ends settled while the scope is not spoiled.
  ghost predicate Settles(before: seq<Op>, op: Op, s: Scope) {
    StatusSet(op, s) == Some(Settled) || (EndStatus(op, s) == Some(Settled) && !IsSpoiled(before, s))
  }

  // Everything else that sets a status, the start of a response that holds included.
  predicate Unsettles(op: Op, s: Scope) {
    Resets(op, s) || EndStatus(op, s).Some? || (op.Started? && Reserves(op, s))
  }

  ghost function SettlesOn(s: Scope): (seq<Op>, Op) -> bool {
    (before, op) => Settles(before, op, s)
  }

  function UnsettlesOn(s: Scope): (seq<Op>, Op) -> bool {
    (before, op) => Unsettles(op, s)
  }

  ghost predicate IsSettled(ops: seq<Op>, s: Scope) {
    Stands(ops, SettlesOn(s), UnsettlesOn(s))
  }

  lemma SettledOfMore(ops: seq<Op>, op: Op, s: Scope)
    ensures IsSettled(ops + [op], s) <==> Settles(ops, op, s) || (IsSettled(ops, s) && !Unsettles(op, s))
  {
    StandsOfMore(ops, op, SettlesOn(s), UnsettlesOn(s));
  }

  /** The scope is settled exactly while an acknowledged outcome stands, or a response that ended
      settled in a scope that was not spoiled. */
  lemma {:induction false} SettledAfterRun(ops: seq<Op>, s: Scope)
    ensures After(ops).On(s).status == Some(Settled) <==> IsSettled(ops, s)
  {
    if ops != [] {
      var before, op := ops[..|ops| - 1], ops[|ops| - 1];
      SettledAfterRun(before, s);
      UnconfirmedIffSpoiled(before, s);
      assert before + [op] == ops;
      AccountAfterOne(before, op, s);
      SettledOfMore(before, op, s);
    } else {
      assert !IsSettled([], s);
    }
  }

  // ---- the charge ----

  // From the last entry on that set the charge, or all of the run.
  function Since(ops: seq<Op>, s: Scope): (start: nat)
    ensures start <= |ops| && (start < |ops| || ops == [])
    ensures forall k | start < k < |ops| :: ChargeSet(ops[k], s).None?
    ensures start > 0 ==> ChargeSet(ops[start], s).Some?
  {
    if ops == [] then 0
    else if ChargeSet(ops[|ops| - 1], s).Some? then |ops| - 1
    else Since(ops[..|ops| - 1], s)
  }

  // The sum of the charges, if there is any.
  function SumOf(ops: seq<Op>, s: Scope): Option<real> {
    if ops == [] then None else AddAmount(SumOf(ops[..|ops| - 1], s), Charged(ops[|ops| - 1], s))
  }

  function ChargeOf(ops: seq<Op>, s: Scope): Option<real> {
    SumOf(ops[Since(ops, s)..], s)
  }

  lemma ChargeOfMore(ops: seq<Op>, op: Op, s: Scope)
    ensures ChargeOf(ops + [op], s) ==
            if ChargeSet(op, s).Some? then ChargeSet(op, s) else AddAmount(ChargeOf(ops, s), Charged(op, s))
  {
    SinceOfMore(ops, op, s);
    if ChargeSet(op, s).Some? {
      assert [op] == [] + [op];
      SumOfMore([], op, s);
    } else {
      SumOfMore(ops[Since(ops, s)..], op, s);
    }
  }

  lemma SinceOfMore(ops: seq<Op>, op: Op, s: Scope)
    ensures var all := ops + [op];
            all[Since(all, s)..] == if ChargeSet(op, s).Some? then [op] else ops[Since(ops, s)..] + [op]
  {
    assert (ops + [op])[..|ops|] == ops;
  }

  lemma SumOfMore(ops: seq<Op>, op: Op, s: Scope)
    ensures SumOf(ops + [op], s) == AddAmount(SumOf(ops, s), Charged(op, s))
  {
    assert (ops + [op])[..|ops|] == ops;
  }

  /** After every run the charge of a scope is the one last set, plus those of the responses that
      ended since. */
  lemma {:induction false} ChargeAfterRun(ops: seq<Op>, s: Scope)
    ensures After(ops).On(s).charge == ChargeOf(ops, s)
  {
    if ops != [] {
      var before, op := ops[..|ops| - 1], ops[|ops| - 1];
      ChargeAfterRun(before, s);
      assert before + [op] == ops;
      AccountAfterOne(before, op, s);
      ChargeOfMore(before, op, s);
    }
  }

  // ---- review ----

  // Held, and not settled at exactly this charge.
  ghost predicate IsOpen(ops: seq<Op>, s: Scope, actual: real) {
    HeldIn(ops, s) && !(IsSettled(ops, s) && ChargeOf(ops, s) == Some(actual))
  }

  lemma ScopeAfterRun(ops: seq<Op>, s: Scope, actual: real)
    ensures ScopeNeedsReview(After(ops).On(s), actual) <==> IsOpen(ops, s, actual)
  {
    HeldAfterRun(ops, s);
    SettledAfterRun(ops, s);
    ChargeAfterRun(ops, s);
  }

  /** A request needs review for a verified cost exactly when some scope was held that is not
      settled, or whose charges sum up to something else. */
  lemma ReviewAfterRun(ops: seq<Op>, actual: real)
    ensures (exists s :: ScopeNeedsReview(After(ops).On(s), actual)) <==>
            exists s :: IsOpen(ops, s, actual)
  {
    if s :| ScopeNeedsReview(After(ops).On(s), actual) {
      ScopeAfterRun(ops, s, actual);
    }
    if s :| IsOpen(ops, s, actual) {
      ScopeAfterRun(ops, s, actual);
      assert ScopeNeedsReview(After(ops).On(s), actual);
    }
  }

  /** For instance for every cost, once a held scope has seen a response end without a settlement
      and no entry but those of the session has followed. */
  lemma EndedUnsettledNeedsReview(ops: seq<Op>, r: Facts, now: Time, later: seq<Op>, s: Scope, actual: real)
    requires HeldIn(ops, s) && r.On(s).status.Some? && r.On(s).status != Some(Settled)
    requires forall op | op in later :: op.Started? || op.Finished?
    ensures ScopeNeedsReview(After(ops + [Finished(r, now)] + later).On(s), actual)
  {
    var all := ops + [Finished(r, now)] + later;
    assert forall op | op in ops :: op in all;
    assert forall k | |ops| < k < |all| :: all[k] in later;
    assert StandsFrom(all, |ops|, SpoilsOn(s), ResetsOn(s));
    HeldAfterRun(all, s);
    UnconfirmedIffSpoiled(all, s);
  }
}
