/** Who determined the charge of a request, after any run of entries. */
module SettlementBasis {
  import opened Wrappers
  import opened Settlement
  import opened SettlementRuns

  // ---- the billing ----

  // All entries but names and marks create the billing, if it is not there.
  predicate CreatesBilling(op: Op) {
    op.Settlement? || IsEdit(op) || op.Started? || op.Finished?
  }

  predicate HasBilling(ops: seq<Op>) {
    exists op | op in ops :: CreatesBilling(op)
  }

  lemma BillingOfMore(ops: seq<Op>, op: Op)
    ensures HasBilling(ops + [op]) <==> HasBilling(ops) || CreatesBilling(op)
  {
    assert forall o :: o in ops + [op] <==> o in ops || o == op;
  }

  lemma {:induction false} BillingAfterRun(ops: seq<Op>)
    ensures After(ops).billing.Some? <==> HasBilling(ops)
  {
    if ops != [] {
      var before, op := ops[..|ops| - 1], ops[|ops| - 1];
      BillingAfterRun(before);
      assert before + [op] == ops;
      BillingOfMore(before, op);
    }
  }

  // ---- the basis last set ----

  predicate Falls(before: seq<Op>, op: Op) {
    op.FallbackCharge?
  }

  // Entries that replace a fallback basis: all that set one, an unknown cost aside.
  predicate EndsFallback(before: seq<Op>, op: Op) {
    IsKnown(op) || op.EstimatedCharge? || op.MarkedReported? || op.Finished?
  }

  // The basis that an entry sets behind these entries, if any.
  ghost function BasisSet(before: seq<Op>, op: Op): Option<Basis> {
    match op
    case Settlement(call, _) =>
      if call.cost.Some? then Some(GatewayPricing)
      else if Stands(before, Falls, EndsFallback) then None
      else Some(ReservedEstimate)
    case FallbackCharge(_) => Some(FallbackPricing)
    case EstimatedCharge(_, _) => Some(ReservedEstimate)
    case MarkedReported => if HasBilling(before) then Some(ProviderReported) else None
    case Finished(_, _) => Some(if AllKnown(before + [op]) then GatewayPricing else KnownAndUnknown)
    case _ => None
  }

  // How one entry changes the basis.
  ghost predicate SetsBasis(ops: seq<Op>, f: Facts, op: Op, basis: Option<Basis>) {
    var was := f.Current().basis;
    basis ==
    match op
    case Settlement(call, _) =>
      if call.cost.Some? then Some(GatewayPricing) else if was == Some(FallbackPricing) then was else Some(ReservedEstimate)
    case FallbackCharge(_) => Some(FallbackPricing)
    case EstimatedCharge(_, _) => Some(ReservedEstimate)
    case MarkedReported => if HasBilling(ops) then Some(ProviderReported) else was
    case Finished(_, _) => Some(if AllKnown(ops + [op]) then GatewayPricing else KnownAndUnknown)
    case _ => was
  }

  lemma BasisAfterOne(ops: seq<Op>, op: Op)
    ensures SetsBasis(ops, After(ops), op, After(ops + [op]).Current().basis)
  {
    CountsAfterRun(ops);
    BillingAfterRun(ops);
    CountsOfMore(ops, op);
    OneMoreEntry(ops, op);
  }

  // A basis stands from an entry that sets it up to the next one that sets another.
  lemma StandingBasis(ops: seq<Op>, op: Op, basis: Basis, does: (seq<Op>, Op) -> bool, ends: (seq<Op>, Op) -> bool)
    requires After(ops).Current().basis == Some(basis) <==> Stands(ops, does, ends)
    requires does(ops, op) ==> After(ops + [op]).Current().basis == Some(basis)
    requires !does(ops, op) && (ends(ops, op) || After(ops).Current().basis != Some(basis)) ==>
               After(ops + [op]).Current().basis != Some(basis)
    requires !ends(ops, op) ==> After(ops).Current().basis == Some(basis) ==> After(ops + [op]).Current().basis == Some(basis)
    ensures After(ops + [op]).Current().basis == Some(basis) <==> Stands(ops + [op], does, ends)
  {
    StandsOfMore(ops, op, does, ends);
  }

  lemma {:induction false} FallbackAfterRun(ops: seq<Op>)
    ensures After(ops).Current().basis == Some(FallbackPricing) <==> Stands(ops, Falls, EndsFallback)
  {
    if ops != [] {
      var before, op := ops[..|ops| - 1], ops[|ops| - 1];
      FallbackAfterRun(before);
      assert before + [op] == ops;
      BasisAfterOne(before, op);
      FallbackNeedsBilling(before);
      StandingBasis(before, op, FallbackPricing, Falls, EndsFallback);
    } else {
      assert !Stands([], Falls, EndsFallback);
    }
  }

  lemma FallbackNeedsBilling(ops: seq<Op>)
    ensures Stands(ops, Falls, EndsFallback) ==> HasBilling(ops)
  {
    if Stands(ops, Falls, EndsFallback) {
      var k :| 0 <= k < |ops| && StandsFrom(ops, k, Falls, EndsFallback);
      assert ops[k] in ops && CreatesBilling(ops[k]);
    }
  }

  /** After every run the basis is the one last set. A known cost, a fallback charge and an
      estimate set theirs; an unknown cost sets the estimate, unless a fallback charge stands; a
      mark sets the reported basis, provided that there is a billing; and the end of a response
      sets the gateway's basis or, while a response is unknown or pending, the mixed one. */
  lemma {:induction false} BasisAfterRun(ops: seq<Op>)
    ensures IsLast(Sets(ops, BasisSet), After(ops).Current().basis)
  {
    if ops != [] {
      var before, op := ops[..|ops| - 1], ops[|ops| - 1];
      BasisAfterRun(before);
      assert before + [op] == ops;
      FallbackAfterRun(before);
      BasisAfterOne(before, op);
      SetsOfMore(before, op, BasisSet, After(before).Current().basis);
    }
  }

  // ---- the bases that the field's comment does not list ----

  predicate Reports(before: seq<Op>, op: Op) {
    op.MarkedReported? && HasBilling(before)
  }

  predicate EndsReport(before: seq<Op>, op: Op) {
    op.Settlement? || op.FallbackCharge? || op.EstimatedCharge? || op.Finished?
  }

  // The end of a response while some response of the session is unknown or pending.
  predicate Mixes(before: seq<Op>, op: Op) {
    op.Finished? && !AllKnown(before + [op])
  }

  predicate EndsMix(before: seq<Op>, op: Op) {
    op.Settlement? || op.FallbackCharge? || op.EstimatedCharge? || op.MarkedReported? || op.Finished?
  }

  /** The reported basis appears exactly while a mark on a billing stands. */
  lemma {:induction false} ReportedIffMarkStands(ops: seq<Op>)
    ensures After(ops).Current().basis == Some(ProviderReported) <==> Stands(ops, Reports, EndsReport)
  {
    if ops != [] {
      var before, op := ops[..|ops| - 1], ops[|ops| - 1];
      ReportedIffMarkStands(before);
      assert before + [op] == ops;
      BasisAfterOne(before, op);
      StandingBasis(before, op, ProviderReported, Reports, EndsReport);
    } else {
      assert !Stands([], Reports, EndsReport);
    }
  }

  lemma MixNeedsBilling(ops: seq<Op>)
    ensures Stands(ops, Mixes, EndsMix) ==> HasBilling(ops)
  {
    if Stands(ops, Mixes, EndsMix) {
      var k :| 0 <= k < |ops| && StandsFrom(ops, k, Mixes, EndsMix);
      assert ops[k] in ops && CreatesBilling(ops[k]);
    }
  }

  /** The mixed basis of a session appears exactly while the end of a response stands that left
      some response unknown or pending. */
  lemma {:induction false} MixedIffPartlyKnown(ops: seq<Op>)
    ensures After(ops).Current().basis == Some(KnownAndUnknown) <==> Stands(ops, Mixes, EndsMix)
  {
    if ops != [] {
      var before, op := ops[..|ops| - 1], ops[|ops| - 1];
      MixedIffPartlyKnown(before);
      assert before + [op] == ops;
      BasisAfterOne(before, op);
      MixNeedsBilling(before);
      StandingBasis(before, op, KnownAndUnknown, Mixes, EndsMix);
    } else {
      assert !Stands([], Mixes, EndsMix);
    }
  }

  // What the comment on the field lists.
  predicate IsListed(basis: Basis) {
    basis.GatewayPricing? || basis.ReservedEstimate? || basis.FallbackPricing?
  }

  /** The charge has a basis outside the listed three exactly while a mark on a billing stands, or
      the end of a response that left some response of its session unknown or pending. */
  lemma UnlistedIff(ops: seq<Op>)
    ensures var basis := After(ops).Current().basis;
            basis.Some? && !IsListed(basis.value) <==> Stands(ops, Reports, EndsReport) || Stands(ops, Mixes, EndsMix)
  {
    ReportedIffMarkStands(ops);
    MixedIffPartlyKnown(ops);
  }

  /** For instance after any settlement whose cost the provider reported. */
  lemma SettledThenMarked(ops: seq<Op>, c: Call, now: Time)
    ensures After(ops + [Settlement(c, now)] + [MarkedReported]).Current().basis == Some(ProviderReported)
  {
    OneMoreEntry(ops, Settlement(c, now));
    OneMoreEntry(ops + [Settlement(c, now)], MarkedReported);
  }

  /** And after any response of a session that ends without a known cost; only a later entry that
      sets a basis takes it back, never a response that ends with one. */
  lemma EndedUnknown(ops: seq<Op>, r: Facts, later: Facts, now: Time)
    requires r.cost == None
    ensures After(ops + [Finished(r, now)]).Current().basis == Some(KnownAndUnknown)
    ensures After(ops + [Finished(r, now)] + [Finished(later, now)]).Current().basis == Some(KnownAndUnknown)
  {
    BasisAfterOne(ops, Finished(r, now));
    CountsOfMore(ops, Finished(r, now));
    BasisAfterOne(ops + [Finished(r, now)], Finished(later, now));
    CountsOfMore(ops + [Finished(r, now)], Finished(later, now));
  }
}
