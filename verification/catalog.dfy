/** The catalog authority: entries, their validation, and the single pass over names. */
module Catalog {
  import opened Sorting

  datatype Decision =
    | Callable(catalogId: string, endpoints: seq<string>, capabilities: seq<string>,
               parameters: seq<string>, aliases: seq<string>)
    | PricingOnly(reason: string)
    | Unreviewed

  datatype Entry = Entry(provider: string, key: string, evidence: seq<string>, decision: Decision)

  type Id = (string, string) // provider and name

  // The endpoint and capability names that a decision may use.
  datatype Vocabulary = Vocabulary(endpoints: set<string>, capabilities: set<string>)

  const CONTROL_KEYS: set<string> := {"_metadata", "fallback_generalizations", "sample_spec"}

  function IdOf(e: Entry): Id {
    (e.provider, e.key)
  }

  predicate StringList(s: seq<string>) {
    Distinct(s) && "" !in s
  }

  predicate Within(s: seq<string>, allowed: set<string>) {
    forall x | x in s :: x in allowed
  }

  predicate ValidEntry(e: Entry, sources: set<string>, v: Vocabulary) {
    && e.provider != "" && e.key != "" && e.key !in CONTROL_KEYS
    && e.evidence != [] && StringList(e.evidence) && Within(e.evidence, sources)
    && match e.decision
       case Unreviewed => true
       case PricingOnly(reason) => reason != ""
       case Callable(id, endpoints, capabilities, parameters, aliases) =>
         && id != "" && StringList(endpoints) && Within(endpoints, v.endpoints)
         && StringList(capabilities) && Within(capabilities, v.capabilities)
         && StringList(parameters) && StringList(aliases)
  }

  // The entry as the authority stores it: every list in ascending order.
  function Canonical(e: Entry): Entry {
    e.(evidence := SortStrings(e.evidence),
       decision := match e.decision
                   case Callable(id, endpoints, capabilities, parameters, aliases) =>
                     Callable(id, SortStrings(endpoints), SortStrings(capabilities), SortStrings(parameters), SortStrings(aliases))
                   case d => d)
  }

  // ---- names ----

  predicate IsAlias(e: Entry, name: string) {
    e.decision.Callable? && name in e.decision.aliases
  }

  predicate IsCatalogId(e: Entry, name: string) {
    e.decision.Callable? && e.decision.catalogId == name
  }

  // `name` leads to this entry's pricing row.
  predicate Resolves(e: Entry, name: string) {
    name == e.key || IsCatalogId(e, name) || IsAlias(e, name)
  }

  /** Under each provider a name leads to at most one pricing row, and no alias repeats a
      pricing key or a canonical ID. The order of the entries plays no part. */
  ghost predicate Unambiguous(entries: seq<Entry>) {
    && (forall e, e', name | e in entries && e' in entries && e.provider == e'.provider ::
          Resolves(e, name) && Resolves(e', name) ==> IdOf(e) == IdOf(e'))
    && (forall e, e', name | e in entries && e' in entries && e.provider == e'.provider ::
          IsAlias(e, name) ==> name != e'.key && !IsCatalogId(e', name))
  }

  predicate UniqueIds(entries: seq<Entry>) {
    forall i, j | 0 <= i < j < |entries| :: IdOf(entries[i]) != IdOf(entries[j])
  }

  function Ids(entries: seq<Entry>): set<Id> {
    set e | e in entries :: IdOf(e)
  }

  // What the pass checks of one entry against the ledger, and of two entries with each other.
  ghost predicate LedgerOk(e: Entry, ids: set<Id>) {
    e.decision.Callable? ==>
      && ((e.provider, e.decision.catalogId) in ids ==> e.decision.catalogId == e.key)
      && forall a | a in e.decision.aliases :: (e.provider, a) !in ids
  }

  ghost predicate Compatible(e: Entry, e': Entry) {
    e.provider == e'.provider && e.decision.Callable? && e'.decision.Callable? ==>
      && e.decision.catalogId !in e'.decision.aliases && e'.decision.catalogId !in e.decision.aliases
      && (IdOf(e) != IdOf(e') ==>
            && e.decision.catalogId != e'.decision.catalogId
            && forall a | a in e.decision.aliases :: a !in e'.decision.aliases)
  }

  lemma UnambiguousIsPairwise(entries: seq<Entry>)
    ensures Unambiguous(entries) <==>
            && (forall e | e in entries :: LedgerOk(e, Ids(entries)))
            && (forall e, e' | e in entries && e' in entries :: Compatible(e, e'))
  {
    if Unambiguous(entries) {
      UnambiguousIsSufficient(entries);
    }
    if (forall e | e in entries :: LedgerOk(e, Ids(entries))) && (forall e, e' | e in entries && e' in entries :: Compatible(e, e')) {
      PairwiseIsSufficient(entries);
    }
  }

  lemma UnambiguousIsSufficient(entries: seq<Entry>)
    requires Unambiguous(entries)
    ensures forall e | e in entries :: LedgerOk(e, Ids(entries))
    ensures forall e, e' | e in entries && e' in entries :: Compatible(e, e')
  {
    forall e | e in entries ensures LedgerOk(e, Ids(entries)) {
      if e.decision.Callable? {
        forall n | (e.provider, n) in Ids(entries) ensures n !in e.decision.aliases && (n == e.decision.catalogId ==> n == e.key) {
          var e' :| e' in entries && IdOf(e') == (e.provider, n);
          assert Resolves(e', n) && (Resolves(e, n) ==> IdOf(e) == IdOf(e'));
          assert IsAlias(e, n) ==> n != e'.key;
        }
      }
    }
    forall e, e' | e in entries && e' in entries ensures Compatible(e, e') {
      if e.provider == e'.provider && e.decision.Callable? && e'.decision.Callable? {
        forall n ensures n in e.decision.aliases ==> n != e'.decision.catalogId
          ensures n in e'.decision.aliases ==> n != e.decision.catalogId
          ensures IdOf(e) != IdOf(e') ==> !(Resolves(e, n) && Resolves(e', n))
        {
          assert IsAlias(e, n) ==> !IsCatalogId(e', n);
          assert IsAlias(e', n) ==> !IsCatalogId(e, n);
        }
        assert Resolves(e, e.decision.catalogId) && forall a | a in e.decision.aliases :: Resolves(e, a);
        assert Resolves(e', e'.decision.catalogId) && forall a | a in e'.decision.aliases :: Resolves(e', a);
      }
    }
  }

  lemma PairwiseIsSufficient(entries: seq<Entry>)
    requires forall e | e in entries :: LedgerOk(e, Ids(entries))
    requires forall e, e' | e in entries && e' in entries :: Compatible(e, e')
    ensures Unambiguous(entries)
  {
    forall e, e', n | e in entries && e' in entries && e.provider == e'.provider
      ensures Resolves(e, n) && Resolves(e', n) ==> IdOf(e) == IdOf(e')
      ensures IsAlias(e, n) ==> n != e'.key && !IsCatalogId(e', n)
    {
      assert Compatible(e, e') && LedgerOk(e, Ids(entries)) && LedgerOk(e', Ids(entries));
      assert IdOf(e) in Ids(entries) && IdOf(e') in Ids(entries);
    }
  }

  // ---- the pass ----

  type Owners = map<Id, string>

  ghost predicate OwnsCatalogIds(owners: Owners, entries: seq<Entry>) {
    && (forall id | id in owners :: exists e | e in entries :: e.provider == id.0 && IsCatalogId(e, id.1))
    && (forall e | e in entries && e.decision.Callable? ::
          (e.provider, e.decision.catalogId) in owners && owners[(e.provider, e.decision.catalogId)] == e.key)
  }

  ghost predicate OwnsAliases(owners: Owners, entries: seq<Entry>) {
    && (forall id | id in owners :: exists e | e in entries :: e.provider == id.0 && IsAlias(e, id.1))
    && (forall e, a | e in entries && IsAlias(e, a) ::
          (e.provider, a) in owners && owners[(e.provider, a)] == e.decision.catalogId)
  }

  method AliasesAvoidLedger(e: Entry, ids: set<Id>) returns (ok: bool)
    requires e.decision.Callable?
    ensures ok <==> forall a | a in e.decision.aliases :: (e.provider, a) !in ids
  {
    for i := 0 to |e.decision.aliases|
      invariant forall k | 0 <= k < i :: (e.provider, e.decision.aliases[k]) !in ids
    {
      if (e.provider, e.decision.aliases[i]) in ids {
        return false;
      }
    }
    return true;
  }

  method RecordAliases(e: Entry, catalogOwners: Owners, aliasOwners: Owners) returns (ok: bool, owners: Owners)
    requires e.decision.Callable?
    ensures ok <==> forall a | a in e.decision.aliases ::
              (e.provider, a) !in catalogOwners
              && ((e.provider, a) in aliasOwners ==> aliasOwners[(e.provider, a)] == e.decision.catalogId)
    ensures ok ==> forall id :: id in owners <==> id in aliasOwners || (id.0 == e.provider && id.1 in e.decision.aliases)
    ensures ok ==> forall id | id in owners :: owners[id] == if id in aliasOwners then aliasOwners[id] else e.decision.catalogId
  {
    owners := aliasOwners;
    var aliases := e.decision.aliases;
    for i := 0 to |aliases|
      invariant forall k | 0 <= k < i ::
                  (e.provider, aliases[k]) !in catalogOwners
                  && ((e.provider, aliases[k]) in aliasOwners ==> aliasOwners[(e.provider, aliases[k])] == e.decision.catalogId)
      invariant forall id :: id in owners <==> id in aliasOwners || (id.0 == e.provider && id.1 in aliases[..i])
      invariant forall id | id in owners :: owners[id] == if id in aliasOwners then aliasOwners[id] else e.decision.catalogId
    {
      var id := (e.provider, aliases[i]);
      assert aliases[..i + 1] == aliases[..i] + [aliases[i]];
      if id in catalogOwners {
        return false, owners;
      }
      if id !in owners {
        owners := owners[id := e.decision.catalogId];
      }
      if owners[id] != e.decision.catalogId {
        return false, owners;
      }
    }
    assert aliases[..|aliases|] == aliases;
    return true, owners;
  }

  ghost predicate DictionariesAllow(e: Entry, catalogOwners: Owners, aliasOwners: Owners)
    requires e.decision.Callable?
  {
    var id := (e.provider, e.decision.catalogId);
    && id !in aliasOwners
    && (id in catalogOwners ==> catalogOwners[id] == e.key)
    && (forall a | a in e.decision.aliases ::
          (e.provider, a) !in catalogOwners && a != e.decision.catalogId
          && ((e.provider, a) in aliasOwners ==> aliasOwners[(e.provider, a)] == e.decision.catalogId))
  }

  // What the dictionaries say about the next entry is what the earlier entries say about it.
  lemma DictionariesDecide(before: seq<Entry>, e: Entry, catalogOwners: Owners, aliasOwners: Owners)
    requires e.decision.Callable? && UniqueIds(before + [e])
    requires OwnsCatalogIds(catalogOwners, before) && OwnsAliases(aliasOwners, before)
    ensures (forall e' | e' in before + [e] :: Compatible(e, e')) <==> DictionariesAllow(e, catalogOwners, aliasOwners)
  {
    var all := before + [e];
    assert e in all && forall e' :: e' in all <==> e' in before || e' == e;
    forall e' | e' in before ensures IdOf(e') != IdOf(e) {
      var i :| 0 <= i < |before| && before[i] == e';
      assert IdOf(all[i]) != IdOf(all[|before|]);
    }
    if forall e' | e' in all :: Compatible(e, e') {
      CompatibleSoDistinct(before, e, catalogOwners, aliasOwners);
    }
    if DictionariesAllow(e, catalogOwners, aliasOwners) {
      forall e' | e' in before ensures Compatible(e, e') {
        AllowedSoCompatible(before, e, e', catalogOwners, aliasOwners);
      }
    }
  }

  lemma AllowedSoCompatible(before: seq<Entry>, e: Entry, e': Entry, catalogOwners: Owners, aliasOwners: Owners)
    requires e.decision.Callable? && e' in before && IdOf(e') != IdOf(e)
    requires OwnsCatalogIds(catalogOwners, before) && OwnsAliases(aliasOwners, before)
    requires DictionariesAllow(e, catalogOwners, aliasOwners)
    ensures Compatible(e, e')
  {
    if e'.provider == e.provider && e'.decision.Callable? {
      assert (e.provider, e'.decision.catalogId) in catalogOwners
             && catalogOwners[(e.provider, e'.decision.catalogId)] == e'.key != e.key;
      forall a | a in e'.decision.aliases
        ensures (e.provider, a) in aliasOwners && aliasOwners[(e.provider, a)] == e'.decision.catalogId
      {
        assert IsAlias(e', a);
      }
    }
  }

  lemma CompatibleSoDistinct(before: seq<Entry>, e: Entry, catalogOwners: Owners, aliasOwners: Owners)
    requires e.decision.Callable? && forall e' | e' in before :: IdOf(e') != IdOf(e) && Compatible(e, e')
    requires Compatible(e, e)
    requires OwnsCatalogIds(catalogOwners, before) && OwnsAliases(aliasOwners, before)
    ensures (e.provider, e.decision.catalogId) !in aliasOwners && (e.provider, e.decision.catalogId) !in catalogOwners
    ensures forall a | a in e.decision.aliases :: (e.provider, a) !in catalogOwners && (e.provider, a) !in aliasOwners
  {
  }

  ghost predicate FitsWith(e: Entry, ids: set<Id>, entries: seq<Entry>) {
    LedgerOk(e, ids) && forall e' | e' in entries :: Compatible(e, e')
  }

  // The body of the pass, for one callable entry, in terms of the dictionaries.
  method ClaimNames(e: Entry, ids: set<Id>, catalogOwners: Owners, aliasOwners: Owners)
    returns (ok: bool, catalogOwners': Owners, aliasOwners': Owners)
    requires e.decision.Callable?
    ensures ok <==> LedgerOk(e, ids) && DictionariesAllow(e, catalogOwners, aliasOwners)
    ensures ok ==> catalogOwners' == catalogOwners[(e.provider, e.decision.catalogId) := e.key]
    ensures ok ==> forall id :: id in aliasOwners' <==> id in aliasOwners || (id.0 == e.provider && id.1 in e.decision.aliases)
    ensures ok ==> forall id | id in aliasOwners' ::
              aliasOwners'[id] == if id in aliasOwners then aliasOwners[id] else e.decision.catalogId
  {
    catalogOwners', aliasOwners' := catalogOwners, aliasOwners;
    var id := (e.provider, e.decision.catalogId);
    if id in ids && e.decision.catalogId != e.key {
      return false, catalogOwners', aliasOwners';
    }
    var clear := AliasesAvoidLedger(e, ids);
    if !clear {
      return false, catalogOwners', aliasOwners';
    }
    if id in aliasOwners {
      return false, catalogOwners', aliasOwners';
    }
    if id !in catalogOwners {
      catalogOwners' := catalogOwners[id := e.key];
    }
    if catalogOwners'[id] != e.key {
      return false, catalogOwners', aliasOwners';
    }
    ok, aliasOwners' := RecordAliases(e, catalogOwners', aliasOwners);
  }

  // The same, in terms of the earlier entries.
  method CheckEntry(ghost before: seq<Entry>, e: Entry, ids: set<Id>, catalogOwners: Owners, aliasOwners: Owners)
    returns (ok: bool, catalogOwners': Owners, aliasOwners': Owners)
    requires e.decision.Callable? && UniqueIds(before + [e])
    requires OwnsCatalogIds(catalogOwners, before) && OwnsAliases(aliasOwners, before)
    ensures ok <==> FitsWith(e, ids, before + [e])
    ensures ok ==> OwnsCatalogIds(catalogOwners', before + [e]) && OwnsAliases(aliasOwners', before + [e])
  {
    DictionariesDecide(before, e, catalogOwners, aliasOwners);
    ok, catalogOwners', aliasOwners' := ClaimNames(e, ids, catalogOwners, aliasOwners);
    if ok {
      CatalogOwnersExtend(before, e, catalogOwners);
      AliasOwnersExtend(before, e, aliasOwners, aliasOwners');
    }
  }

  lemma CatalogOwnersExtend(before: seq<Entry>, e: Entry, owners: Owners)
    requires e.decision.Callable? && OwnsCatalogIds(owners, before)
    requires (e.provider, e.decision.catalogId) in owners ==> owners[(e.provider, e.decision.catalogId)] == e.key
    ensures OwnsCatalogIds(owners[(e.provider, e.decision.catalogId) := e.key], before + [e])
  {
    var all := before + [e];
    assert e in all && forall e' :: e' in all <==> e' in before || e' == e;
    assert IsCatalogId(e, e.decision.catalogId);
  }

  lemma AliasOwnersExtend(before: seq<Entry>, e: Entry, owners: Owners, owners': Owners)
    requires e.decision.Callable? && OwnsAliases(owners, before)
    requires forall id :: id in owners' <==> id in owners || (id.0 == e.provider && id.1 in e.decision.aliases)
    requires forall id | id in owners' :: owners'[id] == if id in owners then owners[id] else e.decision.catalogId
    requires forall a | a in e.decision.aliases && (e.provider, a) in owners :: owners[(e.provider, a)] == e.decision.catalogId
    ensures OwnsAliases(owners', before + [e])
  {
    var all := before + [e];
    assert e in all && forall e' :: e' in all <==> e' in before || e' == e;
    forall id | id in owners' ensures exists e' | e' in all :: e'.provider == id.0 && IsAlias(e', id.1) {
      if id in owners {
        var e' :| e' in before && e'.provider == id.0 && IsAlias(e', id.1);
        assert e' in all;
      } else {
        assert IsAlias(e, id.1);
      }
    }
    forall e', a | e' in all && IsAlias(e', a)
      ensures (e'.provider, a) in owners' && owners'[(e'.provider, a)] == e'.decision.catalogId
    {
      AliasIsOwned(before, e, owners, owners', e', a);
    }
  }

  lemma AliasIsOwned(before: seq<Entry>, e: Entry, owners: Owners, owners': Owners, e': Entry, a: string)
    requires e.decision.Callable? && OwnsAliases(owners, before)
    requires forall id :: id in owners' <==> id in owners || (id.0 == e.provider && id.1 in e.decision.aliases)
    requires forall id | id in owners' :: owners'[id] == if id in owners then owners[id] else e.decision.catalogId
    requires forall a | a in e.decision.aliases && (e.provider, a) in owners :: owners[(e.provider, a)] == e.decision.catalogId
    requires (e' in before || e' == e) && IsAlias(e', a)
    ensures (e'.provider, a) in owners' && owners'[(e'.provider, a)] == e'.decision.catalogId
  {
  }

  // Every entry of the prefix fits with the whole prefix.
  ghost predicate PrefixFits(entries: seq<Entry>, ids: set<Id>) {
    forall e | e in entries :: FitsWith(e, ids, entries)
  }

  lemma PrefixGrows(before: seq<Entry>, e: Entry, ids: set<Id>)
    requires PrefixFits(before, ids)
    ensures PrefixFits(before + [e], ids) <==> FitsWith(e, ids, before + [e])
  {
    var all := before + [e];
    assert e in all && forall e' :: e' in all <==> e' in before || e' == e;
    assert forall e' | e' in before :: Compatible(e, e') <==> Compatible(e', e);
  }

  // An entry that is not callable only extends the prefix.
  lemma OwnersSkip(before: seq<Entry>, e: Entry, ids: set<Id>, catalogOwners: Owners, aliasOwners: Owners)
    requires !e.decision.Callable? && OwnsCatalogIds(catalogOwners, before) && OwnsAliases(aliasOwners, before)
    ensures OwnsCatalogIds(catalogOwners, before + [e]) && OwnsAliases(aliasOwners, before + [e])
    ensures FitsWith(e, ids, before + [e])
  {
    SkipCatalogIds(before, e, catalogOwners);
    SkipAliases(before, e, aliasOwners);
  }

  lemma SkipCatalogIds(before: seq<Entry>, e: Entry, owners: Owners)
    requires !e.decision.Callable? && OwnsCatalogIds(owners, before)
    ensures OwnsCatalogIds(owners, before + [e])
  {
    var all := before + [e];
    assert forall e' :: e' in all <==> e' in before || e' == e;
  }

  lemma SkipAliases(before: seq<Entry>, e: Entry, owners: Owners)
    requires !e.decision.Callable? && OwnsAliases(owners, before)
    ensures OwnsAliases(owners, before + [e])
  {
    var all := before + [e];
    assert forall e' :: e' in all <==> e' in before || e' == e;
  }

  lemma PrefixesFit(entries: seq<Entry>, ids: set<Id>, n: nat)
    requires n <= |entries|
    ensures PrefixFits(entries, ids) ==> PrefixFits(entries[..n], ids)
  {
    assert forall e | e in entries[..n] :: e in entries;
  }

  ghost predicate Owned(catalogOwners: Owners, aliasOwners: Owners, entries: seq<Entry>, ids: set<Id>) {
    OwnsCatalogIds(catalogOwners, entries) && OwnsAliases(aliasOwners, entries) && PrefixFits(entries, ids)
  }

  method CheckNext(entries: seq<Entry>, n: nat, ids: set<Id>, catalogOwners: Owners, aliasOwners: Owners)
    returns (ok: bool, catalogOwners': Owners, aliasOwners': Owners)
    requires n < |entries| && UniqueIds(entries) && Owned(catalogOwners, aliasOwners, entries[..n], ids)
    ensures ok ==> Owned(catalogOwners', aliasOwners', entries[..n + 1], ids)
    ensures !ok ==> !PrefixFits(entries, ids)
  {
    var e := entries[n];
    ghost var before := entries[..n];
    assert entries[..n + 1] == before + [e];
    PrefixGrows(before, e, ids);
    PrefixesFit(entries, ids, n + 1);
    if !e.decision.Callable? {
      OwnersSkip(before, e, ids, catalogOwners, aliasOwners);
      return true, catalogOwners, aliasOwners;
    }
    ok, catalogOwners', aliasOwners' := CheckEntry(before, e, ids, catalogOwners, aliasOwners);
  }

  /** The one pass, with its two dictionaries, accepts exactly the unambiguous ledgers. */
  method CheckNames(entries: seq<Entry>, ids: set<Id>) returns (ok: bool)
    requires UniqueIds(entries) && ids == Ids(entries)
    ensures ok <==> Unambiguous(entries)
  {
    var catalogOwners: Owners, aliasOwners: Owners := map[], map[];
    UnambiguousIsPairwise(entries);
    for n := 0 to |entries|
      invariant Owned(catalogOwners, aliasOwners, entries[..n], ids)
    {
      ok, catalogOwners, aliasOwners := CheckNext(entries, n, ids, catalogOwners, aliasOwners);
      if !ok {
        return false;
      }
    }
    assert entries[..|entries|] == entries;
    return true;
  }
}
