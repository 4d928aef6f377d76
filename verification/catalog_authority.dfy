/** The authority builder: which ledgers it accepts, and the one document it makes of them. */
module CatalogAuthority {
  import opened Wrappers
  import opened Orders
  import opened Sorting
  import opened Catalog

  const ENFORCED: set<string> := {"openai", "azure", "azure_ai"}

  type AliasTable = map<string, seq<string>>

  // Pricing rows by key, each with its provider; None is a provider that is not a string.
  type PricingRows = map<string, Option<string>>

  // The contents of the evidence sources play no part, except in a digest.
  datatype Document = Document(
    revision: string, sources: map<string, string>, enforced: seq<string>, providerAliases: AliasTable, entries: seq<Entry>)

  datatype Counts = Counts(callable: nat, pricingOnly: nat, unreviewed: nat)

  datatype Semantic = Semantic(
    revision: string, enforced: seq<string>, providerAliases: AliasTable, entries: seq<Entry>)

  // A digest stands for the value that is hashed.
  datatype Digest =
    | OfClassification(semantic: Semantic)
    | OfDecisions(semantic: Semantic, sources: map<string, string>)
    | OfUniverse(tuples: set<Id>)

  datatype Authority = Authority(
    semantic: Semantic, decisions: Digest, universe: Digest, classification: Digest,
    coverage: map<string, Counts>, total: nat)
  {
    function Entries(): seq<Entry> {
      semantic.entries
    }
  }

  // ---- what is accepted ----

  // Aliases are never canonical names, whether listed here or used by an entry.
  predicate ProviderOk(table: AliasTable, providers: set<string>, p: string)
    requires p in table
  {
    p != "" && StringList(table[p]) && forall a | a in table[p] :: a !in table.Keys + providers
  }

  predicate AliasesOk(table: AliasTable, providers: set<string>) {
    && (forall p | p in table :: ProviderOk(table, providers, p))
    && (forall p, q | p in table && q in table && p != q :: forall a | a in table[p] :: a !in table[q])
  }

  function Providers(entries: seq<Entry>): set<string> {
    set e | e in entries :: e.provider
  }

  predicate RowsOk(rows: PricingRows) {
    forall k | k in rows :: rows[k].Some? && rows[k].value != ""
  }

  function Tuples(rows: PricingRows): set<Id>
    requires RowsOk(rows)
  {
    set k | k in rows :: (rows[k].value, k)
  }

  predicate HeaderOk(d: Document) {
    && d.revision != "" && d.sources != map[] && "" !in d.sources
    && d.enforced != [] && StringList(d.enforced) && (set p | p in d.enforced) == ENFORCED
  }

  ghost predicate Acceptable(rows: PricingRows, d: Document, v: Vocabulary) {
    && HeaderOk(d)
    && (forall e | e in d.entries :: ValidEntry(e, d.sources.Keys, v))
    && UniqueIds(d.entries)
    && AliasesOk(d.providerAliases, Providers(d.entries))
    && RowsOk(rows) && Ids(d.entries) == Tuples(rows)
    && Unambiguous(d.entries)
  }

  // ---- the document made of it ----

  predicate LessEntry(a: Entry, b: Entry) {
    Less(a.provider, b.provider) || (a.provider == b.provider && Less(a.key, b.key))
  }

  function CanonicalAll(entries: seq<Entry>): (r: seq<Entry>)
    ensures |r| == |entries| && forall i | 0 <= i < |r| :: r[i] == Canonical(entries[i])
  {
    seq(|entries|, i requires 0 <= i < |entries| => Canonical(entries[i]))
  }

  function SortedTable(table: AliasTable): AliasTable {
    map p | p in table :: SortStrings(table[p])
  }

  function Count(entries: seq<Entry>, provider: string): Counts {
    if entries == [] then Counts(0, 0, 0)
    else
      var c, e := Count(entries[..|entries| - 1], provider), entries[|entries| - 1];
      if e.provider == provider then Tally(c, e.decision) else c
  }

  function Tally(c: Counts, d: Decision): Counts {
    match d
    case Callable(_, _, _, _, _) => c.(callable := c.callable + 1)
    case PricingOnly(_) => c.(pricingOnly := c.pricingOnly + 1)
    case Unreviewed => c.(unreviewed := c.unreviewed + 1)
  }

  function Coverage(entries: seq<Entry>): map<string, Counts> {
    map p | p in Providers(entries) :: Count(entries, p)
  }

  function SortedEntries(d: Document): seq<Entry> {
    Sort(LessEntry, CanonicalAll(d.entries))
  }

  function SemanticOf(d: Document): Semantic {
    Semantic(d.revision, SortStrings(d.enforced), SortedTable(d.providerAliases), SortedEntries(d))
  }

  function Output(rows: PricingRows, d: Document): Authority
    requires RowsOk(rows)
  {
    Authority(SemanticOf(d), OfDecisions(SemanticOf(d), d.sources), OfUniverse(Tuples(rows)), OfClassification(SemanticOf(d)),
              Coverage(SortedEntries(d)), |SortedEntries(d)|)
  }

  // ---- the loops ----

  // The inner loop: claim every alias of one provider.
  method ClaimAliases(p: string, aliases: seq<string>, canonical: set<string>, owner0: map<string, string>)
    returns (ok: bool, owner: map<string, string>)
    requires forall a | a in owner0 :: owner0[a] != p
    ensures ok <==> forall a | a in aliases :: a !in canonical && a !in owner0
    ensures ok ==> owner == owner0 + map a | a in aliases :: p
  {
    owner := owner0;
    for i := 0 to |aliases|
      invariant forall a | a in aliases[..i] :: a !in canonical && a !in owner0
      invariant owner == owner0 + map a | a in aliases[..i] :: p
    {
      assert aliases[..i + 1] == aliases[..i] + [aliases[i]];
      if aliases[i] in canonical {
        return false, owner;
      }
      if aliases[i] !in owner {
        owner := owner[aliases[i] := p];
      }
      if owner[aliases[i]] != p {
        return false, owner;
      }
    }
    assert aliases[..|aliases|] == aliases;
    return true, owner;
  }

  // The dictionary of alias owners once the providers in `done` are through.
  ghost predicate OwnedBy(owner: map<string, string>, table: AliasTable, done: set<string>) {
    && (forall a | a in owner :: owner[a] in done && owner[a] in table && a in table[owner[a]])
    && (forall p | p in done && p in table :: OwnsAll(owner, p, table[p]))
  }

  ghost predicate OwnsAll(owner: map<string, string>, p: string, aliases: seq<string>) {
    forall a | a in aliases :: a in owner && owner[a] == p
  }

  lemma OwnedOnce(owner: map<string, string>, table: AliasTable, todo: set<string>)
    requires todo == {} && OwnedBy(owner, table, table.Keys - todo)
    ensures forall p, q | p in table && q in table && p != q :: forall a | a in table[p] :: a !in table[q]
  {
    forall p, q, a | p in table && q in table && a in table[p] && a in table[q] ensures p == q {
      assert p in table.Keys - todo && q in table.Keys - todo;
      assert OwnsAll(owner, p, table[p]) && OwnsAll(owner, q, table[q]);
    }
  }

  // One more provider is through.
  lemma OwnedGrows(owner: map<string, string>, table: AliasTable, done: set<string>, p: string, owner': map<string, string>)
    requires OwnedBy(owner, table, done) && p in table && p !in done
    requires forall a | a in table[p] :: a !in owner
    requires owner' == owner + map a | a in table[p] :: p
    ensures OwnedBy(owner', table, done + {p})
  {
    forall q | q in done + {p} && q in table ensures OwnsAll(owner', q, table[q]) {
      assert q != p ==> OwnsAll(owner, q, table[q]);
    }
  }

  method ValidateProvider(table: AliasTable, providers: set<string>, p: string, owner: map<string, string>, ghost done: set<string>)
    returns (ok: bool, owner': map<string, string>)
    requires OwnedBy(owner, table, done) && p in table && p !in done
    ensures ok ==> ProviderOk(table, providers, p) && OwnedBy(owner', table, done + {p})
    ensures !ok ==> !AliasesOk(table, providers)
  {
    if p == "" || !StringList(table[p]) {
      assert !ProviderOk(table, providers, p);
      return false, owner;
    }
    assert forall a | a in owner :: owner[a] != p;
    ok, owner' := ClaimAliases(p, table[p], table.Keys + providers, owner);
    if ok {
      OwnedGrows(owner, table, done, p, owner');
    } else {
      RefusedClaim(owner, table, providers, done, p);
    }
  }

  ghost predicate PartOf(result: AliasTable, table: AliasTable, todo: set<string>) {
    result == map p | p in table && p !in todo :: SortStrings(table[p])
  }

  lemma PartGrows(result: AliasTable, table: AliasTable, todo: set<string>, p: string)
    requires PartOf(result, table, todo) && p in todo && p in table
    ensures PartOf(result[p := SortStrings(table[p])], table, todo - {p})
  {
  }

  method ValidateProviderAliases(table: AliasTable, providers: set<string>) returns (r: Option<AliasTable>)
    ensures r.Some? <==> AliasesOk(table, providers)
    ensures r.Some? ==> r.value == SortedTable(table)
  {
    var owner: map<string, string>, result: AliasTable := map[], map[];
    var todo := table.Keys;
    while todo != {}
      invariant todo <= table.Keys && PartOf(result, table, todo)
      invariant forall p | p in table.Keys - todo :: ProviderOk(table, providers, p)
      invariant OwnedBy(owner, table, table.Keys - todo)
      decreases |todo|
    {
      var p :| p in todo;
      var ok: bool;
      ok, owner := ValidateProvider(table, providers, p, owner, table.Keys - todo);
      if !ok {
        return None;
      }
      assert table.Keys - (todo - {p}) == table.Keys - todo + {p};
      PartGrows(result, table, todo, p);
      result := result[p := SortStrings(table[p])];
      todo := todo - {p};
    }
    OwnedOnce(owner, table, todo);
    return Some(result);
  }

  lemma RefusedClaim(owner: map<string, string>, table: AliasTable, providers: set<string>, done: set<string>, p: string)
    requires OwnedBy(owner, table, done) && p in table && p !in done
    requires exists a | a in table[p] :: a in table.Keys + providers || a in owner
    ensures !AliasesOk(table, providers)
  {
    var a :| a in table[p] && (a in table.Keys + providers || a in owner);
    if a in owner {
      var q := owner[a];
      assert q in table && p != q && a in table[q];
    } else {
      assert !ProviderOk(table, providers, p);
    }
  }

  method CountCoverage(entries: seq<Entry>) returns (coverage: map<string, Counts>)
    ensures coverage == Coverage(entries)
  {
    coverage := map[];
    for i := 0 to |entries|
      invariant coverage == Coverage(entries[..i])
    {
      var e := entries[i];
      var c := if e.provider in coverage then coverage[e.provider] else Counts(0, 0, 0);
      CoverageGrows(entries[..i], e);
      assert entries[..i + 1] == entries[..i] + [e];
      coverage := coverage[e.provider := Tally(c, e.decision)];
    }
    assert entries[..|entries|] == entries;
  }

  lemma {:induction false} AbsentProviderCountsZero(entries: seq<Entry>, p: string)
    requires p !in Providers(entries)
    ensures Count(entries, p) == Counts(0, 0, 0)
  {
    if entries != [] {
      var init, e := entries[..|entries| - 1], entries[|entries| - 1];
      assert e in entries && forall e' | e' in init :: e' in entries;
      AbsentProviderCountsZero(init, p);
    }
  }

  lemma CoverageGrows(entries: seq<Entry>, e: Entry)
    ensures var c := if e.provider in Coverage(entries) then Coverage(entries)[e.provider] else Counts(0, 0, 0);
            Coverage(entries + [e]) == Coverage(entries)[e.provider := Tally(c, e.decision)]
  {
    var all := entries + [e];
    assert all[..|all| - 1] == entries && all[|all| - 1] == e;
    assert forall e' :: e' in all <==> e' in entries || e' == e;
    assert Providers(all) == Providers(entries) + {e.provider};
    if e.provider !in Providers(entries) {
      AbsentProviderCountsZero(entries, e.provider);
    }
  }

  method ValidateEntries(d: Document, v: Vocabulary) returns (r: Option<seq<Entry>>)
    ensures r.Some? <==> UniqueIds(d.entries) && forall e | e in d.entries :: ValidEntry(e, d.sources.Keys, v)
    ensures r.Some? ==> r.value == CanonicalAll(d.entries)
  {
    var entries: seq<Entry>, byTuple: set<Id> := [], {};
    for i := 0 to |d.entries|
      invariant entries == CanonicalAll(d.entries[..i])
      invariant UniqueIds(d.entries[..i]) && forall e | e in d.entries[..i] :: ValidEntry(e, d.sources.Keys, v)
      invariant forall id :: id in byTuple <==> exists k | 0 <= k < i :: IdOf(d.entries[k]) == id
    {
      var e := d.entries[i];
      assert e in d.entries && d.entries[..i + 1] == d.entries[..i] + [e];
      if !ValidEntry(e, d.sources.Keys, v) {
        return None;
      }
      if IdOf(e) in byTuple {
        return None;
      }
      byTuple := byTuple + {IdOf(e)};
      entries := entries + [Canonical(e)];
    }
    assert d.entries[..|d.entries|] == d.entries;
    return Some(entries);
  }

  /** The builder accepts exactly the acceptable ledgers and answers with their document. */
  method BuildCatalogAuthority(rows: PricingRows, d: Document, v: Vocabulary) returns (r: Option<Authority>)
    ensures r.Some? <==> Acceptable(rows, d, v)
    ensures r.Some? ==> r.value == Output(rows, d)
  {
    if !HeaderOk(d) {
      return None;
    }
    var validated := ValidateEntries(d, v);
    if validated.None? {
      return None;
    }
    var entries := validated.value;
    CanonicalKeepsNames(d.entries, d.sources.Keys, v);
    var aliases := ValidateProviderAliases(d.providerAliases, Providers(entries));
    if aliases.None? {
      return None;
    }
    if !RowsOk(rows) || Ids(entries) != Tuples(rows) {
      return None;
    }
    var ok := CheckNames(entries, Ids(entries));
    if !ok {
      return None;
    }
    var sorted := Sort(LessEntry, entries);
    var coverage := CountCoverage(sorted);
    var semantic := Semantic(d.revision, SortStrings(d.enforced), aliases.value, sorted);
    return Some(Authority(semantic, OfDecisions(semantic, d.sources), OfUniverse(Tuples(rows)), OfClassification(semantic),
                          coverage, |sorted|));
  }

  // The same row under the same names.
  ghost predicate SameNames(e: Entry, f: Entry) {
    && e.provider == f.provider && e.key == f.key
    && forall n :: (IsCatalogId(e, n) <==> IsCatalogId(f, n)) && (IsAlias(e, n) <==> IsAlias(f, n))
  }

  lemma CanonicalKeepsOneName(e: Entry, sources: set<string>, v: Vocabulary)
    requires ValidEntry(e, sources, v)
    ensures SameNames(Canonical(e), e) && ValidEntry(Canonical(e), sources, v) && Canonical(Canonical(e)) == Canonical(e)
  {
    SortedStrings(e.evidence);
    if e.decision.Callable? {
      SortedStrings(e.decision.endpoints);
      SortedStrings(e.decision.capabilities);
      SortedStrings(e.decision.parameters);
      SortedStrings(e.decision.aliases);
    }
  }

  ghost predicate SameNamesThroughout(entries: seq<Entry>, all: seq<Entry>) {
    |all| == |entries| && forall i | 0 <= i < |entries| :: SameNames(all[i], entries[i])
  }

  lemma CanonicalKeepsNames(entries: seq<Entry>, sources: set<string>, v: Vocabulary)
    requires forall e | e in entries :: ValidEntry(e, sources, v)
    ensures UniqueIds(CanonicalAll(entries)) <==> UniqueIds(entries)
    ensures Ids(CanonicalAll(entries)) == Ids(entries) && Providers(CanonicalAll(entries)) == Providers(entries)
    ensures Unambiguous(CanonicalAll(entries)) <==> Unambiguous(entries)
  {
    var all := CanonicalAll(entries);
    forall i | 0 <= i < |entries| ensures SameNames(all[i], entries[i]) && SameNames(entries[i], all[i]) {
      assert entries[i] in entries;
      CanonicalKeepsOneName(entries[i], sources, v);
    }
    SameNamesSameVerdict(entries, all);
    SameNamesSameVerdict(all, entries);
  }

  lemma SameNamesSameIds(entries: seq<Entry>, all: seq<Entry>)
    requires SameNamesThroughout(entries, all)
    ensures UniqueIds(entries) ==> UniqueIds(all)
    ensures Ids(all) <= Ids(entries) && Providers(all) <= Providers(entries)
    ensures forall e | e in all :: exists f | f in entries :: SameNames(e, f)
  {
    forall i, j | 0 <= i < j < |all| && UniqueIds(entries) ensures IdOf(all[i]) != IdOf(all[j]) {
      assert SameNames(all[i], entries[i]) && SameNames(all[j], entries[j]) && IdOf(entries[i]) != IdOf(entries[j]);
    }
    forall e | e in all ensures exists f | f in entries :: SameNames(e, f) {
      var i :| 0 <= i < |all| && all[i] == e;
      assert entries[i] in entries && SameNames(all[i], entries[i]);
    }
    forall e | e in all ensures IdOf(e) in Ids(entries) && e.provider in Providers(entries) {
      var f :| f in entries && SameNames(e, f);
      assert IdOf(f) in Ids(entries) && f.provider in Providers(entries);
    }
  }

  lemma SameNamesSameVerdict(entries: seq<Entry>, all: seq<Entry>)
    requires SameNamesThroughout(entries, all)
    ensures UniqueIds(entries) ==> UniqueIds(all)
    ensures Ids(all) <= Ids(entries) && Providers(all) <= Providers(entries)
    ensures Unambiguous(entries) ==> Unambiguous(all)
  {
    SameNamesSameIds(entries, all);
    if Unambiguous(entries) {
      UnambiguousTransfers(entries, all);
    }
  }

  lemma UnambiguousTransfers(entries: seq<Entry>, all: seq<Entry>)
    requires forall e | e in all :: exists f | f in entries :: SameNames(e, f)
    requires Unambiguous(entries)
    ensures Unambiguous(all)
  {
    forall e, e', n | e in all && e' in all && e.provider == e'.provider
      ensures Resolves(e, n) && Resolves(e', n) ==> IdOf(e) == IdOf(e')
      ensures IsAlias(e, n) ==> n != e'.key && !IsCatalogId(e', n)
    {
      SameNamesSameConflicts(entries, all, e, e', n);
    }
  }

  lemma SameNamesSameConflicts(entries: seq<Entry>, all: seq<Entry>, e: Entry, e': Entry, n: string)
    requires forall e | e in all :: exists f | f in entries :: SameNames(e, f)
    requires Unambiguous(entries) && e in all && e' in all && e.provider == e'.provider
    ensures Resolves(e, n) && Resolves(e', n) ==> IdOf(e) == IdOf(e')
    ensures IsAlias(e, n) ==> n != e'.key && !IsCatalogId(e', n)
  {
    var f :| f in entries && SameNames(e, f);
    var f' :| f' in entries && SameNames(e', f');
    TransferVerdict(entries, e, e', f, f', n);
  }

  lemma TransferVerdict(entries: seq<Entry>, e: Entry, e': Entry, f: Entry, f': Entry, n: string)
    requires Unambiguous(entries) && f in entries && f' in entries
    requires SameNames(e, f) && SameNames(e', f') && e.provider == e'.provider
    ensures Resolves(e, n) && Resolves(e', n) ==> IdOf(e) == IdOf(e')
    ensures IsAlias(e, n) ==> n != e'.key && !IsCatalogId(e', n)
  {
    assert Resolves(f, n) && Resolves(f', n) ==> IdOf(f) == IdOf(f');
    assert IsAlias(f, n) ==> n != f'.key && !IsCatalogId(f', n);
  }
}
