/** The authority document is canonical: it depends on the set of decisions only, rebuilding it
    changes nothing, and its counts account for every pricing row. */
module CatalogCanonical {
  import opened Orders
  import opened Sorting
  import opened Catalog
  import opened CatalogAuthority

  lemma EntryOrderIsStrict()
    ensures IsStrictOrder(LessEntry)
  {
    forall a ensures !LessEntry(a, a) {
      LessIsTotal(a.provider, a.provider);
      LessIsTotal(a.key, a.key);
    }
    forall a, b, c | LessEntry(a, b) && LessEntry(b, c) ensures LessEntry(a, c) {
      if Less(a.provider, b.provider) && Less(b.provider, c.provider) {
        LessIsTransitive(a.provider, b.provider, c.provider);
      }
      if Less(a.key, b.key) && Less(b.key, c.key) {
        LessIsTransitive(a.key, b.key, c.key);
      }
    }
  }

  lemma UniqueIdsAreComparable(entries: seq<Entry>)
    requires UniqueIds(entries)
    ensures Comparable(LessEntry, entries)
  {
    forall i, j | 0 <= i < j < |entries| ensures LessEntry(entries[i], entries[j]) || LessEntry(entries[j], entries[i]) {
      LessIsTotal(entries[i].provider, entries[j].provider);
      LessIsTotal(entries[i].key, entries[j].key);
      assert IdOf(entries[i]) != IdOf(entries[j]);
    }
  }

  // Identities are unique exactly when there are as many as entries.
  lemma {:induction false} UniqueIdsByCount(entries: seq<Entry>)
    ensures |Ids(entries)| <= |entries|
    ensures UniqueIds(entries) <==> |Ids(entries)| == |entries|
  {
    if entries == [] {
      assert Ids(entries) == {};
    } else {
      var init, e := entries[..|entries| - 1], entries[|entries| - 1];
      UniqueIdsByCount(init);
      assert entries == init + [e];
      assert Ids(entries) == Ids(init) + {IdOf(e)};
      assert UniqueIds(entries) <==> UniqueIds(init) && IdOf(e) !in Ids(init) by {
        IdIsNew(init, e);
      }
    }
  }

  lemma IdIsNew(init: seq<Entry>, e: Entry)
    ensures UniqueIds(init + [e]) <==> UniqueIds(init) && IdOf(e) !in Ids(init)
  {
    var all := init + [e];
    assert forall i | 0 <= i < |init| :: all[i] == init[i] && init[i] in init;
    if UniqueIds(all) {
      forall f | f in init ensures IdOf(f) != IdOf(e) {
        var i :| 0 <= i < |init| && init[i] == f;
        assert IdOf(all[i]) != IdOf(all[|init|]);
      }
      forall i, j | 0 <= i < j < |init| ensures IdOf(init[i]) != IdOf(init[j]) {
        assert IdOf(all[i]) != IdOf(all[j]);
      }
    }
  }

  ghost predicate Permuted(d: Document, d': Document) {
    multiset(d.entries) == multiset(d'.entries) && d' == d.(entries := d'.entries)
  }

  lemma PermutedMembers(s: seq<Entry>, t: seq<Entry>)
    requires multiset(s) == multiset(t)
    ensures forall e :: e in s <==> e in t
    ensures |s| == |t| && Ids(s) == Ids(t) && Providers(s) == Providers(t)
    ensures UniqueIds(s) <==> UniqueIds(t)
    ensures Unambiguous(s) <==> Unambiguous(t)
  {
    forall e ensures e in s <==> e in t {
      assert e in multiset(s) <==> e in multiset(t);
    }
    assert |s| == |multiset(s)| == |multiset(t)| == |t|;
    UniqueIdsByCount(s);
    UniqueIdsByCount(t);
  }

  /** Acceptance and the whole output document are the same for every order of the input. */
  lemma OrderDoesNotMatter(rows: PricingRows, d: Document, d': Document, v: Vocabulary)
    requires Permuted(d, d')
    ensures Acceptable(rows, d, v) <==> Acceptable(rows, d', v)
    ensures Acceptable(rows, d, v) ==> Output(rows, d) == Output(rows, d')
  {
    PermutedMembers(d.entries, d'.entries);
    if Acceptable(rows, d, v) {
      var c, c' := CanonicalAll(d.entries), CanonicalAll(d'.entries);
      CanonicalKeepsNames(d.entries, d.sources.Keys, v);
      CanonicalKeepsNames(d'.entries, d.sources.Keys, v);
      CanonicalMembers(d.entries, d'.entries);
      EntryOrderIsStrict();
      UniqueIdsAreComparable(c);
      UniqueIdsAreComparable(c');
      SortIgnoresOrder(LessEntry, c, c');
    }
  }

  lemma CanonicalMembers(s: seq<Entry>, t: seq<Entry>)
    requires forall e :: e in s <==> e in t
    ensures forall e :: e in CanonicalAll(s) <==> e in CanonicalAll(t)
  {
    forall e ensures e in CanonicalAll(s) ==> e in CanonicalAll(t) {
      CanonicalMember(s, t, e);
    }
    forall e ensures e in CanonicalAll(t) ==> e in CanonicalAll(s) {
      CanonicalMember(t, s, e);
    }
  }

  lemma CanonicalMember(s: seq<Entry>, t: seq<Entry>, e: Entry)
    requires forall f | f in s :: f in t
    ensures e in CanonicalAll(s) ==> e in CanonicalAll(t)
  {
    if i :| 0 <= i < |s| && CanonicalAll(s)[i] == e {
      assert s[i] in t;
      var j :| 0 <= j < |t| && t[j] == s[i];
      assert CanonicalAll(t)[j] == e;
    }
  }

  /** The entries of an accepted ledger come out in strictly ascending order of provider and
      key, canonical themselves, and one for every pricing row. */
  lemma OutputIsCanonical(rows: PricingRows, d: Document, v: Vocabulary)
    requires Acceptable(rows, d, v)
    ensures var out := Output(rows, d).Entries();
            && StrictlySorted(LessEntry, out) && UniqueIds(out) && Ids(out) == Tuples(rows)
            && (forall e :: e in out <==> e in CanonicalAll(d.entries))
            && forall e | e in out :: ValidEntry(e, d.sources.Keys, v) && Canonical(e) == e
  {
    var c := CanonicalAll(d.entries);
    CanonicalKeepsNames(d.entries, d.sources.Keys, v);
    EntryOrderIsStrict();
    UniqueIdsAreComparable(c);
    SortSorts(LessEntry, c);
    PermutedMembers(Sort(LessEntry, c), c);
    forall e | e in c ensures ValidEntry(e, d.sources.Keys, v) && Canonical(e) == e {
      var i :| 0 <= i < |c| && c[i] == e;
      assert d.entries[i] in d.entries;
      CanonicalKeepsOneName(d.entries[i], d.sources.Keys, v);
    }
  }

  /** Building again from the document's own entries is accepted and gives the same document. */
  lemma RebuildChangesNothing(rows: PricingRows, d: Document, v: Vocabulary)
    requires Acceptable(rows, d, v)
    ensures var again := d.(entries := Output(rows, d).Entries());
            Acceptable(rows, again, v) && Output(rows, again) == Output(rows, d)
  {
    OutputIsCanonical(rows, d, v);
    CanonicalKeepsNames(d.entries, d.sources.Keys, v);
    PermutedMembers(SortedEntries(d), CanonicalAll(d.entries));
    SortedAlready(rows, d, v);
  }

  lemma SortedAlready(rows: PricingRows, d: Document, v: Vocabulary)
    requires Acceptable(rows, d, v)
    ensures SortedEntries(d.(entries := SortedEntries(d))) == SortedEntries(d)
  {
    OutputIsCanonical(rows, d, v);
    CanonicalAlready(SortedEntries(d));
    SortOfSorted(SortedEntries(d));
  }

  lemma CanonicalAlready(entries: seq<Entry>)
    requires forall e | e in entries :: Canonical(e) == e
    ensures CanonicalAll(entries) == entries
  {
    assert forall i | 0 <= i < |entries| :: entries[i] in entries;
  }

  lemma SortOfSorted(entries: seq<Entry>)
    requires StrictlySorted(LessEntry, entries) && UniqueIds(entries)
    ensures Sort(LessEntry, entries) == entries
  {
    EntryOrderIsStrict();
    UniqueIdsAreComparable(entries);
    SortSorts(LessEntry, entries);
    SortKeepsElements(LessEntry, entries);
    assert forall e :: e in Sort(LessEntry, entries) <==> e in multiset(entries);
    SortedIsUnique(LessEntry, Sort(LessEntry, entries), entries);
  }

  // ---- counts ----

  function Total(c: Counts): nat {
    c.callable + c.pricingOnly + c.unreviewed
  }

  function TotalOf(coverage: map<string, Counts>, provider: string): nat {
    if provider in coverage then Total(coverage[provider]) else 0
  }

  function SumOf(xs: seq<nat>): nat {
    if xs == [] then 0 else xs[0] + SumOf(xs[1..])
  }

  function Sum(coverage: map<string, Counts>, providers: seq<string>): nat {
    SumOf(seq(|providers|, i requires 0 <= i < |providers| => TotalOf(coverage, providers[i])))
  }

  // How many of the entries each provider has.
  function Shares(entries: seq<Entry>, providers: seq<string>): (xs: seq<nat>)
    ensures |xs| == |providers| && forall i | 0 <= i < |xs| :: xs[i] == Total(Count(entries, providers[i]))
  {
    seq(|providers|, i requires 0 <= i < |providers| => Total(Count(entries, providers[i])))
  }

  lemma {:induction false} SumOfBump(xs: seq<nat>, k: nat)
    requires k < |xs|
    ensures SumOf(xs[k := xs[k] + 1]) == SumOf(xs) + 1
  {
    var more := xs[k := xs[k] + 1];
    if k == 0 {
      assert more[1..] == xs[1..];
    } else {
      SumOfBump(xs[1..], k - 1);
      assert more[1..] == xs[1..][k - 1 := xs[k] + 1];
    }
  }

  lemma {:induction false} SumOfZeros(xs: seq<nat>)
    requires forall i | 0 <= i < |xs| :: xs[i] == 0
    ensures SumOf(xs) == 0
  {
    if xs != [] {
      SumOfZeros(xs[1..]);
    }
  }

  lemma OneMoreShare(entries: seq<Entry>, e: Entry, p: string)
    ensures Total(Count(entries + [e], p)) == Total(Count(entries, p)) + if e.provider == p then 1 else 0
  {
    var all := entries + [e];
    assert all[..|all| - 1] == entries && all[|all| - 1] == e;
  }

  lemma SharesGrow(entries: seq<Entry>, e: Entry, providers: seq<string>, k: nat)
    requires Distinct(providers) && k < |providers| && providers[k] == e.provider
    ensures Shares(entries + [e], providers) == Shares(entries, providers)[k := Shares(entries, providers)[k] + 1]
  {
    forall i | 0 <= i < |providers|
      ensures Shares(entries + [e], providers)[i] == Shares(entries, providers)[i] + if i == k then 1 else 0
    {
      OneMoreShare(entries, e, providers[i]);
    }
  }

  lemma OneMoreEntry(entries: seq<Entry>, e: Entry, providers: seq<string>)
    requires Distinct(providers) && e.provider in providers
    ensures SumOf(Shares(entries + [e], providers)) == SumOf(Shares(entries, providers)) + 1
  {
    var k: nat :| k < |providers| && providers[k] == e.provider;
    SharesGrow(entries, e, providers, k);
    SumOfBump(Shares(entries, providers), k);
  }

  lemma {:induction false} SharesAddUp(entries: seq<Entry>, providers: seq<string>)
    requires Distinct(providers) && forall e | e in entries :: e.provider in providers
    ensures SumOf(Shares(entries, providers)) == |entries|
  {
    if entries == [] {
      SumOfZeros(Shares([], providers));
    } else {
      var init, e := entries[..|entries| - 1], entries[|entries| - 1];
      assert entries == init + [e] && e in entries && forall f | f in init :: f in entries;
      SharesAddUp(init, providers);
      OneMoreEntry(init, e, providers);
    }
  }

  lemma CoverageTotals(entries: seq<Entry>, p: string)
    ensures TotalOf(Coverage(entries), p) == Total(Count(entries, p))
  {
    if p !in Providers(entries) {
      AbsentProviderCountsZero(entries, p);
    }
  }

  lemma SumIsSumOfShares(entries: seq<Entry>, providers: seq<string>)
    ensures Sum(Coverage(entries), providers) == SumOf(Shares(entries, providers))
  {
    var coverage := Coverage(entries);
    var totals := seq(|providers|, i requires 0 <= i < |providers| => TotalOf(coverage, providers[i]));
    forall i | 0 <= i < |providers| ensures totals[i] == Shares(entries, providers)[i] {
      CoverageTotals(entries, providers[i]);
    }
    assert totals == Shares(entries, providers);
  }

  lemma {:induction false} TuplesCount(rows: PricingRows)
    requires RowsOk(rows)
    ensures |Tuples(rows)| == |rows|
    decreases |rows|
  {
    if rows == map[] {
      assert Tuples(rows) == {};
    } else {
      var k :| k in rows;
      var rest := rows - {k};
      assert rest.Keys == rows.Keys - {k};
      assert |rest| == |rest.Keys| == |rows| - 1;
      TuplesCount(rest);
      forall id ensures id in Tuples(rows) <==> id in Tuples(rest) || id == (rows[k].value, k) {
        assert id in Tuples(rows) <==> id.1 in rows && id == (rows[id.1].value, id.1);
        assert id in Tuples(rest) <==> id.1 in rest && id == (rest[id.1].value, id.1);
      }
      assert Tuples(rows) == Tuples(rest) + {(rows[k].value, k)};
    }
  }

  /** The provider and decision counts of an accepted ledger add up to the number of pricing
      rows, in whatever order the providers are listed. */
  lemma CountsCoverEveryRow(rows: PricingRows, d: Document, v: Vocabulary, providers: seq<string>)
    requires Acceptable(rows, d, v)
    requires Distinct(providers) && forall p :: p in providers <==> p in Output(rows, d).coverage
    ensures Sum(Output(rows, d).coverage, providers) == Output(rows, d).total == |rows|
  {
    var out := Output(rows, d).Entries();
    OutputIsCanonical(rows, d, v);
    forall e | e in out ensures e.provider in providers {
      assert e.provider in Providers(out);
    }
    SumIsSumOfShares(out, providers);
    SharesAddUp(out, providers);
    UniqueIdsByCount(out);
    TuplesCount(rows);
  }
}
