/** The decision ledger between two imports: retired pending rows leave, new rows enter. */
module Ledger {
  import opened Wrappers
  import opened Orders
  import opened Sorting

  // A field that is not a string reads as None; an entry that is no object is Junk.
  datatype LedgerEntry =
    | Junk
    | Record(provider: Option<string>, key: Option<string>, decision: Option<string>, evidence: seq<string>, rest: string)

  type Identity = (Option<string>, string)

  // `other` stands for the remaining contents of a source record.
  datatype Source = NotARecord | Source(reviewedOn: Option<string>, location: string, revision: string, sha256: string, other: string)

  // Entries and sources are None where the document has no list or no object.
  datatype Decisions = Decisions(entries: Option<seq<LedgerEntry>>, sources: Option<map<string, Source>>, rest: string)

  // Pricing rows: key to provider.
  type Rows = map<string, Option<string>>

  const UNREVIEWED := "unreviewed"
  const PENDING_KIND := "kind=runtime_pricing_row_pending_provider_review"

  function Identities(rows: Rows): set<Identity> {
    set k | k in rows :: (rows[k], k)
  }

  // ---- prune ----

  predicate Retired(e: LedgerEntry, identities: set<Identity>) {
    e.Record? && e.decision == Some(UNREVIEWED) && e.provider.Some? && e.key.Some?
    && (e.provider, e.key.value) !in identities
  }

  function Keep(entries: seq<LedgerEntry>, identities: set<Identity>): seq<LedgerEntry> {
    if entries == [] then []
    else
      var kept, last := Keep(entries[..|entries| - 1], identities), entries[|entries| - 1];
      if Retired(last, identities) then kept else kept + [last]
  }

  method PruneRetiredUnreviewed(rows: Rows, d: Decisions) returns (r: Decisions)
    ensures d.entries.None? ==> r == d
    ensures d.entries.Some? ==> r == d.(entries := Some(Keep(d.entries.value, Identities(rows))))
  {
    if d.entries.None? {
      return d;
    }
    var identities := Identities(rows);
    var entries := d.entries.value;
    var retained := [];
    for i := 0 to |entries|
      invariant retained == Keep(entries[..i], identities)
    {
      assert entries[..i + 1][..i] == entries[..i];
      if Retired(entries[i], identities) {
        continue;
      }
      retained := retained + [entries[i]];
    }
    assert entries[..|entries|] == entries;
    return d.(entries := Some(retained));
  }

  // ---- add ----

  predicate WellFormed(entries: seq<LedgerEntry>) {
    forall e | e in entries :: e.Record? && e.provider.Some? && e.key.Some?
  }

  function IdentityOf(e: LedgerEntry): Identity
    requires e.Record? && e.key.Some?
  {
    (e.provider, e.key.value)
  }

  function Known(entries: seq<LedgerEntry>): set<Identity>
    requires WellFormed(entries)
  {
    set e | e in entries :: IdentityOf(e)
  }

  // The rows without a decision, in key order.
  function Missing(rows: Rows, keys: seq<string>, known: set<Identity>): seq<Identity>
    requires forall k | k in keys :: k in rows
  {
    if keys == [] then []
    else (if (rows[keys[0]], keys[0]) in known then [] else [(rows[keys[0]], keys[0])]) + Missing(rows, keys[1..], known)
  }

  // The keys of the rows in ascending order: a library sort of a dictionary.
  ghost predicate SortedKeys(keys: seq<string>, rows: Rows) {
    StrictlySorted(Less, keys) && forall k :: k in keys <==> k in rows
  }

  function Pending(ids: seq<Identity>, source: string): (r: seq<LedgerEntry>)
    ensures |r| == |ids|
    ensures forall i | 0 <= i < |ids| :: r[i] == Record(ids[i].0, Some(ids[i].1), Some(UNREVIEWED), [source], "")
  {
    seq(|ids|, i requires 0 <= i < |ids| => Record(ids[i].0, Some(ids[i].1), Some(UNREVIEWED), [source], ""))
  }

  function SourceId(commit: string): string {
    "upstream-pricing-" + commit
  }

  datatype Import = Import(url: string, commit: string, sha256: string, asOf: string)

  // The evidence record of this import; an earlier import of the same commit keeps its date.
  function Evidence(i: Import, sources: map<string, Source>): Source {
    var record := Source(Some(i.asOf), i.url, i.commit, i.sha256, PENDING_KIND);
    if SourceId(i.commit) in sources
    then record.(reviewedOn := match sources[SourceId(i.commit)] case Source(on, _, _, _, _) => on case NotARecord => None)
    else record
  }

  predicate Conflicts(i: Import, sources: map<string, Source>) {
    SourceId(i.commit) in sources && sources[SourceId(i.commit)] != Evidence(i, sources)
  }

  /** Rows without a decision are recorded as pending; every existing decision stays as it is. */
  function AddUnreviewed(rows: Rows, keys: seq<string>, d: Decisions, i: Import): Result<Decisions, ()>
    requires forall k | k in keys :: k in rows
  {
    if d.entries.None? || d.sources.None? || !WellFormed(d.entries.value) then Ok(d)
    else
      var missing := Missing(rows, keys, Known(d.entries.value));
      if missing == [] then Ok(d)
      else if Conflicts(i, d.sources.value) then Err(())
      else Ok(d.(entries := Some(d.entries.value + Pending(missing, SourceId(i.commit))),
                 sources := Some(d.sources.value[SourceId(i.commit) := Evidence(i, d.sources.value)])))
  }

  // ---- what the two steps together guarantee ----

  lemma {:induction false} InKeep(entries: seq<LedgerEntry>, identities: set<Identity>)
    ensures forall e :: e in Keep(entries, identities) <==> e in entries && !Retired(e, identities)
  {
    if entries != [] {
      InKeep(entries[..|entries| - 1], identities);
      assert entries == entries[..|entries| - 1] + [entries[|entries| - 1]];
    }
  }

  lemma {:induction false} InMissing(rows: Rows, keys: seq<string>, known: set<Identity>)
    requires forall k | k in keys :: k in rows
    ensures forall id :: id in Missing(rows, keys, known) <==> id.1 in keys && id.0 == rows[id.1] && id !in known
  {
    if keys != [] {
      InMissing(rows, keys[1..], known);
      assert keys == [keys[0]] + keys[1..];
    }
  }

  predicate Reviewed(e: LedgerEntry) {
    e.Record? && e.decision != Some(UNREVIEWED)
  }

  function ReviewedOf(entries: seq<LedgerEntry>): seq<LedgerEntry> {
    if entries == [] then []
    else
      var init, last := ReviewedOf(entries[..|entries| - 1]), entries[|entries| - 1];
      if Reviewed(last) then init + [last] else init
  }

  /** Every reviewed decision survives pruning, unchanged and in its place in the order. */
  lemma {:induction false} PruneKeepsReviewed(entries: seq<LedgerEntry>, identities: set<Identity>)
    ensures ReviewedOf(Keep(entries, identities)) == ReviewedOf(entries)
  {
    if entries != [] {
      var init, last := entries[..|entries| - 1], entries[|entries| - 1];
      PruneKeepsReviewed(init, identities);
      var kept := Keep(init, identities);
      assert (kept + [last])[..|kept|] == kept;
    }
  }

  lemma {:induction false} PendingAddsNoReview(entries: seq<LedgerEntry>, ids: seq<Identity>, source: string)
    ensures ReviewedOf(entries + Pending(ids, source)) == ReviewedOf(entries)
    decreases |ids|
  {
    var all := entries + Pending(ids, source);
    if ids == [] {
      assert all == entries;
    } else {
      var init := ids[..|ids| - 1];
      PendingAddsNoReview(entries, init, source);
      assert all[..|all| - 1] == entries + Pending(init, source);
    }
  }

  predicate UniqueIdentities(entries: seq<LedgerEntry>)
    requires WellFormed(entries)
  {
    forall i, j | 0 <= i < j < |entries| :: IdentityOf(entries[i]) != IdentityOf(entries[j])
  }

  /** Prune over the rows, then add over the same rows or a part of them. The result classifies
      every added row; what is stale in it was reviewed; reviewed decisions are the same, in
      order; and doing both again -- with the same import or a later one -- changes nothing. */
  lemma ImportSettlesTheLedger(rows: Rows, part: Rows, keys: seq<string>, d: Decisions, i: Import, again: Import)
    requires d.entries.Some? && d.sources.Some? && WellFormed(d.entries.value)
    requires part.Keys <= rows.Keys && forall k | k in part :: part[k] == rows[k] && part[k].Some?
    requires SortedKeys(keys, part)
    requires AddUnreviewed(part, keys, d.(entries := Some(Keep(d.entries.value, Identities(rows)))), i).Ok?
    ensures var pruned := d.(entries := Some(Keep(d.entries.value, Identities(rows))));
            var r := AddUnreviewed(part, keys, pruned, i).value;
            && r.entries.Some? && WellFormed(r.entries.value)
            && Identities(part) <= Known(r.entries.value)
            && (forall e | e in r.entries.value :: IdentityOf(e) !in Identities(rows) ==> Reviewed(e) && e in d.entries.value)
            && ReviewedOf(r.entries.value) == ReviewedOf(d.entries.value)
            && Keep(r.entries.value, Identities(rows)) == r.entries.value
            && AddUnreviewed(part, keys, r, again) == Ok(r)
  {
    var ids := Identities(rows);
    var kept := Keep(d.entries.value, ids);
    InKeep(d.entries.value, ids);
    var pruned := d.(entries := Some(kept));
    assert WellFormed(kept);
    var missing := Missing(part, keys, Known(kept));
    InMissing(part, keys, Known(kept));
    PruneKeepsReviewed(d.entries.value, ids);
    PendingAddsNoReview(kept, missing, SourceId(i.commit));
    var all := AddUnreviewed(part, keys, pruned, i).value.entries.value;
    assert Pending([], SourceId(i.commit)) == [] && kept + [] == kept;
    assert all == kept + Pending(missing, SourceId(i.commit));
    PendingIsClassified(part, kept, missing, SourceId(i.commit));
    NothingRetired(rows, kept, missing, SourceId(i.commit));
    KeepAll(all, ids);
    NothingMissing(part, keys, Known(all));
  }

  lemma {:induction false} NothingMissing(rows: Rows, keys: seq<string>, known: set<Identity>)
    requires Identities(rows) <= known && forall k | k in keys :: k in rows
    ensures Missing(rows, keys, known) == []
  {
    if keys != [] {
      assert (rows[keys[0]], keys[0]) in Identities(rows);
      NothingMissing(rows, keys[1..], known);
    }
  }

  lemma NothingRetired(rows: Rows, kept: seq<LedgerEntry>, missing: seq<Identity>, source: string)
    requires forall e | e in kept :: !Retired(e, Identities(rows))
    requires forall id | id in missing :: id in Identities(rows)
    ensures forall e | e in kept + Pending(missing, source) :: !Retired(e, Identities(rows))
  {
    forall e | e in kept + Pending(missing, source) ensures !Retired(e, Identities(rows)) {
      if e !in kept {
        var n :| 0 <= n < |missing| && e == Pending(missing, source)[n];
        assert missing[n] in missing;
      }
    }
  }

  lemma PendingIsClassified(part: Rows, kept: seq<LedgerEntry>, missing: seq<Identity>, source: string)
    requires WellFormed(kept) && forall id | id in missing :: id.0.Some?
    requires forall k | k in part :: (part[k], k) in missing || (part[k], k) in Known(kept)
    ensures WellFormed(kept + Pending(missing, source))
    ensures Identities(part) <= Known(kept + Pending(missing, source))
  {
    var all := kept + Pending(missing, source);
    forall e | e in all ensures e.Record? && e.provider.Some? && e.key.Some? {
      if e !in kept {
        var n :| 0 <= n < |missing| && e == Pending(missing, source)[n];
        assert missing[n] in missing;
      }
    }
    forall k | k in part ensures (part[k], k) in Known(all) {
      if (part[k], k) in missing {
        var n :| 0 <= n < |missing| && missing[n] == (part[k], k);
        assert all[|kept| + n] in all && IdentityOf(all[|kept| + n]) == (part[k], k);
      } else {
        var e :| e in kept && IdentityOf(e) == (part[k], k);
        assert e in all;
      }
    }
  }

  lemma {:induction false} KeepAll(entries: seq<LedgerEntry>, identities: set<Identity>)
    requires forall e | e in entries :: !Retired(e, identities)
    ensures Keep(entries, identities) == entries
  {
    if entries != [] {
      var init, last := entries[..|entries| - 1], entries[|entries| - 1];
      assert entries == init + [last];
      KeepAll(init, identities);
    }
  }

  lemma {:induction false} MissingIsUnique(rows: Rows, keys: seq<string>, known: set<Identity>)
    requires StrictlySorted(Less, keys) && forall k | k in keys :: k in rows
    ensures Distinct(Missing(rows, keys, known))
  {
    if keys != [] {
      MissingIsUnique(rows, keys[1..], known);
      InMissing(rows, keys[1..], known);
      LessIsTotal(keys[0], keys[0]);
      assert forall k | k in keys[1..] :: Less(keys[0], k);
    }
  }

  lemma {:induction false} KeepIsUnique(entries: seq<LedgerEntry>, identities: set<Identity>)
    requires WellFormed(entries) && UniqueIdentities(entries)
    ensures WellFormed(Keep(entries, identities)) && UniqueIdentities(Keep(entries, identities))
  {
    if entries != [] {
      var init, last := entries[..|entries| - 1], entries[|entries| - 1];
      assert entries == init + [last];
      KeepIsUnique(init, identities);
      InKeep(init, identities);
      LastIsNew(entries);
      var kept := Keep(init, identities);
      assert forall e | e in kept :: IdentityOf(e) != IdentityOf(last);
    }
  }

  lemma LastIsNew(entries: seq<LedgerEntry>)
    requires entries != [] && WellFormed(entries) && UniqueIdentities(entries)
    ensures WellFormed(entries[..|entries| - 1]) && UniqueIdentities(entries[..|entries| - 1])
    ensures entries[|entries| - 1] in entries
    ensures forall e | e in entries[..|entries| - 1] :: e in entries && IdentityOf(e) != IdentityOf(entries[|entries| - 1])
  {
    forall e | e in entries[..|entries| - 1] ensures e in entries && IdentityOf(e) != IdentityOf(entries[|entries| - 1]) {
      var k :| 0 <= k < |entries| - 1 && entries[k] == e;
      assert IdentityOf(entries[k]) != IdentityOf(entries[|entries| - 1]);
    }
  }

  /** Unique identities stay unique, so every pricing row is classified exactly once. */
  lemma ImportKeepsIdentitiesUnique(rows: Rows, part: Rows, keys: seq<string>, d: Decisions, i: Import)
    requires d.entries.Some? && d.sources.Some? && WellFormed(d.entries.value) && UniqueIdentities(d.entries.value)
    requires SortedKeys(keys, part) && forall k | k in part :: part[k].Some?
    requires AddUnreviewed(part, keys, d.(entries := Some(Keep(d.entries.value, Identities(rows)))), i).Ok?
    ensures var pruned := d.(entries := Some(Keep(d.entries.value, Identities(rows))));
            var r := AddUnreviewed(part, keys, pruned, i).value;
            r.entries.Some? && WellFormed(r.entries.value) && UniqueIdentities(r.entries.value)
  {
    var kept := Keep(d.entries.value, Identities(rows));
    KeepIsUnique(d.entries.value, Identities(rows));
    var missing := Missing(part, keys, Known(kept));
    InMissing(part, keys, Known(kept));
    MissingIsUnique(part, keys, Known(kept));
    var source := SourceId(i.commit);
    PendingIsClassified(part, kept, missing, source);
    assert Pending([], source) == [] && kept + [] == kept;
    var all := kept + Pending(missing, source);
    forall a, b | 0 <= a < b < |all| ensures IdentityOf(all[a]) != IdentityOf(all[b]) {
      if b >= |kept| {
        assert missing[b - |kept|] in missing;
        if a < |kept| {
          assert kept[a] in kept;
        }
      }
    }
  }
}
