// What a handoff promises: an exported package is accepted, imports to the same session, and importing it twice is
// importing it once.
module SessionHandoffFacts {
  import opened Wrappers
  import opened Orders
  import opened SessionIdentity
  import opened SessionVerification
  import opened SessionHandoff

  // The adapter reads no empty source and none beyond the size limit.
  ghost predicate Bounded(a: Adapter) {
    forall raw :: a.load(raw).Some? ==> 0 < |raw| <= MAX_SOURCE_BYTES
  }

  // ----- the order of entries ---------------------------------------------------------------------------------

  lemma EntryLeTransitive(x: Entry, y: Entry, z: Entry)
    requires EntryLe(x, y) && EntryLe(y, z)
    ensures EntryLe(x, z)
  {
    var k, l, m := SortKeyOf(x.record.variant), SortKeyOf(y.record.variant), SortKeyOf(z.record.variant);
    KeyLeIsOrder(k, l, m);
    KeyLeIsOrder(l, k, m);
    KeyLeIsOrder(k, m, k);
  }

  lemma EntryLeIsOrder()
    ensures TotalPreorder(EntryLe)
  {
    forall x: Entry, y: Entry
      ensures EntryLe(x, y) || EntryLe(y, x)
    {
      KeyLeIsOrder(SortKeyOf(x.record.variant), SortKeyOf(y.record.variant), SortKeyOf(x.record.variant));
    }
    forall x: Entry, y: Entry, z: Entry | EntryLe(x, y) && EntryLe(y, z)
      ensures EntryLe(x, z)
    {
      EntryLeTransitive(x, y, z);
    }
  }

  // ----- adding records ---------------------------------------------------------------------------------------

  ghost predicate DistinctIds(records: seq<Record>) {
    forall i, j :: 0 <= i < j < |records| ==> records[i].variantId != records[j].variantId
  }

  lemma RecordIdsOneMore(records: seq<Record>)
    requires records != []
    ensures RecordIds(records) == RecordIds(records[..|records| - 1]) + {records[|records| - 1].variantId}
  {
    var n := |records| - 1;
    var shorter := records[..n];
    forall x | x in RecordIds(records)
      ensures x in RecordIds(shorter) + {records[n].variantId}
    {
      var i :| 0 <= i < |records| && records[i].variantId == x;
      assert i == n || shorter[i].variantId == x;
    }
    forall x | x in RecordIds(shorter) + {records[n].variantId}
      ensures x in RecordIds(records)
    {
      if x in RecordIds(shorter) {
        var i :| 0 <= i < n && shorter[i].variantId == x;
        assert records[i].variantId == x;
      } else {
        assert records[n].variantId == x;
      }
    }
  }

  lemma LastIsNew(records: seq<Record>)
    requires records != [] && DistinctIds(records)
    ensures records[|records| - 1].variantId !in RecordIds(records[..|records| - 1])
  {
  }

  ghost predicate KeepsOld(variants: map<Hash, Record>, added: map<Hash, Record>) {
    forall v :: v in variants ==> v in added && added[v] == variants[v]
  }

  ghost predicate GivesNew(variants: map<Hash, Record>, added: map<Hash, Record>, records: seq<Record>) {
    forall i :: 0 <= i < |records| ==>
      && records[i].variantId in added
      && (records[i].variantId !in variants ==> added[records[i].variantId] == records[i])
  }

  // Adding keeps every old variant and gives each new id its record.
  lemma {:induction false} AddedHolds(variants: map<Hash, Record>, records: seq<Record>)
    requires DistinctIds(records)
    ensures KeepsOld(variants, AddAll(variants, records)) && GivesNew(variants, AddAll(variants, records), records)
    ensures AddAll(variants, records).Keys == variants.Keys + RecordIds(records)
    decreases |records|
  {
    if records != [] {
      var n := |records| - 1;
      AddedHolds(variants, records[..n]);
      RecordIdsOneMore(records);
      LastIsNew(records);
      var before := AddAll(variants, records[..n]);
      forall i | 0 <= i < |records|
        ensures records[i].variantId in AddAll(variants, records)
        ensures records[i].variantId !in variants ==> AddAll(variants, records)[records[i].variantId] == records[i]
      {
        if i < n {
          assert records[..n][i] == records[i];
          assert records[i].variantId != records[n].variantId;
        }
      }
    }
  }

  // Records that are all there already add nothing.
  lemma {:induction false} NothingToAdd(variants: map<Hash, Record>, records: seq<Record>)
    requires forall i :: 0 <= i < |records| ==> records[i].variantId in variants
    ensures AddAll(variants, records) == variants
    decreases |records|
  {
    if records != [] {
      NothingToAdd(variants, records[..|records| - 1]);
    }
  }

  // ----- export is accepted -----------------------------------------------------------------------------------

  lemma SortedNeighbours(entries: seq<Entry>)
    ensures InOrder(Sort(EntryLe, entries))
  {
    EntryLeIsOrder();
    SortSorted(EntryLe, entries);
  }

  lemma DistinctKept(entries: seq<Entry>)
    requires !Repeats(entries)
    ensures !Repeats(Sort(EntryLe, entries))
  {
    var sorted := Sort(EntryLe, entries);
    SortMultiset(EntryLe, entries);
    SameMembers(sorted, entries);
    if Repeats(sorted) {
      var i, j :| 0 <= i < j < |sorted| && sorted[i].record.variantId == sorted[j].record.variantId;
      OneEntryPerId(entries, sorted[i], sorted[j]);
      TwiceCounted(sorted, i, j);
      var k, l := CountedTwice(entries, sorted[i]);
      RepeatsSeen(entries, k, l);
    }
  }

  lemma RepeatsSeen(entries: seq<Entry>, k: nat, l: nat)
    requires k < l < |entries| && entries[k].record.variantId == entries[l].record.variantId
    ensures Repeats(entries)
  {
  }

  lemma OneEntryPerId(entries: seq<Entry>, x: Entry, y: Entry)
    requires !Repeats(entries) && x in entries && y in entries && x.record.variantId == y.record.variantId
    ensures x == y
  {
    var i :| 0 <= i < |entries| && entries[i] == x;
    var j :| 0 <= j < |entries| && entries[j] == y;
    assert i == j;
  }

  // Every variant lies under its own id.
  ghost predicate OwnIds(s: Stored) {
    forall v :: v in s.variants ==> s.variants[v].variantId == v
  }

  lemma LoadedOwnsId(a: Adapter, s: Stored, v: Hash)
    requires Loads(a, s, v)
    ensures v in s.variants && s.variants[v].variantId == v && IsRecordOf(a, s.header, s.variants[v])
  {
  }

  lemma EntryAt(s: Stored, prepared: map<Hash, Preparation>, i: nat)
    requires OwnIds(s) && i < |Ids(s.variants.Keys)|
    ensures
      var id := Ids(s.variants.Keys)[i];
      var e := EntriesOf(s, prepared, Ids(s.variants.Keys))[i];
      id in s.variants && e.record == s.variants[id] && e.record.variantId == id
  {
    assert Ids(s.variants.Keys)[i] in Ids(s.variants.Keys);
  }

  lemma ListedOnce(s: Stored, prepared: map<Hash, Preparation>)
    requires OwnIds(s)
    ensures !Repeats(EntriesOf(s, prepared, Ids(s.variants.Keys)))
  {
    var entries := EntriesOf(s, prepared, Ids(s.variants.Keys));
    IdsAscend(s.variants.Keys);
    forall i, j | 0 <= i < j < |entries|
      ensures entries[i].record.variantId != entries[j].record.variantId
    {
      EntryAt(s, prepared, i);
      EntryAt(s, prepared, j);
    }
  }

  lemma ListedEntries(s: Stored, prepared: map<Hash, Preparation>)
    requires OwnIds(s)
    ensures
      var entries := EntriesOf(s, prepared, Ids(s.variants.Keys));
      && |entries| == |s.variants|
      && (forall e :: e in entries ==> e.record.variantId in s.variants && s.variants[e.record.variantId] == e.record)
      && (forall v :: v in s.variants ==> exists e :: e in entries && e.record == s.variants[v])
  {
    var ids := Ids(s.variants.Keys);
    var entries := EntriesOf(s, prepared, ids);
    assert |s.variants| == |s.variants.Keys|;
    forall e | e in entries
      ensures e.record.variantId in s.variants && s.variants[e.record.variantId] == e.record
    {
      var i :| 0 <= i < |entries| && entries[i] == e;
      EntryAt(s, prepared, i);
    }
    forall v | v in s.variants
      ensures exists e :: e in entries && e.record == s.variants[v]
    {
      var i :| 0 <= i < |ids| && ids[i] == v;
      EntryAt(s, prepared, i);
      assert entries[i] in entries;
    }
  }

  predicate Carries(e: Entry, prepared: map<Hash, Preparation>) {
    e.preparation == if e.record.variantId in prepared then Some(prepared[e.record.variantId]) else None
  }

  lemma ListedPreparations(s: Stored, prepared: map<Hash, Preparation>, e: Entry)
    requires OwnIds(s) && e in EntriesOf(s, prepared, Ids(s.variants.Keys))
    ensures Carries(e, prepared)
  {
    var i :| 0 <= i < |Ids(s.variants.Keys)| && EntriesOf(s, prepared, Ids(s.variants.Keys))[i] == e;
    EntryAt(s, prepared, i);
  }

  // What an export carries over from the session.
  lemma ExportShape(a: Adapter, id: Hash, s: Stored, prepared: map<Hash, Preparation>, includeSource: bool, p: Package)
    requires Export(a, id, s, prepared, includeSource) == Ok(p)
    ensures s.header.sessionId == id && IsHeaderOf(a, s.header, s.raw) && p.manifest.header == s.header
    ensures p.manifest.mode == (if includeSource then CompleteHandoff else MetadataOnly)
    ensures p.source == if includeSource then Some(s.raw) else None
    ensures p.manifest.entries == Sort(EntryLe, EntriesOf(s, prepared, Ids(s.variants.Keys)))
    ensures OwnIds(s) && forall v :: v in s.variants ==> IsRecordOf(a, s.header, s.variants[v])
  {
    forall v | v in s.variants
      ensures s.variants[v].variantId == v && IsRecordOf(a, s.header, s.variants[v])
    {
      LoadedOwnsId(a, s, v);
    }
  }

  lemma ExportedEntries(a: Adapter, id: Hash, s: Stored, prepared: map<Hash, Preparation>, includeSource: bool, p: Package)
    requires Export(a, id, s, prepared, includeSource) == Ok(p)
    ensures |p.manifest.entries| == |s.variants| && !Repeats(p.manifest.entries) && InOrder(p.manifest.entries)
    ensures forall e :: e in p.manifest.entries ==> e.record.variantId in s.variants && s.variants[e.record.variantId] == e.record
    ensures forall v :: v in s.variants ==> exists e :: e in p.manifest.entries && e.record == s.variants[v]
  {
    var entries := EntriesOf(s, prepared, Ids(s.variants.Keys));
    ExportShape(a, id, s, prepared, includeSource, p);
    ListedEntries(s, prepared);
    ListedOnce(s, prepared);
    SortMultiset(EntryLe, entries);
    SameMembers(Sort(EntryLe, entries), entries);
    SortedNeighbours(entries);
    DistinctKept(entries);
  }

  // A session exports exactly when its source derives its header and each of its variants derives under its own id; the
  // package then names the source, has every variant once, with the input it was prepared with if it was, and claims what
  // it includes.
  lemma ExportExactly(a: Adapter, id: Hash, s: Stored, prepared: map<Hash, Preparation>, includeSource: bool)
    ensures Export(a, id, s, prepared, includeSource).Ok? <==>
            && s.header.sessionId == id && IsHeaderOf(a, s.header, s.raw)
            && forall v :: v in s.variants ==> s.variants[v].variantId == v && IsRecordOf(a, s.header, s.variants[v])
    ensures Export(a, id, s, prepared, includeSource).Ok? ==>
              var p := Export(a, id, s, prepared, includeSource).value;
              && p.manifest.header == s.header && p.source == (if includeSource then Some(s.raw) else None)
              && p.manifest.mode == p.manifest.claims == (if includeSource then CompleteHandoff else MetadataOnly)
              && p.manifest.files == (if includeSource then Some((|s.raw|, a.digest(s.raw))) else None)
              && |p.manifest.entries| == |s.variants| && !Repeats(p.manifest.entries)
              && forall e :: e in p.manifest.entries ==>
                   e.record.variantId in s.variants && s.variants[e.record.variantId] == e.record && Carries(e, prepared)
  {
    if Export(a, id, s, prepared, includeSource).Ok? {
      var p := Export(a, id, s, prepared, includeSource).value;
      var entries := EntriesOf(s, prepared, Ids(s.variants.Keys));
      ExportShape(a, id, s, prepared, includeSource, p);
      ExportedEntries(a, id, s, prepared, includeSource, p);
      SortMultiset(EntryLe, entries);
      SameMembers(Sort(EntryLe, entries), entries);
      forall e | e in p.manifest.entries
        ensures Carries(e, prepared)
      {
        ListedPreparations(s, prepared, e);
      }
    }
  }

  // A package exported with its source is accepted under its own pin exactly when the session keeps the variant limit;
  // so is one exported without.
  lemma ExportIsAuthentic(a: Adapter, id: Hash, s: Stored, prepared: map<Hash, Preparation>, includeSource: bool, p: Package)
    requires Bounded(a) && Export(a, id, s, prepared, includeSource) == Ok(p)
    ensures Authentic(a, p) <==> |s.variants| <= MAX_VARIANTS
  {
    ExportShape(a, id, s, prepared, includeSource, p);
    ExportedEntries(a, id, s, prepared, includeSource, p);
    forall i | 0 <= i < |p.manifest.entries|
      ensures IsRecordOf(a, s.header, p.manifest.entries[i].record)
    {
      assert p.manifest.entries[i] in p.manifest.entries;
    }
  }

  // ----- import -----------------------------------------------------------------------------------------------

  lemma PackageRecords(a: Adapter, id: Hash, s: Stored, prepared: map<Hash, Preparation>, p: Package)
    requires Export(a, id, s, prepared, true) == Ok(p)
    ensures
      var records := RecordsOf(p.manifest.entries);
      && DistinctIds(records) && RecordIds(records) == s.variants.Keys
      && forall i :: 0 <= i < |records| ==> records[i].variantId in s.variants && s.variants[records[i].variantId] == records[i]
  {
    ExportShape(a, id, s, prepared, true, p);
    ExportedEntries(a, id, s, prepared, true, p);
    RecordsOfEntries(s, p.manifest.entries);
  }

  lemma RecordsOfEntries(s: Stored, entries: seq<Entry>)
    requires OwnIds(s) && !Repeats(entries)
    requires forall e :: e in entries ==> e.record.variantId in s.variants && s.variants[e.record.variantId] == e.record
    requires forall v :: v in s.variants ==> exists e :: e in entries && e.record == s.variants[v]
    ensures
      var records := RecordsOf(entries);
      && DistinctIds(records) && RecordIds(records) == s.variants.Keys
      && forall i :: 0 <= i < |records| ==> records[i].variantId in s.variants && s.variants[records[i].variantId] == records[i]
  {
    var records := RecordsOf(entries);
    RecordsDiffer(entries);
    forall i | 0 <= i < |records|
      ensures records[i].variantId in s.variants && s.variants[records[i].variantId] == records[i]
    {
      assert entries[i] in entries;
    }
    forall v | v in s.variants
      ensures v in RecordIds(records)
    {
      var e :| e in entries && e.record == s.variants[v];
      var i :| 0 <= i < |entries| && entries[i] == e;
      assert records[i].variantId == v;
    }
  }

  // Adding a session's own records to nothing gives its variants.
  lemma AddedAreVariants(variants: map<Hash, Record>, records: seq<Record>)
    requires DistinctIds(records) && RecordIds(records) == variants.Keys
    requires forall i :: 0 <= i < |records| ==> records[i].variantId in variants && variants[records[i].variantId] == records[i]
    ensures AddAll(map[], records) == variants
  {
    AddedHolds(map[], records);
    var added := AddAll(map[], records);
    forall v | v in variants
      ensures v in added && added[v] == variants[v]
    {
      var i :| 0 <= i < |records| && records[i].variantId == v;
    }
    assert added == variants;
  }

  // Imported into a home without the session, a package gives the exported session: header, source and variants.
  lemma RoundTrip(a: Adapter, id: Hash, s: Stored, prepared: map<Hash, Preparation>, p: Package, home: Home)
    requires Export(a, id, s, prepared, true) == Ok(p) && id !in home
    ensures Importable(a, home, p) && p.source.Some? && Imported(home, p) == home[id := s]
  {
    ExportShape(a, id, s, prepared, true, p);
    PackageRecords(a, id, s, prepared, p);
    AddedAreVariants(s.variants, RecordsOf(p.manifest.entries));
  }

  // Imported into a home that has the session, it keeps every old variant and adds exactly the package's.
  lemma ImportMerges(a: Adapter, home: Home, p: Package)
    requires Authentic(a, p) && Importable(a, home, p) && p.manifest.header.sessionId in home
    ensures
      var id, records := p.manifest.header.sessionId, RecordsOf(p.manifest.entries);
      var before, after := home[id], Imported(home, p)[id];
      && after.header == before.header == p.manifest.header && after.raw == before.raw
      && after.variants.Keys == before.variants.Keys + RecordIds(records) && |after.variants| <= MAX_VARIANTS
      && (forall v :: v in before.variants ==> after.variants[v] == before.variants[v])
      && (forall i :: 0 <= i < |records| ==> after.variants[records[i].variantId] == records[i])
      && forall other :: other in home && other != id ==> Imported(home, p)[other] == home[other]
  {
    var id, records := p.manifest.header.sessionId, RecordsOf(p.manifest.entries);
    RecordsDiffer(p.manifest.entries);
    AddedHolds(home[id].variants, records);
    var after := Imported(home, p)[id].variants;
    assert |after| == |after.Keys|;
  }

  // The source of an identical session is the package's own: hashes decide it.
  lemma SameSource(a: Adapter, home: Home, p: Package)
    requires a.Injective() && Authentic(a, p) && Importable(a, home, p) && p.manifest.header.sessionId in home
    ensures home[p.manifest.header.sessionId].raw == p.source.value
  {
    var s := home[p.manifest.header.sessionId];
    SameIdSameHeader(a, s.header, s.raw, p.manifest.header, p.source.value);
  }

  lemma ImportAdds(a: Adapter, home: Home, p: Package)
    requires Authentic(a, p) && Importable(a, home, p)
    ensures
      var id, records := p.manifest.header.sessionId, RecordsOf(p.manifest.entries);
      var s := Imported(home, p)[id];
      && Opens(a, id, s) && s.header == p.manifest.header
      && (forall i :: 0 <= i < |records| ==> records[i].variantId in s.variants && s.variants[records[i].variantId] == records[i])
      && |s.variants| <= MAX_VARIANTS && RecordIds(records) <= s.variants.Keys
  {
    var id, records := p.manifest.header.sessionId, RecordsOf(p.manifest.entries);
    RecordsDiffer(p.manifest.entries);
    if id in home {
      ImportMerges(a, home, p);
    } else {
      AddedHolds(map[], records);
      RecordIdsAtMost(records);
      var s := Imported(home, p)[id];
      assert |s.variants| == |s.variants.Keys|;
    }
  }

  lemma {:induction false} RecordIdsAtMost(records: seq<Record>)
    ensures |RecordIds(records)| <= |records|
    decreases |records|
  {
    if records == [] {
      assert RecordIds(records) == {};
    } else {
      var n := |records| - 1;
      RecordIdsAtMost(records[..n]);
      RecordIdsOneMore(records);
      SubsetSize(RecordIds(records), RecordIds(records[..n]) + {records[n].variantId});
    }
  }

  // Importing twice is importing once.
  lemma ImportIsIdempotent(a: Adapter, home: Home, p: Package)
    requires Authentic(a, p) && Importable(a, home, p)
    ensures Importable(a, Imported(home, p), p) && Imported(Imported(home, p), p) == Imported(home, p)
  {
    var id, records := p.manifest.header.sessionId, RecordsOf(p.manifest.entries);
    ImportAdds(a, home, p);
    var s := Imported(home, p)[id];
    assert s.variants.Keys + RecordIds(records) == s.variants.Keys;
    assert |s.variants.Keys| == |s.variants|;
    NothingToAdd(s.variants, records);
    assert s.(variants := AddAll(s.variants, records)) == s;
  }
}
