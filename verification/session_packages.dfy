// Packages that are accepted with their source are exactly the exports of sessions within the variant limit.
module SessionPackages {
  import opened Wrappers
  import opened Orders
  import opened SessionIdentity
  import opened SessionVerification
  import opened SessionHandoff
  import opened SessionHandoffFacts

  // The preparations the entries carry.
  function PreparationsOf(entries: seq<Entry>): map<Hash, Preparation> {
    if entries == [] then map[]
    else
      var last := entries[|entries| - 1];
      var before := PreparationsOf(entries[..|entries| - 1]);
      if last.preparation.Some? then before[last.record.variantId := last.preparation.value] else before
  }

  lemma {:induction false} PreparationsOfNone(entries: seq<Entry>, v: Hash)
    requires forall i :: 0 <= i < |entries| ==> entries[i].record.variantId != v
    ensures v !in PreparationsOf(entries)
  {
    if entries != [] {
      PreparationsOfNone(entries[..|entries| - 1], v);
    }
  }

  lemma {:induction false} PreparationsRead(entries: seq<Entry>, i: nat)
    requires !Repeats(entries) && i < |entries|
    ensures Carries(entries[i], PreparationsOf(entries))
  {
    var n: nat := |entries| - 1;
    var shorter, v := entries[..n], entries[i].record.variantId;
    if i == n {
      PreparationsOfNone(shorter, v);
    } else {
      assert shorter[i] == entries[i];
      PreparationsRead(shorter, i);
      assert entries[n].record.variantId != v;
    }
  }

  // The session a package tells of.
  function SessionOf(p: Package): Stored
    requires p.source.Some?
  {
    Stored(p.manifest.header, p.source.value, AddAll(map[], RecordsOf(p.manifest.entries)))
  }

  lemma RecordsHeld(entries: seq<Entry>)
    requires !Repeats(entries)
    ensures
      var m := AddAll(map[], RecordsOf(entries));
      && (forall i :: 0 <= i < |entries| ==> entries[i].record.variantId in m && m[entries[i].record.variantId] == entries[i].record)
      && (forall v :: v in m ==> exists i :: 0 <= i < |entries| && entries[i].record.variantId == v)
  {
    var records := RecordsOf(entries);
    RecordsDiffer(entries);
    AddedHolds(map[], records);
    forall i | 0 <= i < |entries|
      ensures entries[i].record.variantId in AddAll(map[], records)
      ensures AddAll(map[], records)[entries[i].record.variantId] == entries[i].record
    {
      assert records[i] == entries[i].record;
    }
    forall v | v in AddAll(map[], records)
      ensures exists i :: 0 <= i < |entries| && entries[i].record.variantId == v
    {
      var i :| 0 <= i < |records| && records[i].variantId == v;
      assert entries[i].record.variantId == v;
    }
  }

  // ----- two lists of the same entries ------------------------------------------------------------------------

  lemma {:induction false} NeighboursSorted(entries: seq<Entry>, i: nat, j: nat)
    requires InOrder(entries) && i < j < |entries|
    ensures EntryLe(entries[i], entries[j])
  {
    assert EntryLe(entries[j - 1], entries[j - 1 + 1]);
    if i < j - 1 {
      NeighboursSorted(entries, i, j - 1);
      EntryLeTransitive(entries[i], entries[j - 1], entries[j]);
    }
  }

  lemma EntriesSeparate(entries: seq<Entry>)
    requires !Repeats(entries)
    ensures Separates(EntryLe, entries)
  {
    forall x, y | x in entries && y in entries && EntryLe(x, y) && EntryLe(y, x)
      ensures x == y
    {
      KeyLeIsOrder(SortKeyOf(x.record.variant), SortKeyOf(y.record.variant), SortKeyOf(y.record.variant));
      OneEntryPerId(entries, x, y);
    }
  }

  lemma CountedOnce(entries: seq<Entry>, x: Entry)
    requires !Repeats(entries)
    ensures multiset(entries)[x] == if x in entries then 1 else 0
  {
    if multiset(entries)[x] >= 2 {
      var i, j := CountedTwice(entries, x);
      RepeatsSeen(entries, i, j);
    }
  }

  lemma SameCounts(a: seq<Entry>, b: seq<Entry>)
    requires !Repeats(a) && !Repeats(b) && forall x :: x in a <==> x in b
    ensures multiset(a) == multiset(b)
  {
    forall x: Entry
      ensures multiset(a)[x] == multiset(b)[x]
    {
      CountedOnce(a, x);
      CountedOnce(b, x);
    }
  }

  // The entries of a package are those its session lists.
  lemma ListsItself(p: Package)
    requires p.source.Some? && !Repeats(p.manifest.entries) && OwnIds(SessionOf(p))
    ensures
      var s, prepared := SessionOf(p), PreparationsOf(p.manifest.entries);
      forall x :: x in p.manifest.entries <==> x in EntriesOf(s, prepared, Ids(s.variants.Keys))
  {
    var entries, s, prepared := p.manifest.entries, SessionOf(p), PreparationsOf(p.manifest.entries);
    var listed := EntriesOf(s, prepared, Ids(s.variants.Keys));
    RecordsHeld(entries);
    ListedEntries(s, prepared);
    forall x | x in entries
      ensures x in listed
    {
      var i :| 0 <= i < |entries| && entries[i] == x;
      PreparationsRead(entries, i);
      var e :| e in listed && e.record == s.variants[x.record.variantId];
      ListedPreparations(s, prepared, e);
    }
    forall x | x in listed
      ensures x in entries
    {
      ListedPreparations(s, prepared, x);
      var i :| 0 <= i < |entries| && entries[i].record.variantId == x.record.variantId;
      PreparationsRead(entries, i);
      assert entries[i] == x;
    }
  }

  // ----- accepted packages ------------------------------------------------------------------------------------

  // Every package that is accepted with its source is the export of the session it tells of: nothing is accepted that no
  // session exports.
  lemma AuthenticIsExport(a: Adapter, p: Package)
    requires Authentic(a, p) && p.source.Some?
    ensures Export(a, p.manifest.header.sessionId, SessionOf(p), PreparationsOf(p.manifest.entries), true) == Ok(p)
    ensures |SessionOf(p).variants| <= MAX_VARIANTS
  {
    var id, entries, s, prepared := p.manifest.header.sessionId, p.manifest.entries, SessionOf(p), PreparationsOf(p.manifest.entries);
    RecordsHeld(entries);
    forall v | v in s.variants
      ensures s.variants[v].variantId == v && IsRecordOf(a, s.header, s.variants[v])
    {
      var i :| 0 <= i < |entries| && entries[i].record.variantId == v;
    }
    ExportExactly(a, id, s, prepared, true);
    var q := Export(a, id, s, prepared, true).value;
    ExportShape(a, id, s, prepared, true, q);
    ListsItself(p);
    ListedOnce(s, prepared);
    var listed := EntriesOf(s, prepared, Ids(s.variants.Keys));
    SameCounts(entries, listed);
    EntryLeIsOrder();
    EntriesSeparate(entries);
    SortOfPermutation(EntryLe, entries, listed);
    forall i, j | 0 <= i < j < |entries|
      ensures EntryLe(entries[i], entries[j])
    {
      NeighboursSorted(entries, i, j);
    }
    SortOfSorted(EntryLe, entries);
    ListedEntries(s, prepared);
    SortMultiset(EntryLe, listed);
    assert |listed| == |multiset(listed)| == |multiset(entries)| == |entries|;
  }
}
