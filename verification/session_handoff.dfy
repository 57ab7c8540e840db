// Moving a session between homes: export, authentication, import.
module SessionHandoff {
  import opened Wrappers
  import opened Orders
  import opened SessionIdentity
  import opened SessionVerification

  const MAX_SOURCE_BYTES: nat := 8388608

  // Files are values here; the directory layout, links and sizes of single files are not part of this model.

  // A session as it lies in a home. Nothing forces the files of an arbitrary home to be consistent.
  datatype Stored = Stored(header: Header, raw: Raw, variants: map<Hash, Record>)

  type Home = map<Hash, Stored>

  datatype Mode = CompleteHandoff | MetadataOnly

  datatype Entry = Entry(record: Record, preparation: Option<Preparation>)

  // `claims` are the capabilities and assurance stated; `files` names the bytes and hash of the source.
  datatype Manifest = Manifest(mode: Mode, header: Header, entries: seq<Entry>, files: Option<(nat, Hash)>, claims: Mode)

  datatype Package = Package(manifest: Manifest, source: Option<Raw>)

  datatype HandoffCode =
    | SessionMissing
    | SessionDrift
    | VariantDrift
    | PinMismatch
    | ManifestClaims
    | FileSet
    | SessionInvalid
    | ManifestFiles
    | FileHashMismatch
    | SourceInvalid
    | SessionMismatch
    | VariantInvalid
    | VariantDuplicate
    | VariantOrder
    | PinRequired
    | SourceNotIncluded
    | SessionConflict
    | VariantLimit
    | VariantConflict

  // ----- stored sessions --------------------------------------------------------------------------------------

  // Opening re-derives the header from the retained source.
  predicate Opens(a: Adapter, id: Hash, s: Stored) {
    && s.header.sessionId == id && a.digest(s.raw) == s.header.identity.sha
    && IsHeaderOf(a, s.header, s.raw)
  }

  predicate Loads(a: Adapter, s: Stored, id: Hash) {
    id in s.variants && s.variants[id].variantId == id && IsRecordOf(a, s.header, s.variants[id])
  }

  // Ids in ascending order, as a directory listing is sorted.
  predicate IsLeastId(k: Hash, ids: set<Hash>) {
    k in ids && forall j :: j in ids ==> k <= j
  }

  lemma {:induction false} LeastIdExists(ids: set<Hash>)
    requires ids != {}
    ensures exists k :: IsLeastId(k, ids)
  {
    var x :| x in ids;
    var rest := ids - {x};
    assert ids == rest + {x};
    if rest == {} {
      assert IsLeastId(x, ids);
    } else {
      LeastIdExists(rest);
      var k :| IsLeastId(k, rest);
      assert IsLeastId(if x <= k then x else k, ids);
    }
  }

  ghost function LeastId(ids: set<Hash>): (k: Hash)
    requires ids != {}
    ensures IsLeastId(k, ids)
  {
    LeastIdExists(ids);
    var k :| IsLeastId(k, ids);
    k
  }

  ghost function Ids(ids: set<Hash>): (s: seq<Hash>)
    ensures forall k :: k in s <==> k in ids
    ensures |s| == |ids|
  {
    if ids == {} then [] else [LeastId(ids)] + Ids(ids - {LeastId(ids)})
  }

  lemma {:induction false} IdsAscend(ids: set<Hash>)
    ensures forall i, j :: 0 <= i < j < |Ids(ids)| ==> Ids(ids)[i] < Ids(ids)[j]
  {
    if ids != {} {
      var rest := Ids(ids - {LeastId(ids)});
      IdsAscend(ids - {LeastId(ids)});
      forall j | 0 <= j < |rest|
        ensures LeastId(ids) < rest[j]
      {
        assert rest[j] in rest;
      }
    }
  }

  // ----- export -----------------------------------------------------------------------------------------------

  predicate EntryLe(x: Entry, y: Entry) {
    var k, l := SortKeyOf(x.record.variant), SortKeyOf(y.record.variant);
    if k == l then x.record.variantId <= y.record.variantId else KeyLe(k, l)
  }

  ghost function EntriesOf(s: Stored, prepared: map<Hash, Preparation>, ids: seq<Hash>): seq<Entry>
    requires forall id :: id in ids ==> id in s.variants
  {
    seq(|ids|, (i: int) requires 0 <= i < |ids| =>
      Entry(s.variants[ids[i]], if ids[i] in prepared then Some(prepared[ids[i]]) else None))
  }

  // Every stored part is checked before a package is written.
  ghost function Export(a: Adapter, id: Hash, s: Stored, prepared: map<Hash, Preparation>, includeSource: bool): Result<Package, HandoffCode> {
    if !Opens(a, id, s) then Err(SessionDrift)
    else if exists v :: v in s.variants && !Loads(a, s, v) then Err(VariantDrift)
    else
      var mode := if includeSource then CompleteHandoff else MetadataOnly;
      var entries := Sort(EntryLe, EntriesOf(s, prepared, Ids(s.variants.Keys)));
      Ok(Package(Manifest(mode, s.header, entries, if includeSource then Some((|s.raw|, a.digest(s.raw))) else None, mode),
                 if includeSource then Some(s.raw) else None))
  }

  // ----- authentication ---------------------------------------------------------------------------------------

  predicate HeaderValid(a: Adapter, h: Header) {
    h.sessionId == a.sessionCommit(h.identity) && h.maxVariants == MAX_VARIANTS && 0 < h.identity.bytes <= MAX_SOURCE_BYTES
  }

  predicate Repeats(entries: seq<Entry>) {
    exists i, j :: 0 <= i < j < |entries| && entries[i].record.variantId == entries[j].record.variantId
  }

  function RecordsOf(entries: seq<Entry>): (r: seq<Record>)
    ensures |r| == |entries|
  {
    seq(|entries|, (i: int) requires 0 <= i < |entries| => entries[i].record)
  }

  ghost predicate InOrder(entries: seq<Entry>) {
    forall i :: 0 <= i < |entries| - 1 ==> EntryLe(entries[i], entries[i + 1])
  }

  ghost predicate VariantsAccepted(a: Adapter, h: Header, entries: seq<Entry>) {
    && |entries| <= MAX_VARIANTS
    && AllDerive(a, h, entries, |entries|) && !Repeats(entries) && InOrder(entries)
  }

  // The ids met so far.
  ghost predicate Seen(entries: seq<Entry>, n: nat, seen: set<Hash>)
    requires n <= |entries|
  {
    forall x :: x in seen <==> exists j :: 0 <= j < n && entries[j].record.variantId == x
  }

  lemma SeenOneMore(entries: seq<Entry>, n: nat, seen: set<Hash>)
    requires n < |entries| && Seen(entries, n, seen) && entries[n].record.variantId !in seen && !Repeats(entries[..n])
    ensures Seen(entries, n + 1, seen + {entries[n].record.variantId}) && !Repeats(entries[..n + 1])
  {
  }

  ghost predicate AllDerive(a: Adapter, h: Header, entries: seq<Entry>, n: nat)
    requires n <= |entries|
  {
    forall i :: 0 <= i < n ==> IsRecordOf(a, h, entries[i].record)
  }

  // Each declared variant must derive from the header, once.
  method CheckRecords(a: Adapter, h: Header, entries: seq<Entry>) returns (r: Result<seq<Record>, HandoffCode>)
    ensures r.Ok? <==> AllDerive(a, h, entries, |entries|) && !Repeats(entries)
    ensures r.Ok? ==> r.value == RecordsOf(entries)
  {
    var records: seq<Record> := [];
    var seen: set<Hash> := {};
    for i := 0 to |entries|
      invariant records == RecordsOf(entries[..i]) && AllDerive(a, h, entries, i)
      invariant Seen(entries, i, seen) && !Repeats(entries[..i])
    {
      var record := entries[i].record;
      if !IsRecordOf(a, h, record) {
        return Err(VariantInvalid);
      }
      if record.variantId in seen {
        var j :| 0 <= j < i && entries[j].record.variantId == record.variantId;
        assert Repeats(entries);
        return Err(VariantDuplicate);
      }
      SeenOneMore(entries, i, seen);
      seen := seen + {record.variantId};
      records := records + [record];
      assert entries[..i + 1] == entries[..i] + [entries[i]];
    }
    assert entries[..|entries|] == entries;
    return Ok(records);
  }

  method CheckOrder(entries: seq<Entry>) returns (ordered: bool)
    ensures ordered <==> InOrder(entries)
  {
    ordered := true;
    if entries == [] {
      return;
    }
    for i := 1 to |entries|
      invariant ordered <==> forall j :: 0 <= j < i - 1 ==> EntryLe(entries[j], entries[j + 1])
    {
      ordered := ordered && EntryLe(entries[i - 1], entries[i - 1 + 1]);
    }
  }

  method CheckVariants(a: Adapter, h: Header, entries: seq<Entry>) returns (r: Result<seq<Record>, HandoffCode>)
    ensures r.Ok? <==> VariantsAccepted(a, h, entries)
    ensures r.Ok? ==> r.value == RecordsOf(entries)
  {
    if |entries| > MAX_VARIANTS {
      return Err(VariantInvalid);
    }
    r := CheckRecords(a, h, entries);
    if r.Err? {
      return r;
    }
    var ordered := CheckOrder(entries);
    return if ordered then r else Err(VariantOrder);
  }

  // What a package must be to be accepted under the pin of its own manifest.
  ghost predicate Authentic(a: Adapter, p: Package) {
    var m := p.manifest;
    && m.claims == m.mode
    && (p.source.Some? <==> m.mode == CompleteHandoff)
    && HeaderValid(a, m.header)
    && m.files == (if m.mode == CompleteHandoff then Some((m.header.identity.bytes, m.header.identity.sha)) else None)
    && (p.source.Some? ==>
          && |p.source.value| == m.header.identity.bytes && a.digest(p.source.value) == m.header.identity.sha
          && IsHeaderOf(a, m.header, p.source.value))
    && VariantsAccepted(a, m.header, m.entries)
  }

  method Authenticate(a: Adapter, p: Package, manifestSha: Manifest -> Hash, pin: Option<Hash>) returns (r: Result<seq<Record>, HandoffCode>)
    ensures r.Ok? <==> (pin.Some? ==> pin.value == manifestSha(p.manifest)) && Authentic(a, p)
    ensures r.Ok? ==> r.value == RecordsOf(p.manifest.entries)
  {
    var m := p.manifest;
    if pin.Some? && pin.value != manifestSha(m) {
      return Err(PinMismatch);
    }
    if m.claims != m.mode {
      return Err(ManifestClaims);
    }
    if p.source.Some? != (m.mode == CompleteHandoff) {
      return Err(FileSet);
    }
    if !HeaderValid(a, m.header) {
      return Err(SessionInvalid);
    }
    var expected: Option<(nat, Hash)> :=
      if m.mode == CompleteHandoff then Some((m.header.identity.bytes, m.header.identity.sha)) else None;
    if m.files != expected {
      return Err(ManifestFiles);
    }
    if p.source.Some? {
      var content := p.source.value;
      if |content| != m.header.identity.bytes || a.digest(content) != m.header.identity.sha {
        return Err(FileHashMismatch);
      }
      var info := LoadSource(a, content, m.header.identity.sha);
      if info.None? {
        return Err(SourceInvalid);
      }
      if HeaderOf(a, content, info.value) != m.header {
        return Err(SessionMismatch);
      }
    }
    r := CheckVariants(a, m.header, m.entries);
  }

  // ----- import -----------------------------------------------------------------------------------------------

  // A session built from authenticated content: the header, the content and the records.
  function AddAll(variants: map<Hash, Record>, records: seq<Record>): map<Hash, Record> {
    if records == [] then variants
    else
      var last := records[|records| - 1];
      var before := AddAll(variants, records[..|records| - 1]);
      if last.variantId in before then before else before[last.variantId := last]
  }

  function RecordIds(records: seq<Record>): set<Hash> {
    set i | 0 <= i < |records| :: records[i].variantId
  }

  // A package that may be imported into a home: nothing in the home contradicts it.
  ghost predicate Importable(a: Adapter, home: Home, p: Package) {
    var h, records := p.manifest.header, RecordsOf(p.manifest.entries);
    && p.manifest.mode == CompleteHandoff
    && (h.sessionId in home ==>
          var s := home[h.sessionId];
          && Opens(a, h.sessionId, s) && s.header == h
          && |s.variants.Keys + RecordIds(records)| <= MAX_VARIANTS
          && forall i :: 0 <= i < |records| && records[i].variantId in s.variants ==> s.variants[records[i].variantId] == records[i])
  }

  // The home after a successful import: the session with its old variants and the package's.
  function Imported(home: Home, p: Package): Home
    requires p.source.Some?
  {
    var h, records := p.manifest.header, RecordsOf(p.manifest.entries);
    var base := if h.sessionId in home then home[h.sessionId] else Stored(h, p.source.value, map[]);
    home[h.sessionId := base.(variants := AddAll(base.variants, records))]
  }

  class HomeStore {
    const a: Adapter
    var sessions: Home

    constructor (a: Adapter, sessions: Home)
      ensures this.a == a && this.sessions == sessions
    {
      this.a, this.sessions := a, sessions;
    }

    // A new session with all its variants, built beside the store and placed in one step.
    method StageAndPlace(content: Raw, h: Header, records: seq<Record>) returns (ok: bool)
      requires h.sessionId !in sessions && IsHeaderOf(a, h, content)
      requires |records| <= MAX_VARIANTS && forall i :: 0 <= i < |records| ==> IsRecordOf(a, h, records[i])
      requires forall i, j :: 0 <= i < j < |records| ==> records[i].variantId != records[j].variantId
      modifies this
      ensures ok && sessions == old(sessions)[h.sessionId := Stored(h, content, AddAll(map[], records))]
    {
      var staged: map<Hash, Record> := map[];
      assert records[..0] == [];
      for i := 0 to |records|
        invariant staged == AddAll(map[], records[..i]) && |staged| <= i && sessions == old(sessions)
      {
        assert records[..i + 1][..i] == records[..i];
        if records[i].variantId !in staged {
          staged := staged[records[i].variantId := records[i]];
        }
      }
      assert records[..|records|] == records;
      sessions := sessions[h.sessionId := Stored(h, content, staged)];
      return true;
    }

    // Adds the records the existing session lacks, after every stored counterpart was checked.
    method AddMissing(id: Hash, records: seq<Record>)
      requires id in sessions
      modifies this
      ensures sessions == old(sessions)[id := old(sessions)[id].(variants := AddAll(old(sessions)[id].variants, records))]
    {
      var s := sessions[id];
      var variants := s.variants;
      assert records[..0] == [];
      for i := 0 to |records|
        invariant variants == AddAll(s.variants, records[..i]) && sessions == old(sessions)
      {
        assert records[..i + 1][..i] == records[..i];
        if records[i].variantId !in variants {
          variants := variants[records[i].variantId := records[i]];
        }
      }
      assert records[..|records|] == records;
      sessions := sessions[id := s.(variants := variants)];
    }

    method FindConflict(s: Stored, records: seq<Record>) returns (conflict: bool)
      ensures conflict <==> exists i :: 0 <= i < |records| && records[i].variantId in s.variants
                                        && (s.variants[records[i].variantId] != records[i] || !Loads(a, s, records[i].variantId))
    {
      conflict := false;
      for i := 0 to |records|
        invariant conflict <==> exists j :: 0 <= j < i && records[j].variantId in s.variants
                                            && (s.variants[records[j].variantId] != records[j] || !Loads(a, s, records[j].variantId))
      {
        var id := records[i].variantId;
        if id in s.variants && (!Loads(a, s, id) || s.variants[id] != records[i]) {
          conflict := true;
        }
      }
    }

    method Import(p: Package, manifestSha: Manifest -> Hash, pin: Hash) returns (r: Result<Header, HandoffCode>)
      modifies this
      ensures r.Ok? <==> pin == manifestSha(p.manifest) && Authentic(a, p) && Importable(a, old(sessions), p)
      ensures r.Ok? ==> r.value == p.manifest.header && sessions == Imported(old(sessions), p)
      ensures r.Err? ==> sessions == old(sessions)
    {
      var authentic := Authenticate(a, p, manifestSha, Some(pin));
      if authentic.Err? {
        return Err(authentic.error);
      }
      if p.manifest.mode != CompleteHandoff {
        return Err(SourceNotIncluded);
      }
      var h, records, content := p.manifest.header, authentic.value, p.source.value;
      RecordsDiffer(p.manifest.entries);
      if h.sessionId !in sessions {
        var placed := StageAndPlace(content, h, records);
        return Ok(h);
      }
      var s := sessions[h.sessionId];
      if !Opens(a, h.sessionId, s) {
        return Err(SessionDrift);
      }
      if s.header != h {
        return Err(SessionConflict);
      }
      if |s.variants.Keys + RecordIds(records)| > MAX_VARIANTS {
        return Err(VariantLimit);
      }
      var conflict := FindConflict(s, records);
      if conflict {
        return Err(VariantConflict);
      }
      AddMissing(h.sessionId, records);
      return Ok(h);
    }
  }

  lemma RecordsDiffer(entries: seq<Entry>)
    requires !Repeats(entries)
    ensures forall i, j :: 0 <= i < j < |entries| ==> RecordsOf(entries)[i].variantId != RecordsOf(entries)[j].variantId
  {
  }
}
