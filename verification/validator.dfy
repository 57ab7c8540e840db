// The descriptor validator: loops over the lists, occupied masks per word, seen sets. It accepts exactly the
// valid descriptors, section by section.
module Validator {
  import opened Wrappers
  import opened Bits
  import opened Orders
  import opened Descriptors

  // ----- duplicates by set size -----------------------------------------------------------------------------

  predicate NoDuplicates<T(==)>(s: seq<T>) {
    forall i, j :: 0 <= i < j < |s| ==> s[i] != s[j]
  }

  function Members<T>(s: seq<T>): set<T> {
    set x | x in s
  }

  // len(set(s)) == len(s)
  lemma {:induction false} SizeTellsDuplicates<T>(s: seq<T>)
    ensures |Members(s)| <= |s|
    ensures |Members(s)| == |s| <==> NoDuplicates(s)
  {
    if s != [] {
      var rest := s[1..];
      SizeTellsDuplicates(rest);
      assert Members(s) == Members(rest) + {s[0]};
      if s[0] in rest {
        assert Members(s) == Members(rest);
        var j :| 0 <= j < |rest| && rest[j] == s[0];
        assert s[j + 1] == s[0];
      } else {
        assert |Members(s)| == |Members(rest)| + 1;
        if NoDuplicates(rest) {
          forall i, j | 0 <= i < j < |s|
            ensures s[i] != s[j]
          {
            assert s[j] == rest[j - 1];
          }
        }
        if NoDuplicates(s) {
          forall i, j | 0 <= i < j < |rest|
            ensures rest[i] != rest[j]
          {
            assert s[i + 1] != s[j + 1];
          }
        }
      }
    }
  }

  lemma ConcatNoDuplicates<T>(a: seq<T>, b: seq<T>)
    ensures NoDuplicates(a + b) <==> NoDuplicates(a) && NoDuplicates(b) && forall x :: x in a ==> x !in b
  {
    var c := a + b;
    if NoDuplicates(c) {
      forall i, j | 0 <= i < j < |a| ensures a[i] != a[j] {
        assert c[i] != c[j];
      }
      forall i, j | 0 <= i < j < |b| ensures b[i] != b[j] {
        assert c[|a| + i] != c[|a| + j];
      }
      forall x | x in a ensures x !in b {
        var i :| 0 <= i < |a| && a[i] == x;
        forall j | 0 <= j < |b| ensures b[j] != x {
          assert c[i] != c[|a| + j];
        }
      }
    } else if NoDuplicates(a) && NoDuplicates(b) && forall x :: x in a ==> x !in b {
      forall i, j | 0 <= i < j < |c| ensures c[i] != c[j] {
        if i < |a| <= j {
          assert a[i] in a && b[j - |a|] in b;
        } else if |a| <= i {
          assert b[i - |a|] != b[j - |a|];
        }
      }
    }
  }

  // ----- contracts ------------------------------------------------------------------------------------------

  lemma AddressesTellDuplicates(d: Descriptor, addresses: seq<nat>)
    requires |addresses| == |d.contracts| && forall i :: 0 <= i < |addresses| ==> addresses[i] == d.contracts[i].address
    ensures NoDuplicates(addresses) <==> forall i, j :: 0 <= i < j < |d.contracts| ==> d.contracts[i].address != d.contracts[j].address
  {
    if NoDuplicates(addresses) {
      forall i, j | 0 <= i < j < |d.contracts| ensures d.contracts[i].address != d.contracts[j].address {
        assert addresses[i] != addresses[j];
      }
    }
  }

  method ValidateContracts(d: Descriptor) returns (ok: bool)
    ensures ok <==> ValidContracts(d)
  {
    if d.contracts == [] {
      return false;
    }
    var names: set<string> := {};
    for i := 0 to |d.contracts|
      invariant names == set j | 0 <= j < i :: d.contracts[j].name
      invariant forall j :: 0 <= j < i ==> ContractOk(d.manifest, d.contracts[j])
      invariant forall j, k :: 0 <= j < k < i ==> d.contracts[j].name != d.contracts[k].name
    {
      var c := d.contracts[i];
      if !ContractOk(d.manifest, c) || c.name in names {
        return false;
      }
      names := names + {c.name};
    }
    var addresses := seq(|d.contracts|, (i: int) requires 0 <= i < |d.contracts| => d.contracts[i].address);
    SizeTellsDuplicates(addresses);
    AddressesTellDuplicates(d, addresses);
    return |Members(addresses)| == |addresses|;
  }

  // ----- targets --------------------------------------------------------------------------------------------

  function SlotsOf(t: Target): seq<(string, nat)> {
    seq(t.words, (i: int) requires 0 <= i < t.words => (t.contract, t.slot + i))
  }

  function Slots(ts: seq<Target>): seq<(string, nat)> {
    if ts == [] then [] else SlotsOf(ts[0]) + Slots(ts[1..])
  }

  lemma {:induction false} SlotIsOfSome(ts: seq<Target>, x: (string, nat))
    ensures x in Slots(ts) <==> exists k :: 0 <= k < |ts| && x in SlotsOf(ts[k])
  {
    if ts != [] {
      SlotIsOfSome(ts[1..], x);
      if x in Slots(ts[1..]) {
        var k :| 0 <= k < |ts[1..]| && x in SlotsOf(ts[1..][k]);
        assert x in SlotsOf(ts[k + 1]);
      }
      if exists k :: 0 <= k < |ts| && x in SlotsOf(ts[k]) {
        var k :| 0 <= k < |ts| && x in SlotsOf(ts[k]);
        if k > 0 {
          assert x in SlotsOf(ts[1..][k - 1]);
        }
      }
    }
  }

  lemma SlotRange(t: Target, x: (string, nat))
    ensures x in SlotsOf(t) <==> x.0 == t.contract && t.slot <= x.1 < t.slot + t.words
  {
    if x.0 == t.contract && t.slot <= x.1 < t.slot + t.words {
      assert SlotsOf(t)[x.1 - t.slot] == x;
    }
  }

  lemma CommonSlot(s: Target, t: Target)
    requires s.words > 0 && t.words > 0
    ensures TargetsApart(s, t) <==> forall x :: x in SlotsOf(s) ==> x !in SlotsOf(t)
  {
    forall x
      ensures x in SlotsOf(s) <==> x.0 == s.contract && s.slot <= x.1 < s.slot + s.words
      ensures x in SlotsOf(t) <==> x.0 == t.contract && t.slot <= x.1 < t.slot + t.words
    {
      SlotRange(s, x);
      SlotRange(t, x);
    }
    var first := (s.contract, if s.slot <= t.slot then t.slot else s.slot);
    assert first in SlotsOf(s) <==> first.0 == s.contract && s.slot <= first.1 < s.slot + s.words;
  }

  // No duplicate slot is the same as targets apart.
  lemma {:induction false} SlotsTellOverlap(ts: seq<Target>)
    requires forall i :: 0 <= i < |ts| ==> ts[i].words > 0
    ensures NoDuplicates(Slots(ts)) <==> forall i, j :: 0 <= i < j < |ts| ==> TargetsApart(ts[i], ts[j])
  {
    if ts != [] {
      var rest := ts[1..];
      SlotsTellOverlap(rest);
      ConcatNoDuplicates(SlotsOf(ts[0]), Slots(rest));
      FirstApart(ts);
      if forall i, j :: 0 <= i < j < |ts| ==> TargetsApart(ts[i], ts[j]) {
        forall i, j | 0 <= i < j < |rest| ensures TargetsApart(rest[i], rest[j]) {
          assert TargetsApart(ts[i + 1], ts[j + 1]);
        }
      }
      if NoDuplicates(Slots(ts)) {
        forall i, j | 0 <= i < j < |ts| ensures TargetsApart(ts[i], ts[j]) {
          if i > 0 {
            assert TargetsApart(rest[i - 1], rest[j - 1]);
          }
        }
      }
    }
  }

  lemma FirstApart(ts: seq<Target>)
    requires ts != [] && forall i :: 0 <= i < |ts| ==> ts[i].words > 0
    ensures (forall x :: x in SlotsOf(ts[0]) ==> x !in Slots(ts[1..])) <==> forall j :: 0 < j < |ts| ==> TargetsApart(ts[0], ts[j])
  {
    if forall x :: x in SlotsOf(ts[0]) ==> x !in Slots(ts[1..]) {
      forall j | 0 < j < |ts| ensures TargetsApart(ts[0], ts[j]) {
        forall x | x in SlotsOf(ts[0]) ensures x !in SlotsOf(ts[j]) {
          SlotIsOfSome(ts[1..], x);
          assert ts[1..][j - 1] == ts[j];
        }
        CommonSlot(ts[0], ts[j]);
      }
    }
    if forall j :: 0 < j < |ts| ==> TargetsApart(ts[0], ts[j]) {
      forall x | x in SlotsOf(ts[0]) ensures x !in Slots(ts[1..]) {
        SlotIsOfSome(ts[1..], x);
        if x in Slots(ts[1..]) {
          var k :| 0 <= k < |ts[1..]| && x in SlotsOf(ts[1..][k]);
          CommonSlot(ts[0], ts[k + 1]);
        }
      }
    }
  }

  method ValidateTargets(d: Descriptor) returns (ok: bool)
    ensures ok <==> ValidTargets(d)
  {
    if d.targets == [] {
      return false;
    }
    var names: set<string> := {};
    for i := 0 to |d.targets|
      invariant names == set j | 0 <= j < i :: d.targets[j].name
      invariant forall j :: 0 <= j < i ==> TargetOk(d, d.targets[j])
      invariant forall j, k :: 0 <= j < k < i ==> d.targets[j].name != d.targets[k].name
    {
      var t := d.targets[i];
      if t.name in names || !TargetOk(d, t) {
        return false;
      }
      names := names + {t.name};
    }
    SizeTellsDuplicates(Slots(d.targets));
    SlotsTellOverlap(d.targets);
    return |Members(Slots(d.targets))| == |Slots(d.targets)| && HasTarget(d.targets, d.configurationTarget);
  }

  // ----- fields ---------------------------------------------------------------------------------------------

  type Occupied = map<(string, nat), nat>

  function OccupiedAt(occupied: Occupied, target: string, word: nat): nat {
    if (target, word) in occupied then occupied[(target, word)] else 0
  }

  predicate FieldCovers(f: Field, target: string, word: nat, bit: nat) {
    f.target == target && f.word == word && f.offset <= bit < f.offset + f.width
  }

  // The occupied masks hold the bits of the first n fields.
  ghost predicate OccupiedBy(fields: seq<Field>, n: nat, occupied: Occupied)
    requires n <= |fields|
  {
    forall target, word: nat, bit: nat ::
      Bit(OccupiedAt(occupied, target, word), bit) <==> exists k :: 0 <= k < n && FieldCovers(fields[k], target, word, bit)
  }

  lemma OccupyOneMore(fields: seq<Field>, n: nat, occupied: Occupied)
    requires n < |fields| && OccupiedBy(fields, n, occupied)
    ensures
      var f := fields[n];
      OccupiedBy(fields, n + 1, occupied[(f.target, f.word) := Or(OccupiedAt(occupied, f.target, f.word), Mask(f.offset, f.width))])
  {
    var f := fields[n];
    var occupied' := occupied[(f.target, f.word) := Or(OccupiedAt(occupied, f.target, f.word), Mask(f.offset, f.width))];
    forall target, word: nat, bit: nat
      ensures Bit(OccupiedAt(occupied', target, word), bit) <==> exists k :: 0 <= k < n + 1 && FieldCovers(fields[k], target, word, bit)
    {
      OrBit(OccupiedAt(occupied, f.target, f.word), Mask(f.offset, f.width), bit);
      MaskBit(f.offset, f.width, bit);
      assert FieldCovers(fields[n], target, word, bit) <==> target == f.target && word == f.word && f.offset <= bit < f.offset + f.width;
      assert Bit(OccupiedAt(occupied, target, word), bit) <==> exists k :: 0 <= k < n && FieldCovers(fields[k], target, word, bit);
    }
  }

  lemma OccupiedTellsOverlap(fields: seq<Field>, n: nat, occupied: Occupied)
    requires n < |fields| && OccupiedBy(fields, n, occupied)
    requires forall k :: 0 <= k <= n ==> fields[k].width > 0
    ensures
      var f := fields[n];
      And(OccupiedAt(occupied, f.target, f.word), Mask(f.offset, f.width)) == 0 <==>
      forall k :: 0 <= k < n ==> !Overlap(fields[k], f)
  {
    var f := fields[n];
    var u, m := OccupiedAt(occupied, f.target, f.word), Mask(f.offset, f.width);
    if k :| 0 <= k < n && Overlap(fields[k], f) {
      var bit := if fields[k].offset <= f.offset then f.offset else fields[k].offset;
      assert FieldCovers(fields[k], f.target, f.word, bit);
      AndBit(u, m, bit);
      MaskBit(f.offset, f.width, bit);
      ZeroBit(bit);
    } else {
      forall bit: nat
        ensures !Bit(And(u, m), bit)
      {
        AndBit(u, m, bit);
        MaskBit(f.offset, f.width, bit);
        if Bit(u, bit) && Bit(m, bit) {
          var k :| 0 <= k < n && FieldCovers(fields[k], f.target, f.word, bit);
          assert Overlap(fields[k], f);
        }
      }
      NoBitsIsZero(And(u, m));
    }
  }

  method ValidateFields(d: Descriptor) returns (ok: bool)
    ensures ok <==> ValidFields(d)
  {
    if d.fields == [] {
      return false;
    }
    var names: set<string> := {};
    var occupied: Occupied := map[];
    forall bit: nat ensures !Bit(0, bit) { ZeroBit(bit); }
    for i := 0 to |d.fields|
      invariant names == set j | 0 <= j < i :: d.fields[j].name
      invariant forall j :: 0 <= j < i ==> FieldOk(d, d.fields[j])
      invariant forall j, k :: 0 <= j < k < i ==> d.fields[j].name != d.fields[k].name
      invariant forall j, k :: 0 <= j < k < i ==> !Overlap(d.fields[j], d.fields[k])
      invariant OccupiedBy(d.fields, i, occupied)
    {
      var f := d.fields[i];
      if f.name in names || !FieldOk(d, f) {
        return false;
      }
      var m := Mask(f.offset, f.width);
      OccupiedTellsOverlap(d.fields, i, occupied);
      if And(OccupiedAt(occupied, f.target, f.word), m) != 0 {
        return false;
      }
      OccupyOneMore(d.fields, i, occupied);
      occupied := occupied[(f.target, f.word) := Or(OccupiedAt(occupied, f.target, f.word), m)];
      names := names + {f.name};
    }
    return true;
  }

  // ----- original words -------------------------------------------------------------------------------------

  function DeclaredWords(d: Descriptor): set<(string, nat)> {
    set t: nat, i: nat | t < |d.targets| && i < d.targets[t].words :: (d.targets[t].name, i)
  }

  method ValidateOriginals(d: Descriptor) returns (ok: bool)
    requires ValidTargets(d)
    ensures ok <==> ValidOriginals(d)
  {
    var seen: set<(string, nat)> := {};
    for i := 0 to |d.originalState|
      invariant seen == set j | 0 <= j < i :: (d.originalState[j].target, d.originalState[j].word)
      invariant forall j :: 0 <= j < i ==> OriginalOk(d, d.originalState[j])
      invariant forall j, k :: 0 <= j < k < i ==>
                  !(d.originalState[j].target == d.originalState[k].target && d.originalState[j].word == d.originalState[k].word)
    {
      var o := d.originalState[i];
      if !OriginalOk(d, o) || (o.target, o.word) in seen {
        return false;
      }
      seen := seen + {(o.target, o.word)};
    }
    ok := seen == DeclaredWords(d);
    SeenAllDeclared(d, seen);
  }

  lemma SeenAllDeclared(d: Descriptor, seen: set<(string, nat)>)
    requires ValidTargets(d) && forall i :: 0 <= i < |d.originalState| ==> OriginalOk(d, d.originalState[i])
    requires seen == set j | 0 <= j < |d.originalState| :: (d.originalState[j].target, d.originalState[j].word)
    ensures seen == DeclaredWords(d) <==>
            forall i, w: nat :: 0 <= i < |d.targets| && w < d.targets[i].words ==> PinsWord(d, d.targets[i].name, w)
  {
    forall x | x in seen
      ensures x in DeclaredWords(d)
    {
      var j :| 0 <= j < |d.originalState| && x == (d.originalState[j].target, d.originalState[j].word);
      assert OriginalOk(d, d.originalState[j]);
      TargetFound(d.targets, x.0);
      var t :| 0 <= t < |d.targets| && d.targets[t] == TargetNamed(d.targets, x.0);
      assert (d.targets[t].name, x.1) == x;
    }
    if seen == DeclaredWords(d) {
      forall i, w: nat | 0 <= i < |d.targets| && w < d.targets[i].words
        ensures PinsWord(d, d.targets[i].name, w)
      {
        assert (d.targets[i].name, w) in DeclaredWords(d);
      }
    }
    if forall i, w: nat :: 0 <= i < |d.targets| && w < d.targets[i].words ==> PinsWord(d, d.targets[i].name, w) {
      forall x | x in DeclaredWords(d)
        ensures x in seen
      {
        var t: nat, i: nat :| t < |d.targets| && i < d.targets[t].words && x == (d.targets[t].name, i);
        assert PinsWord(d, d.targets[t].name, i);
        var j :| 0 <= j < |d.originalState| && d.originalState[j].target == x.0 && d.originalState[j].word == x.1;
      }
    }
  }

  // ----- kinds ----------------------------------------------------------------------------------------------

  method ValidateParameters(ps: seq<ParameterDecl>) returns (ok: bool)
    ensures ok <==> ValidParameters(ps)
  {
    var names: set<string> := {};
    for i := 0 to |ps|
      invariant names == set j | 0 <= j < i :: ps[j].name
      invariant forall j :: 0 <= j < i ==> ParameterOk(ps[j])
      invariant forall j, k :: 0 <= j < k < i ==> ps[j].name != ps[k].name
    {
      if !ParameterOk(ps[i]) || ps[i].name in names {
        return false;
      }
      names := names + {ps[i].name};
    }
    return ps != [];
  }

  method ValidateAssigns(d: Descriptor, ps: seq<ParameterDecl>, assigns: seq<Assign>) returns (ok: bool)
    ensures ok <==> ValidAssigns(d, ps, assigns)
  {
    var fields: set<string> := {};
    for i := 0 to |assigns|
      invariant fields == set j | 0 <= j < i :: assigns[j].field
      invariant forall j :: 0 <= j < i ==> AssignOk(d, ps, assigns[j])
      invariant forall j, k :: 0 <= j < k < i ==> assigns[j].field != assigns[k].field
    {
      if !AssignOk(d, ps, assigns[i]) || assigns[i].field in fields {
        return false;
      }
      fields := fields + {assigns[i].field};
    }
    return assigns != [];
  }

  lemma StringLeIsOrder(names: seq<string>)
    ensures TotalPreorder(StringLe) && Separates(StringLe, names)
  {
    forall x, y ensures StringLe(x, y) || StringLe(y, x) { StringLeTotal(x, y); }
    forall x, y | StringLe(x, y) && StringLe(y, x) ensures x == y { StringLeTotal(x, y); }
    forall x, y, z | StringLe(x, y) && StringLe(y, z) ensures StringLe(x, z) { StringLeTransitive(x, y, z); }
  }

  // names == sorted(names)
  lemma SortedTest(names: seq<string>)
    ensures names == Sort(StringLe, names) <==> forall i, j :: 0 <= i < j < |names| ==> StringLe(names[i], names[j])
  {
    StringLeIsOrder(names);
    SortSorted(StringLe, names);
    if Sorted(StringLe, names) {
      SortOfSorted(StringLe, names);
    }
  }

  method ValidateKinds(d: Descriptor) returns (ok: bool)
    ensures ok <==> ValidKinds(d)
  {
    var names: seq<string> := [];
    for i := 0 to |d.interventions|
      invariant |names| == i && forall j :: 0 <= j < i ==> names[j] == d.interventions[j].kind
      invariant forall j :: 0 <= j < i ==> KindOk(d, d.interventions[j])
      invariant forall j, k :: 0 <= j < k < i ==> d.interventions[j].kind != d.interventions[k].kind
    {
      var k := d.interventions[i];
      if k.kind in names {
        return false;
      }
      var parameters := ValidateParameters(k.parameters);
      var assigns := ValidateAssigns(d, k.parameters, k.assign);
      if !parameters || !assigns
         || !(forall j :: 0 <= j < |k.demands| ==> PredicateOk(d, k.parameters, k.demands[j]))
         || !(forall j :: 0 <= j < |k.promises| ==> PredicateOk(d, k.parameters, k.promises[j])) {
        return false;
      }
      names := names + [k.kind];
    }
    SortedTest(names);
    ok := d.interventions != [] && names == Sort(StringLe, names)
          && forall i :: 0 <= i < |d.interventions| ==> ConflictsOk(d, d.interventions[i]);
    KindOrder(d, names);
  }

  lemma KindOrder(d: Descriptor, names: seq<string>)
    requires |names| == |d.interventions| && forall j :: 0 <= j < |names| ==> names[j] == d.interventions[j].kind
    ensures (forall i, j :: 0 <= i < j < |names| ==> StringLe(names[i], names[j])) <==>
            forall i, j :: 0 <= i < j < |d.interventions| ==> StringLe(d.interventions[i].kind, d.interventions[j].kind)
  {
    if forall i, j :: 0 <= i < j < |names| ==> StringLe(names[i], names[j]) {
      forall i, j | 0 <= i < j < |d.interventions| ensures StringLe(d.interventions[i].kind, d.interventions[j].kind) {
        assert StringLe(names[i], names[j]);
      }
    }
  }

  // ----- the whole descriptor -------------------------------------------------------------------------------

  // The first invalid section decides the refusal.
  method Validate(d: Descriptor) returns (r: Result<(), Code>)
    ensures r.Ok? <==> Valid(d)
    ensures !ValidContracts(d) ==> r == Err(DescriptorContract)
    ensures ValidContracts(d) && !ValidTargets(d) ==> r == Err(DescriptorTarget)
    ensures ValidContracts(d) && ValidTargets(d) && !ValidFields(d) ==> r == Err(DescriptorFieldLayout)
    ensures ValidContracts(d) && ValidTargets(d) && ValidFields(d) && !ValidOriginals(d) ==> r == Err(DescriptorOriginalState)
  {
    var contracts := ValidateContracts(d);
    if !contracts {
      return Err(DescriptorContract);
    }
    var targets := ValidateTargets(d);
    if !targets {
      return Err(DescriptorTarget);
    }
    var fields := ValidateFields(d);
    if !fields {
      return Err(DescriptorFieldLayout);
    }
    var originals := ValidateOriginals(d);
    if !originals {
      return Err(DescriptorOriginalState);
    }
    var kinds := ValidateKinds(d);
    return if kinds then Ok(()) else Err(DescriptorKind);
  }
}
