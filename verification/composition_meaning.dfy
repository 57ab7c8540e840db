// What an accepted composition means, and that the order of its items does not matter.
module CompositionMeaning {
  import opened Wrappers
  import opened Bits
  import opened Orders
  import opened JsonValues
  import opened Descriptors
  import opened Composition
  import opened CompositionFacts
  import Composer

  // ----- the canonical set ------------------------------------------------------------------------------

  lemma ByKindIsOrder()
    ensures TotalPreorder(ByKind)
  {
    forall x: Item, y: Item
      ensures ByKind(x, y) || ByKind(y, x)
    {
      StringLeTotal(x.kind, y.kind);
    }
    forall x: Item, y: Item, z: Item | ByKind(x, y) && ByKind(y, z)
      ensures ByKind(x, z)
    {
      StringLeTransitive(x.kind, y.kind, z.kind);
    }
  }

  lemma SameKindSameItem(items: seq<Item>, i: nat, j: nat)
    requires !RepeatsKind(items) && i < |items| && j < |items| && items[i].kind == items[j].kind
    ensures i == j
  {
  }

  lemma DistinctKindsSeparate(items: seq<Item>)
    requires !RepeatsKind(items)
    ensures Separates(ByKind, items)
  {
    forall x, y | x in items && y in items && ByKind(x, y) && ByKind(y, x)
      ensures x == y
    {
      StringLeTotal(x.kind, y.kind);
      var i :| 0 <= i < |items| && items[i] == x;
      var j :| 0 <= j < |items| && items[j] == y;
      SameKindSameItem(items, i, j);
    }
  }

  lemma RepeatsAfterPermutation(p: seq<Item>, q: seq<Item>)
    requires multiset(p) == multiset(q) && RepeatsKind(p)
    ensures RepeatsKind(q)
  {
    var i, j :| 0 <= i < j < |p| && p[i].kind == p[j].kind;
    SameMembers(p, q);
    if p[i] == p[j] {
      TwiceCounted(p, i, j);
      var k, l := CountedTwice(q, p[i]);
    } else {
      assert p[i] in q && p[j] in q;
      var k :| 0 <= k < |q| && q[k] == p[i];
      var l :| 0 <= l < |q| && q[l] == p[j];
      if k < l {
        assert q[k].kind == q[l].kind;
      } else {
        assert q[l].kind == q[k].kind;
      }
    }
  }

  // The canonical set holds the supplied items, sorted, each kind declared and used once.
  lemma CanonicalSet(d: Descriptor, items: seq<Item>)
    requires CanonicalInterventions(d, items).Ok?
    ensures
      var canon := CanonicalInterventions(d, items).value;
      && multiset(canon) == multiset(items) && (forall x :: x in canon <==> x in items)
      && Sorted(ByKind, canon) && DistinctKinds(canon) && DeclaredKinds(d, canon) && canon != []
  {
    ByKindIsOrder();
    SortMultiset(ByKind, items);
    SortSorted(ByKind, items);
    var canon := Sort(ByKind, items);
    SameMembers(items, canon);
    if RepeatsKind(canon) {
      RepeatsAfterPermutation(canon, items);
    }
  }

  // Any order of the same items is the same set, or the same refusal.
  lemma CanonicalForgetsOrder(d: Descriptor, p: seq<Item>, q: seq<Item>)
    requires multiset(p) == multiset(q)
    ensures CanonicalInterventions(d, p) == CanonicalInterventions(d, q)
  {
    SameMembers(p, q);
    if RepeatsKind(p) {
      RepeatsAfterPermutation(p, q);
    }
    if RepeatsKind(q) {
      RepeatsAfterPermutation(q, p);
    }
    if !RepeatsKind(p) {
      ByKindIsOrder();
      DistinctKindsSeparate(p);
      SortOfPermutation(ByKind, p, q);
    }
  }

  // A canonical set is its own canonical form.
  lemma CanonicalTwice(d: Descriptor, items: seq<Item>)
    requires CanonicalInterventions(d, items).Ok?
    ensures CanonicalInterventions(d, CanonicalInterventions(d, items).value) == CanonicalInterventions(d, items)
  {
    CanonicalSet(d, items);
    CanonicalForgetsOrder(d, CanonicalInterventions(d, items).value, items);
  }

  // The same words, writes, commitments and errors come out whatever order the items are supplied in.
  lemma ComposeForgetsOrder(d: Descriptor, p: seq<Item>, q: seq<Item>, originals: Words)
    requires multiset(p) == multiset(q)
    ensures Compose(d, p, originals) == Compose(d, q, originals)
  {
    CanonicalForgetsOrder(d, p, q);
  }

  // ----- accepted sets ----------------------------------------------------------------------------------

  lemma {:induction false} AcceptedAssign(d: Descriptor, assigns: seq<Assign>, j: nat, originals: Words, params: map<string, Json>,
                                         applied: seq<Assignment>)
    requires j <= |assigns| && AssignFrom(d, assigns, j, originals, params, applied).Ok?
    ensures forall i :: j <= i < |assigns| ==>
              0 <= OperandValue(d, assigns[i].value, originals, params) < Pow2(FieldNamed(d.fields, assigns[i].field).width)
    decreases |assigns| - j
  {
    if j < |assigns| {
      AcceptedAssign(d, assigns, j + 1, originals, params, applied + [AssignmentOf(d, assigns[j], originals, params)]);
    }
  }

  lemma {:induction false} AcceptedCollect(d: Descriptor, canon: seq<Item>, i: nat, originals: Words, applied: seq<Assignment>)
    requires i <= |canon| && CollectFrom(d, canon, i, originals, applied).Ok?
    ensures forall l :: i <= l < |canon| ==> AdmissibleItem(d, canon[l], originals)
    decreases |canon| - i
  {
    if i < |canon| {
      var k := KindNamed(d.interventions, canon[i].kind);
      var step := AssignFrom(d, k.assign, 0, originals, canon[i].parameters, applied);
      AcceptedAssign(d, k.assign, 0, originals, canon[i].parameters, applied);
      AcceptedCollect(d, canon, i + 1, originals, step.value);
      assert AdmissibleItem(d, canon[i], originals);
    }
  }

  // What an accepted canonical set assigns: fitting values in fields that share no bit.
  lemma AcceptedAssignments(d: Descriptor, canon: seq<Item>, originals: Words)
    requires Valid(d) && Supplied(d, originals) && DeclaredKinds(d, canon)
    requires CollectFrom(d, canon, 0, originals, []).Ok?
    ensures CollectFrom(d, canon, 0, originals, []).value == SelectedBy(d, canon, originals)
    ensures NoOverlap(SelectedBy(d, canon, originals)) && AllFit(SelectedBy(d, canon, originals))
  {
    CanonReady(d, canon, originals);
    assert canon[0..] == canon;
    assert [] + SelectedBy(d, canon, originals) == SelectedBy(d, canon, originals);
    CollectSelects(d, canon, 0, originals, []);
  }

  // ----- the meaning of a composed result ---------------------------------------------------------------

  // Some supplied item assigns a field that covers the bit.
  ghost predicate Assigned(d: Descriptor, items: seq<Item>, target: string, i: nat, bit: nat) {
    exists x, a :: x in items && a in KindNamed(d.interventions, x.kind).assign && Covers(FieldNamed(d.fields, a.field), target, i, bit)
  }

  lemma CoveredIsAssigned(d: Descriptor, canon: seq<Item>, originals: Words, target: string, i: nat, bit: nat)
    ensures Covered(SelectedBy(d, canon, originals), target, i, bit) <==> Assigned(d, canon, target, i, bit)
  {
    var all := SelectedBy(d, canon, originals);
    if Covered(all, target, i, bit) {
      var k :| 0 <= k < |all| && Covers(all[k].field, target, i, bit);
      var x, a := SelectedByAt(d, canon, originals, k);
    }
    if Assigned(d, canon, target, i, bit) {
      var x, a :| x in canon && a in KindNamed(d.interventions, x.kind).assign && Covers(FieldNamed(d.fields, a.field), target, i, bit);
      var p := PositionOf(d, canon, originals, x, a);
      assert Covers(all[p].field, target, i, bit);
    }
  }

  lemma ComposedParts(d: Descriptor, items: seq<Item>, originals: Words, c: Composed)
    requires Valid(d) && Compose(d, items, originals) == Ok(c)
    ensures Supplied(d, originals) && CanonicalInterventions(d, items) == Ok(c.interventions)
    ensures DistinctKinds(c.interventions) && DeclaredKinds(d, c.interventions)
    ensures forall x :: x in c.interventions <==> x in items
    ensures
      var all := SelectedBy(d, c.interventions, originals);
      && CollectFrom(d, c.interventions, 0, originals, []) == Ok(all)
      && NoOverlap(all) && AllFit(all) && c.words == WordsAfter(originals, all)
      && WritesFrom(d, originals, c.words, all, 0, 0, []) == Ok(c.writes)
  {
    CanonicalSet(d, items);
    AcceptedAssignments(d, c.interventions, originals);
  }

  // The word of a declared field is one of the originals.
  lemma FieldPlace(d: Descriptor, name: string, originals: Words)
    requires Valid(d) && Supplied(d, originals) && HasField(d.fields, name)
    ensures
      var f := FieldNamed(d.fields, name);
      f.target in originals && f.word < |originals[f.target]| && IsWord(originals[f.target][f.word])
  {
    FieldIsDeclared(d, name);
    Composer.FieldWordExists(d, FieldNamed(d.fields, name), originals);
    Composer.SuppliedAreWords(d, originals);
  }

  lemma SelectedReadsBack(d: Descriptor, canon: seq<Item>, originals: Words, x: Item, a: Assign)
    requires x in canon && a in KindNamed(d.interventions, x.kind).assign
    requires 0 <= OperandValue(d, a.value, originals, x.parameters)
    requires NoOverlap(SelectedBy(d, canon, originals)) && AllFit(SelectedBy(d, canon, originals))
    requires
      var f := FieldNamed(d.fields, a.field);
      f.target in originals && f.word < |originals[f.target]| && IsWord(originals[f.target][f.word])
    ensures Get(WordsAfter(originals, SelectedBy(d, canon, originals)), FieldNamed(d.fields, a.field))
         == OperandValue(d, a.value, originals, x.parameters)
  {
    var f := FieldNamed(d.fields, a.field);
    var p := PositionOf(d, canon, originals, x, a);
    Composer.AssignedFieldReadsBack(originals[f.target][f.word], SelectedBy(d, canon, originals), p);
  }

  lemma AdmissibleValue(d: Descriptor, canon: seq<Item>, originals: Words, x: Item, a: Assign)
    requires Admissible(d, canon, originals) && x in canon && a in KindNamed(d.interventions, x.kind).assign
    ensures 0 <= OperandValue(d, a.value, originals, x.parameters) < Pow2(FieldNamed(d.fields, a.field).width)
  {
    var i :| 0 <= i < |canon| && canon[i] == x;
    assert AdmissibleItem(d, canon[i], originals);
  }

  // Each assigned field holds the value computed on the originals.
  lemma AssignedFieldsHold(d: Descriptor, items: seq<Item>, originals: Words, c: Composed, x: Item, a: Assign)
    requires Valid(d) && Compose(d, items, originals) == Ok(c)
    requires x in items && a in KindNamed(d.interventions, x.kind).assign
    ensures Get(c.words, FieldNamed(d.fields, a.field)) == OperandValue(d, a.value, originals, x.parameters)
  {
    ComposedParts(d, items, originals, c);
    AcceptedCollect(d, c.interventions, 0, originals, []);
    AdmissibleValue(d, c.interventions, originals, x, a);
    KindFromDeclared(d, c.interventions, x);
    AssignedFieldDeclared(d, x, a);
    FieldPlace(d, a.field, originals);
    SelectedReadsBack(d, c.interventions, originals, x, a);
  }

  lemma KindFromDeclared(d: Descriptor, canon: seq<Item>, x: Item)
    requires DeclaredKinds(d, canon) && x in canon
    ensures HasKind(d.interventions, x.kind)
  {
    var i :| 0 <= i < |canon| && canon[i] == x;
  }

  lemma AssignedByMembers(d: Descriptor, p: seq<Item>, q: seq<Item>, target: string, i: nat, bit: nat)
    requires forall x :: x in p <==> x in q
    ensures Assigned(d, p, target, i, bit) == Assigned(d, q, target, i, bit)
  {
  }

  // Every bit outside the assigned fields is the original bit.
  lemma OtherBitsUnchanged(d: Descriptor, items: seq<Item>, originals: Words, c: Composed, target: string, i: nat, bit: nat)
    requires Valid(d) && Compose(d, items, originals) == Ok(c)
    requires target in originals && i < |originals[target]| && !Assigned(d, items, target, i, bit)
    ensures target in c.words && |c.words[target]| == |originals[target]|
    ensures IsWord(c.words[target][i]) && Bit(c.words[target][i], bit) == Bit(originals[target][i], bit)
  {
    ComposedParts(d, items, originals, c);
    var all := SelectedBy(d, c.interventions, originals);
    CoveredIsAssigned(d, c.interventions, originals, target, i, bit);
    AssignedByMembers(d, c.interventions, items, target, i, bit);
    Composer.SuppliedAreWords(d, originals);
    WordAfterBit(originals[target][i], target, i, all, bit);
    BitAfterUncovered(originals[target][i], target, i, all, bit);
    WordAfterIsWord(originals[target][i], target, i, all);
  }

  // A field that overlaps no assignment keeps its value.
  lemma UntouchedFieldKept(originals: Words, applied: seq<Assignment>, f: Field)
    requires AllFit(applied) && f.target in originals && f.word < |originals[f.target]| && IsWord(originals[f.target][f.word])
    requires forall k :: 0 <= k < |applied| ==> !Overlap(applied[k].field, f)
    ensures Get(WordsAfter(originals, applied), f) == Get(originals, f)
  {
    var before := originals[f.target][f.word];
    var after := WordAfter(before, f.target, f.word, applied);
    forall bit: nat | f.offset <= bit < f.offset + f.width
      ensures Bit(after, bit) == Bit(before, bit)
    {
      WordAfterBit(before, f.target, f.word, applied, bit);
      BitAfterUncovered(before, f.target, f.word, applied, bit);
    }
    SameBitsSameField(after, before, f.offset, f.width);
  }

  // No supplied kind assigns the field, so no selected assignment overlaps it.
  lemma UnassignedNoOverlap(d: Descriptor, canon: seq<Item>, originals: Words, name: string, k: nat)
    requires ValidFields(d) && ValidKinds(d) && HasField(d.fields, name) && DeclaredKinds(d, canon)
    requires forall x :: x in canon ==> !Assigns(d, x.kind, name)
    requires k < |SelectedBy(d, canon, originals)|
    ensures !Overlap(SelectedBy(d, canon, originals)[k].field, FieldNamed(d.fields, name))
  {
    var x, a := SelectedByAt(d, canon, originals, k);
    KindFromDeclared(d, canon, x);
    AssignedFieldDeclared(d, x, a);
    FieldsShareNoBit(d, a.field, name);
  }

  // A declared field that no supplied item assigns keeps its value.
  lemma OtherFieldsKept(d: Descriptor, items: seq<Item>, originals: Words, c: Composed, name: string)
    requires Valid(d) && Compose(d, items, originals) == Ok(c) && HasField(d.fields, name)
    requires forall x :: x in items ==> !Assigns(d, x.kind, name)
    ensures Get(c.words, FieldNamed(d.fields, name)) == Get(originals, FieldNamed(d.fields, name))
  {
    ComposedParts(d, items, originals, c);
    FieldPlace(d, name, originals);
    var all := SelectedBy(d, c.interventions, originals);
    forall k | 0 <= k < |all|
      ensures !Overlap(all[k].field, FieldNamed(d.fields, name))
    {
      UnassignedNoOverlap(d, c.interventions, originals, name, k);
    }
    UntouchedFieldKept(originals, all, FieldNamed(d.fields, name));
  }

  function FieldNames(d: Descriptor): set<string> {
    set i | 0 <= i < |d.fields| :: d.fields[i].name
  }

  lemma Decoded(d: Descriptor, words: Words, name: string)
    requires HasField(d.fields, name)
    ensures DecodeFields(d, words).Keys == FieldNames(d) && name in FieldNames(d)
    ensures DecodeFields(d, words)[name] == Get(words, FieldNamed(d.fields, name))
  {
    var i :| 0 <= i < |d.fields| && d.fields[i].name == name;
  }

  lemma Parts(d: Descriptor, items: seq<Item>, originals: Words, c: Composed)
    requires Compose(d, items, originals) == Ok(c)
    ensures c.baseline == DecodeFields(d, originals) && c.variant == DecodeFields(d, c.words)
    ensures CanonicalInterventions(d, items) == Ok(c.interventions)
  {
  }

  ghost predicate ReadsFields(d: Descriptor, fields: map<string, nat>, words: Words, name: string)
    requires HasField(d.fields, name)
  {
    fields.Keys == FieldNames(d) && name in fields && fields[name] == Get(words, FieldNamed(d.fields, name))
  }

  lemma BothDecoded(d: Descriptor, originals: Words, words: Words, baseline: map<string, nat>, variant: map<string, nat>, name: string)
    requires HasField(d.fields, name) && baseline == DecodeFields(d, originals) && variant == DecodeFields(d, words)
    ensures ReadsFields(d, baseline, originals, name) && ReadsFields(d, variant, words, name)
  {
    Decoded(d, originals, name);
    Decoded(d, words, name);
  }

  // A result carries the canonical set and, for every declared field and nothing else, its value in the originals and in
  // the composed words.
  lemma FieldsDecoded(d: Descriptor, items: seq<Item>, originals: Words, c: Composed, name: string)
    requires Compose(d, items, originals) == Ok(c) && HasField(d.fields, name)
    ensures CanonicalInterventions(d, items) == Ok(c.interventions)
    ensures ReadsFields(d, c.baseline, originals, name) && ReadsFields(d, c.variant, c.words, name)
  {
    Parts(d, items, originals, c);
    BothDecoded(d, originals, c.words, c.baseline, c.variant, name);
  }

  // After the composition a field has the operand evaluated on the originals where a selected kind assigns it, and the
  // value it had before anywhere else.
  lemma FieldsBeforeAndAfter(d: Descriptor, items: seq<Item>, originals: Words, c: Composed, name: string)
    requires Valid(d) && Compose(d, items, originals) == Ok(c) && HasField(d.fields, name)
    ensures name in c.baseline && name in c.variant
    ensures forall x, a :: x in items && a in KindNamed(d.interventions, x.kind).assign && a.field == name ==>
              c.variant[name] == OperandValue(d, a.value, originals, x.parameters)
    ensures (forall x :: x in items ==> !Assigns(d, x.kind, name)) ==> c.variant[name] == c.baseline[name]
  {
    FieldsDecoded(d, items, originals, c, name);
    forall x, a | x in items && a in KindNamed(d.interventions, x.kind).assign && a.field == name
      ensures c.variant[name] == OperandValue(d, a.value, originals, x.parameters)
    {
      AssignedFieldsHold(d, items, originals, c, x, a);
    }
    if forall x :: x in items ==> !Assigns(d, x.kind, name) {
      OtherFieldsKept(d, items, originals, c, name);
    }
  }

  lemma {:induction false} PromisesEach(d: Descriptor, canon: seq<Item>, i: nat, words: Words)
    requires i <= |canon| && PromisesFrom(d, canon, i, words).Ok?
    ensures forall l :: i <= l < |canon| ==>
              CheckAll(d, KindNamed(d.interventions, canon[l].kind).promises, words, canon[l].parameters, Invariant).Ok?
    decreases |canon| - i
  {
    if i < |canon| {
      PromisesEach(d, canon, i + 1, words);
    }
  }

  // What an accepted set promises: every selected kind met its demands on the originals and keeps its promises on
  // the composed words.
  lemma DemandsAndPromises(d: Descriptor, items: seq<Item>, originals: Words, c: Composed, x: Item)
    requires Valid(d) && Compose(d, items, originals) == Ok(c) && x in items
    ensures
      var k := KindNamed(d.interventions, x.kind);
      && (forall i :: 0 <= i < |k.demands| ==> Holds(d, k.demands[i], originals, x.parameters) == Ok(true))
      && (forall i :: 0 <= i < |k.promises| ==> Holds(d, k.promises[i], c.words, x.parameters) == Ok(true))
  {
    var k := KindNamed(d.interventions, x.kind);
    ComposedParts(d, items, originals, c);
    var l :| 0 <= l < |c.interventions| && c.interventions[l] == x;
    AcceptedCollect(d, c.interventions, 0, originals, []);
    assert AdmissibleItem(d, c.interventions[l], originals);
    PromisesEach(d, c.interventions, 0, c.words);
    CheckAllMeansEach(d, k.demands, originals, x.parameters, OriginalPrecondition);
    CheckAllMeansEach(d, k.promises, c.words, x.parameters, Invariant);
  }
}
