// The interpreter: masked updates of copied words, used masks and self-checks. It computes `Composition.Compose`.
module Composer {
  import opened Wrappers
  import opened Bits
  import opened Orders
  import opened JsonValues
  import opened Descriptors
  import opened Composition

  method EvaluatePredicate(d: Descriptor, p: Predicate, words: Words, params: map<string, Json>) returns (r: Result<bool, Code>)
    ensures r == Holds(d, p, words, params)
  {
    match p
    case Compare(left, op, right) =>
      var a, b := OperandValue(d, left, words, params), OperandValue(d, right, words, params);
      return Ok(Comparison(op, a, b));
    case ProductBound(factors, strict, bound) =>
      var product: int := 1;
      for i := 0 to |factors|
        invariant Product(d, factors[i..], words, product) == Product(d, factors, words, 1)
      {
        var v := FactorValue(d, factors[i], words);
        if v < 0 {
          return Err(NegativeFactor);
        }
        product := product * v;
      }
      return Ok(if strict then product < bound else product <= bound);
  }

  method RequireAll(d: Descriptor, ps: seq<Predicate>, words: Words, params: map<string, Json>, failure: Code) returns (r: Result<(), Code>)
    ensures r == CheckAll(d, ps, words, params, failure)
  {
    for i := 0 to |ps|
      invariant CheckAll(d, ps[i..], words, params, failure) == CheckAll(d, ps, words, params, failure)
    {
      var holds := EvaluatePredicate(d, ps[i], words, params);
      if holds.Err? {
        return Err(holds.error);
      }
      if !holds.value {
        return Err(failure);
      }
    }
    return Ok(());
  }

  // ----- the working state of the interpreter ---------------------------------------------------------

  // used holds exactly the bits of the fields assigned so far.
  ghost predicate Marks(originals: Words, applied: seq<Assignment>, used: Words) {
    && used.Keys == originals.Keys
    && (forall n :: n in used ==> |used[n]| == |originals[n]|)
    && (forall n, i, bit: nat :: n in used && 0 <= i < |used[n]| ==> Bit(used[n][i], bit) == Covered(applied, n, i, bit))
  }

  ghost predicate AllWords(words: Words) {
    forall n, i :: n in words && 0 <= i < |words[n]| ==> IsWord(words[n][i])
  }

  lemma SuppliedAreWords(d: Descriptor, words: Words)
    requires Supplied(d, words)
    ensures AllWords(words)
  {
    forall n, i | n in words && 0 <= i < |words[n]|
      ensures IsWord(words[n][i])
    {
      assert n in TargetNames(d);
      var k :| 0 <= k < |d.targets| && d.targets[k].name == n;
    }
  }

  // The word of a declared field exists in the supplied words.
  lemma FieldWordExists(d: Descriptor, f: Field, words: Words)
    requires ValidTargets(d) && FieldOk(d, f) && words.Keys == TargetNames(d)
    requires forall i :: 0 <= i < |d.targets| ==> |words[d.targets[i].name]| == d.targets[i].words
    ensures f.target in words && f.word < |words[f.target]|
  {
    TargetFound(d.targets, f.target);
  }

  lemma CoveredByOneMore(applied: seq<Assignment>, a: Assignment, n: string, i: nat, bit: nat)
    ensures Covered(applied + [a], n, i, bit) == (Covered(applied, n, i, bit) || Covers(a.field, n, i, bit))
  {
    var more := applied + [a];
    assert more[|applied|] == a;
    if Covered(applied, n, i, bit) {
      var k :| 0 <= k < |applied| && Covers(applied[k].field, n, i, bit);
      assert more[k] == applied[k];
    }
  }

  // used & mask == 0 is the absence of any earlier assignment that overlaps the field.
  lemma ConflictTest(originals: Words, applied: seq<Assignment>, used: Words, f: Field)
    requires Marks(originals, applied, used) && AllFit(applied)
    requires f.target in used && f.word < |used[f.target]| && 1 <= f.width
    ensures And(used[f.target][f.word], Mask(f.offset, f.width)) == 0 <==> !OverlapsSome(applied, f)
  {
    var u, m := used[f.target][f.word], Mask(f.offset, f.width);
    if OverlapsSome(applied, f) {
      var k :| 0 <= k < |applied| && Overlap(applied[k].field, f);
      var g := applied[k].field;
      var bit := if g.offset <= f.offset then f.offset else g.offset;
      assert Covers(g, f.target, f.word, bit);
      AndBit(u, m, bit);
      MaskBit(f.offset, f.width, bit);
      ZeroBit(bit);
    } else {
      forall bit: nat
        ensures !Bit(And(u, m), bit)
      {
        AndBit(u, m, bit);
        MaskBit(f.offset, f.width, bit);
        if Bit(And(u, m), bit) {
          var k :| 0 <= k < |applied| && Covers(applied[k].field, f.target, f.word, bit);
          assert Overlap(applied[k].field, f);
        }
      }
      NoBitsIsZero(And(u, m));
    }
  }

  lemma PutUpdates(originals: Words, applied: seq<Assignment>, a: Assignment)
    requires AllWords(originals) && AllFit(applied) && AssignmentFits(a)
    requires a.field.target in originals && a.field.word < |originals[a.field.target]|
    ensures
      var n, i, result := a.field.target, a.field.word, WordsAfter(originals, applied);
      WordsAfter(originals, applied + [a]) ==
      SetWord(result, n, i, PutField(result[n][i], a.field.offset, a.field.width, a.value))
  {
    var n, i, result := a.field.target, a.field.word, WordsAfter(originals, applied);
    var result' := SetWord(result, n, i, PutField(result[n][i], a.field.offset, a.field.width, a.value));
    forall p | p in originals
      ensures result'[p] == RowAfter(originals[p], p, applied + [a])
    {
      forall q | 0 <= q < |originals[p]|
        ensures result'[p][q] == WordAfter(originals[p][q], p, q, applied + [a])
      {
        WordAfterOneMore(originals[p][q], p, q, applied, a);
      }
    }
  }

  lemma PutMarks(originals: Words, applied: seq<Assignment>, used: Words, a: Assignment)
    requires Marks(originals, applied, used)
    requires a.field.target in used && a.field.word < |used[a.field.target]|
    ensures
      var n, i, m := a.field.target, a.field.word, Mask(a.field.offset, a.field.width);
      Marks(originals, applied + [a], SetWord(used, n, i, Or(used[n][i], m)))
  {
    var n, i, m := a.field.target, a.field.word, Mask(a.field.offset, a.field.width);
    var used' := SetWord(used, n, i, Or(used[n][i], m));
    forall p, q, bit: nat | p in used' && 0 <= q < |used'[p]|
      ensures Bit(used'[p][q], bit) == Covered(applied + [a], p, q, bit)
    {
      CoveredByOneMore(applied, a, p, q, bit);
      OrBit(used[n][i], m, bit);
      MaskBit(a.field.offset, a.field.width, bit);
    }
  }

  // The stray-bit check compares equal outside the used mask.
  lemma NoStrayBits(originals: Words, applied: seq<Assignment>, result: Words, used: Words, n: string, i: nat)
    requires AllWords(originals) && AllFit(applied) && Marks(originals, applied, used) && result == WordsAfter(originals, applied)
    requires n in originals && i < |originals[n]|
    ensures AndNot(Xor(result[n][i], originals[n][i]), used[n][i]) == 0
  {
    var x := Xor(result[n][i], originals[n][i]);
    forall bit: nat
      ensures !Bit(AndNot(x, used[n][i]), bit)
    {
      AndNotBit(x, used[n][i], bit);
      XorBit(result[n][i], originals[n][i], bit);
      WordAfterBit(originals[n][i], n, i, applied, bit);
      if !Covered(applied, n, i, bit) {
        BitAfterUncovered(originals[n][i], n, i, applied, bit);
      }
    }
    NoBitsIsZero(AndNot(x, used[n][i]));
  }

  lemma AssignedBit(w: nat, applied: seq<Assignment>, k: nat, bit: nat)
    requires IsWord(w) && AllFit(applied) && NoOverlap(applied) && k < |applied| && bit < applied[k].field.width
    ensures
      var f := applied[k].field;
      Bit(WordAfter(w, f.target, f.word, applied), f.offset + bit) == Bit(applied[k].value, bit)
  {
    var f := applied[k].field;
    WordAfterBit(w, f.target, f.word, applied, f.offset + bit);
    BitAfterCovered(w, f.target, f.word, applied, f.offset + bit, k);
  }

  // Every assigned field reads back as its value.
  lemma AssignedFieldReadsBack(w: nat, applied: seq<Assignment>, k: nat)
    requires IsWord(w) && AllFit(applied) && NoOverlap(applied) && k < |applied|
    ensures
      var f := applied[k].field;
      GetField(WordAfter(w, f.target, f.word, applied), f.offset, f.width) == applied[k].value
  {
    var f := applied[k].field;
    var w' := WordAfter(w, f.target, f.word, applied);
    forall bit: nat | bit < f.width
      ensures Bit(w', f.offset + bit) == Bit(applied[k].value, bit)
    {
      AssignedBit(w, applied, k, bit);
    }
    assert AssignmentFits(applied[k]);
    FieldHolds(w', f.offset, f.width, applied[k].value);
  }

  // used is nonzero exactly for the touched words.
  lemma UsedIffTouched(originals: Words, applied: seq<Assignment>, used: Words, n: string, i: nat)
    requires AllFit(applied) && Marks(originals, applied, used)
    requires n in used && i < |used[n]|
    ensures used[n][i] != 0 <==> Touched(applied, n, i)
  {
    if Touched(applied, n, i) {
      var k :| 0 <= k < |applied| && applied[k].field.target == n && applied[k].field.word == i;
      assert Covers(applied[k].field, n, i, applied[k].field.offset);
      assert Bit(used[n][i], applied[k].field.offset);
      ZeroBit(applied[k].field.offset);
    } else {
      NoBitsIsZero(used[n][i]);
    }
  }

  lemma NoOverlapOneMore(applied: seq<Assignment>, a: Assignment)
    requires NoOverlap(applied) && !OverlapsSome(applied, a.field)
    ensures NoOverlap(applied + [a])
  {
  }

  // ----- the interpreter ------------------------------------------------------------------------------

  ghost predicate InPlace(originals: Words, applied: seq<Assignment>) {
    forall k :: 0 <= k < |applied| ==>
      applied[k].field.target in originals && applied[k].field.word < |originals[applied[k].field.target]|
  }

  ghost predicate Working(originals: Words, applied: seq<Assignment>, result: Words, used: Words) {
    && result == WordsAfter(originals, applied)
    && Marks(originals, applied, used)
    && AllFit(applied) && NoOverlap(applied) && InPlace(originals, applied)
  }

  // The field an assignment names has bits, inside one of the original words.
  ghost predicate Ready(d: Descriptor, a: Assign, originals: Words) {
    var f := FieldNamed(d.fields, a.field);
    && 1 <= f.width && f.offset + f.width <= WORD_BITS
    && f.target in originals && f.word < |originals[f.target]|
  }

  lemma AssignsReady(d: Descriptor, k: Kind, originals: Words)
    requires ValidTargets(d) && ValidFields(d) && Supplied(d, originals) && ValidAssigns(d, k.parameters, k.assign)
    ensures forall j :: 0 <= j < |k.assign| ==> Ready(d, k.assign[j], originals)
  {
    forall j | 0 <= j < |k.assign|
      ensures Ready(d, k.assign[j], originals)
    {
      assert AssignOk(d, k.parameters, k.assign[j]);
      FieldIsDeclared(d, k.assign[j].field);
      FieldWordExists(d, FieldNamed(d.fields, k.assign[j].field), originals);
    }
  }

  lemma AssignKeepsWorking(originals: Words, applied: seq<Assignment>, result: Words, used: Words, a: Assignment)
    requires Working(originals, applied, result, used) && AllWords(originals) && AssignmentFits(a)
    requires a.field.target in originals && a.field.word < |originals[a.field.target]|
    requires !OverlapsSome(applied, a.field)
    ensures
      var n, i := a.field.target, a.field.word;
      var m := Mask(a.field.offset, a.field.width);
      Working(originals, applied + [a], SetWord(result, n, i, Or(AndNot(result[n][i], m), Shl(a.value, a.field.offset))),
              SetWord(used, n, i, Or(used[n][i], m)))
  {
    PutUpdates(originals, applied, a);
    PutMarks(originals, applied, used, a);
    NoOverlapOneMore(applied, a);
  }

  method AssignAll(d: Descriptor, k: Kind, params: map<string, Json>, originals: Words,
                   result: Words, used: Words, applied: seq<Assignment>)
    returns (r: Result<(Words, Words, seq<Assignment>), Code>)
    requires AllWords(originals) && forall j :: 0 <= j < |k.assign| ==> Ready(d, k.assign[j], originals)
    requires Working(originals, applied, result, used)
    ensures r.Err? ==> AssignFrom(d, k.assign, 0, originals, params, applied) == Err(r.error)
    ensures r.Ok? ==> AssignFrom(d, k.assign, 0, originals, params, applied) == Ok(r.value.2)
    ensures r.Ok? ==> Working(originals, r.value.2, r.value.0, r.value.1)
  {
    var words, marks, done := result, used, applied;
    for j := 0 to |k.assign|
      invariant Working(originals, done, words, marks)
      invariant AssignFrom(d, k.assign, j, originals, params, done) == AssignFrom(d, k.assign, 0, originals, params, applied)
    {
      assert Ready(d, k.assign[j], originals);
      var f := FieldNamed(d.fields, k.assign[j].field);
      var value := OperandValue(d, k.assign[j].value, originals, params);
      if !(0 <= value < Pow2(f.width)) {
        return Err(ValueWidth);
      }
      var m := Mask(f.offset, f.width);
      ConflictTest(originals, done, marks, f);
      if And(marks[f.target][f.word], m) != 0 {
        return Err(MaskConflict);
      }
      AssignKeepsWorking(originals, done, words, marks, Assignment(f, value));
      marks := SetWord(marks, f.target, f.word, Or(marks[f.target][f.word], m));
      var w := words[f.target][f.word];
      words := SetWord(words, f.target, f.word, Or(AndNot(w, m), Shl(value, f.offset)));
      done := done + [Assignment(f, value)];
    }
    return Ok((words, marks, done));
  }

  method CollectWrites(d: Descriptor, originals: Words, result: Words, used: Words, ghost applied: seq<Assignment>)
    returns (r: Result<seq<Write>, Code>)
    requires Valid(d) && Supplied(d, originals) && Working(originals, applied, result, used)
    ensures r == WritesFrom(d, originals, result, applied, 0, 0, [])
  {
    var writes: seq<Write> := [];
    for t := 0 to |d.targets|
      invariant WritesFrom(d, originals, result, applied, t, 0, writes) == WritesFrom(d, originals, result, applied, 0, 0, [])
    {
      var target := d.targets[t];
      for i := 0 to target.words
        invariant WritesFrom(d, originals, result, applied, t, i, writes) == WritesFrom(d, originals, result, applied, 0, 0, [])
      {
        UsedIffTouched(originals, applied, used, target.name, i);
        if used[target.name][i] != 0 {
          if result[target.name][i] == originals[target.name][i] {
            return Err(NoEffect);
          }
          writes := writes + [WriteOf(d, target, i, originals[target.name][i], result[target.name][i])];
        }
      }
    }
    return Ok(writes);
  }

  method CheckPromises(d: Descriptor, canon: seq<Item>, result: Words) returns (r: Result<(), Code>)
    ensures r == PromisesFrom(d, canon, 0, result)
  {
    for i := 0 to |canon|
      invariant PromisesFrom(d, canon, i, result) == PromisesFrom(d, canon, 0, result)
    {
      var kept := RequireAll(d, KindNamed(d.interventions, canon[i].kind).promises, result, canon[i].parameters, Invariant);
      if kept.Err? {
        return Err(kept.error);
      }
    }
    return Ok(());
  }

  // The PROFILE_NON_TARGET_BITS check: it never fires.
  method FindStrayBits(d: Descriptor, originals: Words, result: Words, used: Words, ghost applied: seq<Assignment>) returns (stray: bool)
    requires Supplied(d, originals) && Working(originals, applied, result, used)
    ensures !stray
  {
    SuppliedAreWords(d, originals);
    stray := false;
    for t := 0 to |d.targets|
      invariant !stray
    {
      var n := d.targets[t].name;
      for i := 0 to d.targets[t].words
        invariant !stray
      {
        NoStrayBits(originals, applied, result, used, n, i);
        stray := stray || AndNot(Xor(result[n][i], originals[n][i]), used[n][i]) != 0;
      }
    }
  }

  // The PROFILE_FIELD_VALUE check: it never fires.
  method FindWrongField(originals: Words, result: Words, ghost used: Words, applied: seq<Assignment>) returns (wrong: bool)
    requires AllWords(originals) && Working(originals, applied, result, used)
    ensures !wrong
  {
    wrong := false;
    for k := 0 to |applied|
      invariant !wrong
    {
      AssignedFieldReadsBack(originals[applied[k].field.target][applied[k].field.word], applied, k);
      wrong := wrong || Get(result, applied[k].field) != applied[k].value;
    }
  }

  ghost predicate KindReady(d: Descriptor, name: string, originals: Words) {
    var k := KindNamed(d.interventions, name);
    forall j :: 0 <= j < |k.assign| ==> Ready(d, k.assign[j], originals)
  }

  method AssignItems(d: Descriptor, canon: seq<Item>, originals: Words, marks: Words)
    returns (r: Result<(Words, Words, seq<Assignment>), Code>)
    requires AllWords(originals) && Working(originals, [], originals, marks)
    requires forall i :: 0 <= i < |canon| ==> KindReady(d, canon[i].kind, originals)
    ensures r.Err? ==> CollectFrom(d, canon, 0, originals, []) == Err(r.error)
    ensures r.Ok? ==> CollectFrom(d, canon, 0, originals, []) == Ok(r.value.2)
    ensures r.Ok? ==> Working(originals, r.value.2, r.value.0, r.value.1)
  {
    var result, used, applied := originals, marks, [];
    for i := 0 to |canon|
      invariant Working(originals, applied, result, used)
      invariant CollectFrom(d, canon, i, originals, applied) == CollectFrom(d, canon, 0, originals, [])
    {
      assert KindReady(d, canon[i].kind, originals);
      var k := KindNamed(d.interventions, canon[i].kind);
      var met := RequireAll(d, k.demands, originals, canon[i].parameters, OriginalPrecondition);
      if met.Err? {
        return Err(met.error);
      }
      var step := AssignAll(d, k, canon[i].parameters, originals, result, used, applied);
      if step.Err? {
        return Err(step.error);
      }
      result, used, applied := step.value.0, step.value.1, step.value.2;
    }
    return Ok((result, used, applied));
  }

  lemma KindIsReady(d: Descriptor, name: string, originals: Words)
    requires Valid(d) && Supplied(d, originals) && HasKind(d.interventions, name)
    ensures KindReady(d, name, originals)
  {
    KindFound(d.interventions, name);
    assert KindOk(d, KindNamed(d.interventions, name));
    AssignsReady(d, KindNamed(d.interventions, name), originals);
  }

  method ComposeItems(d: Descriptor, items: seq<Item>, originals: Words) returns (r: Result<Composed, Code>)
    requires Valid(d)
    ensures r == Compose(d, items, originals)
  {
    if !Supplied(d, originals) {
      return Err(OriginalStateUnavailable);
    }
    if !MatchesOriginals(d, originals) {
      return Err(OriginalWordMismatch);
    }
    var canonical := CanonicalInterventions(d, items);
    if canonical.Err? {
      return Err(canonical.error);
    }
    var canon := canonical.value;
    CanonicalKindsDeclared(d, items);
    SuppliedAreWords(d, originals);
    var unmarked := map n | n in originals :: seq(|originals[n]|, _ => 0);
    StartTracks(originals, unmarked);
    forall i | 0 <= i < |canon|
      ensures KindReady(d, canon[i].kind, originals)
    {
      KindIsReady(d, canon[i].kind, originals);
    }
    var collected := AssignItems(d, canon, originals, unmarked);
    if collected.Err? {
      return Err(collected.error);
    }
    var result, used, applied := collected.value.0, collected.value.1, collected.value.2;
    var kept := CheckPromises(d, canon, result);
    if kept.Err? {
      return Err(kept.error);
    }
    var strayBits := FindStrayBits(d, originals, result, used, applied);
    var wrongField := FindWrongField(originals, result, used, applied);
    var writes := CollectWrites(d, originals, result, used, applied);
    return if strayBits then Err(NonTargetBits)
           else if wrongField then Err(FieldValue)
           else if writes.Err? then Err(writes.error)
           else Ok(Composed(canon, writes.value, result, DecodeFields(d, originals), DecodeFields(d, result)));
  }

  lemma CanonicalKindsDeclared(d: Descriptor, items: seq<Item>)
    requires CanonicalInterventions(d, items).Ok?
    ensures forall x :: x in CanonicalInterventions(d, items).value ==> x in items && HasKind(d.interventions, x.kind)
  {
    SortMultiset(ByKind, items);
    SameMembers(items, Sort(ByKind, items));
  }

  lemma StartTracks(originals: Words, used: Words)
    requires AllWords(originals)
    requires used == map n | n in originals :: seq(|originals[n]|, _ => 0)
    ensures Working(originals, [], originals, used)
  {
    forall n | n in originals
      ensures RowAfter(originals[n], n, []) == originals[n]
    {
      forall i | 0 <= i < |originals[n]|
        ensures WordAfter(originals[n][i], n, i, []) == originals[n][i]
      {
        WordAfterNothing(originals[n][i], n, i, []);
      }
    }
    assert WordsAfter(originals, []) == originals;
    forall n, i, bit: nat | n in used && 0 <= i < |used[n]|
      ensures !Bit(used[n][i], bit)
    {
      ZeroBit(bit);
    }
  }
}
