// The derived writes are exactly the changed words, and the complete list of reasons `Compose` has to refuse
// a canonical set on the reviewed originals.
module CompositionWrites {
  import opened Wrappers
  import opened Bits
  import opened Descriptors
  import opened Composition
  import opened CompositionFacts
  import opened CompositionMeaning
  import Composer
  import JsonValues

  // ----- words that keep their value ----------------------------------------------------------------------

  // Every assignment to the word repeats the value its field already has.
  ghost predicate KeepsWord(w: nat, target: string, i: nat, applied: seq<Assignment>) {
    forall k :: 0 <= k < |applied| && applied[k].field.target == target && applied[k].field.word == i ==>
      GetField(w, applied[k].field.offset, applied[k].field.width) == applied[k].value
  }

  lemma KeptBit(w: nat, target: string, i: nat, applied: seq<Assignment>, bit: nat)
    requires IsWord(w) && AllFit(applied) && NoOverlap(applied) && KeepsWord(w, target, i, applied)
    ensures Bit(WordAfter(w, target, i, applied), bit) == Bit(w, bit)
  {
    WordAfterBit(w, target, i, applied, bit);
    if Covered(applied, target, i, bit) {
      var k :| 0 <= k < |applied| && Covers(applied[k].field, target, i, bit);
      BitAfterCovered(w, target, i, applied, bit, k);
      GetFieldBit(w, applied[k].field.offset, applied[k].field.width, bit - applied[k].field.offset);
    } else {
      BitAfterUncovered(w, target, i, applied, bit);
    }
  }

  lemma WordKeptExactly(w: nat, target: string, i: nat, applied: seq<Assignment>)
    requires IsWord(w) && AllFit(applied) && NoOverlap(applied)
    ensures WordAfter(w, target, i, applied) == w <==> KeepsWord(w, target, i, applied)
  {
    if KeepsWord(w, target, i, applied) {
      forall bit: nat
        ensures Bit(WordAfter(w, target, i, applied), bit) == Bit(w, bit)
      {
        KeptBit(w, target, i, applied, bit);
      }
      SameBits(WordAfter(w, target, i, applied), w);
    }
    if WordAfter(w, target, i, applied) == w {
      forall k | 0 <= k < |applied| && applied[k].field.target == target && applied[k].field.word == i
        ensures GetField(w, applied[k].field.offset, applied[k].field.width) == applied[k].value
      {
        Composer.AssignedFieldReadsBack(w, applied, k);
      }
    }
  }

  // ----- the write list -------------------------------------------------------------------------------------

  // Word i' of target t' is at or after word i of target t in listing order.
  predicate AtOrAfter(d: Descriptor, t: nat, i: nat, t': nat, i': nat) {
    t <= t' < |d.targets| && i' < d.targets[t'].words && (t' == t ==> i <= i')
  }

  ghost predicate TouchedAt(d: Descriptor, applied: seq<Assignment>, t: nat, i: nat)
    requires t < |d.targets|
  {
    Touched(applied, d.targets[t].name, i)
  }

  predicate SameAt(d: Descriptor, originals: Words, words: Words, t: nat, i: nat)
    requires t < |d.targets|
  {
    WordAt(words, d.targets[t].name, i) == WordAt(originals, d.targets[t].name, i)
  }

  function WriteAt(d: Descriptor, originals: Words, words: Words, t: nat, i: nat): Write
    requires t < |d.targets|
  {
    var name := d.targets[t].name;
    WriteOf(d, d.targets[t], i, WordAt(originals, name, i), WordAt(words, name, i))
  }

  lemma {:induction false} WritesFail(d: Descriptor, originals: Words, words: Words, applied: seq<Assignment>, t: nat, i: nat, writes: seq<Write>)
    requires t <= |d.targets| && (t < |d.targets| ==> i <= d.targets[t].words)
    ensures
      var r := WritesFrom(d, originals, words, applied, t, i, writes);
      && (r.Err? ==> r.error == NoEffect)
      && (r.Err? <==> exists t', i' :: AtOrAfter(d, t, i, t', i') && TouchedAt(d, applied, t', i') && SameAt(d, originals, words, t', i'))
    decreases |d.targets| - t, if t < |d.targets| then d.targets[t].words - i else 0
  {
    if t < |d.targets| {
      if i == d.targets[t].words {
        WritesFail(d, originals, words, applied, t + 1, 0, writes);
        assert forall t', i' :: AtOrAfter(d, t, i, t', i') <==> AtOrAfter(d, t + 1, 0, t', i');
      } else {
        assert AtOrAfter(d, t, i, t, i);
        assert forall t', i' :: AtOrAfter(d, t, i, t', i') <==> AtOrAfter(d, t, i + 1, t', i') || (t' == t && i' == i);
        WritesFail(d, originals, words, applied, t, i + 1,
                   if TouchedAt(d, applied, t, i) then writes + [WriteAt(d, originals, words, t, i)] else writes);
      }
    }
  }

  // The writes from a position on: each one is of a touched, changed word at or after it.
  ghost predicate WritesOf(d: Descriptor, originals: Words, words: Words, applied: seq<Assignment>, t: nat, i: nat, tail: seq<Write>) {
    forall w :: w in tail ==>
      exists t', i' :: AtOrAfter(d, t, i, t', i') && TouchedAt(d, applied, t', i') && !SameAt(d, originals, words, t', i')
                       && w == WriteAt(d, originals, words, t', i')
  }

  ghost predicate WritesAll(d: Descriptor, originals: Words, words: Words, applied: seq<Assignment>, t: nat, i: nat, tail: seq<Write>) {
    forall t', i' :: AtOrAfter(d, t, i, t', i') && TouchedAt(d, applied, t', i') ==> WriteAt(d, originals, words, t', i') in tail
  }

  ghost predicate DistinctPlaces(writes: seq<Write>) {
    forall k, l :: 0 <= k < l < |writes| ==> !(writes[k].target == writes[l].target && writes[k].word == writes[l].word)
  }

  // v is declared before w: its target comes earlier, or its word within the same target.
  ghost predicate Precedes(d: Descriptor, v: Write, w: Write) {
    exists t, u :: 0 <= t <= u < |d.targets| && d.targets[t].name == v.target && d.targets[u].name == w.target && (t == u ==> v.word < w.word)
  }

  ghost predicate Ascending(d: Descriptor, writes: seq<Write>) {
    forall k, l :: 0 <= k < l < |writes| ==> Precedes(d, writes[k], writes[l])
  }

  lemma LaterWritesFollow(d: Descriptor, originals: Words, words: Words, applied: seq<Assignment>, t: nat, i: nat, tail: seq<Write>, first: Write)
    requires t < |d.targets| && WritesOf(d, originals, words, applied, t, i + 1, tail)
    requires first.target == d.targets[t].name && first.word == i && Ascending(d, tail)
    ensures Ascending(d, [first] + tail)
  {
    forall l | 0 <= l < |tail|
      ensures Precedes(d, first, tail[l])
    {
      assert tail[l] in tail;
      var u: nat, j: nat :| AtOrAfter(d, t, i + 1, u, j) && TouchedAt(d, applied, u, j) && !SameAt(d, originals, words, u, j)
                  && tail[l] == WriteAt(d, originals, words, u, j);
      assert t <= u && d.targets[u].name == tail[l].target && (t == u ==> i < j);
    }
  }

  lemma LaterWritesElsewhere(d: Descriptor, originals: Words, words: Words, applied: seq<Assignment>, t: nat, i: nat, tail: seq<Write>, first: Write)
    requires ValidTargets(d) && t < |d.targets| && WritesOf(d, originals, words, applied, t, i + 1, tail)
    requires first.target == d.targets[t].name && first.word == i && DistinctPlaces(tail)
    ensures DistinctPlaces([first] + tail)
  {
    forall l | 0 <= l < |tail|
      ensures !(first.target == tail[l].target && first.word == tail[l].word)
    {
      assert tail[l] in tail;
    }
  }

  lemma WritesOfStep(d: Descriptor, originals: Words, words: Words, applied: seq<Assignment>, t: nat, i: nat, tail: seq<Write>)
    requires t < |d.targets| && i < d.targets[t].words
    requires WritesOf(d, originals, words, applied, t, i + 1, tail) && WritesAll(d, originals, words, applied, t, i + 1, tail)
    requires TouchedAt(d, applied, t, i) && !SameAt(d, originals, words, t, i)
    ensures
      var tail' := [WriteAt(d, originals, words, t, i)] + tail;
      WritesOf(d, originals, words, applied, t, i, tail') && WritesAll(d, originals, words, applied, t, i, tail')
  {
    var first := WriteAt(d, originals, words, t, i);
    assert AtOrAfter(d, t, i, t, i);
    forall w | w in [first] + tail
      ensures exists t', i' :: AtOrAfter(d, t, i, t', i') && TouchedAt(d, applied, t', i') && !SameAt(d, originals, words, t', i')
                               && w == WriteAt(d, originals, words, t', i')
    {
      if w != first {
        assert w in tail;
        var t', i' :| AtOrAfter(d, t, i + 1, t', i') && TouchedAt(d, applied, t', i') && !SameAt(d, originals, words, t', i')
                      && w == WriteAt(d, originals, words, t', i');
        assert AtOrAfter(d, t, i, t', i');
      }
    }
    forall t', i' | AtOrAfter(d, t, i, t', i') && TouchedAt(d, applied, t', i')
      ensures WriteAt(d, originals, words, t', i') in [first] + tail
    {
      if t' != t || i' != i {
        assert AtOrAfter(d, t, i + 1, t', i');
      }
    }
  }

  lemma WritesOfWider(d: Descriptor, originals: Words, words: Words, applied: seq<Assignment>, t: nat, i: nat, t0: nat, i0: nat, tail: seq<Write>)
    requires WritesOf(d, originals, words, applied, t, i, tail) && WritesAll(d, originals, words, applied, t, i, tail)
    requires forall t', i' :: AtOrAfter(d, t, i, t', i') ==> AtOrAfter(d, t0, i0, t', i')
    requires forall t', i' :: AtOrAfter(d, t0, i0, t', i') && TouchedAt(d, applied, t', i') ==> AtOrAfter(d, t, i, t', i')
    ensures WritesOf(d, originals, words, applied, t0, i0, tail) && WritesAll(d, originals, words, applied, t0, i0, tail)
  {
    forall w | w in tail
      ensures exists t', i' :: AtOrAfter(d, t0, i0, t', i') && TouchedAt(d, applied, t', i') && !SameAt(d, originals, words, t', i')
                               && w == WriteAt(d, originals, words, t', i')
    {
      var t', i' :| AtOrAfter(d, t, i, t', i') && TouchedAt(d, applied, t', i') && !SameAt(d, originals, words, t', i')
                    && w == WriteAt(d, originals, words, t', i');
      assert AtOrAfter(d, t0, i0, t', i');
    }
  }

  // The writes added after position (t, i).
  lemma {:induction false} WritesListed(d: Descriptor, originals: Words, words: Words, applied: seq<Assignment>, t: nat, i: nat, writes: seq<Write>)
    returns (tail: seq<Write>)
    requires ValidTargets(d) && t <= |d.targets| && (t < |d.targets| ==> i <= d.targets[t].words)
    requires WritesFrom(d, originals, words, applied, t, i, writes).Ok?
    ensures WritesFrom(d, originals, words, applied, t, i, writes) == Ok(writes + tail)
    ensures WritesOf(d, originals, words, applied, t, i, tail) && WritesAll(d, originals, words, applied, t, i, tail)
    ensures DistinctPlaces(tail) && Ascending(d, tail)
    decreases |d.targets| - t, if t < |d.targets| then d.targets[t].words - i else 0
  {
    if t == |d.targets| {
      tail := [];
      assert writes + [] == writes;
    } else if i == d.targets[t].words {
      tail := WritesListed(d, originals, words, applied, t + 1, 0, writes);
      WritesOfWider(d, originals, words, applied, t + 1, 0, t, i, tail);
    } else if !TouchedAt(d, applied, t, i) {
      tail := WritesListed(d, originals, words, applied, t, i + 1, writes);
      WritesOfWider(d, originals, words, applied, t, i + 1, t, i, tail);
    } else {
      var first := WriteAt(d, originals, words, t, i);
      var rest := WritesListed(d, originals, words, applied, t, i + 1, writes + [first]);
      tail := [first] + rest;
      assert writes + tail == writes + [first] + rest;
      WritesOfStep(d, originals, words, applied, t, i, rest);
      LaterWritesElsewhere(d, originals, words, applied, t, i, rest, first);
      LaterWritesFollow(d, originals, words, applied, t, i, rest, first);
    }
  }

  // ----- writes of a composed result ----------------------------------------------------------------------

  predicate ChangedAt(d: Descriptor, originals: Words, words: Words, t: nat, i: nat) {
    t < |d.targets| && i < d.targets[t].words && !SameAt(d, originals, words, t, i)
  }

  // The list holds a write for every changed word and nothing else, each word once, with both values.
  ghost predicate ExactlyTheChanges(d: Descriptor, originals: Words, words: Words, writes: seq<Write>) {
    && DistinctPlaces(writes)
    && (forall w :: w in writes ==> exists t: nat, i: nat :: ChangedAt(d, originals, words, t, i) && w == WriteAt(d, originals, words, t, i))
    && (forall t: nat, i: nat :: ChangedAt(d, originals, words, t, i) ==> WriteAt(d, originals, words, t, i) in writes)
  }

  lemma UntouchedIsSame(d: Descriptor, originals: Words, applied: seq<Assignment>, t: nat, i: nat)
    requires Supplied(d, originals) && AllFit(applied) && t < |d.targets| && i < d.targets[t].words
    requires !TouchedAt(d, applied, t, i)
    ensures SameAt(d, originals, WordsAfter(originals, applied), t, i)
  {
    Composer.SuppliedAreWords(d, originals);
    WordAfterNothing(originals[d.targets[t].name][i], d.targets[t].name, i, applied);
  }

  lemma ListedAreChanges(d: Descriptor, originals: Words, applied: seq<Assignment>, writes: seq<Write>)
    requires Supplied(d, originals) && AllFit(applied) && DistinctPlaces(writes)
    requires WritesOf(d, originals, WordsAfter(originals, applied), applied, 0, 0, writes)
    requires WritesAll(d, originals, WordsAfter(originals, applied), applied, 0, 0, writes)
    ensures ExactlyTheChanges(d, originals, WordsAfter(originals, applied), writes)
  {
    var words := WordsAfter(originals, applied);
    forall w | w in writes
      ensures exists t: nat, i: nat :: ChangedAt(d, originals, words, t, i) && w == WriteAt(d, originals, words, t, i)
    {
      var t', i' :| AtOrAfter(d, 0, 0, t', i') && TouchedAt(d, applied, t', i') && !SameAt(d, originals, words, t', i')
                    && w == WriteAt(d, originals, words, t', i');
      assert ChangedAt(d, originals, words, t', i');
    }
    forall t: nat, i: nat | ChangedAt(d, originals, words, t, i)
      ensures WriteAt(d, originals, words, t, i) in writes
    {
      assert AtOrAfter(d, 0, 0, t, i);
      if !TouchedAt(d, applied, t, i) {
        UntouchedIsSame(d, originals, applied, t, i);
      }
    }
  }

  // What the composed writes list.
  lemma ComposedWrites(d: Descriptor, items: seq<Item>, originals: Words, c: Composed)
    requires Valid(d) && Compose(d, items, originals) == Ok(c)
    ensures Supplied(d, originals) && c.words == WordsAfter(originals, SelectedBy(d, c.interventions, originals))
    ensures AllFit(SelectedBy(d, c.interventions, originals)) && DistinctPlaces(c.writes) && Ascending(d, c.writes)
    ensures WritesOf(d, originals, c.words, SelectedBy(d, c.interventions, originals), 0, 0, c.writes)
    ensures WritesAll(d, originals, c.words, SelectedBy(d, c.interventions, originals), 0, 0, c.writes)
  {
    ComposedParts(d, items, originals, c);
    var tail := WritesListed(d, originals, c.words, SelectedBy(d, c.interventions, originals), 0, 0, []);
    assert [] + tail == tail;
  }

  // The writes are the changes, in the order in which their words are declared.
  lemma WritesAreTheChanges(d: Descriptor, items: seq<Item>, originals: Words, c: Composed)
    requires Valid(d) && Compose(d, items, originals) == Ok(c)
    ensures ExactlyTheChanges(d, originals, c.words, c.writes) && Ascending(d, c.writes)
  {
    ComposedWrites(d, items, originals, c);
    ListedAreChanges(d, originals, SelectedBy(d, c.interventions, originals), c.writes);
  }

  // Some declared word is touched by an accepted set.
  lemma SomeWordTouched(d: Descriptor, canon: seq<Item>, originals: Words) returns (t: nat, i: nat)
    requires ValidTargets(d) && ValidFields(d) && ValidKinds(d) && DeclaredKinds(d, canon) && canon != []
    ensures AtOrAfter(d, 0, 0, t, i) && TouchedAt(d, SelectedBy(d, canon, originals), t, i)
  {
    var x := canon[0];
    KindIsValid(d, x.kind);
    var a := KindNamed(d.interventions, x.kind).assign[0];
    AssignedFieldDeclared(d, x, a);
    FieldIsDeclared(d, a.field);
    var f := FieldNamed(d.fields, a.field);
    TargetFound(d.targets, f.target);
    var p := PositionOf(d, canon, originals, x, a);
    t :| 0 <= t < |d.targets| && d.targets[t] == TargetNamed(d.targets, f.target);
    i := f.word;
    assert SelectedBy(d, canon, originals)[p].field == f;
  }

  // Something is always written.
  lemma SomethingIsWritten(d: Descriptor, items: seq<Item>, originals: Words, c: Composed)
    requires Valid(d) && Compose(d, items, originals) == Ok(c)
    ensures c.writes != []
  {
    ComposedParts(d, items, originals, c);
    CanonicalSet(d, items);
    ComposedWrites(d, items, originals, c);
    var t, i := SomeWordTouched(d, c.interventions, originals);
    TouchedIsListed(d, originals, c.words, SelectedBy(d, c.interventions, originals), c.writes, t, i);
  }

  lemma TouchedIsListed(d: Descriptor, originals: Words, words: Words, applied: seq<Assignment>, tail: seq<Write>, t: nat, i: nat)
    requires WritesAll(d, originals, words, applied, 0, 0, tail) && AtOrAfter(d, 0, 0, t, i) && TouchedAt(d, applied, t, i)
    ensures tail != []
  {
    assert WriteAt(d, originals, words, t, i) in tail;
  }

  // ----- every reason to refuse -----------------------------------------------------------------------------

  // All fields assigned in some touched word already have their values.
  ghost predicate KeepsSomeWord(d: Descriptor, canon: seq<Item>, originals: Words) {
    exists t: nat, i: nat ::
      AtOrAfter(d, 0, 0, t, i) && TouchedAt(d, SelectedBy(d, canon, originals), t, i)
      && KeepsWord(WordAt(originals, d.targets[t].name, i), d.targets[t].name, i, SelectedBy(d, canon, originals))
  }

  lemma KeepsSomeWordExactly(d: Descriptor, canon: seq<Item>, originals: Words)
    requires Supplied(d, originals)
    requires
      var all := SelectedBy(d, canon, originals);
      NoOverlap(all) && AllFit(all)
    ensures
      var all := SelectedBy(d, canon, originals);
      KeepsSomeWord(d, canon, originals) <==>
      exists t', i' :: AtOrAfter(d, 0, 0, t', i') && TouchedAt(d, all, t', i') && SameAt(d, originals, WordsAfter(originals, all), t', i')
  {
    var all := SelectedBy(d, canon, originals);
    Composer.SuppliedAreWords(d, originals);
    forall t: nat, i: nat | AtOrAfter(d, 0, 0, t, i)
      ensures SameAt(d, originals, WordsAfter(originals, all), t, i) <==>
              KeepsWord(WordAt(originals, d.targets[t].name, i), d.targets[t].name, i, all)
    {
      WordKeptExactly(originals[d.targets[t].name][i], d.targets[t].name, i, all);
    }
  }

  // With demands met and values fitting, a canonical set on the reviewed originals is refused exactly when two
  // kinds assign one field, or a promise fails on the composed words, or some touched word keeps its value.
  lemma RefusedExactly(d: Descriptor, canon: seq<Item>, originals: Words)
    requires Valid(d) && Supplied(d, originals) && DistinctKinds(canon) && DeclaredKinds(d, canon)
    requires Admissible(d, canon, originals)
    ensures
      var r := ComposeCanonical(d, canon, originals);
      var promises := PromisesFrom(d, canon, 0, WordsAfter(originals, SelectedBy(d, canon, originals)));
      if SharesField(d, canon) then r == Err(MaskConflict)
      else if promises.Err? then r == Err(promises.error)
      else if KeepsSomeWord(d, canon, originals) then r == Err(NoEffect)
      else r.Ok?
  {
    MaskConflictExactly(d, canon, originals);
    if !SharesField(d, canon) {
      AcceptedAssignments(d, canon, originals);
      var all := SelectedBy(d, canon, originals);
      WritesFail(d, originals, WordsAfter(originals, all), all, 0, 0, []);
      KeepsSomeWordExactly(d, canon, originals);
    }
  }

  lemma {:induction false} PromiseCodes(d: Descriptor, canon: seq<Item>, i: nat, words: Words)
    requires i <= |canon|
    ensures
      var r := PromisesFrom(d, canon, i, words);
      r.Err? ==> r.error == NegativeFactor || r.error == Invariant
    decreases |canon| - i
  {
    if i < |canon| {
      CheckAllCodes(d, KindNamed(d.interventions, canon[i].kind).promises, words, canon[i].parameters, Invariant);
      PromiseCodes(d, canon, i + 1, words);
    }
  }

  lemma {:induction false} CollectCodes(d: Descriptor, canon: seq<Item>, i: nat, originals: Words, applied: seq<Assignment>)
    requires i <= |canon|
    ensures
      var r := CollectFrom(d, canon, i, originals, applied);
      r.Err? ==> r.error in {OriginalPrecondition, NegativeFactor, ValueWidth, MaskConflict}
    decreases |canon| - i
  {
    if i < |canon| {
      var k := KindNamed(d.interventions, canon[i].kind);
      CheckAllCodes(d, k.demands, originals, canon[i].parameters, OriginalPrecondition);
      AssignCodes(d, k.assign, 0, originals, canon[i].parameters, applied);
      var step := AssignFrom(d, k.assign, 0, originals, canon[i].parameters, applied);
      if step.Ok? {
        CollectCodes(d, canon, i + 1, originals, step.value);
      }
    }
  }

  lemma {:induction false} AssignCodes(d: Descriptor, assigns: seq<Assign>, j: nat, originals: Words, params: map<string, JsonValues.Json>,
                                      applied: seq<Assignment>)
    requires j <= |assigns|
    ensures
      var r := AssignFrom(d, assigns, j, originals, params, applied);
      r.Err? ==> r.error == ValueWidth || r.error == MaskConflict
    decreases |assigns| - j
  {
    if j < |assigns| {
      AssignCodes(d, assigns, j + 1, originals, params, applied + [AssignmentOf(d, assigns[j], originals, params)]);
    }
  }

  // The denotation knows neither self-check; the interpreter runs both and returns what the denotation says.
  lemma SelfChecksNeverFire(d: Descriptor, items: seq<Item>, originals: Words)
    requires Valid(d)
    ensures Compose(d, items, originals) != Err(NonTargetBits)
    ensures Compose(d, items, originals) != Err(FieldValue)
  {
    if CanonicalInterventions(d, items).Ok? {
      var canon := CanonicalInterventions(d, items).value;
      CollectCodes(d, canon, 0, originals, []);
      var applied := CollectFrom(d, canon, 0, originals, []);
      if applied.Ok? {
        var words := WordsAfter(originals, applied.value);
        PromiseCodes(d, canon, 0, words);
        WritesFail(d, originals, words, applied.value, 0, 0, []);
      }
    }
  }
}
