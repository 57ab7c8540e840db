// The config-overlay engine of SDK 0.4: the same typed interventions on one Rules word and one Root record, with
// its own field table (an 8-bit mode instead of single flags), rule registry and order of checks.
module Overlay {
  import opened Wrappers
  import opened Bits
  import opened JsonValues
  import opened Descriptors
  import opened Composition
  import Composer
  import Hookr1

  datatype OverlayCode =
    | OverlayCount
    | OverlayUnknown
    | OverlayDuplicate
    | LpParameter
    | DynamicFeeParameter
    | OverlayMaskConflict
    | OverlayPrecondition
    | OverlayValueWidth
    | OverlayNonTargetBits
    | OverlayFieldValue
    | OverlayNoEffect

  const RULES := "rules"
  const ROOT := "root"

  const MAX_FEE := Field("maxFeePips", RULES, 0, 40, 24, Uint)
  const SENSITIVITY := Field("sensitivity", RULES, 0, 128, 16, Uint)
  const LP_BPS := Field("lpBps", RULES, 0, 160, 16, Uint)
  const ROOT_MODE := Field("rootMode", ROOT, 0, 248, 8, Uint)

  // What an edit expects of the original field.
  datatype Expectation = Exactly(n: nat) | Above(n: nat)

  predicate Meets(e: Expectation, x: nat) {
    match e
    case Exactly(n) => x == n
    case Above(n) => x > n
  }

  datatype Edit = Edit(field: Field, expects: Expectation, value: int)

  datatype OverlayWrite = OverlayWrite(target: string, before: nat, after: nat)

  datatype OverlayResult = OverlayResult(rules: nat, root: nat, writes: seq<OverlayWrite>)

  // ----- rules of the registry ------------------------------------------------------------------------------

  predicate LpAdmitted(x: Item) {
    x.parameters.Keys == {"lpBps"} && x.parameters["lpBps"].JInt? && 0 <= x.parameters["lpBps"].n <= 99
  }

  predicate OffAdmitted(x: Item) {
    x.parameters.Keys == {"dynamicFee"} && x.parameters["dynamicFee"] == JStr("OFF")
  }

  function DynamicEdits(base: nat): seq<Edit> {
    [Edit(MAX_FEE, Above(base), base), Edit(SENSITIVITY, Above(0), 0), Edit(ROOT_MODE, Exactly(3), 2)]
  }

  function LpEdits(lp: int): seq<Edit> {
    [Edit(LP_BPS, Exactly(100), lp)]
  }

  function Rule(x: Item, base: nat): Result<seq<Edit>, OverlayCode> {
    if x.kind == Hookr1.LP_REWARDS then
      if LpAdmitted(x) then Ok(LpEdits(x.parameters["lpBps"].n)) else Err(LpParameter)
    else if x.kind == Hookr1.DYNAMIC_FEE then
      if OffAdmitted(x) then Ok(DynamicEdits(base)) else Err(DynamicFeeParameter)
    else Err(OverlayUnknown)
  }

  predicate Registered(x: Item) {
    x.kind == Hookr1.LP_REWARDS || x.kind == Hookr1.DYNAMIC_FEE
  }

  function CheckSet(items: seq<Item>): Result<(), OverlayCode> {
    if !(1 <= |items| <= 2) then Err(OverlayCount)
    else if exists x :: x in items && !Registered(x) then Err(OverlayUnknown)
    else if RepeatsKind(items) then Err(OverlayDuplicate)
    else Ok(())
  }

  // ----- meaning --------------------------------------------------------------------------------------------

  function TwoWords(rules: nat, root: nat): Words {
    map[RULES := [rules], ROOT := [root]]
  }

  function EditFrom(edits: seq<Edit>, j: nat, originals: Words, applied: seq<Assignment>): Result<seq<Assignment>, OverlayCode>
    requires j <= |edits|
    decreases |edits| - j
  {
    if j == |edits| then Ok(applied)
    else
      var e := edits[j];
      if OverlapsSome(applied, e.field) then Err(OverlayMaskConflict)
      else if !Meets(e.expects, Get(originals, e.field)) then Err(OverlayPrecondition)
      else if !(0 <= e.value < Pow2(e.field.width)) then Err(OverlayValueWidth)
      else EditFrom(edits, j + 1, originals, applied + [Assignment(e.field, e.value)])
  }

  function EditItems(items: seq<Item>, i: nat, base: nat, originals: Words, applied: seq<Assignment>): Result<seq<Assignment>, OverlayCode>
    requires i <= |items|
    decreases |items| - i
  {
    if i == |items| then Ok(applied)
    else
      var edits :- Rule(items[i], base);
      var applied' :- EditFrom(edits, 0, originals, applied);
      EditItems(items, i + 1, base, originals, applied')
  }

  function OverlayWrites(originals: Words, words: Words, applied: seq<Assignment>): Result<seq<OverlayWrite>, OverlayCode> {
    if Touched(applied, RULES, 0) && WordAt(words, RULES, 0) == WordAt(originals, RULES, 0) then Err(OverlayNoEffect)
    else if Touched(applied, ROOT, 0) && WordAt(words, ROOT, 0) == WordAt(originals, ROOT, 0) then Err(OverlayNoEffect)
    else Ok((if Touched(applied, RULES, 0) then [OverlayWrite(RULES, WordAt(originals, RULES, 0), WordAt(words, RULES, 0))] else [])
            + (if Touched(applied, ROOT, 0) then [OverlayWrite(ROOT, WordAt(originals, ROOT, 0), WordAt(words, ROOT, 0))] else []))
  }

  // `base` is the base LP fee of the profile.
  function ComposeOverlay(items: seq<Item>, rules0: nat, root0: nat, base: nat): Result<OverlayResult, OverlayCode> {
    var originals := TwoWords(rules0, root0);
    var _ :- CheckSet(items);
    var applied :- EditItems(items, 0, base, originals, []);
    var words := WordsAfter(originals, applied);
    var writes :- OverlayWrites(originals, words, applied);
    Ok(OverlayResult(WordAt(words, RULES, 0), WordAt(words, ROOT, 0), writes))
  }

  // ----- the engine -----------------------------------------------------------------------------------------

  predicate EditInPlace(e: Edit) {
    e.field == MAX_FEE || e.field == SENSITIVITY || e.field == LP_BPS || e.field == ROOT_MODE
  }

  lemma RulesInPlace(x: Item, base: nat)
    requires Rule(x, base).Ok?
    ensures forall j :: 0 <= j < |Rule(x, base).value| ==> EditInPlace(Rule(x, base).value[j])
  {
  }

  lemma PlacedInWords(e: Edit, rules0: nat, root0: nat)
    requires EditInPlace(e)
    ensures e.field.target in TwoWords(rules0, root0) && e.field.word < |TwoWords(rules0, root0)[e.field.target]|
    ensures 1 <= e.field.width && e.field.offset + e.field.width <= WORD_BITS
  {
  }

  method ApplyEdits(edits: seq<Edit>, rules0: nat, root0: nat, words: Words, used: Words, applied: seq<Assignment>)
    returns (r: Result<(Words, Words, seq<Assignment>), OverlayCode>)
    requires IsWord(rules0) && IsWord(root0) && forall j :: 0 <= j < |edits| ==> EditInPlace(edits[j])
    requires Composer.Working(TwoWords(rules0, root0), applied, words, used)
    ensures r.Err? ==> EditFrom(edits, 0, TwoWords(rules0, root0), applied) == Err(r.error)
    ensures r.Ok? ==> EditFrom(edits, 0, TwoWords(rules0, root0), applied) == Ok(r.value.2)
    ensures r.Ok? ==> Composer.Working(TwoWords(rules0, root0), r.value.2, r.value.0, r.value.1)
  {
    var originals := TwoWords(rules0, root0);
    var result, marks, done := words, used, applied;
    for j := 0 to |edits|
      invariant Composer.Working(originals, done, result, marks)
      invariant EditFrom(edits, j, originals, done) == EditFrom(edits, 0, originals, applied)
    {
      var e := edits[j];
      var f := e.field;
      PlacedInWords(e, rules0, root0);
      var m := Mask(f.offset, f.width);
      Composer.ConflictTest(originals, done, marks, f);
      if And(marks[f.target][f.word], m) != 0 {
        return Err(OverlayMaskConflict);
      }
      if !Meets(e.expects, Get(originals, f)) {
        return Err(OverlayPrecondition);
      }
      if !(0 <= e.value < Pow2(f.width)) {
        return Err(OverlayValueWidth);
      }
      Composer.AssignKeepsWorking(originals, done, result, marks, Assignment(f, e.value));
      marks := SetWord(marks, f.target, f.word, Or(marks[f.target][f.word], m));
      var w := result[f.target][f.word];
      result := SetWord(result, f.target, f.word, Or(AndNot(w, m), Shl(e.value, f.offset)));
      done := done + [Assignment(f, e.value)];
    }
    return Ok((result, marks, done));
  }

  // The two closing self-checks of the overlay engine never fire.
  method SelfChecks(rules0: nat, root0: nat, words: Words, used: Words, applied: seq<Assignment>) returns (stray: bool, wrong: bool)
    requires IsWord(rules0) && IsWord(root0) && Composer.Working(TwoWords(rules0, root0), applied, words, used)
    ensures !stray && !wrong
  {
    var originals := TwoWords(rules0, root0);
    Composer.NoStrayBits(originals, applied, words, used, RULES, 0);
    Composer.NoStrayBits(originals, applied, words, used, ROOT, 0);
    stray := AndNot(Xor(words[RULES][0], originals[RULES][0]), used[RULES][0]) != 0
             || AndNot(Xor(words[ROOT][0], originals[ROOT][0]), used[ROOT][0]) != 0;
    wrong := Composer.FindWrongField(originals, words, used, applied);
  }

  method EditAll(items: seq<Item>, rules0: nat, root0: nat, base: nat, unmarked: Words)
    returns (r: Result<(Words, Words, seq<Assignment>), OverlayCode>)
    requires IsWord(rules0) && IsWord(root0) && Composer.Working(TwoWords(rules0, root0), [], TwoWords(rules0, root0), unmarked)
    ensures r.Err? ==> EditItems(items, 0, base, TwoWords(rules0, root0), []) == Err(r.error)
    ensures r.Ok? ==> EditItems(items, 0, base, TwoWords(rules0, root0), []) == Ok(r.value.2)
    ensures r.Ok? ==> Composer.Working(TwoWords(rules0, root0), r.value.2, r.value.0, r.value.1)
  {
    var originals := TwoWords(rules0, root0);
    var words, used, applied := originals, unmarked, [];
    for i := 0 to |items|
      invariant Composer.Working(originals, applied, words, used)
      invariant EditItems(items, i, base, originals, applied) == EditItems(items, 0, base, originals, [])
    {
      var edits := Rule(items[i], base);
      if edits.Err? {
        return Err(edits.error);
      }
      RulesInPlace(items[i], base);
      var step := ApplyEdits(edits.value, rules0, root0, words, used, applied);
      if step.Err? {
        return Err(step.error);
      }
      words, used, applied := step.value.0, step.value.1, step.value.2;
    }
    return Ok((words, used, applied));
  }

  method ListWrites(rules0: nat, root0: nat, words: Words, used: Words, ghost applied: seq<Assignment>)
    returns (r: Result<seq<OverlayWrite>, OverlayCode>)
    requires Composer.Working(TwoWords(rules0, root0), applied, words, used)
    ensures r == OverlayWrites(TwoWords(rules0, root0), words, applied)
  {
    var originals := TwoWords(rules0, root0);
    Composer.UsedIffTouched(originals, applied, used, RULES, 0);
    Composer.UsedIffTouched(originals, applied, used, ROOT, 0);
    var writes: seq<OverlayWrite> := [];
    if used[RULES][0] != 0 {
      if words[RULES][0] == originals[RULES][0] {
        return Err(OverlayNoEffect);
      }
      writes := writes + [OverlayWrite(RULES, originals[RULES][0], words[RULES][0])];
    }
    assert writes == (if Touched(applied, RULES, 0) then [OverlayWrite(RULES, originals[RULES][0], words[RULES][0])] else []);
    assert writes + [] == writes;
    if used[ROOT][0] != 0 {
      if words[ROOT][0] == originals[ROOT][0] {
        return Err(OverlayNoEffect);
      }
      writes := writes + [OverlayWrite(ROOT, originals[ROOT][0], words[ROOT][0])];
    }
    return Ok(writes);
  }

  lemma StartUnmarked(rules0: nat, root0: nat)
    requires IsWord(rules0) && IsWord(root0)
    ensures Composer.Working(TwoWords(rules0, root0), [], TwoWords(rules0, root0), TwoWords(0, 0))
  {
    var originals := TwoWords(rules0, root0);
    var unmarked := map n | n in originals :: seq(|originals[n]|, _ => 0);
    Composer.StartTracks(originals, unmarked);
    assert [0] == seq(1, _ => 0);
    assert unmarked == TwoWords(0, 0);
  }

  method Run(items: seq<Item>, rules0: nat, root0: nat, base: nat) returns (r: Result<OverlayResult, OverlayCode>)
    requires IsWord(rules0) && IsWord(root0)
    ensures r == ComposeOverlay(items, rules0, root0, base)
  {
    var checked := CheckSet(items);
    if checked.Err? {
      return Err(checked.error);
    }
    StartUnmarked(rules0, root0);
    var edited := EditAll(items, rules0, root0, base, TwoWords(0, 0));
    if edited.Err? {
      return Err(edited.error);
    }
    var words, used, applied := edited.value.0, edited.value.1, edited.value.2;
    var stray, wrong := SelfChecks(rules0, root0, words, used, applied);
    var writes := ListWrites(rules0, root0, words, used, applied);
    return if stray then Err(OverlayNonTargetBits)
           else if wrong then Err(OverlayFieldValue)
           else if writes.Err? then Err(writes.error)
           else Ok(OverlayResult(words[RULES][0], words[ROOT][0], writes.value));
  }
}
