// The overlay engine in closed form: which sets of the two legacy kinds it accepts, with which words and writes.
// An accepted set edits at most four fields, no two of which overlap; so each word is its original with those fields
// replaced, whatever the order of the items, and the writes follow from which words were edited. The marks, masks and
// self-checks of the loop are dealt with in overlay.dfy; here only its denotation is used.
module LegacyRefinement {
  import opened Wrappers
  import opened Bits
  import opened Orders
  import opened Descriptors
  import opened Composition
  import opened Hookr1
  import opened Hookr1Valid
  import opened Overlay
  import opened LegacyWords

  // ----- what both engines ask of one item --------------------------------------------------------------------

  predicate ItemAdmitted(x: Item) {
    (x.kind == LP_REWARDS && LpAdmitted(x)) || (x.kind == DYNAMIC_FEE && OffAdmitted(x))
  }

  predicate ItemMeets(x: Item, rules0: nat, root0: nat, base: nat) {
    if x.kind == LP_REWARDS then GetField(rules0, 160, 16) == 100
    else GetField(rules0, 40, 24) > base && GetField(rules0, 128, 16) > 0 && GetField(root0, 248, 8) == 3
  }

  function LpValue(x: Item): nat
    requires LpAdmitted(x)
  {
    x.parameters["lpBps"].n
  }

  lemma KindsDiffer()
    ensures LP_REWARDS != DYNAMIC_FEE && LP_REWARDS != DYNAMIC_FEE_TUNING && DYNAMIC_FEE != DYNAMIC_FEE_TUNING
    ensures StringLe(DYNAMIC_FEE, LP_REWARDS)
  {
    KindOrderOk();
  }

  lemma FieldPowers()
    ensures Pow2(16) == 65536 && Pow2(24) == 16777216
  {
    assert Pow2(8) == 256;
    assert Pow2(16) == 65536;
  }

  // ----- the overlay engine -----------------------------------------------------------------------------------

  function OverlayAssignments(x: Item, base: nat): seq<Assignment>
    requires ItemAdmitted(x)
  {
    if x.kind == LP_REWARDS then [Assignment(LP_BPS, LpValue(x))]
    else [Assignment(MAX_FEE, base), Assignment(SENSITIVITY, 0), Assignment(ROOT_MODE, 2)]
  }

  lemma LpEdited(rules0: nat, root0: nat, lp: int, applied: seq<Assignment>)
    requires 0 <= lp <= 99 && !OverlapsSome(applied, LP_BPS)
    ensures
      var r := EditFrom(LpEdits(lp), 0, TwoWords(rules0, root0), applied);
      if GetField(rules0, 160, 16) == 100 then r == Ok(applied + [Assignment(LP_BPS, lp)]) else r.Err?
  {
    FieldPowers();
    assert Get(TwoWords(rules0, root0), LP_BPS) == GetField(rules0, 160, 16);
  }

  lemma OverlayGets(rules0: nat, root0: nat)
    ensures Get(TwoWords(rules0, root0), MAX_FEE) == GetField(rules0, 40, 24)
    ensures Get(TwoWords(rules0, root0), SENSITIVITY) == GetField(rules0, 128, 16)
    ensures Get(TwoWords(rules0, root0), ROOT_MODE) == GetField(root0, 248, 8)
  {
  }

  lemma OverlapsSomeOneMore(applied: seq<Assignment>, a: Assignment, f: Field)
    ensures OverlapsSome(applied + [a], f) <==> OverlapsSome(applied, f) || Overlap(a.field, f)
  {
    assert (applied + [a])[|applied|] == a;
    if k :| 0 <= k < |applied| && Overlap(applied[k].field, f) {
      assert (applied + [a])[k] == applied[k];
    }
  }

  lemma DynamicEdited(rules0: nat, root0: nat, base: nat, applied: seq<Assignment>)
    requires base < Pow2(24)
    requires !OverlapsSome(applied, MAX_FEE) && !OverlapsSome(applied, SENSITIVITY) && !OverlapsSome(applied, ROOT_MODE)
    ensures
      var r := EditFrom(DynamicEdits(base), 0, TwoWords(rules0, root0), applied);
      if GetField(rules0, 40, 24) > base && GetField(rules0, 128, 16) > 0 && GetField(root0, 248, 8) == 3
      then r == Ok(applied + [Assignment(MAX_FEE, base), Assignment(SENSITIVITY, 0), Assignment(ROOT_MODE, 2)])
      else r.Err?
  {
    SmallPowers();
    OverlayGets(rules0, root0);
    var originals, edits := TwoWords(rules0, root0), DynamicEdits(base);
    var a1, a2, a3 := Assignment(MAX_FEE, base), Assignment(SENSITIVITY, 0), Assignment(ROOT_MODE, 2);
    OverlapsSomeOneMore(applied, a1, SENSITIVITY);
    OverlapsSomeOneMore(applied, a1, ROOT_MODE);
    OverlapsSomeOneMore(applied + [a1], a2, ROOT_MODE);
    assert applied + [a1] + [a2] + [a3] == applied + [a1, a2, a3];
    var r := EditFrom(edits, 0, originals, applied);
    if GetField(rules0, 40, 24) > base {
      assert r == EditFrom(edits, 1, originals, applied + [a1]);
      if GetField(rules0, 128, 16) > 0 {
        assert r == EditFrom(edits, 2, originals, applied + [a1] + [a2]);
        if GetField(root0, 248, 8) == 3 {
          assert r == EditFrom(edits, 3, originals, applied + [a1] + [a2] + [a3]);
        }
      }
    }
  }

  ghost predicate Separate(x: Item, applied: seq<Assignment>) {
    if x.kind == LP_REWARDS then !OverlapsSome(applied, LP_BPS)
    else !OverlapsSome(applied, MAX_FEE) && !OverlapsSome(applied, SENSITIVITY) && !OverlapsSome(applied, ROOT_MODE)
  }

  lemma ItemEdited(x: Item, rules0: nat, root0: nat, base: nat, applied: seq<Assignment>)
    requires Registered(x) && base < Pow2(24) && Separate(x, applied)
    ensures Rule(x, base).Ok? <==> ItemAdmitted(x)
    ensures ItemAdmitted(x) ==>
              var r := EditFrom(Rule(x, base).value, 0, TwoWords(rules0, root0), applied);
              if ItemMeets(x, rules0, root0, base) then r == Ok(applied + OverlayAssignments(x, base)) else r.Err?
  {
    KindsDiffer();
    if x.kind == LP_REWARDS && LpAdmitted(x) {
      LpEdited(rules0, root0, x.parameters["lpBps"].n, applied);
    }
    if x.kind == DYNAMIC_FEE && OffAdmitted(x) {
      DynamicEdited(rules0, root0, base, applied);
    }
  }

  lemma OtherKindSeparate(x: Item, y: Item, base: nat)
    requires ItemAdmitted(x) && Registered(y) && x.kind != y.kind
    ensures Separate(y, OverlayAssignments(x, base))
  {
    KindsDiffer();
  }

  predicate ItemPasses(x: Item, rules0: nat, root0: nat, base: nat) {
    ItemAdmitted(x) && ItemMeets(x, rules0, root0, base)
  }

  lemma FirstEdited(items: seq<Item>, rules0: nat, root0: nat, base: nat)
    requires items != [] && Registered(items[0]) && base < Pow2(24)
    ensures
      var originals := TwoWords(rules0, root0);
      var r := EditItems(items, 0, base, originals, []);
      if ItemPasses(items[0], rules0, root0, base) then r == EditItems(items, 1, base, originals, OverlayAssignments(items[0], base))
      else r.Err?
  {
    ItemEdited(items[0], rules0, root0, base, []);
    if ItemPasses(items[0], rules0, root0, base) {
      assert [] + OverlayAssignments(items[0], base) == OverlayAssignments(items[0], base);
    }
  }

  lemma SecondEdited(items: seq<Item>, rules0: nat, root0: nat, base: nat)
    requires |items| == 2 && ItemAdmitted(items[0]) && Registered(items[1]) && items[0].kind != items[1].kind && base < Pow2(24)
    ensures
      var originals, first := TwoWords(rules0, root0), OverlayAssignments(items[0], base);
      var r := EditItems(items, 1, base, originals, first);
      if ItemPasses(items[1], rules0, root0, base) then r == Ok(first + OverlayAssignments(items[1], base)) else r.Err?
  {
    OtherKindSeparate(items[0], items[1], base);
    ItemEdited(items[1], rules0, root0, base, OverlayAssignments(items[0], base));
  }

  predicate SetPasses(items: seq<Item>, rules0: nat, root0: nat, base: nat)
    requires 1 <= |items| <= 2
  {
    ItemPasses(items[0], rules0, root0, base) && (|items| == 2 ==> ItemPasses(items[1], rules0, root0, base))
  }

  function SetAssignments(items: seq<Item>, base: nat): seq<Assignment>
    requires 1 <= |items| <= 2 && ItemAdmitted(items[0]) && (|items| == 2 ==> ItemAdmitted(items[1]))
  {
    if |items| == 1 then OverlayAssignments(items[0], base)
    else OverlayAssignments(items[0], base) + OverlayAssignments(items[1], base)
  }

  lemma CheckedSet(items: seq<Item>)
    requires CheckSet(items).Ok?
    ensures 1 <= |items| <= 2 && Registered(items[0])
    ensures |items| == 2 ==> Registered(items[1]) && items[0].kind != items[1].kind
  {
    assert items[0] in items;
    if |items| == 2 {
      assert items[1] in items;
      assert !RepeatsKind(items);
    }
  }

  // A checked set is edited exactly when every item passes; the edits are the items'.
  lemma SetEdited(items: seq<Item>, rules0: nat, root0: nat, base: nat)
    requires CheckSet(items).Ok? && base < Pow2(24)
    ensures 1 <= |items| <= 2
    ensures
      var r := EditItems(items, 0, base, TwoWords(rules0, root0), []);
      if SetPasses(items, rules0, root0, base) then r == Ok(SetAssignments(items, base)) else r.Err?
  {
    CheckedSet(items);
    FirstEdited(items, rules0, root0, base);
    if |items| == 2 && ItemPasses(items[0], rules0, root0, base) {
      SecondEdited(items, rules0, root0, base);
    }
  }

  // ----- words of the overlay engine --------------------------------------------------------------------------

  function DynamicRules(rules: nat, base: nat): nat {
    PutField(PutField(rules, 40, 24, base), 128, 16, 0)
  }

  function LpRules(rules: nat, lp: nat): nat {
    PutField(rules, 160, 16, lp)
  }

  // The Rules word after one item.
  function ItemRules(x: Item, rules: nat, base: nat): nat
    requires ItemAdmitted(x)
  {
    if x.kind == LP_REWARDS then LpRules(rules, LpValue(x)) else DynamicRules(rules, base)
  }

  function ItemRoot(x: Item, root: nat): nat {
    if x.kind == LP_REWARDS then root else PutField(root, 248, 1, 0)
  }

  lemma OverlayFits(x: Item, base: nat)
    requires ItemAdmitted(x) && base < Pow2(24)
    ensures AllFit(OverlayAssignments(x, base))
  {
    SmallPowers();
    FieldPowers();
  }

  lemma TargetsDiffer()
    ensures RULES != ROOT
  {
    assert |RULES| == 5 && |ROOT| == 4;
  }

  // One assignment as a step on one word.
  function StepWord(w: nat, target: string, a: Assignment): nat {
    if a.field.target == target && a.field.word == 0 then PutField(w, a.field.offset, a.field.width, a.value) else w
  }

  lemma WordAfterStep(w: nat, target: string, applied: seq<Assignment>, a: Assignment)
    requires IsWord(w) && AllFit(applied) && AssignmentFits(a)
    ensures WordAfter(w, target, 0, applied + [a]) == StepWord(WordAfter(w, target, 0, applied), target, a)
    ensures AllFit(applied + [a])
  {
    WordAfterOneMore(w, target, 0, applied, a);
  }

  lemma WordAfterThree(w: nat, target: string, applied: seq<Assignment>, a: Assignment, b: Assignment, c: Assignment)
    requires IsWord(w) && AllFit(applied) && AssignmentFits(a) && AssignmentFits(b) && AssignmentFits(c)
    ensures WordAfter(w, target, 0, applied + [a, b, c]) ==
            StepWord(StepWord(StepWord(WordAfter(w, target, 0, applied), target, a), target, b), target, c)
  {
    WordAfterStep(w, target, applied, a);
    WordAfterStep(w, target, applied + [a], b);
    WordAfterStep(w, target, applied + [a] + [b], c);
    assert applied + [a] + [b] + [c] == applied + [a, b, c];
  }

  lemma OverlayRulesAfter(rules0: nat, x: Item, base: nat, applied: seq<Assignment>)
    requires IsWord(rules0) && ItemAdmitted(x) && base < Pow2(24) && AllFit(applied)
    ensures WordAfter(rules0, RULES, 0, applied + OverlayAssignments(x, base)) == ItemRules(x, WordAfter(rules0, RULES, 0, applied), base)
  {
    OverlayFits(x, base);
    TargetsDiffer();
    var more := OverlayAssignments(x, base);
    if x.kind == LP_REWARDS {
      WordAfterOneMore(rules0, RULES, 0, applied, more[0]);
    } else {
      WordAfterThree(rules0, RULES, applied, more[0], more[1], more[2]);
    }
  }

  lemma OverlayRootAfter(root0: nat, x: Item, base: nat, applied: seq<Assignment>)
    requires IsWord(root0) && ItemAdmitted(x) && base < Pow2(24) && AllFit(applied)
    ensures WordAfter(root0, ROOT, 0, applied + OverlayAssignments(x, base)) ==
            if x.kind == LP_REWARDS then WordAfter(root0, ROOT, 0, applied)
            else PutField(WordAfter(root0, ROOT, 0, applied), 248, 8, 2)
  {
    OverlayFits(x, base);
    TargetsDiffer();
    var more := OverlayAssignments(x, base);
    if x.kind == LP_REWARDS {
      WordAfterOneMore(root0, ROOT, 0, applied, more[0]);
    } else {
      WordAfterThree(root0, ROOT, applied, more[0], more[1], more[2]);
    }
  }

  // ----- the overlay result in closed form --------------------------------------------------------------------

  function SetRules(items: seq<Item>, rules0: nat, base: nat): nat
    requires 1 <= |items| <= 2 && ItemAdmitted(items[0]) && (|items| == 2 ==> ItemAdmitted(items[1]))
  {
    if |items| == 1 then ItemRules(items[0], rules0, base) else ItemRules(items[1], ItemRules(items[0], rules0, base), base)
  }

  predicate HasDynamic(items: seq<Item>)
    requires 1 <= |items| <= 2
  {
    items[0].kind == DYNAMIC_FEE || (|items| == 2 && items[1].kind == DYNAMIC_FEE)
  }

  function SetRoot(items: seq<Item>, root0: nat): nat
    requires 1 <= |items| <= 2
  {
    if HasDynamic(items) then PutField(root0, 248, 1, 0) else root0
  }

  lemma NothingAssigned(w: nat, target: string)
    requires IsWord(w)
    ensures WordAfter(w, target, 0, []) == w
  {
    WordAfterNothing(w, target, 0, []);
  }

  lemma SetRulesAfter(items: seq<Item>, rules0: nat, root0: nat, base: nat)
    requires IsWord(rules0) && base < Pow2(24) && 1 <= |items| <= 2 && SetPasses(items, rules0, root0, base)
    ensures WordAfter(rules0, RULES, 0, SetAssignments(items, base)) == SetRules(items, rules0, base)
  {
    NothingAssigned(rules0, RULES);
    OverlayRulesAfter(rules0, items[0], base, []);
    assert [] + OverlayAssignments(items[0], base) == OverlayAssignments(items[0], base);
    if |items| == 2 {
      OverlayFits(items[0], base);
      OverlayRulesAfter(rules0, items[1], base, OverlayAssignments(items[0], base));
    }
  }

  lemma SetRootAfter(items: seq<Item>, rules0: nat, root0: nat, base: nat)
    requires IsWord(root0) && base < Pow2(24) && CheckSet(items).Ok? && 1 <= |items| <= 2 && SetPasses(items, rules0, root0, base)
    ensures WordAfter(root0, ROOT, 0, SetAssignments(items, base)) == SetRoot(items, root0)
  {
    CheckedSet(items);
    KindsDiffer();
    NothingAssigned(root0, ROOT);
    OverlayRootAfter(root0, items[0], base, []);
    assert [] + OverlayAssignments(items[0], base) == OverlayAssignments(items[0], base);
    if |items| == 2 {
      OverlayFits(items[0], base);
      OverlayRootAfter(root0, items[1], base, OverlayAssignments(items[0], base));
    }
    if HasDynamic(items) {
      ModeTwoIsFlagCleared(root0);
    }
  }

  lemma SetTouches(items: seq<Item>, base: nat)
    requires CheckSet(items).Ok? && 1 <= |items| <= 2 && ItemAdmitted(items[0]) && (|items| == 2 ==> ItemAdmitted(items[1]))
    ensures Touched(SetAssignments(items, base), RULES, 0)
    ensures Touched(SetAssignments(items, base), ROOT, 0) <==> HasDynamic(items)
  {
    CheckedSet(items);
    KindsDiffer();
    TargetsDiffer();
    var all := SetAssignments(items, base);
    assert all[0].field.target == RULES && all[0].field.word == 0;
    if items[0].kind == DYNAMIC_FEE {
      assert all[2].field == ROOT_MODE;
    } else if |items| == 2 && items[1].kind == DYNAMIC_FEE {
      assert all[3].field == ROOT_MODE;
    }
  }

  // The Rules word of a passing set differs from the original in the LP rate or the maximum fee.
  lemma RulesChange(items: seq<Item>, rules0: nat, root0: nat, base: nat)
    requires CheckSet(items).Ok? && 1 <= |items| <= 2 && base < Pow2(24) && SetPasses(items, rules0, root0, base)
    ensures SetRules(items, rules0, base) != rules0
  {
    CheckedSet(items);
    KindsDiffer();
    FieldPowers();
    ItemRulesFields(items[0], rules0, base);
    if |items| == 2 {
      ItemRulesFields(items[1], ItemRules(items[0], rules0, base), base);
    }
  }

  lemma ItemRulesFields(x: Item, rules: nat, base: nat)
    requires ItemAdmitted(x) && base < Pow2(24)
    ensures GetField(ItemRules(x, rules, base), 160, 16) == if x.kind == LP_REWARDS then LpValue(x) else GetField(rules, 160, 16)
    ensures GetField(ItemRules(x, rules, base), 40, 24) == if x.kind == LP_REWARDS then GetField(rules, 40, 24) else base
  {
    FieldPowers();
    if x.kind == LP_REWARDS {
      GetAfterPut(rules, 160, 16, LpValue(x));
      GetElsewhereAfterPut(rules, 160, 16, LpValue(x), 40, 24);
    } else {
      var once := PutField(rules, 40, 24, base);
      GetAfterPut(rules, 40, 24, base);
      GetElsewhereAfterPut(rules, 40, 24, base, 160, 16);
      GetElsewhereAfterPut(once, 128, 16, 0, 40, 24);
      GetElsewhereAfterPut(once, 128, 16, 0, 160, 16);
    }
  }

  lemma RootChanges(root0: nat)
    requires GetField(root0, 248, 8) == 3
    ensures PutField(root0, 248, 1, 0) != root0
  {
    ModeThreeIsFlags(root0);
    SmallPowers();
    GetAfterPut(root0, 248, 1, 0);
  }

  // The write list both engines derive: the Rules word, then the Root record when the dynamic fee is switched off.
  function SetWrites(items: seq<Item>, rules0: nat, root0: nat, base: nat): seq<OverlayWrite>
    requires 1 <= |items| <= 2 && ItemAdmitted(items[0]) && (|items| == 2 ==> ItemAdmitted(items[1]))
  {
    [OverlayWrite(RULES, rules0, SetRules(items, rules0, base))]
    + if HasDynamic(items) then [OverlayWrite(ROOT, root0, SetRoot(items, root0))] else []
  }

  lemma DynamicMeetsMode(items: seq<Item>, rules0: nat, root0: nat, base: nat)
    requires 1 <= |items| <= 2 && SetPasses(items, rules0, root0, base) && HasDynamic(items)
    ensures GetField(root0, 248, 8) == 3
  {
    KindsDiffer();
  }

  lemma PassingWords(items: seq<Item>, rules0: nat, root0: nat, base: nat)
    requires IsWord(rules0) && IsWord(root0) && base < Pow2(24)
    requires CheckSet(items).Ok? && 1 <= |items| <= 2 && SetPasses(items, rules0, root0, base)
    ensures
      var words := WordsAfter(TwoWords(rules0, root0), SetAssignments(items, base));
      WordAt(words, RULES, 0) == SetRules(items, rules0, base) && WordAt(words, ROOT, 0) == SetRoot(items, root0)
  {
    SetRulesAfter(items, rules0, root0, base);
    SetRootAfter(items, rules0, root0, base);
    OverlayWords(items, rules0, root0, base);
  }

  lemma PassingWrites(items: seq<Item>, rules0: nat, root0: nat, base: nat)
    requires IsWord(rules0) && IsWord(root0) && base < Pow2(24)
    requires CheckSet(items).Ok? && 1 <= |items| <= 2 && SetPasses(items, rules0, root0, base)
    ensures
      var originals, all := TwoWords(rules0, root0), SetAssignments(items, base);
      OverlayWrites(originals, WordsAfter(originals, all), all) == Ok(SetWrites(items, rules0, root0, base))
  {
    PassingWords(items, rules0, root0, base);
    SetTouches(items, base);
    RulesChange(items, rules0, root0, base);
    if HasDynamic(items) {
      DynamicMeetsMode(items, rules0, root0, base);
      RootChanges(root0);
    }
  }

  lemma OverlayClosedForm(items: seq<Item>, rules0: nat, root0: nat, base: nat)
    requires IsWord(rules0) && IsWord(root0) && base < Pow2(24)
    ensures
      var r := ComposeOverlay(items, rules0, root0, base);
      if CheckSet(items).Ok? && 1 <= |items| <= 2 && SetPasses(items, rules0, root0, base)
      then r == Ok(OverlayResult(SetRules(items, rules0, base), SetRoot(items, root0), SetWrites(items, rules0, root0, base)))
      else r.Err?
  {
    if CheckSet(items).Ok? {
      SetEdited(items, rules0, root0, base);
      if SetPasses(items, rules0, root0, base) {
        PassingWords(items, rules0, root0, base);
        PassingWrites(items, rules0, root0, base);
      }
    }
  }

  lemma OverlayWords(items: seq<Item>, rules0: nat, root0: nat, base: nat)
    requires 1 <= |items| <= 2 && ItemAdmitted(items[0]) && (|items| == 2 ==> ItemAdmitted(items[1]))
    ensures
      var all := SetAssignments(items, base);
      var words := WordsAfter(TwoWords(rules0, root0), all);
      WordAt(words, RULES, 0) == WordAfter(rules0, RULES, 0, all) && WordAt(words, ROOT, 0) == WordAfter(root0, ROOT, 0, all)
  {
    TargetsDiffer();
  }
}
