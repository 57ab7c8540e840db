// On the hookr-1 layout the descriptor engine and the overlay engine accept the same LP_REWARDS_BPS / DYNAMIC_FEE sets
// and derive the same words and writes, in the same order.
// The proof meets in the middle: both sides are brought to the same assignments over the two edited words. Descriptor
// composition works on the set in kind order, the overlay on the items as given; the words forget that order.
module LegacyEquivalence {
  import opened Wrappers
  import opened Bits
  import opened Descriptors
  import opened Composition
  import opened CompositionFacts
  import opened CompositionMeaning
  import opened Originals
  import opened Hookr1
  import opened Hookr1Valid
  import opened LegacyWords
  import opened LegacyDescriptor
  import Overlay
  import L = LegacyRefinement

  function BaseFee(w: seq<nat>): nat
    requires |w| == 6
  {
    GetField(w[4], 160, 24)
  }

  predicate CanonicalSet(canon: seq<Item>) {
    && 1 <= |canon| <= 2 && L.ItemAdmitted(canon[0])
    && (|canon| == 2 ==> L.ItemAdmitted(canon[1]) && canon[0].kind == DYNAMIC_FEE && canon[1].kind == LP_REWARDS)
  }

  function ChosenBy(canon: seq<Item>, base: nat): seq<Assignment>
    requires CanonicalSet(canon)
  {
    Chosen(canon[0], base) + if |canon| == 2 then Chosen(canon[1], base) else []
  }

  // ----- no shared field --------------------------------------------------------------------------------------

  lemma LpAssigns(d: Descriptor, field: string)
    requires d.interventions == HookrKinds()
    ensures Assigns(d, LP_REWARDS, field) ==> |field| == 5
  {
    KindNames();
  }

  lemma DynamicAssigns(d: Descriptor, field: string)
    requires d.interventions == HookrKinds()
    ensures Assigns(d, DYNAMIC_FEE, field) ==> |field| >= 10
  {
    KindNames();
  }

  lemma PairSharesNothing(d: Descriptor, x: Item, y: Item, field: string)
    requires d.interventions == HookrKinds() && L.ItemAdmitted(x) && L.ItemAdmitted(y) && x.kind != y.kind
    ensures !(Assigns(d, x.kind, field) && Assigns(d, y.kind, field))
  {
    LpAssigns(d, field);
    DynamicAssigns(d, field);
  }

  lemma NothingShared(d: Descriptor, canon: seq<Item>)
    requires d.interventions == HookrKinds() && CanonicalSet(canon)
    ensures !SharesField(d, canon)
  {
    forall x, y, field | x in canon && y in canon && x.kind != y.kind && Assigns(d, x.kind, field)
      ensures !Assigns(d, y.kind, field)
    {
      PairSharesNothing(d, x, y, field);
    }
  }

  // ----- assignments collected --------------------------------------------------------------------------------

  lemma SelectedByCanonical(dep: Deployment, w: seq<nat>, canon: seq<Item>)
    requires dep.Valid() && SixWords(w) && CanonicalSet(canon)
    ensures SelectedBy(Hookr(dep, w), canon, OriginalsOf(Hookr(dep, w))) == ChosenBy(canon, BaseFee(w))
  {
    var d := Hookr(dep, w);
    var o, rest := OriginalsOf(d), canon[1..];
    ItemSelected(dep, w, canon[0]);
    if |canon| == 2 {
      ItemSelected(dep, w, canon[1]);
      assert rest[0] == canon[1] && rest[1..] == [];
      assert SelectedBy(d, rest[1..], o) == [];
      assert SelectedBy(d, rest, o) == Chosen(canon[1], BaseFee(w)) + [];
    } else {
      assert rest == [];
    }
  }

  lemma AdmissibleOneOrTwo(d: Descriptor, canon: seq<Item>, o: Words)
    requires 1 <= |canon| <= 2
    ensures Admissible(d, canon, o) <==> AdmissibleItem(d, canon[0], o) && (|canon| == 2 ==> AdmissibleItem(d, canon[1], o))
  {
  }

  lemma AdmissibleSet(dep: Deployment, w: seq<nat>, canon: seq<Item>)
    requires dep.Valid() && SixWords(w) && CanonicalSet(canon)
    ensures Admissible(Hookr(dep, w), canon, OriginalsOf(Hookr(dep, w))) <==> L.SetPasses(canon, w[0], w[4], BaseFee(w))
  {
    AdmissibleOneOrTwo(Hookr(dep, w), canon, OriginalsOf(Hookr(dep, w)));
    ItemAdmissible(dep, w, canon[0]);
    if |canon| == 2 {
      ItemAdmissible(dep, w, canon[1]);
    }
  }

  lemma CollectedWhenAdmissible(d: Descriptor, canon: seq<Item>, o: Words)
    requires Valid(d) && Supplied(d, o) && DistinctKinds(canon) && DeclaredKinds(d, canon) && !SharesField(d, canon)
    ensures CollectFrom(d, canon, 0, o, []) == Ok(SelectedBy(d, canon, o)) <==> Admissible(d, canon, o)
    ensures CollectFrom(d, canon, 0, o, []).Ok? <==> Admissible(d, canon, o)
  {
    if CollectFrom(d, canon, 0, o, []).Ok? {
      AcceptedCollect(d, canon, 0, o, []);
    }
    if Admissible(d, canon, o) {
      MaskConflictExactly(d, canon, o);
    }
  }

  lemma CanonicalIsDeclared(d: Descriptor, canon: seq<Item>)
    requires d.interventions == HookrKinds() && CanonicalSet(canon)
    ensures DistinctKinds(canon) && DeclaredKinds(d, canon)
  {
    KindNames();
    L.KindsDiffer();
  }

  lemma HookrSupplied(dep: Deployment, w: seq<nat>)
    requires dep.Valid() && SixWords(w)
    ensures Valid(Hookr(dep, w))
    ensures Supplied(Hookr(dep, w), OriginalsOf(Hookr(dep, w))) && MatchesOriginals(Hookr(dep, w), OriginalsOf(Hookr(dep, w)))
  {
    HookrIsValid(dep, w);
    OriginalsAreSupplied(Hookr(dep, w));
  }

  lemma HookrCollects(dep: Deployment, w: seq<nat>, canon: seq<Item>)
    requires dep.Valid() && SixWords(w) && CanonicalSet(canon)
    ensures
      var d, o := Hookr(dep, w), OriginalsOf(Hookr(dep, w));
      && (CollectFrom(d, canon, 0, o, []).Ok? <==> Admissible(d, canon, o))
      && (CollectFrom(d, canon, 0, o, []) == Ok(SelectedBy(d, canon, o)) <==> Admissible(d, canon, o))
  {
    var d := Hookr(dep, w);
    HookrSupplied(dep, w);
    CanonicalIsDeclared(d, canon);
    NothingShared(d, canon);
    CollectedWhenAdmissible(d, canon, OriginalsOf(d));
  }

  lemma Collected(dep: Deployment, w: seq<nat>, canon: seq<Item>)
    requires dep.Valid() && SixWords(w) && CanonicalSet(canon)
    ensures
      var d := Hookr(dep, w);
      var r := CollectFrom(d, canon, 0, OriginalsOf(d), []);
      if L.SetPasses(canon, w[0], w[4], BaseFee(w)) then r == Ok(ChosenBy(canon, BaseFee(w))) else r.Err?
  {
    HookrCollects(dep, w, canon);
    AdmissibleSet(dep, w, canon);
    SelectedByCanonical(dep, w, canon);
  }

  // ----- words ------------------------------------------------------------------------------------------------

  lemma TargetNamesDiffer()
    ensures RULES_CONFIG != ROOT_RECORD
  {
    assert |RULES_CONFIG| == 11 && |ROOT_RECORD| == 10;
  }

  // Where the assignments of one item lie: the first word of the Rules configuration, or the Root flags.
  lemma ChosenFits(x: Item, base: nat)
    requires L.ItemAdmitted(x) && base < Pow2(24)
    ensures AllFit(Chosen(x, base))
  {
    SmallPowers();
    L.FieldPowers();
  }

  predicate AtPlace(a: Assignment, target: string, offset: nat, width: nat, value: nat) {
    a.field.target == target && a.field.word == 0 && a.field.offset == offset && a.field.width == width && a.value == value
  }

  lemma LpPlaces(x: Item, base: nat)
    requires L.ItemAdmitted(x) && x.kind == LP_REWARDS
    ensures |Chosen(x, base)| == 1 && AtPlace(Chosen(x, base)[0], RULES_CONFIG, 160, 16, L.LpValue(x))
  {
  }

  lemma DynamicPlaces(x: Item, base: nat)
    requires L.ItemAdmitted(x) && x.kind != LP_REWARDS
    ensures |Chosen(x, base)| == 3 && AtPlace(Chosen(x, base)[0], RULES_CONFIG, 40, 24, base)
    ensures AtPlace(Chosen(x, base)[1], RULES_CONFIG, 128, 16, 0) && AtPlace(Chosen(x, base)[2], ROOT_RECORD, 248, 1, 0)
  {
  }

  lemma OneAfter(w: nat, target: string, other: string, applied: seq<Assignment>, more: seq<Assignment>, v: nat)
    requires IsWord(w) && AllFit(applied) && AllFit(more) && target != other
    requires |more| == 1 && AtPlace(more[0], target, 160, 16, v)
    ensures WordAfter(w, target, 0, applied + more) == L.LpRules(WordAfter(w, target, 0, applied), v)
    ensures WordAfter(w, other, 0, applied + more) == WordAfter(w, other, 0, applied)
  {
    assert more == [more[0]];
    WordAfterOneMore(w, target, 0, applied, more[0]);
    WordAfterOneMore(w, other, 0, applied, more[0]);
  }

  lemma ThreeAfter(w: nat, target: string, other: string, applied: seq<Assignment>, more: seq<Assignment>, base: nat)
    requires IsWord(w) && AllFit(applied) && AllFit(more) && target != other
    requires |more| == 3 && AtPlace(more[0], target, 40, 24, base) && AtPlace(more[1], target, 128, 16, 0)
    requires AtPlace(more[2], other, 248, 1, 0)
    ensures WordAfter(w, target, 0, applied + more) == L.DynamicRules(WordAfter(w, target, 0, applied), base)
    ensures WordAfter(w, other, 0, applied + more) == PutField(WordAfter(w, other, 0, applied), 248, 1, 0)
  {
    assert more == [more[0], more[1], more[2]];
    L.WordAfterThree(w, target, applied, more[0], more[1], more[2]);
    L.WordAfterThree(w, other, applied, more[0], more[1], more[2]);
  }

  lemma ChosenAfter(w: nat, x: Item, base: nat, applied: seq<Assignment>)
    requires IsWord(w) && L.ItemAdmitted(x) && base < Pow2(24) && AllFit(applied)
    ensures WordAfter(w, RULES_CONFIG, 0, applied + Chosen(x, base)) == L.ItemRules(x, WordAfter(w, RULES_CONFIG, 0, applied), base)
    ensures WordAfter(w, ROOT_RECORD, 0, applied + Chosen(x, base)) == L.ItemRoot(x, WordAfter(w, ROOT_RECORD, 0, applied))
  {
    ChosenFits(x, base);
    TargetNamesDiffer();
    if x.kind == LP_REWARDS {
      LpPlaces(x, base);
      OneAfter(w, RULES_CONFIG, ROOT_RECORD, applied, Chosen(x, base), L.LpValue(x));
    } else {
      DynamicPlaces(x, base);
      ThreeAfter(w, RULES_CONFIG, ROOT_RECORD, applied, Chosen(x, base), base);
    }
  }

  lemma PrependNothing(w: nat, target: string, more: seq<Assignment>)
    requires IsWord(w)
    ensures WordAfter(w, target, 0, [] + more) == WordAfter(w, target, 0, more)
    ensures WordAfter(w, target, 0, []) == w
  {
    WordAfterNothing(w, target, 0, []);
    assert [] + more == more;
  }

  lemma FirstChosenAfter(w: nat, x: Item, base: nat)
    requires IsWord(w) && L.ItemAdmitted(x) && base < Pow2(24)
    ensures WordAfter(w, RULES_CONFIG, 0, Chosen(x, base)) == L.ItemRules(x, w, base)
    ensures WordAfter(w, ROOT_RECORD, 0, Chosen(x, base)) == L.ItemRoot(x, w)
  {
    var more := Chosen(x, base);
    PrependNothing(w, RULES_CONFIG, more);
    PrependNothing(w, ROOT_RECORD, more);
    ChosenAfter(w, x, base, []);
  }

  lemma DynamicComesFirst(canon: seq<Item>)
    requires CanonicalSet(canon)
    ensures L.HasDynamic(canon) <==> canon[0].kind != LP_REWARDS
    ensures |canon| == 2 ==> canon[0].kind != LP_REWARDS && canon[1].kind == LP_REWARDS
  {
    L.KindsDiffer();
  }

  // The assignments of a set word by word: those of the first item, then those of the second.
  lemma ChosenInTurn(w: nat, canon: seq<Item>, base: nat)
    requires CanonicalSet(canon) && IsWord(w) && base < Pow2(24)
    ensures
      var first := L.ItemRules(canon[0], w, base);
      WordAfter(w, RULES_CONFIG, 0, ChosenBy(canon, base)) == if |canon| == 2 then L.ItemRules(canon[1], first, base) else first
    ensures
      var first := L.ItemRoot(canon[0], w);
      WordAfter(w, ROOT_RECORD, 0, ChosenBy(canon, base)) == if |canon| == 2 then L.ItemRoot(canon[1], first) else first
  {
    FirstChosenAfter(w, canon[0], base);
    if |canon| == 2 {
      ChosenFits(canon[0], base);
      ChosenAfter(w, canon[1], base, Chosen(canon[0], base));
    } else {
      assert Chosen(canon[0], base) + [] == Chosen(canon[0], base);
    }
  }

  lemma CanonicalWords(canon: seq<Item>, w: nat, base: nat)
    requires CanonicalSet(canon) && IsWord(w) && base < Pow2(24)
    ensures WordAfter(w, RULES_CONFIG, 0, ChosenBy(canon, base)) == L.SetRules(canon, w, base)
    ensures WordAfter(w, ROOT_RECORD, 0, ChosenBy(canon, base)) == L.SetRoot(canon, w)
  {
    DynamicComesFirst(canon);
    ChosenInTurn(w, canon, base);
  }

  // The order in which the two kinds are applied does not matter for the Rules word.
  lemma RulesForgetOrder(rules: nat, base: nat, lp: nat)
    requires base < Pow2(24) && lp < Pow2(16)
    ensures L.DynamicRules(L.LpRules(rules, lp), base) == L.LpRules(L.DynamicRules(rules, base), lp)
  {
    L.FieldPowers();
    PutsCommute(rules, 160, 16, lp, 40, 24, base);
    PutsCommute(PutField(rules, 40, 24, base), 160, 16, lp, 128, 16, 0);
  }

  lemma SetInKindOrder(items: seq<Item>, rules0: nat, root0: nat, base: nat)
    requires Overlay.CheckSet(items).Ok? && base < Pow2(24) && (forall x :: x in items ==> L.ItemAdmitted(x))
    ensures CanonicalSet(InKindOrder(items)) && 1 <= |items| <= 2
    ensures L.SetPasses(InKindOrder(items), rules0, root0, base) <==> L.SetPasses(items, rules0, root0, base)
    ensures L.SetRules(InKindOrder(items), rules0, base) == L.SetRules(items, rules0, base)
    ensures L.SetRoot(InKindOrder(items), root0) == L.SetRoot(items, root0)
    ensures L.SetWrites(InKindOrder(items), rules0, root0, base) == L.SetWrites(items, rules0, root0, base)
  {
    L.CheckedSet(items);
    L.KindsDiffer();
    assert L.ItemAdmitted(items[0]);
    if |items| == 2 {
      assert L.ItemAdmitted(items[1]);
      L.FieldPowers();
      if items[0].kind == LP_REWARDS {
        RulesForgetOrder(rules0, base, L.LpValue(items[0]));
      }
    }
  }

  // ----- writes -----------------------------------------------------------------------------------------------

  lemma {:induction false} UntouchedWordsSkipped(d: Descriptor, o: Words, words: Words, applied: seq<Assignment>, t: nat, i: nat, writes: seq<Write>)
    requires t < |d.targets| && i <= d.targets[t].words
    requires forall j :: i <= j < d.targets[t].words ==> !Touched(applied, d.targets[t].name, j)
    ensures WritesFrom(d, o, words, applied, t, i, writes) == WritesFrom(d, o, words, applied, t + 1, 0, writes)
    decreases d.targets[t].words - i
  {
    if i < d.targets[t].words {
      UntouchedWordsSkipped(d, o, words, applied, t, i + 1, writes);
    }
  }

  function WriteAtFirst(d: Descriptor, t: nat, before: nat, after: nat): Write
    requires t < |d.targets|
  {
    WriteOf(d, d.targets[t], 0, before, after)
  }

  // Two targets of which only first words are touched.
  lemma FirstWordsWritten(d: Descriptor, o: Words, words: Words, applied: seq<Assignment>)
    requires |d.targets| == 2 && d.targets[0].words > 0 && d.targets[1].words > 0
    requires forall k :: 0 <= k < |applied| ==> applied[k].field.word == 0
    requires Touched(applied, d.targets[0].name, 0)
    requires WordAt(words, d.targets[0].name, 0) != WordAt(o, d.targets[0].name, 0)
    requires Touched(applied, d.targets[1].name, 0) ==> WordAt(words, d.targets[1].name, 0) != WordAt(o, d.targets[1].name, 0)
    ensures WritesFrom(d, o, words, applied, 0, 0, []) ==
            Ok([WriteAtFirst(d, 0, WordAt(o, d.targets[0].name, 0), WordAt(words, d.targets[0].name, 0))]
               + if Touched(applied, d.targets[1].name, 0)
                 then [WriteAtFirst(d, 1, WordAt(o, d.targets[1].name, 0), WordAt(words, d.targets[1].name, 0))] else [])
  {
    var first := [WriteAtFirst(d, 0, WordAt(o, d.targets[0].name, 0), WordAt(words, d.targets[0].name, 0))];
    assert [] + first == first;
    UntouchedWordsSkipped(d, o, words, applied, 0, 1, first);
    var second := [WriteAtFirst(d, 1, WordAt(o, d.targets[1].name, 0), WordAt(words, d.targets[1].name, 0))];
    if Touched(applied, d.targets[1].name, 0) {
      UntouchedWordsSkipped(d, o, words, applied, 1, 1, first + second);
    } else {
      UntouchedWordsSkipped(d, o, words, applied, 1, 1, first);
      assert first + [] == first;
    }
  }

  // A write of the overlay engine at its place on chain.
  function Placed(dep: Deployment, o: Overlay.OverlayWrite): Write {
    if o.target == Overlay.RULES then Write(dep.rules, dep.configSlot, o.before, o.after, RULES_CONFIG, 0)
    else Write(dep.root, dep.rootRecordSlot, o.before, o.after, ROOT_RECORD, 0)
  }

  function PlacedAll(dep: Deployment, os: seq<Overlay.OverlayWrite>): seq<Write> {
    seq(|os|, (i: int) requires 0 <= i < |os| => Placed(dep, os[i]))
  }

  lemma TouchesConcat(a: seq<Assignment>, b: seq<Assignment>, target: string, i: nat)
    ensures Touched(a + b, target, i) <==> Touched(a, target, i) || Touched(b, target, i)
  {
    if k :| 0 <= k < |a| && a[k].field.target == target && a[k].field.word == i {
      assert (a + b)[k] == a[k];
    }
    if k :| 0 <= k < |b| && b[k].field.target == target && b[k].field.word == i {
      assert (a + b)[|a| + k] == b[k];
    }
  }

  ghost predicate FirstWordsOnly(applied: seq<Assignment>) {
    forall k :: 0 <= k < |applied| ==> applied[k].field.word == 0
  }

  lemma ChosenTouches(x: Item, base: nat)
    requires L.ItemAdmitted(x)
    ensures FirstWordsOnly(Chosen(x, base)) && Touched(Chosen(x, base), RULES_CONFIG, 0)
    ensures Touched(Chosen(x, base), ROOT_RECORD, 0) <==> x.kind == DYNAMIC_FEE
  {
    L.KindsDiffer();
    TargetNamesDiffer();
    var more := Chosen(x, base);
    if x.kind == LP_REWARDS {
      LpPlaces(x, base);
      assert more[0].field.target == RULES_CONFIG;
    } else {
      DynamicPlaces(x, base);
      assert more[0].field.target == RULES_CONFIG && more[2].field.target == ROOT_RECORD;
    }
  }

  lemma CanonicalTouches(canon: seq<Item>, base: nat)
    requires CanonicalSet(canon)
    ensures FirstWordsOnly(ChosenBy(canon, base)) && Touched(ChosenBy(canon, base), RULES_CONFIG, 0)
    ensures Touched(ChosenBy(canon, base), ROOT_RECORD, 0) <==> L.HasDynamic(canon)
  {
    ChosenTouches(canon[0], base);
    if |canon| == 2 {
      ChosenTouches(canon[1], base);
      TouchesConcat(Chosen(canon[0], base), Chosen(canon[1], base), RULES_CONFIG, 0);
      TouchesConcat(Chosen(canon[0], base), Chosen(canon[1], base), ROOT_RECORD, 0);
    } else {
      assert Chosen(canon[0], base) + [] == Chosen(canon[0], base);
    }
  }

  lemma CanonicalIsChecked(canon: seq<Item>)
    requires CanonicalSet(canon)
    ensures Overlay.CheckSet(canon).Ok?
  {
    L.KindsDiffer();
  }

  lemma PassingChanges(canon: seq<Item>, rules0: nat, root0: nat, base: nat)
    requires CanonicalSet(canon) && base < Pow2(24) && L.SetPasses(canon, rules0, root0, base)
    ensures L.SetRules(canon, rules0, base) != rules0
    ensures L.HasDynamic(canon) ==> L.SetRoot(canon, root0) != root0
  {
    CanonicalIsChecked(canon);
    L.RulesChange(canon, rules0, root0, base);
    if L.HasDynamic(canon) {
      L.DynamicMeetsMode(canon, rules0, root0, base);
      L.RootChanges(root0);
    }
  }

  lemma WordAtAfter(o: Words, applied: seq<Assignment>, target: string, i: nat)
    requires target in o && i < |o[target]|
    ensures WordAt(WordsAfter(o, applied), target, i) == WordAfter(WordAt(o, target, i), target, i, applied)
  {
  }

  lemma NoPromises(d: Descriptor, canon: seq<Item>, words: Words)
    requires d.interventions == HookrKinds() && CanonicalSet(canon)
    ensures PromisesFrom(d, canon, 0, words).Ok?
  {
    KindNames();
    assert PromisesFrom(d, canon, |canon|, words).Ok?;
    if |canon| == 2 {
      assert PromisesFrom(d, canon, 1, words).Ok?;
    }
  }

  // The two words an item set ends with.
  ghost predicate EndsWith(o: Words, words: Words, canon: seq<Item>, rules0: nat, root0: nat, base: nat)
    requires CanonicalSet(canon)
  {
    && WordAt(o, RULES_CONFIG, 0) == rules0 && WordAt(o, ROOT_RECORD, 0) == root0
    && WordAt(words, RULES_CONFIG, 0) == L.SetRules(canon, rules0, base)
    && WordAt(words, ROOT_RECORD, 0) == L.SetRoot(canon, root0)
  }

  lemma CanonicalEnds(dep: Deployment, w: seq<nat>, canon: seq<Item>)
    requires dep.Valid() && SixWords(w) && CanonicalSet(canon)
    ensures
      var o := OriginalsOf(Hookr(dep, w));
      EndsWith(o, WordsAfter(o, ChosenBy(canon, BaseFee(w))), canon, w[0], w[4], BaseFee(w))
  {
    var o := OriginalsOf(Hookr(dep, w));
    GetFieldFits(w[4], 160, 24);
    OriginalWords(dep, w);
    OriginalPlaces(dep, w);
    CanonicalWords(canon, w[0], BaseFee(w));
    CanonicalWords(canon, w[4], BaseFee(w));
    WordAtAfter(o, ChosenBy(canon, BaseFee(w)), RULES_CONFIG, 0);
    WordAtAfter(o, ChosenBy(canon, BaseFee(w)), ROOT_RECORD, 0);
  }

  lemma OriginalPlaces(dep: Deployment, w: seq<nat>)
    requires dep.Valid() && SixWords(w)
    ensures
      var o := OriginalsOf(Hookr(dep, w));
      RULES_CONFIG in o && |o[RULES_CONFIG]| > 0 && ROOT_RECORD in o && |o[ROOT_RECORD]| > 0
  {
    TargetsAreValid(dep, w);
    OriginalRow(Hookr(dep, w), 0);
    OriginalRow(Hookr(dep, w), 1);
  }

  ghost predicate TwoPlaces(d: Descriptor, dep: Deployment) {
    && |d.targets| == 2 && d.targets[0].words > 0 && d.targets[1].words > 0
    && d.targets[0].name == RULES_CONFIG && d.targets[1].name == ROOT_RECORD
    && (forall before, after :: WriteAtFirst(d, 0, before, after) == Write(dep.rules, dep.configSlot, before, after, RULES_CONFIG, 0))
    && (forall before, after :: WriteAtFirst(d, 1, before, after) == Write(dep.root, dep.rootRecordSlot, before, after, ROOT_RECORD, 0))
  }

  lemma HookrPlaces(dep: Deployment, w: seq<nat>)
    requires dep.Valid() && SixWords(w)
    ensures TwoPlaces(Hookr(dep, w), dep)
  {
    ContractsAreValid(dep, w);
    ContractByIndex(dep.Contracts(), 3);
    ContractByIndex(dep.Contracts(), 1);
  }

  lemma OnePlaced(dep: Deployment, rules0: nat, rules: nat)
    ensures PlacedAll(dep, [Overlay.OverlayWrite(Overlay.RULES, rules0, rules)] + []) ==
            [Write(dep.rules, dep.configSlot, rules0, rules, RULES_CONFIG, 0)] + []
  {
  }

  lemma TwoPlaced(dep: Deployment, rules0: nat, rules: nat, root0: nat, root: nat)
    ensures PlacedAll(dep, [Overlay.OverlayWrite(Overlay.RULES, rules0, rules)] + [Overlay.OverlayWrite(Overlay.ROOT, root0, root)]) ==
            [Write(dep.rules, dep.configSlot, rules0, rules, RULES_CONFIG, 0)]
            + [Write(dep.root, dep.rootRecordSlot, root0, root, ROOT_RECORD, 0)]
  {
    L.TargetsDiffer();
  }

  lemma SetPlaced(dep: Deployment, canon: seq<Item>, rules0: nat, root0: nat, base: nat)
    requires CanonicalSet(canon)
    ensures PlacedAll(dep, L.SetWrites(canon, rules0, root0, base)) ==
            [Write(dep.rules, dep.configSlot, rules0, L.SetRules(canon, rules0, base), RULES_CONFIG, 0)]
            + if L.HasDynamic(canon)
              then [Write(dep.root, dep.rootRecordSlot, root0, L.SetRoot(canon, root0), ROOT_RECORD, 0)] else []
  {
    OnePlaced(dep, rules0, L.SetRules(canon, rules0, base));
    TwoPlaced(dep, rules0, L.SetRules(canon, rules0, base), root0, L.SetRoot(canon, root0));
  }

  lemma FirstWordsDiffer(o: Words, words: Words, canon: seq<Item>, rules0: nat, root0: nat, base: nat)
    requires CanonicalSet(canon) && base < Pow2(24)
    requires L.SetPasses(canon, rules0, root0, base) && EndsWith(o, words, canon, rules0, root0, base)
    ensures WordAt(words, RULES_CONFIG, 0) != WordAt(o, RULES_CONFIG, 0)
    ensures L.HasDynamic(canon) ==> WordAt(words, ROOT_RECORD, 0) != WordAt(o, ROOT_RECORD, 0)
  {
    PassingChanges(canon, rules0, root0, base);
  }

  lemma PlacedWrites(d: Descriptor, dep: Deployment, o: Words, words: Words, canon: seq<Item>, rules0: nat, root0: nat, base: nat)
    requires TwoPlaces(d, dep) && CanonicalSet(canon) && base < Pow2(24)
    requires L.SetPasses(canon, rules0, root0, base) && EndsWith(o, words, canon, rules0, root0, base)
    ensures WritesFrom(d, o, words, ChosenBy(canon, base), 0, 0, []) == Ok(PlacedAll(dep, L.SetWrites(canon, rules0, root0, base)))
  {
    CanonicalTouches(canon, base);
    FirstWordsDiffer(o, words, canon, rules0, root0, base);
    FirstWordsWritten(d, o, words, ChosenBy(canon, base));
    SetPlaced(dep, canon, rules0, root0, base);
  }

  lemma CanonicalComposed(dep: Deployment, w: seq<nat>, canon: seq<Item>)
    requires dep.Valid() && SixWords(w) && CanonicalSet(canon)
    ensures
      var d, base := Hookr(dep, w), BaseFee(w);
      var r := ComposeCanonical(d, canon, OriginalsOf(d));
      if L.SetPasses(canon, w[0], w[4], base) then
        && r.Ok?
        && EndsWith(OriginalsOf(d), r.value.words, canon, w[0], w[4], base)
        && r.value.writes == PlacedAll(dep, L.SetWrites(canon, w[0], w[4], base))
      else r.Err?
  {
    var d, base := Hookr(dep, w), BaseFee(w);
    Collected(dep, w, canon);
    if L.SetPasses(canon, w[0], w[4], base) {
      var words := WordsAfter(OriginalsOf(d), ChosenBy(canon, base));
      NoPromises(d, canon, words);
      CanonicalEnds(dep, w, canon);
      HookrPlaces(dep, w);
      GetFieldFits(w[4], 160, 24);
      PlacedWrites(d, dep, OriginalsOf(d), words, canon, w[0], w[4], base);
    }
  }

  // ----- both engines agree -----------------------------------------------------------------------------------

  // Same acceptance; and on acceptance the same Rules word, the same Root record and the same writes in order.
  ghost predicate Agree(dep: Deployment, c: Result<Composed, Code>, o: Result<Overlay.OverlayResult, Overlay.OverlayCode>) {
    && (c.Ok? <==> o.Ok?)
    && (c.Ok? ==>
          && WordAt(c.value.words, RULES_CONFIG, 0) == o.value.rules
          && WordAt(c.value.words, ROOT_RECORD, 0) == o.value.root
          && c.value.writes == PlacedAll(dep, o.value.writes))
  }

  lemma NotAdmittedFails(items: seq<Item>, rules0: nat, root0: nat, base: nat)
    requires Overlay.CheckSet(items).Ok? && exists x :: x in items && !L.ItemAdmitted(x)
    ensures 1 <= |items| <= 2 && !L.SetPasses(items, rules0, root0, base)
  {
    L.CheckedSet(items);
    var x :| x in items && !L.ItemAdmitted(x);
    assert x == items[0] || (|items| == 2 && x == items[1]);
  }

  lemma OverlayRefuses(items: seq<Item>, w: seq<nat>)
    requires SixWords(w) && !(Overlay.CheckSet(items).Ok? && forall x :: x in items ==> L.ItemAdmitted(x))
    ensures Overlay.ComposeOverlay(items, w[0], w[4], BaseFee(w)).Err?
  {
    GetFieldFits(w[4], 160, 24);
    L.OverlayClosedForm(items, w[0], w[4], BaseFee(w));
    if Overlay.CheckSet(items).Ok? {
      NotAdmittedFails(items, w[0], w[4], BaseFee(w));
    }
  }

  lemma ComposeIsCanonical(dep: Deployment, w: seq<nat>, items: seq<Item>)
    requires dep.Valid() && SixWords(w)
    ensures
      var d := Hookr(dep, w);
      var canon := CanonicalInterventions(d, items);
      Compose(d, items, OriginalsOf(d)) ==
      if canon.Ok? then ComposeCanonical(d, canon.value, OriginalsOf(d)) else Err(canon.error)
  {
    HookrSupplied(dep, w);
  }

  lemma CheckedAgree(dep: Deployment, w: seq<nat>, items: seq<Item>)
    requires dep.Valid() && SixWords(w)
    requires Overlay.CheckSet(items).Ok? && forall x :: x in items ==> L.ItemAdmitted(x)
    ensures
      var d := Hookr(dep, w);
      Agree(dep, ComposeCanonical(d, InKindOrder(items), OriginalsOf(d)), Overlay.ComposeOverlay(items, w[0], w[4], BaseFee(w)))
  {
    GetFieldFits(w[4], 160, 24);
    SetInKindOrder(items, w[0], w[4], BaseFee(w));
    CanonicalComposed(dep, w, InKindOrder(items));
    L.OverlayClosedForm(items, w[0], w[4], BaseFee(w));
  }

  // For every deployment, every six original words and every set of items: on sets of the two legacy kinds the
  // engines agree, and the overlay engine accepts no other set.
  lemma SameAsOverlay(dep: Deployment, w: seq<nat>, items: seq<Item>)
    requires dep.Valid() && SixWords(w)
    ensures
      var d := Hookr(dep, w);
      var c, o := Compose(d, items, OriginalsOf(d)), Overlay.ComposeOverlay(items, w[0], w[4], BaseFee(w));
      if LegacyKinds(items) then Agree(dep, c, o) else o.Err?
  {
    ComposeIsCanonical(dep, w, items);
    if LegacyKinds(items) {
      CanonicalLegacy(dep, w, items);
      if Overlay.CheckSet(items).Ok? && forall x :: x in items ==> L.ItemAdmitted(x) {
        CheckedAgree(dep, w, items);
      } else {
        OverlayRefuses(items, w);
      }
    } else {
      OverlayRefuses(items, w);
    }
  }
}
