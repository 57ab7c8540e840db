// The tuning kind of the hookr-1 profile: what its ordered promises say.
// The eight promises of DYNAMIC_FEE_TUNING are caps on three fields and two product bounds. With the base fee and the
// protocol share of the profile the caps imply the products, and no factor is ever negative, so a failing promise is always
// an invariant failure. The cap on the span is exactly where the Root cap leaves room for every LP rate.
module Tuning {
  import opened Wrappers
  import opened JsonValues
  import opened Descriptors
  import opened Composition
  import opened CompositionFacts
  import opened CompositionMeaning
  import opened CompositionWrites
  import opened Hookr1
  import opened Hookr1Valid
  import opened LegacyDescriptor

  const ROOT_MAX_LP_FEE: nat := 17800
  const LARGEST_SPAN: nat := 8500

  // The LP fee ceiling of a rule set with base fee 3000.
  function Ceiling(lp: nat, span: nat): nat {
    3000 + 80 * lp + span - span / 5
  }

  ghost predicate LeavesRoom(span: nat) {
    forall lp: nat :: lp <= 100 ==> Ceiling(lp, span) <= ROOT_MAX_LP_FEE
  }

  // The Root cap leaves room for every LP rate exactly up to this span.
  lemma CeilingExactly(span: nat)
    ensures LeavesRoom(span) <==> span <= LARGEST_SPAN
  {
    assert Ceiling(100, span) == 11000 + span - span / 5;
  }

  // ----- the promises as arithmetic ---------------------------------------------------------------------------

  predicate SpanBound(fee: nat, base: nat, sens: nat) {
    (fee - base) * (sens * sens) <= 7200000
  }

  predicate ShareBound(fee: nat, base: nat, share: nat, sens: nat) {
    (fee - base) * share * (432 - sens * sens) <= 99360000000
  }

  predicate WithinRanges(fee: nat, base: nat, sens: nat, flag: nat) {
    base < fee <= TUNING_MAX_FEE_UNDER_ROOT_CAPS && 1 <= sens <= 10 && flag == 1
  }

  predicate WithinCaps(fee: nat, base: nat, share: nat, sens: nat, flag: nat) {
    WithinRanges(fee, base, sens, flag) && SpanBound(fee, base, sens) && ShareBound(fee, base, share, sens)
  }

  lemma {:induction false} CheckAllPrefix(d: Descriptor, ps: seq<Predicate>, words: Words, params: map<string, Json>, failure: Code, k: nat)
    requires k <= |ps| && forall i :: 0 <= i < k ==> Holds(d, ps[i], words, params).Ok?
    ensures CheckAll(d, ps, words, params, failure) ==
            if forall i :: 0 <= i < k ==> Holds(d, ps[i], words, params) == Ok(true)
            then CheckAll(d, ps[k..], words, params, failure) else Err(failure)
  {
    if k > 0 {
      var rest := ps[1..];
      forall i | 0 <= i < k - 1
        ensures Holds(d, rest[i], words, params).Ok?
      {
        assert rest[i] == ps[i + 1];
      }
      CheckAllPrefix(d, rest, words, params, failure, k - 1);
      assert rest[k - 1..] == ps[k..];
      if forall i :: 0 <= i < k - 1 ==> Holds(d, rest[i], words, params) == Ok(true) {
        if Holds(d, ps[0], words, params) == Ok(true) {
          forall i | 0 <= i < k
            ensures Holds(d, ps[i], words, params) == Ok(true)
          {
            if i > 0 {
              assert rest[i - 1] == ps[i];
            }
          }
        }
      }
    } else {
      assert ps[0..] == ps;
    }
  }

  function Promise(i: nat): Predicate
    requires i < 8
  {
    TuningPromises()[i]
  }

  lemma FeeAboveBase(d: Descriptor, words: Words, params: map<string, Json>)
    requires HookrLayout(d.fields)
    ensures Holds(d, Promise(0), words, params) == Ok(Get(words, HookrField(1)) > Get(words, HookrField(17)))
  {
    MaxFeeMentioned(d.fields);
    BaseMentioned(d.fields);
  }

  lemma FeeInRange(d: Descriptor, words: Words, params: map<string, Json>)
    requires HookrLayout(d.fields)
    ensures Holds(d, Promise(1), words, params) == Ok(Get(words, HookrField(1)) <= 600000)
  {
    MaxFeeMentioned(d.fields);
    CompareConst(d, Promise(1), words, params, "maxFeePips", 1);
  }

  lemma FeeUnderCap(d: Descriptor, words: Words, params: map<string, Json>)
    requires HookrLayout(d.fields)
    ensures Holds(d, Promise(2), words, params) == Ok(Get(words, HookrField(1)) <= TUNING_MAX_FEE_UNDER_ROOT_CAPS)
  {
    MaxFeeMentioned(d.fields);
    CompareConst(d, Promise(2), words, params, "maxFeePips", 1);
  }

  lemma SensPromises(d: Descriptor, words: Words, params: map<string, Json>)
    requires HookrLayout(d.fields)
    ensures Holds(d, Promise(3), words, params) == Ok(Get(words, HookrField(5)) >= 1)
    ensures Holds(d, Promise(4), words, params) == Ok(Get(words, HookrField(5)) <= 10)
  {
    SensMentioned(d.fields);
  }

  lemma FlagPromise(d: Descriptor, words: Words, params: map<string, Json>)
    requires HookrLayout(d.fields)
    ensures Holds(d, Promise(5), words, params) == Ok(Get(words, HookrField(18)) == 1)
  {
    DynamicFlagMentioned(d.fields);
  }

  lemma ProductOfTwo(d: Descriptor, fs: seq<Factor>, words: Words)
    requires |fs| == 2 && FactorValue(d, fs[0], words) >= 0 && FactorValue(d, fs[1], words) >= 0
    ensures Product(d, fs, words, 1) == Ok(FactorValue(d, fs[0], words) * FactorValue(d, fs[1], words))
  {
    var rest := fs[1..];
    assert rest[1..] == [];
    assert Product(d, rest, words, FactorValue(d, fs[0], words)) ==
           Product(d, rest[1..], words, FactorValue(d, fs[0], words) * FactorValue(d, fs[1], words));
  }

  lemma ProductOfThree(d: Descriptor, fs: seq<Factor>, words: Words)
    requires |fs| == 3 && FactorValue(d, fs[0], words) >= 0 && FactorValue(d, fs[1], words) >= 0 && FactorValue(d, fs[2], words) >= 0
    ensures Product(d, fs, words, 1) ==
            Ok(FactorValue(d, fs[0], words) * FactorValue(d, fs[1], words) * FactorValue(d, fs[2], words))
  {
    var a, b, c := FactorValue(d, fs[0], words), FactorValue(d, fs[1], words), FactorValue(d, fs[2], words);
    var two := fs[1..];
    var one := two[1..];
    assert one[1..] == [];
    assert Product(d, two, words, a) == Product(d, one, words, a * b);
    assert Product(d, one, words, a * b) == Product(d, one[1..], words, a * b * c);
  }

  lemma DifferenceValue(d: Descriptor, words: Words, x: string, y: string, i: nat, j: nat)
    requires HookrLayout(d.fields) && i < FIELD_COUNT && j < FIELD_COUNT && Mentioned(d.fields, x, i) && Mentioned(d.fields, y, j)
    ensures FactorValue(d, DiffFactor(x, y), words) == Get(words, HookrField(i)) - Get(words, HookrField(j))
  {
  }

  lemma SquareValues(d: Descriptor, words: Words, x: string, i: nat)
    requires HookrLayout(d.fields) && i < FIELD_COUNT && Mentioned(d.fields, x, i)
    ensures FactorValue(d, SquareFactor(x), words) == Get(words, HookrField(i)) * Get(words, HookrField(i))
    ensures FactorValue(d, ConstMinusSquare(432, x), words) == 432 - Get(words, HookrField(i)) * Get(words, HookrField(i))
  {
  }

  lemma SpanHolds(d: Descriptor, words: Words, params: map<string, Json>, fs: seq<Factor>, fee: nat, base: nat, sens: nat)
    requires |fs| == 2 && fee > base
    requires FactorValue(d, fs[0], words) == fee - base && FactorValue(d, fs[1], words) == sens * sens
    ensures Holds(d, ProductBound(fs, false, 7200000), words, params) == Ok(SpanBound(fee, base, sens))
  {
    ProductOfTwo(d, fs, words);
  }

  lemma SpanPromise(d: Descriptor, words: Words, params: map<string, Json>)
    requires HookrLayout(d.fields) && Get(words, HookrField(1)) > Get(words, HookrField(17))
    ensures Holds(d, Promise(6), words, params) ==
            Ok(SpanBound(Get(words, HookrField(1)), Get(words, HookrField(17)), Get(words, HookrField(5))))
  {
    MaxFeeMentioned(d.fields);
    BaseMentioned(d.fields);
    SensMentioned(d.fields);
    DifferenceValue(d, words, "maxFeePips", "rootBaseLpFeePips", 1, 17);
    SquareValues(d, words, "dynamicFeeSens", 5);
    SpanHolds(d, words, params, Promise(6).factors, Get(words, HookrField(1)), Get(words, HookrField(17)), Get(words, HookrField(5)));
  }

  lemma SquareAtMost(sens: nat)
    requires sens <= 10
    ensures sens * sens <= 100
  {
    assert sens * sens <= sens * 10;
  }

  lemma ShareHolds(d: Descriptor, words: Words, params: map<string, Json>, fs: seq<Factor>, fee: nat, base: nat, share: nat, sens: nat)
    requires |fs| == 3 && fee > base && sens <= 10
    requires FactorValue(d, fs[0], words) == fee - base && FactorValue(d, fs[1], words) == share
    requires FactorValue(d, fs[2], words) == 432 - sens * sens
    ensures Holds(d, ProductBound(fs, false, 99360000000), words, params) == Ok(ShareBound(fee, base, share, sens))
  {
    SquareAtMost(sens);
    ProductOfThree(d, fs, words);
  }

  lemma SharePromise(d: Descriptor, words: Words, params: map<string, Json>)
    requires HookrLayout(d.fields) && Get(words, HookrField(1)) > Get(words, HookrField(17)) && Get(words, HookrField(5)) <= 10
    ensures Holds(d, Promise(7), words, params) ==
            Ok(ShareBound(Get(words, HookrField(1)), Get(words, HookrField(17)), Get(words, HookrField(10)), Get(words, HookrField(5))))
  {
    MaxFeeMentioned(d.fields);
    BaseMentioned(d.fields);
    ShareMentioned(d.fields);
    SensMentioned(d.fields);
    DifferenceValue(d, words, "maxFeePips", "rootBaseLpFeePips", 1, 17);
    SquareValues(d, words, "dynamicFeeSens", 5);
    ShareHolds(d, words, params, Promise(7).factors, Get(words, HookrField(1)), Get(words, HookrField(17)),
               Get(words, HookrField(10)), Get(words, HookrField(5)));
  }

  ghost predicate Caps(words: Words) {
    WithinCaps(Get(words, HookrField(1)), Get(words, HookrField(17)), Get(words, HookrField(10)),
               Get(words, HookrField(5)), Get(words, HookrField(18)))
  }

  ghost predicate Ranges(words: Words) {
    WithinRanges(Get(words, HookrField(1)), Get(words, HookrField(17)), Get(words, HookrField(5)), Get(words, HookrField(18)))
  }

  lemma SixHold(d: Descriptor, ps: seq<Predicate>, words: Words, params: map<string, Json>, fee: nat, base: nat, sens: nat, flag: nat)
    requires |ps| == 8
    requires Holds(d, ps[0], words, params) == Ok(fee > base) && Holds(d, ps[1], words, params) == Ok(fee <= 600000)
    requires Holds(d, ps[2], words, params) == Ok(fee <= TUNING_MAX_FEE_UNDER_ROOT_CAPS)
    requires Holds(d, ps[3], words, params) == Ok(sens >= 1) && Holds(d, ps[4], words, params) == Ok(sens <= 10)
    requires Holds(d, ps[5], words, params) == Ok(flag == 1)
    ensures CheckAll(d, ps, words, params, Invariant) ==
            if WithinRanges(fee, base, sens, flag) then CheckAll(d, ps[6..], words, params, Invariant) else Err(Invariant)
  {
    CheckAllPrefix(d, ps, words, params, Invariant, 6);
  }

  lemma RangePromises(d: Descriptor, words: Words, params: map<string, Json>)
    requires HookrLayout(d.fields)
    ensures CheckAll(d, TuningPromises(), words, params, Invariant) ==
            if Ranges(words) then CheckAll(d, TuningPromises()[6..], words, params, Invariant) else Err(Invariant)
  {
    FeeAboveBase(d, words, params);
    FeeInRange(d, words, params);
    FeeUnderCap(d, words, params);
    SensPromises(d, words, params);
    FlagPromise(d, words, params);
    SixHold(d, TuningPromises(), words, params, Get(words, HookrField(1)), Get(words, HookrField(17)),
            Get(words, HookrField(5)), Get(words, HookrField(18)));
  }

  lemma LastTwo(d: Descriptor, ps: seq<Predicate>, words: Words, params: map<string, Json>, a: bool, b: bool)
    requires |ps| == 8 && Holds(d, ps[6], words, params) == Ok(a) && Holds(d, ps[7], words, params) == Ok(b)
    ensures CheckAll(d, ps[6..], words, params, Invariant) == if a && b then Ok(()) else Err(Invariant)
  {
    var rest := ps[6..];
    assert rest[0] == ps[6] && rest[1..][0] == ps[7] && rest[1..][1..] == [];
    assert CheckAll(d, rest[1..][1..], words, params, Invariant) == Ok(());
  }

  // The promises hold exactly within the caps; their order leaves every factor non-negative.
  lemma PromisesAreCaps(d: Descriptor, words: Words, params: map<string, Json>)
    requires HookrLayout(d.fields)
    ensures CheckAll(d, TuningPromises(), words, params, Invariant) == if Caps(words) then Ok(()) else Err(Invariant)
  {
    RangePromises(d, words, params);
    if Ranges(words) {
      SpanPromise(d, words, params);
      SharePromise(d, words, params);
      LastTwo(d, TuningPromises(), words, params,
              SpanBound(Get(words, HookrField(1)), Get(words, HookrField(17)), Get(words, HookrField(5))),
              ShareBound(Get(words, HookrField(1)), Get(words, HookrField(17)), Get(words, HookrField(10)), Get(words, HookrField(5))));
    }
  }

  // With base fee 3000 and protocol share 2000 the fee cap alone implies both product bounds.
  lemma CapImpliesProducts(fee: nat, sens: nat, flag: nat)
    requires WithinRanges(fee, 3000, sens, flag)
    ensures SpanBound(fee, 3000, sens) && ShareBound(fee, 3000, 2000, sens)
  {
    SquareAtMost(sens);
    var span, square := fee - 3000, sens * sens;
    assert span * square <= 8500 * square;
    assert span * 2000 * (432 - square) <= 8500 * 2000 * (432 - square);
  }

  // ----- accepted tunings -------------------------------------------------------------------------------------

  lemma NobodyAssigns(d: Descriptor, x: Item, name: string)
    requires d.interventions == HookrKinds() && HasKind(HookrKinds(), x.kind) && (|name| == 17 || |name| == 16)
    ensures !Assigns(d, x.kind, name)
  {
    KindNames();
  }

  lemma KeepsWhatNobodyAssigns(d: Descriptor, items: seq<Item>, originals: Words, c: Composed, name: string, i: nat)
    requires Valid(d) && Compose(d, items, originals) == Ok(c) && d.interventions == HookrKinds()
    requires i < FIELD_COUNT && Mentioned(d.fields, name, i) && (|name| == 17 || |name| == 16)
    ensures Get(c.words, HookrField(i)) == Get(originals, HookrField(i))
  {
    ComposedParts(d, items, originals, c);
    forall x | x in items
      ensures !Assigns(d, x.kind, name)
    {
      assert x in c.interventions;
      KindFromDeclared(d, c.interventions, x);
      NobodyAssigns(d, x, name);
    }
    OtherFieldsKept(d, items, originals, c, name);
  }

  lemma CapsOfAccepted(d: Descriptor, items: seq<Item>, originals: Words, c: Composed, x: Item)
    requires Valid(d) && Compose(d, items, originals) == Ok(c) && d.interventions == HookrKinds() && HookrLayout(d.fields)
    requires x in items && x.kind == DYNAMIC_FEE_TUNING
    ensures Caps(c.words)
  {
    DemandsAndPromises(d, items, originals, c, x);
    KindNames();
    CheckAllMeansEach(d, TuningPromises(), c.words, x.parameters, Invariant);
    PromisesAreCaps(d, c.words, x.parameters);
  }

  // Every accepted tuning keeps the original base fee and protocol share, lies within the caps and, over base fee
  // 3000, leaves the Root cap room for every LP rate.
  lemma AcceptedTuning(dep: Deployment, w: seq<nat>, items: seq<Item>, originals: Words, c: Composed, x: Item)
    requires dep.Valid() && SixWords(w) && Compose(Hookr(dep, w), items, originals) == Ok(c)
    requires x in items && x.kind == DYNAMIC_FEE_TUNING
    ensures Caps(c.words)
    ensures Get(c.words, HookrField(17)) == Get(originals, HookrField(17))
    ensures Get(c.words, HookrField(10)) == Get(originals, HookrField(10))
    ensures Get(originals, HookrField(17)) == 3000 ==> LeavesRoom(Get(c.words, HookrField(1)) - 3000)
  {
    var d := Hookr(dep, w);
    HookrIsValid(dep, w);
    CapsOfAccepted(d, items, originals, c, x);
    BaseMentioned(d.fields);
    ShareMentioned(d.fields);
    KeepsWhatNobodyAssigns(d, items, originals, c, "rootBaseLpFeePips", 17);
    KeepsWhatNobodyAssigns(d, items, originals, c, "protocolShareBps", 10);
    if Get(originals, HookrField(17)) == 3000 {
      CeilingExactly(Get(c.words, HookrField(1)) - 3000);
    }
  }

  // ----- no negative factor -----------------------------------------------------------------------------------

  ghost predicate ComparesOnly(ps: seq<Predicate>) {
    forall i :: 0 <= i < |ps| ==> ps[i].Compare?
  }

  lemma {:induction false} ComparisonsNeverNegative(d: Descriptor, ps: seq<Predicate>, words: Words, params: map<string, Json>, failure: Code)
    requires ComparesOnly(ps) && failure != NegativeFactor
    ensures CheckAll(d, ps, words, params, failure) != Err(NegativeFactor)
  {
    if ps != [] {
      ComparisonsNeverNegative(d, ps[1..], words, params, failure);
    }
  }

  lemma KindsNeverNegative(d: Descriptor, kind: string, words: Words, params: map<string, Json>)
    requires HookrLayout(d.fields) && d.interventions == HookrKinds() && HasKind(HookrKinds(), kind)
    ensures CheckAll(d, KindNamed(d.interventions, kind).demands, words, params, OriginalPrecondition) != Err(NegativeFactor)
    ensures CheckAll(d, KindNamed(d.interventions, kind).promises, words, params, Invariant) != Err(NegativeFactor)
  {
    KindNames();
    ComparisonsNeverNegative(d, KindNamed(d.interventions, kind).demands, words, params, OriginalPrecondition);
    PromisesAreCaps(d, words, params);
  }

  lemma {:induction false} CollectNeverNegative(d: Descriptor, canon: seq<Item>, i: nat, originals: Words, applied: seq<Assignment>)
    requires HookrLayout(d.fields) && d.interventions == HookrKinds() && DeclaredKinds(d, canon) && i <= |canon|
    ensures CollectFrom(d, canon, i, originals, applied) != Err(NegativeFactor)
    decreases |canon| - i
  {
    if i < |canon| {
      KindsNeverNegative(d, canon[i].kind, originals, canon[i].parameters);
      var k := KindNamed(d.interventions, canon[i].kind);
      AssignCodes(d, k.assign, 0, originals, canon[i].parameters, applied);
      var step := AssignFrom(d, k.assign, 0, originals, canon[i].parameters, applied);
      if step.Ok? {
        CollectNeverNegative(d, canon, i + 1, originals, step.value);
      }
    }
  }

  lemma {:induction false} PromisesNeverNegative(d: Descriptor, canon: seq<Item>, i: nat, words: Words)
    requires HookrLayout(d.fields) && d.interventions == HookrKinds() && DeclaredKinds(d, canon) && i <= |canon|
    ensures PromisesFrom(d, canon, i, words) != Err(NegativeFactor)
    decreases |canon| - i
  {
    if i < |canon| {
      KindsNeverNegative(d, canon[i].kind, words, canon[i].parameters);
      PromisesNeverNegative(d, canon, i + 1, words);
    }
  }

  // On hookr-1 a product factor is never negative when it is reached.
  lemma NegativeFactorNeverArises(dep: Deployment, w: seq<nat>, items: seq<Item>, originals: Words)
    requires dep.Valid() && SixWords(w)
    ensures Compose(Hookr(dep, w), items, originals) != Err(NegativeFactor)
  {
    var d := Hookr(dep, w);
    if CanonicalInterventions(d, items).Ok? {
      var canon := CanonicalInterventions(d, items).value;
      CanonicalSet(d, items);
      CollectNeverNegative(d, canon, 0, originals, []);
      var applied := CollectFrom(d, canon, 0, originals, []);
      if applied.Ok? {
        var words := WordsAfter(originals, applied.value);
        PromisesNeverNegative(d, canon, 0, words);
        WritesFail(d, originals, words, applied.value, 0, 0, []);
      }
    }
  }
}
