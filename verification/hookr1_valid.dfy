// The hookr-1 descriptor is valid for every deployment and every six original words.
// A deployment fixes the addresses, code hashes and slots; the words are the pinned originals. Each section of the
// descriptor has its own lemmas: contracts, targets, the field layout, originals, and the three kinds with their
// parameters, predicates and conflicts. The field layout is reached only through `HookrLayout`.
module Hookr1Valid {
  import opened Bits
  import opened Orders
  import opened Descriptors
  import opened Hookr1

  // ----- contracts and targets ------------------------------------------------------------------------------

  lemma ContractNamesDistinct(dep: Deployment)
    ensures
      var cs := dep.Contracts();
      forall i, j :: 0 <= i < j < |cs| ==> cs[i].name != cs[j].name
  {
    var cs := dep.Contracts();
    assert |cs[0].name| == 11 && |cs[1].name| == 4 && |cs[2].name| == 6 && |cs[3].name| == 5 && cs[4].name[0] == 't' && cs[0].name[0] == 'p';
  }

  lemma EachContractOk(dep: Deployment, i: nat)
    requires dep.Valid() && i < 5
    ensures ContractOk(dep.Manifest(), dep.Contracts()[i])
  {
    var cs := dep.Contracts();
    assert |cs[0].name| == 11 && |cs[1].name| == 4 && |cs[2].name| == 6 && |cs[3].name| == 5;
  }

  lemma ContractsAreValid(dep: Deployment, w: seq<nat>)
    requires dep.Valid() && SixWords(w)
    ensures ValidContracts(Hookr(dep, w))
  {
    ContractNamesDistinct(dep);
    forall i | 0 <= i < |dep.Contracts()|
      ensures ContractOk(dep.Manifest(), dep.Contracts()[i])
    {
      EachContractOk(dep, i);
    }
  }

  lemma ContractAt(dep: Deployment, w: seq<nat>, i: nat)
    requires dep.Valid() && SixWords(w) && i < 5
    ensures ContractNamed(Hookr(dep, w).contracts, dep.Contracts()[i].name) == dep.Contracts()[i]
    ensures HasContract(Hookr(dep, w).contracts, dep.Contracts()[i].name)
  {
    ContractsAreValid(dep, w);
    ContractByIndex(dep.Contracts(), i);
  }

  lemma TargetNamesDiffer()
    ensures RULES_CONFIG != ROOT_RECORD
  {
    assert |RULES_CONFIG| == 11 && |ROOT_RECORD| == 10;
  }

  lemma EachTargetOk(dep: Deployment, w: seq<nat>)
    requires dep.Valid() && SixWords(w)
    ensures TargetOk(Hookr(dep, w), dep.Targets()[0]) && TargetOk(Hookr(dep, w), dep.Targets()[1])
  {
    ContractAt(dep, w, 1);
    ContractAt(dep, w, 3);
    assert dep.Targets()[0].contract == dep.Contracts()[3].name && dep.Targets()[1].contract == dep.Contracts()[1].name;
  }

  lemma TargetsAreValid(dep: Deployment, w: seq<nat>)
    requires dep.Valid() && SixWords(w)
    ensures ValidTargets(Hookr(dep, w))
  {
    var d := Hookr(dep, w);
    TargetNamesDiffer();
    EachTargetOk(dep, w);
    assert |d.targets[0].contract| == 5 && |d.targets[1].contract| == 4;
    assert d.targets[0].name == d.configurationTarget;
  }

  lemma TargetRecords(dep: Deployment, w: seq<nat>)
    requires dep.Valid() && SixWords(w)
    ensures
      var ts := Hookr(dep, w).targets;
      && TargetNamed(ts, RULES_CONFIG) == ts[0] && HasTarget(ts, RULES_CONFIG)
      && TargetNamed(ts, ROOT_RECORD) == ts[1] && HasTarget(ts, ROOT_RECORD)
  {
    TargetsAreValid(dep, w);
    var ts := Hookr(dep, w).targets;
    TargetByIndex(ts, 0);
    TargetByIndex(ts, 1);
    assert ts[0].name == RULES_CONFIG && ts[1].name == ROOT_RECORD;
  }

  // ----- fields ---------------------------------------------------------------------------------------------

  lemma FieldShape(i: nat)
    requires i < FIELD_COUNT
    ensures
      var f := HookrField(i);
      && ((f.target == RULES_CONFIG && f.word < 4) || (f.target == ROOT_RECORD && f.word < 2))
      && 1 <= f.width && f.offset + f.width <= WORD_BITS
      && (f.kind.Flag? ==> f.width == 1) && (f.kind.Address? ==> f.width == 160)
  {
  }

  lemma FieldsAreValid(dep: Deployment, w: seq<nat>)
    requires dep.Valid() && SixWords(w)
    ensures ValidFields(Hookr(dep, w))
  {
    var d := Hookr(dep, w);
    TargetRecords(dep, w);
    forall i | 0 <= i < |d.fields|
      ensures FieldOk(d, d.fields[i])
    {
      FieldShape(i);
    }
    forall i, j | 0 <= i < j < |d.fields|
      ensures d.fields[i].name != d.fields[j].name && !Overlap(d.fields[i], d.fields[j])
    {
      FieldNamesDistinct(i, j);
      FieldsApart(i, j);
    }
  }

  // ----- original words -------------------------------------------------------------------------------------

  lemma PinsAreOk(dep: Deployment, w: seq<nat>)
    requires dep.Valid() && SixWords(w)
    ensures forall i :: 0 <= i < 6 ==> OriginalOk(Hookr(dep, w), Pins(w)[i])
  {
    TargetRecords(dep, w);
  }

  lemma OriginalsAreValid(dep: Deployment, w: seq<nat>)
    requires dep.Valid() && SixWords(w)
    ensures ValidOriginals(Hookr(dep, w))
  {
    var d := Hookr(dep, w);
    PinsAreOk(dep, w);
    TargetNamesDiffer();
    forall i, j | 0 <= i < j < 6
      ensures !(d.originalState[i].target == d.originalState[j].target && d.originalState[i].word == d.originalState[j].word)
    {
    }
    forall i, word: nat | 0 <= i < |d.targets| && word < d.targets[i].words
      ensures PinsWord(d, d.targets[i].name, word)
    {
      var k := if i == 0 then word else 4 + word;
      assert d.originalState[k].target == d.targets[i].name && d.originalState[k].word == word;
    }
  }

  // ----- kinds ----------------------------------------------------------------------------------------------

  lemma CompareFieldConst(d: Descriptor, ps: seq<ParameterDecl>, p: Predicate, i: nat)
    requires HookrLayout(d.fields) && i < FIELD_COUNT
    requires p.Compare? && p.left == FieldRef(HookrField(i).name) && p.right.Const?
    ensures PredicateOk(d, ps, p)
  {
    HookrFieldNamed(d.fields, i);
  }

  lemma CompareFields(d: Descriptor, ps: seq<ParameterDecl>, p: Predicate, i: nat, j: nat)
    requires HookrLayout(d.fields) && i < FIELD_COUNT && j < FIELD_COUNT
    requires p.Compare? && p.left == FieldRef(HookrField(i).name) && p.right == FieldRef(HookrField(j).name)
    ensures PredicateOk(d, ps, p)
  {
    HookrFieldNamed(d.fields, i);
    HookrFieldNamed(d.fields, j);
  }

  lemma AssignsUint(d: Descriptor, ps: seq<ParameterDecl>, a: Assign, i: nat)
    requires HookrLayout(d.fields) && i < FIELD_COUNT && a.field == HookrField(i).name && !HookrField(i).kind.Address?
    requires OperandOk(d, ps, a.value)
    ensures AssignOk(d, ps, a)
  {
    HookrFieldNamed(d.fields, i);
  }

  lemma LpIsOk(d: Descriptor)
    requires HookrLayout(d.fields)
    ensures KindOk(d, LpRewards())
  {
    var k := LpRewards();
    CompareFieldConst(d, k.parameters, k.demands[0], 7);
    assert k.parameters[0].UintParameter? && k.parameters[0].name == "lpBps";
    AssignsUint(d, k.parameters, k.assign[0], 7);
  }

  lemma DynamicDemandsOk(d: Descriptor)
    requires HookrLayout(d.fields)
    ensures forall i :: 0 <= i < 5 ==> PredicateOk(d, DynamicFee().parameters, DynamicFee().demands[i])
  {
    var k := DynamicFee();
    CompareFields(d, k.parameters, k.demands[0], 1, 17);
    CompareFieldConst(d, k.parameters, k.demands[1], 5);
    CompareFieldConst(d, k.parameters, k.demands[2], 18);
    CompareFieldConst(d, k.parameters, k.demands[3], 19);
    CompareFieldConst(d, k.parameters, k.demands[4], 20);
  }

  lemma AssignsBase(d: Descriptor, ps: seq<ParameterDecl>)
    requires HookrLayout(d.fields)
    ensures OperandOk(d, ps, FieldRef("rootBaseLpFeePips"))
  {
    IsMentioned(d.fields, "rootBaseLpFeePips", 17);
  }

  lemma DynamicEachAssignOk(d: Descriptor)
    requires HookrLayout(d.fields)
    ensures forall i :: 0 <= i < 3 ==> AssignOk(d, DynamicFee().parameters, DynamicFee().assign[i])
  {
    var k := DynamicFee();
    AssignsBase(d, k.parameters);
    AssignsUint(d, k.parameters, k.assign[0], 1);
    AssignsUint(d, k.parameters, k.assign[1], 5);
    AssignsUint(d, k.parameters, k.assign[2], 18);
  }

  lemma DynamicAssignsOk(d: Descriptor)
    requires HookrLayout(d.fields)
    ensures ValidAssigns(d, DynamicFee().parameters, DynamicFee().assign)
  {
    DynamicEachAssignOk(d);
    var assigns := DynamicFee().assign;
    assert |assigns[0].field| == 10 && |assigns[1].field| == 14 && |assigns[2].field| == 18;
  }

  lemma DynamicIsOk(d: Descriptor)
    requires HookrLayout(d.fields)
    ensures KindOk(d, DynamicFee())
  {
    DynamicDemandsOk(d);
    DynamicAssignsOk(d);
    assert ParameterOk(DynamicFee().parameters[0]);
  }

  lemma TuningDemandsOk(d: Descriptor)
    requires HookrLayout(d.fields)
    ensures forall i :: 0 <= i < 3 ==> PredicateOk(d, DynamicFeeTuning().parameters, DynamicFeeTuning().demands[i])
  {
    var k := DynamicFeeTuning();
    CompareFieldConst(d, k.parameters, k.demands[0], 5);
    CompareFields(d, k.parameters, k.demands[1], 1, 17);
    CompareFieldConst(d, k.parameters, k.demands[2], 18);
  }

  lemma TuningParametersOk()
    ensures ValidParameters(DynamicFeeTuning().parameters)
    ensures DeclaresUint(DynamicFeeTuning().parameters, "dynamicFeeSens") && DeclaresUint(DynamicFeeTuning().parameters, "maxFeePips")
  {
    var ps := DynamicFeeTuning().parameters;
    assert |ps[0].name| == 14 && |ps[1].name| == 10;
    assert ps[0].UintParameter? && ps[1].UintParameter?;
  }

  lemma TuningAssignsOk(d: Descriptor)
    requires HookrLayout(d.fields)
    ensures ValidAssigns(d, DynamicFeeTuning().parameters, DynamicFeeTuning().assign)
  {
    var k := DynamicFeeTuning();
    TuningParametersOk();
    AssignsUint(d, k.parameters, k.assign[0], 5);
    AssignsUint(d, k.parameters, k.assign[1], 1);
    assert |k.assign[0].field| == 14 && |k.assign[1].field| == 10;
  }

  lemma FactorOfField(d: Descriptor, f: Factor, i: nat)
    requires HookrLayout(d.fields) && i < FIELD_COUNT
    requires !f.DiffFactor? && f.field == HookrField(i).name
    ensures FactorOk(d, f)
  {
    HookrFieldNamed(d.fields, i);
  }

  lemma FactorOfDifference(d: Descriptor, f: Factor, i: nat, j: nat)
    requires HookrLayout(d.fields) && i < FIELD_COUNT && j < FIELD_COUNT
    requires f.DiffFactor? && f.minuend == HookrField(i).name && f.subtrahend == HookrField(j).name
    ensures FactorOk(d, f)
  {
    HookrFieldNamed(d.fields, i);
    HookrFieldNamed(d.fields, j);
  }

  lemma TuningBoundsOk(d: Descriptor)
    requires HookrLayout(d.fields)
    ensures PredicateOk(d, DynamicFeeTuning().parameters, TuningPromises()[6])
    ensures PredicateOk(d, DynamicFeeTuning().parameters, TuningPromises()[7])
  {
    var a, b := TuningPromises()[6].factors, TuningPromises()[7].factors;
    FactorOfDifference(d, a[0], 1, 17);
    FactorOfField(d, a[1], 5);
    FactorOfDifference(d, b[0], 1, 17);
    FactorOfField(d, b[1], 10);
    FactorOfField(d, b[2], 5);
  }

  lemma TuningPromisesOk(d: Descriptor)
    requires HookrLayout(d.fields)
    ensures forall i :: 0 <= i < 8 ==> PredicateOk(d, DynamicFeeTuning().parameters, TuningPromises()[i])
  {
    var ps, promises := DynamicFeeTuning().parameters, TuningPromises();
    CompareFields(d, ps, promises[0], 1, 17);
    CompareFieldConst(d, ps, promises[1], 1);
    CompareFieldConst(d, ps, promises[2], 1);
    CompareFieldConst(d, ps, promises[3], 5);
    CompareFieldConst(d, ps, promises[4], 5);
    CompareFieldConst(d, ps, promises[5], 18);
    TuningBoundsOk(d);
  }

  lemma TuningIsOk(d: Descriptor)
    requires HookrLayout(d.fields)
    ensures KindOk(d, DynamicFeeTuning())
  {
    TuningParametersOk();
    TuningDemandsOk(d);
    TuningAssignsOk(d);
    TuningPromisesOk(d);
  }

  lemma KindOrderOk()
    ensures StringLe(DYNAMIC_FEE, DYNAMIC_FEE_TUNING) && DYNAMIC_FEE != DYNAMIC_FEE_TUNING
    ensures StringLe(DYNAMIC_FEE_TUNING, LP_REWARDS) && DYNAMIC_FEE_TUNING != LP_REWARDS
    ensures StringLe(DYNAMIC_FEE, LP_REWARDS) && DYNAMIC_FEE != LP_REWARDS
  {
    assert DYNAMIC_FEE[0] == 'D' && DYNAMIC_FEE_TUNING[0] == 'D' && LP_REWARDS[0] == 'L';
    assert |DYNAMIC_FEE| == 11 && |DYNAMIC_FEE_TUNING| == 18;
    assert DYNAMIC_FEE_TUNING[..11] == DYNAMIC_FEE;
    PrefixIsLess(DYNAMIC_FEE, DYNAMIC_FEE_TUNING);
  }

  lemma {:induction false} PrefixIsLess(a: string, b: string)
    requires |a| <= |b| && b[..|a|] == a
    ensures StringLe(a, b)
  {
    if a != [] {
      assert b[1..][..|a| - 1] == a[1..];
      assert b[..|a|][0] == a[0];
      PrefixIsLess(a[1..], b[1..]);
    }
  }

  lemma OneConflict(d: Descriptor, k: Kind, other: string)
    requires k.conflictsWith == [other] && other != k.kind && HasKind(d.interventions, other)
    requires KindNamed(d.interventions, other).conflictsWith == [k.kind]
    ensures ConflictsOk(d, k)
  {
    assert KindNamed(d.interventions, other).conflictsWith[0] == k.kind;
  }

  lemma TuningNameDiffers()
    ensures DYNAMIC_FEE != DYNAMIC_FEE_TUNING
  {
    assert |DYNAMIC_FEE| == 11 && |DYNAMIC_FEE_TUNING| == 18;
  }

  lemma HookrConflicts(d: Descriptor)
    requires d.interventions == HookrKinds()
    ensures ConflictsOk(d, DynamicFee()) && ConflictsOk(d, DynamicFeeTuning()) && ConflictsOk(d, LpRewards())
  {
    KindNames();
    TuningNameDiffers();
    OneConflict(d, DynamicFee(), DYNAMIC_FEE_TUNING);
    OneConflict(d, DynamicFeeTuning(), DYNAMIC_FEE);
  }

  lemma ThreeKinds(d: Descriptor, a: Kind, b: Kind, c: Kind)
    requires d.interventions == [a, b, c]
    requires KindOk(d, a) && KindOk(d, b) && KindOk(d, c)
    requires ConflictsOk(d, a) && ConflictsOk(d, b) && ConflictsOk(d, c)
    requires a.kind != b.kind && a.kind != c.kind && b.kind != c.kind
    requires StringLe(a.kind, b.kind) && StringLe(a.kind, c.kind) && StringLe(b.kind, c.kind)
    ensures ValidKinds(d)
  {
  }

  lemma KindsAreValid(dep: Deployment, w: seq<nat>)
    requires dep.Valid() && SixWords(w)
    ensures ValidKinds(Hookr(dep, w))
  {
    var d := Hookr(dep, w);
    LpIsOk(d);
    DynamicIsOk(d);
    TuningIsOk(d);
    KindOrderOk();
    HookrConflicts(d);
    ThreeKinds(d, DynamicFee(), DynamicFeeTuning(), LpRewards());
  }

  lemma HookrIsValid(dep: Deployment, w: seq<nat>)
    requires dep.Valid() && SixWords(w)
    ensures Valid(Hookr(dep, w))
  {
    ContractsAreValid(dep, w);
    TargetsAreValid(dep, w);
    FieldsAreValid(dep, w);
    OriginalsAreValid(dep, w);
    KindsAreValid(dep, w);
  }
}
