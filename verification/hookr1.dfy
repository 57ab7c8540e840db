// The hookr-1 profile: its field layout and its three intervention kinds.
// Rules words 0 to 3 hold the pool configuration in sixteen packed fields; Root word 0 holds the Rules address, the
// base fee and a flag byte in five. Fields are numbered as listed: HookrField(1) is the maximum fee, 5 the
// sensitivity, 7 the LP rate, 10 the protocol share, 17 the base fee, 18 and 19 the dynamic and recapture flags.
// A deployment supplies what differs between chains: addresses, code hashes and slots.
module Hookr1 {
  import opened Bits
  import opened Descriptors
  import opened Composition

  const RULES_CONFIG := "rulesConfig"
  const ROOT_RECORD := "rootRecord"
  const LP_REWARDS := "LP_REWARDS_BPS"
  const DYNAMIC_FEE := "DYNAMIC_FEE"
  const DYNAMIC_FEE_TUNING := "DYNAMIC_FEE_TUNING"
  const TUNING_MAX_FEE_UNDER_ROOT_CAPS: nat := 11500

  // ----- fields ---------------------------------------------------------------------------------------------

  const FIELD_COUNT: nat := 21

  function HookrField(i: nat): Field {
    if i == 0 then Field("guardEndBlock", RULES_CONFIG, 0, 0, 40, Uint)
    else if i == 1 then Field("maxFeePips", RULES_CONFIG, 0, 40, 24, Uint)
    else if i == 2 then Field("snipeTaxPips", RULES_CONFIG, 0, 64, 24, Uint)
    else if i == 3 then Field("snipeFloorPips", RULES_CONFIG, 0, 88, 24, Uint)
    else if i == 4 then Field("snipeDecaySeconds", RULES_CONFIG, 0, 112, 16, Uint)
    else if i == 5 then Field("dynamicFeeSens", RULES_CONFIG, 0, 128, 16, Uint)
    else if i == 6 then Field("burnBps", RULES_CONFIG, 0, 144, 16, Uint)
    else if i == 7 then Field("lpBps", RULES_CONFIG, 0, 160, 16, Uint)
    else if i == 8 then Field("potBps", RULES_CONFIG, 0, 176, 16, Uint)
    else if i == 9 then Field("royaltyBps", RULES_CONFIG, 0, 192, 16, Uint)
    else if i == 10 then Field("protocolShareBps", RULES_CONFIG, 0, 208, 16, Uint)
    else if i == 11 then Field("potEveryNBuys", RULES_CONFIG, 0, 224, 32, Uint)
    else if i == 12 then Field("maxBuyQuoteAmount", RULES_CONFIG, 1, 0, 128, Uint)
    else if i == 13 then Field("potMinBuyQuote", RULES_CONFIG, 1, 128, 128, Uint)
    else if i == 14 then Field("royaltyTo", RULES_CONFIG, 2, 0, 160, Address)
    else if i == 15 then Field("integrator", RULES_CONFIG, 3, 0, 160, Address)
    else if i == 16 then Field("rootRulesAddress", ROOT_RECORD, 0, 0, 160, Address)
    else if i == 17 then Field("rootBaseLpFeePips", ROOT_RECORD, 0, 160, 24, Uint)
    else if i == 18 then Field("rootDynamicFeeFlag", ROOT_RECORD, 0, 248, 1, Flag)
    else if i == 19 then Field("rootRecaptureFlag", ROOT_RECORD, 0, 249, 1, Flag)
    else Field("rootFlagsReserved", ROOT_RECORD, 0, 250, 6, Uint)
  }

  function HookrFields(): seq<Field> {
    seq(FIELD_COUNT, (i: int) requires 0 <= i < FIELD_COUNT => HookrField(i))
  }

  // The names differ already in length, first and fifth letter.
  function NameKey(name: string): int {
    if |name| < 5 then 0 else 1000000 * |name| + 1000 * (name[0] as int) + name[4] as int
  }

  function IndexOfKey(key: int): nat {
    if key == 13103100 then 0
    else if key == 10109101 then 1
    else if key == 12115101 then 2
    else if key == 14115101 then 3
    else if key == 17115101 then 4
    else if key == 14100109 then 5
    else if key == 7098066 then 6
    else if key == 5108115 then 7
    else if key == 6112112 then 8
    else if key == 10114108 then 9
    else if key == 16112111 then 10
    else if key == 13112118 then 11
    else if key == 17109117 then 12
    else if key == 14112105 then 13
    else if key == 9114108 then 14
    else if key == 10105103 then 15
    else if key == 16114082 then 16
    else if key == 17114066 then 17
    else if key == 18114068 then 18
    else if key == 17114082 then 19
    else 20
  }

  lemma RulesKeyTellsIndex(i: nat)
    requires i < 11
    ensures IndexOfKey(NameKey(HookrField(i).name)) == i
  {
  }

  lemma LaterKeyTellsIndex(i: nat)
    requires 11 <= i < FIELD_COUNT
    ensures IndexOfKey(NameKey(HookrField(i).name)) == i
  {
  }

  lemma KeyTellsIndex(i: nat)
    requires i < FIELD_COUNT
    ensures IndexOfKey(NameKey(HookrField(i).name)) == i
  {
    if i < 11 {
      RulesKeyTellsIndex(i);
    } else {
      LaterKeyTellsIndex(i);
    }
  }

  lemma FieldNamesDistinct(i: nat, j: nat)
    requires i < j < FIELD_COUNT
    ensures HookrField(i).name != HookrField(j).name
  {
    KeyTellsIndex(i);
    KeyTellsIndex(j);
  }

  // First and last bit of a field, counting through the words of both targets.
  function FirstBit(f: Field): nat {
    ((if f.target == ROOT_RECORD then 4 else 0) + f.word) * WORD_BITS + f.offset
  }

  lemma FieldsAscend(i: nat)
    requires i + 1 < FIELD_COUNT
    ensures FirstBit(HookrField(i)) + HookrField(i).width <= FirstBit(HookrField(i + 1))
  {
  }

  lemma {:induction false} FieldsAscendFar(i: nat, j: nat)
    requires i < j < FIELD_COUNT
    ensures FirstBit(HookrField(i)) + HookrField(i).width <= FirstBit(HookrField(j))
  {
    FieldsAscend(j - 1);
    if i < j - 1 {
      FieldsAscendFar(i, j - 1);
    }
  }

  lemma FieldsApart(i: nat, j: nat)
    requires i < j < FIELD_COUNT
    ensures !Overlap(HookrField(i), HookrField(j))
  {
    FieldsAscendFar(i, j);
  }

  // ----- kinds ----------------------------------------------------------------------------------------------

  function F(name: string): Operand { FieldRef(name) }

  function P(name: string): Operand { ParamRef(name) }

  function DynamicFee(): Kind {
    Kind(DYNAMIC_FEE,
         [EnumParameter("dynamicFee", ["OFF"])],
         [Compare(F("maxFeePips"), Gt, F("rootBaseLpFeePips")), Compare(F("dynamicFeeSens"), Gt, Const(0)),
          Compare(F("rootDynamicFeeFlag"), Eq, Const(1)), Compare(F("rootRecaptureFlag"), Eq, Const(1)),
          Compare(F("rootFlagsReserved"), Eq, Const(0))],
         [Assign("maxFeePips", F("rootBaseLpFeePips")), Assign("dynamicFeeSens", Const(0)), Assign("rootDynamicFeeFlag", Const(0))],
         [],
         [DYNAMIC_FEE_TUNING])
  }

  function DynamicFeeTuning(): Kind {
    Kind(DYNAMIC_FEE_TUNING,
         [UintParameter("dynamicFeeSens", 1, 10), UintParameter("maxFeePips", 1, 600000)],
         [Compare(F("dynamicFeeSens"), Ge, Const(1)), Compare(F("maxFeePips"), Gt, F("rootBaseLpFeePips")),
          Compare(F("rootDynamicFeeFlag"), Eq, Const(1))],
         [Assign("dynamicFeeSens", P("dynamicFeeSens")), Assign("maxFeePips", P("maxFeePips"))],
         TuningPromises(),
         [DYNAMIC_FEE])
  }

  function TuningPromises(): seq<Predicate> {
    [Compare(F("maxFeePips"), Gt, F("rootBaseLpFeePips")), Compare(F("maxFeePips"), Le, Const(600000)),
     Compare(F("maxFeePips"), Le, Const(TUNING_MAX_FEE_UNDER_ROOT_CAPS)),
     Compare(F("dynamicFeeSens"), Ge, Const(1)), Compare(F("dynamicFeeSens"), Le, Const(10)),
     Compare(F("rootDynamicFeeFlag"), Eq, Const(1)),
     ProductBound([DiffFactor("maxFeePips", "rootBaseLpFeePips"), SquareFactor("dynamicFeeSens")], false, 7200000),
     ProductBound([DiffFactor("maxFeePips", "rootBaseLpFeePips"), FieldFactor("protocolShareBps"),
                   ConstMinusSquare(432, "dynamicFeeSens")], false, 99360000000)]
  }

  function LpRewards(): Kind {
    Kind(LP_REWARDS,
         [UintParameter("lpBps", 0, 99)],
         [Compare(F("lpBps"), Eq, Const(100))],
         [Assign("lpBps", P("lpBps"))],
         [],
         [])
  }

  function HookrKinds(): seq<Kind> {
    [DynamicFee(), DynamicFeeTuning(), LpRewards()]
  }

  // ----- the descriptor -------------------------------------------------------------------------------------

  // Addresses, runtime code hashes and slots of one deployment.
  datatype Deployment = Deployment(
    poolManager: nat, root: nat, router: nat, rules: nat, token: nat,
    poolManagerHash: nat, rootHash: nat, routerHash: nat, rulesHash: nat,
    configSlot: nat, rootRecordSlot: nat)
  {
    predicate Valid() {
      && poolManager != 0 && root != 0 && router != 0 && rules != 0 && token != 0
      && poolManager != root && poolManager != router && poolManager != rules && poolManager != token
      && root != router && root != rules && root != token && router != rules && router != token && rules != token
      && poolManagerHash != 0 && rootHash != 0 && routerHash != 0 && rulesHash != 0
      && configSlot + 4 <= Pow2(WORD_BITS) && rootRecordSlot + 2 <= Pow2(WORD_BITS)
    }

    function Contracts(): seq<Contract> {
      [Contract("poolManager", poolManager, CodeHashEquals("poolManager", poolManagerHash)),
       Contract("root", root, CodeHashEquals("root", rootHash)),
       Contract("router", router, CodeHashEquals("router", routerHash)),
       Contract("rules", rules, CodeHashEquals("rules", rulesHash)),
       Contract("targetToken", token, CodePresent)]
    }

    function Manifest(): map<(string, nat), nat> {
      map[("poolManager", poolManager) := poolManagerHash, ("root", root) := rootHash,
          ("router", router) := routerHash, ("rules", rules) := rulesHash]
    }

    function Targets(): seq<Target> {
      [Target(RULES_CONFIG, "rules", configSlot, 4), Target(ROOT_RECORD, "root", rootRecordSlot, 2)]
    }
  }

  // Four Rules configuration words and two Root record words.
  predicate SixWords(w: seq<nat>) {
    |w| == 6 && forall i :: 0 <= i < 6 ==> IsWord(w[i])
  }

  function Pins(w: seq<nat>): seq<OriginalWord>
    requires |w| == 6
  {
    [OriginalWord(RULES_CONFIG, 0, w[0]), OriginalWord(RULES_CONFIG, 1, w[1]), OriginalWord(RULES_CONFIG, 2, w[2]),
     OriginalWord(RULES_CONFIG, 3, w[3]), OriginalWord(ROOT_RECORD, 0, w[4]), OriginalWord(ROOT_RECORD, 1, w[5])]
  }

  function Hookr(dep: Deployment, w: seq<nat>): Descriptor
    requires |w| == 6
  {
    Descriptor(dep.Manifest(), dep.Contracts(), dep.Targets(), RULES_CONFIG, HookrFields(), Pins(w), HookrKinds())
  }

  // ----- lookups --------------------------------------------------------------------------------------------

  lemma {:induction false} FirstWithName(fields: seq<Field>, i: nat)
    requires i < |fields| && forall j :: 0 <= j < i ==> fields[j].name != fields[i].name
    ensures FieldNamed(fields, fields[i].name) == fields[i]
  {
    if i > 0 {
      FirstWithName(fields[1..], i - 1);
    }
  }

  // The layout as a property of a field list.
  ghost predicate HookrLayout(fields: seq<Field>) {
    |fields| == FIELD_COUNT && forall i :: 0 <= i < FIELD_COUNT ==> fields[i] == HookrField(i)
  }

  lemma HookrFieldNamed(fields: seq<Field>, i: nat)
    requires HookrLayout(fields) && i < FIELD_COUNT
    ensures FieldNamed(fields, HookrField(i).name) == HookrField(i)
    ensures HasField(fields, HookrField(i).name)
  {
    assert fields[i] == HookrField(i);
    forall j | 0 <= j < i
      ensures fields[j].name != fields[i].name
    {
      FieldNamesDistinct(j, i);
    }
    FirstWithName(fields, i);
  }

  ghost predicate Mentioned(fields: seq<Field>, name: string, i: nat) {
    FieldNamed(fields, name) == HookrField(i) && HasField(fields, name)
  }

  lemma IsMentioned(fields: seq<Field>, name: string, i: nat)
    requires HookrLayout(fields) && i < FIELD_COUNT && HookrField(i).name == name
    ensures Mentioned(fields, name, i)
  {
    HookrFieldNamed(fields, i);
  }

  lemma MaxFeeMentioned(fields: seq<Field>)
    requires HookrLayout(fields)
    ensures Mentioned(fields, "maxFeePips", 1)
  {
    IsMentioned(fields, "maxFeePips", 1);
  }

  lemma SensMentioned(fields: seq<Field>)
    requires HookrLayout(fields)
    ensures Mentioned(fields, "dynamicFeeSens", 5)
  {
    IsMentioned(fields, "dynamicFeeSens", 5);
  }

  lemma LpMentioned(fields: seq<Field>)
    requires HookrLayout(fields)
    ensures Mentioned(fields, "lpBps", 7)
  {
    IsMentioned(fields, "lpBps", 7);
  }

  lemma ShareMentioned(fields: seq<Field>)
    requires HookrLayout(fields)
    ensures Mentioned(fields, "protocolShareBps", 10)
  {
    IsMentioned(fields, "protocolShareBps", 10);
  }

  lemma BaseMentioned(fields: seq<Field>)
    requires HookrLayout(fields)
    ensures Mentioned(fields, "rootBaseLpFeePips", 17)
  {
    IsMentioned(fields, "rootBaseLpFeePips", 17);
  }

  lemma DynamicFlagMentioned(fields: seq<Field>)
    requires HookrLayout(fields)
    ensures Mentioned(fields, "rootDynamicFeeFlag", 18)
  {
    IsMentioned(fields, "rootDynamicFeeFlag", 18);
  }

  lemma RecaptureFlagMentioned(fields: seq<Field>)
    requires HookrLayout(fields)
    ensures Mentioned(fields, "rootRecaptureFlag", 19)
  {
    IsMentioned(fields, "rootRecaptureFlag", 19);
  }

  lemma ReservedMentioned(fields: seq<Field>)
    requires HookrLayout(fields)
    ensures Mentioned(fields, "rootFlagsReserved", 20)
  {
    IsMentioned(fields, "rootFlagsReserved", 20);
  }

  lemma KindNames()
    ensures KindNamed(HookrKinds(), DYNAMIC_FEE) == DynamicFee() && HasKind(HookrKinds(), DYNAMIC_FEE)
    ensures KindNamed(HookrKinds(), DYNAMIC_FEE_TUNING) == DynamicFeeTuning() && HasKind(HookrKinds(), DYNAMIC_FEE_TUNING)
    ensures KindNamed(HookrKinds(), LP_REWARDS) == LpRewards() && HasKind(HookrKinds(), LP_REWARDS)
    ensures forall name :: HasKind(HookrKinds(), name) <==> name == DYNAMIC_FEE || name == DYNAMIC_FEE_TUNING || name == LP_REWARDS
  {
    var ks := HookrKinds();
    assert DYNAMIC_FEE[0] == 'D' && LP_REWARDS[0] == 'L' && |DYNAMIC_FEE| == 11 && |DYNAMIC_FEE_TUNING| == 18;
    assert ks[0].kind == DYNAMIC_FEE && ks[1].kind == DYNAMIC_FEE_TUNING && ks[2].kind == LP_REWARDS;
    KindByIndex(ks, 0);
    KindByIndex(ks, 1);
    KindByIndex(ks, 2);
  }
}
