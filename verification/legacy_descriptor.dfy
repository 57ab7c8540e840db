// The descriptor side of the legacy refinement: hookr-1 on LP_REWARDS_BPS and DYNAMIC_FEE sets, in closed form.
// For the two kinds the overlay engine knows, these lemmas compute what descriptor composition does, step by step:
// the originals read off the six pinned words, the demands of a kind against the overlay's preconditions, the values
// it assigns and that they fit, and the canonical order of a set. legacy_equivalence.dfy puts the two sides together.
// The field layout is passed as a sequence, so that no proof unfolds the whole descriptor.
module LegacyDescriptor {
  import opened Wrappers
  import opened Bits
  import opened Orders
  import opened JsonValues
  import opened Descriptors
  import opened Composition
  import opened CompositionFacts
  import opened Originals
  import opened Hookr1
  import opened Hookr1Valid
  import opened LegacyWords
  import Overlay
  import L = LegacyRefinement

  // ----- originals --------------------------------------------------------------------------------------------

  lemma OriginalWords(dep: Deployment, w: seq<nat>)
    requires dep.Valid() && SixWords(w)
    ensures WordAt(OriginalsOf(Hookr(dep, w)), RULES_CONFIG, 0) == w[0]
    ensures WordAt(OriginalsOf(Hookr(dep, w)), ROOT_RECORD, 0) == w[4]
  {
    TargetsAreValid(dep, w);
    OriginalsAreValid(dep, w);
    PinMatches(Hookr(dep, w), 0);
    PinMatches(Hookr(dep, w), 4);
  }

  lemma GetAt(o: Words, f: Field, target: string, w: nat)
    requires f.target == target && f.word == 0 && WordAt(o, target, 0) == w
    ensures Get(o, f) == GetField(w, f.offset, f.width)
  {
  }

  lemma FieldTargets(i: nat)
    requires i < FIELD_COUNT
    ensures i < 12 ==> HookrField(i).target == RULES_CONFIG && HookrField(i).word == 0
    ensures 16 <= i ==> HookrField(i).target == ROOT_RECORD && HookrField(i).word == 0
  {
  }

  lemma GetRules(dep: Deployment, w: seq<nat>, i: nat)
    requires dep.Valid() && SixWords(w) && i < 12
    ensures Get(OriginalsOf(Hookr(dep, w)), HookrField(i)) == GetField(w[0], HookrField(i).offset, HookrField(i).width)
  {
    OriginalWords(dep, w);
    FieldTargets(i);
    GetAt(OriginalsOf(Hookr(dep, w)), HookrField(i), RULES_CONFIG, w[0]);
  }

  lemma GetRoot(dep: Deployment, w: seq<nat>, i: nat)
    requires dep.Valid() && SixWords(w) && 16 <= i < FIELD_COUNT
    ensures Get(OriginalsOf(Hookr(dep, w)), HookrField(i)) == GetField(w[4], HookrField(i).offset, HookrField(i).width)
  {
    OriginalWords(dep, w);
    FieldTargets(i);
    GetAt(OriginalsOf(Hookr(dep, w)), HookrField(i), ROOT_RECORD, w[4]);
  }

  // ----- demands ----------------------------------------------------------------------------------------------

  lemma CompareConst(d: Descriptor, p: Predicate, words: Words, params: map<string, Json>, name: string, i: nat)
    requires HookrLayout(d.fields) && i < FIELD_COUNT && Mentioned(d.fields, name, i)
    requires p.Compare? && p.left == FieldRef(name) && p.right.Const?
    ensures Holds(d, p, words, params) == Ok(Comparison(p.op, Get(words, HookrField(i)), p.right.value))
  {
  }

  lemma LpDemands(d: Descriptor, words: Words, params: map<string, Json>)
    requires HookrLayout(d.fields)
    ensures CheckAll(d, LpRewards().demands, words, params, OriginalPrecondition).Ok? <==> Get(words, HookrField(7)) == 100
  {
    var ps := LpRewards().demands;
    CheckAllMeansEach(d, ps, words, params, OriginalPrecondition);
    LpMentioned(d.fields);
    CompareConst(d, ps[0], words, params, "lpBps", 7);
  }

  lemma FiveHold(d: Descriptor, ps: seq<Predicate>, words: Words, params: map<string, Json>, b: seq<bool>)
    requires |ps| == 5 && |b| == 5
    requires Holds(d, ps[0], words, params) == Ok(b[0]) && Holds(d, ps[1], words, params) == Ok(b[1])
    requires Holds(d, ps[2], words, params) == Ok(b[2]) && Holds(d, ps[3], words, params) == Ok(b[3])
    requires Holds(d, ps[4], words, params) == Ok(b[4])
    ensures CheckAll(d, ps, words, params, OriginalPrecondition).Ok? <==> b[0] && b[1] && b[2] && b[3] && b[4]
  {
    CheckAllMeansEach(d, ps, words, params, OriginalPrecondition);
  }

  function DynamicDemand(i: nat): Predicate
    requires i < 5
  {
    DynamicFee().demands[i]
  }

  lemma MaxFeeDemand(d: Descriptor, words: Words, params: map<string, Json>)
    requires HookrLayout(d.fields)
    ensures Holds(d, DynamicDemand(0), words, params) == Ok(Get(words, HookrField(1)) > Get(words, HookrField(17)))
  {
    MaxFeeMentioned(d.fields);
    BaseMentioned(d.fields);
  }

  lemma SensDemand(d: Descriptor, words: Words, params: map<string, Json>)
    requires HookrLayout(d.fields)
    ensures Holds(d, DynamicDemand(1), words, params) == Ok(Get(words, HookrField(5)) > 0)
  {
    SensMentioned(d.fields);
  }

  lemma FlagDemand(d: Descriptor, words: Words, params: map<string, Json>)
    requires HookrLayout(d.fields)
    ensures Holds(d, DynamicDemand(2), words, params) == Ok(Get(words, HookrField(18)) == 1)
  {
    DynamicFlagMentioned(d.fields);
  }

  lemma RecaptureDemand(d: Descriptor, words: Words, params: map<string, Json>)
    requires HookrLayout(d.fields)
    ensures Holds(d, DynamicDemand(3), words, params) == Ok(Get(words, HookrField(19)) == 1)
  {
    RecaptureFlagMentioned(d.fields);
  }

  lemma ReservedDemand(d: Descriptor, words: Words, params: map<string, Json>)
    requires HookrLayout(d.fields)
    ensures Holds(d, DynamicDemand(4), words, params) == Ok(Get(words, HookrField(20)) == 0)
  {
    ReservedMentioned(d.fields);
  }

  lemma DynamicDemands(d: Descriptor, words: Words, params: map<string, Json>)
    requires HookrLayout(d.fields)
    ensures CheckAll(d, DynamicFee().demands, words, params, OriginalPrecondition).Ok? <==>
            && Get(words, HookrField(1)) > Get(words, HookrField(17)) && Get(words, HookrField(5)) > 0
            && Get(words, HookrField(18)) == 1 && Get(words, HookrField(19)) == 1 && Get(words, HookrField(20)) == 0
  {
    MaxFeeDemand(d, words, params);
    SensDemand(d, words, params);
    FlagDemand(d, words, params);
    RecaptureDemand(d, words, params);
    ReservedDemand(d, words, params);
    FiveHold(d, DynamicFee().demands, words, params,
             [Get(words, HookrField(1)) > Get(words, HookrField(17)), Get(words, HookrField(5)) > 0,
              Get(words, HookrField(18)) == 1, Get(words, HookrField(19)) == 1, Get(words, HookrField(20)) == 0]);
  }

  predicate DynamicReady(rules: nat, root: nat) {
    && GetField(rules, 40, 24) > GetField(root, 160, 24) && GetField(rules, 128, 16) > 0
    && GetField(root, 248, 1) == 1 && GetField(root, 249, 1) == 1 && GetField(root, 250, 6) == 0
  }

  lemma DynamicReads(dep: Deployment, w: seq<nat>)
    requires dep.Valid() && SixWords(w)
    ensures
      var o := OriginalsOf(Hookr(dep, w));
      && Get(o, HookrField(1)) == GetField(w[0], 40, 24) && Get(o, HookrField(5)) == GetField(w[0], 128, 16)
      && Get(o, HookrField(17)) == GetField(w[4], 160, 24) && Get(o, HookrField(18)) == GetField(w[4], 248, 1)
      && Get(o, HookrField(19)) == GetField(w[4], 249, 1) && Get(o, HookrField(20)) == GetField(w[4], 250, 6)
  {
    GetRules(dep, w, 1);
    GetRules(dep, w, 5);
    GetRoot(dep, w, 17);
    GetRoot(dep, w, 18);
    GetRoot(dep, w, 19);
    GetRoot(dep, w, 20);
  }

  lemma DynamicDemandsOfWords(dep: Deployment, w: seq<nat>, params: map<string, Json>)
    requires dep.Valid() && SixWords(w)
    ensures
      var d := Hookr(dep, w);
      CheckAll(d, DynamicFee().demands, OriginalsOf(d), params, OriginalPrecondition).Ok? <==> DynamicReady(w[0], w[4])
  {
    var d := Hookr(dep, w);
    DynamicReads(dep, w);
    DynamicDemands(d, OriginalsOf(d), params);
  }

  // The demands of a kind are what the overlay engine expects of the same originals.
  lemma DynamicDemandsAreMeets(dep: Deployment, w: seq<nat>, x: Item)
    requires dep.Valid() && SixWords(w) && x.kind == DYNAMIC_FEE
    ensures
      var d := Hookr(dep, w);
      CheckAll(d, DynamicFee().demands, OriginalsOf(d), x.parameters, OriginalPrecondition).Ok? <==>
      L.ItemMeets(x, w[0], w[4], GetField(w[4], 160, 24))
  {
    DynamicDemandsOfWords(dep, w, x.parameters);
    L.KindsDiffer();
    ModeThreeIsFlags(w[4]);
  }

  lemma LpReads(dep: Deployment, w: seq<nat>)
    requires dep.Valid() && SixWords(w)
    ensures Get(OriginalsOf(Hookr(dep, w)), HookrField(7)) == GetField(w[0], 160, 16)
  {
    GetRules(dep, w, 7);
  }

  lemma LpDemandsOfWords(dep: Deployment, w: seq<nat>, params: map<string, Json>)
    requires dep.Valid() && SixWords(w)
    ensures
      var d := Hookr(dep, w);
      CheckAll(d, LpRewards().demands, OriginalsOf(d), params, OriginalPrecondition).Ok? <==> GetField(w[0], 160, 16) == 100
  {
    LpReads(dep, w);
    LpDemands(Hookr(dep, w), OriginalsOf(Hookr(dep, w)), params);
  }

  lemma LpMeets(x: Item, rules: nat, root: nat, base: nat)
    requires x.kind == LP_REWARDS
    ensures L.ItemMeets(x, rules, root, base) <==> GetField(rules, 160, 16) == 100
  {
  }

  lemma LpDemandsAreMeets(dep: Deployment, w: seq<nat>, x: Item)
    requires dep.Valid() && SixWords(w) && x.kind == LP_REWARDS
    ensures
      var d := Hookr(dep, w);
      CheckAll(d, LpRewards().demands, OriginalsOf(d), x.parameters, OriginalPrecondition).Ok? <==>
      L.ItemMeets(x, w[0], w[4], GetField(w[4], 160, 24))
  {
    LpDemandsOfWords(dep, w, x.parameters);
    LpMeets(x, w[0], w[4], GetField(w[4], 160, 24));
  }

  // ----- selected assignments ---------------------------------------------------------------------------------

  function Chosen(x: Item, base: nat): seq<Assignment>
    requires L.ItemAdmitted(x)
  {
    if x.kind == LP_REWARDS then [Assignment(HookrField(7), L.LpValue(x))]
    else [Assignment(HookrField(1), base), Assignment(HookrField(5), 0), Assignment(HookrField(18), 0)]
  }

  lemma LpSelected(dep: Deployment, w: seq<nat>, x: Item)
    requires dep.Valid() && SixWords(w) && x.kind == LP_REWARDS && L.ItemAdmitted(x)
    ensures Selected(Hookr(dep, w), LpRewards().assign, OriginalsOf(Hookr(dep, w)), x.parameters) == Chosen(x, GetField(w[4], 160, 24))
    ensures OperandValue(Hookr(dep, w), LpRewards().assign[0].value, OriginalsOf(Hookr(dep, w)), x.parameters) == L.LpValue(x)
  {
    L.KindsDiffer();
    LpMentioned(Hookr(dep, w).fields);
    var a := LpRewards().assign;
    SelectedAt(Hookr(dep, w), a, OriginalsOf(Hookr(dep, w)), x.parameters);
    assert AssignmentOf(Hookr(dep, w), a[0], OriginalsOf(Hookr(dep, w)), x.parameters) == Assignment(HookrField(7), L.LpValue(x));
  }

  lemma DynamicValues(dep: Deployment, w: seq<nat>, params: map<string, Json>)
    requires dep.Valid() && SixWords(w)
    ensures
      var d, a := Hookr(dep, w), DynamicFee().assign;
      && OperandValue(d, a[0].value, OriginalsOf(d), params) == GetField(w[4], 160, 24)
      && OperandValue(d, a[1].value, OriginalsOf(d), params) == 0
      && OperandValue(d, a[2].value, OriginalsOf(d), params) == 0
  {
    BaseMentioned(Hookr(dep, w).fields);
    DynamicReads(dep, w);
  }

  lemma DynamicFields(fields: seq<Field>)
    requires HookrLayout(fields)
    ensures
      var a := DynamicFee().assign;
      && FieldNamed(fields, a[0].field) == HookrField(1)
      && FieldNamed(fields, a[1].field) == HookrField(5)
      && FieldNamed(fields, a[2].field) == HookrField(18)
  {
    MaxFeeMentioned(fields);
    SensMentioned(fields);
    DynamicFlagMentioned(fields);
  }

  lemma DynamicSelected(dep: Deployment, w: seq<nat>, x: Item)
    requires dep.Valid() && SixWords(w) && x.kind == DYNAMIC_FEE && L.ItemAdmitted(x)
    ensures Selected(Hookr(dep, w), DynamicFee().assign, OriginalsOf(Hookr(dep, w)), x.parameters) == Chosen(x, GetField(w[4], 160, 24))
  {
    L.KindsDiffer();
    var d, a := Hookr(dep, w), DynamicFee().assign;
    SelectedAt(d, a, OriginalsOf(d), x.parameters);
    DynamicFields(Hookr(dep, w).fields);
    DynamicValues(dep, w, x.parameters);
  }

  lemma ItemSelected(dep: Deployment, w: seq<nat>, x: Item)
    requires dep.Valid() && SixWords(w) && L.ItemAdmitted(x)
    ensures
      var d := Hookr(dep, w);
      Selected(d, KindNamed(d.interventions, x.kind).assign, OriginalsOf(d), x.parameters) == Chosen(x, GetField(w[4], 160, 24))
  {
    KindNames();
    if x.kind == LP_REWARDS {
      LpSelected(dep, w, x);
    } else {
      DynamicSelected(dep, w, x);
    }
  }

  lemma DynamicWidths()
    ensures HookrField(1).width == 24 && HookrField(5).width == 16 && HookrField(18).width == 1
  {
  }

  lemma ThreeFit(d: Descriptor, a: seq<Assign>, o: Words, params: map<string, Json>, v: nat)
    requires |a| == 3 && v < Pow2(24)
    requires FieldNamed(d.fields, a[0].field).width == 24 && OperandValue(d, a[0].value, o, params) == v
    requires OperandValue(d, a[1].value, o, params) == 0 && OperandValue(d, a[2].value, o, params) == 0
    ensures forall j :: 0 <= j < |a| ==> 0 <= OperandValue(d, a[j].value, o, params) < Pow2(FieldNamed(d.fields, a[j].field).width)
  {
  }

  lemma DynamicValuesFit(dep: Deployment, w: seq<nat>, params: map<string, Json>)
    requires dep.Valid() && SixWords(w)
    ensures
      var d, a := Hookr(dep, w), DynamicFee().assign;
      forall j :: 0 <= j < |a| ==> 0 <= OperandValue(d, a[j].value, OriginalsOf(d), params) < Pow2(FieldNamed(d.fields, a[j].field).width)
  {
    var d, a := Hookr(dep, w), DynamicFee().assign;
    DynamicFields(d.fields);
    DynamicWidths();
    DynamicValues(dep, w, params);
    GetFieldFits(w[4], 160, 24);
    ThreeFit(d, a, OriginalsOf(d), params, GetField(w[4], 160, 24));
  }

  lemma DynamicAdmissible(dep: Deployment, w: seq<nat>, x: Item)
    requires dep.Valid() && SixWords(w) && x.kind == DYNAMIC_FEE
    ensures AdmissibleItem(Hookr(dep, w), x, OriginalsOf(Hookr(dep, w))) <==> L.ItemMeets(x, w[0], w[4], GetField(w[4], 160, 24))
  {
    KindNames();
    DynamicDemandsAreMeets(dep, w, x);
    DynamicValuesFit(dep, w, x.parameters);
  }

  lemma LpValueFits(dep: Deployment, w: seq<nat>, x: Item)
    requires dep.Valid() && SixWords(w) && x.kind == LP_REWARDS && L.ItemAdmitted(x)
    ensures
      var d, a := Hookr(dep, w), LpRewards().assign;
      forall j :: 0 <= j < |a| ==>
        0 <= OperandValue(d, a[j].value, OriginalsOf(d), x.parameters) < Pow2(FieldNamed(d.fields, a[j].field).width)
  {
    LpMentioned(Hookr(dep, w).fields);
    LpSelected(dep, w, x);
    L.FieldPowers();
    L.KindsDiffer();
  }

  lemma LpAdmissible(dep: Deployment, w: seq<nat>, x: Item)
    requires dep.Valid() && SixWords(w) && x.kind == LP_REWARDS && L.ItemAdmitted(x)
    ensures AdmissibleItem(Hookr(dep, w), x, OriginalsOf(Hookr(dep, w))) <==> L.ItemMeets(x, w[0], w[4], GetField(w[4], 160, 24))
  {
    KindNames();
    LpDemandsAreMeets(dep, w, x);
    LpValueFits(dep, w, x);
  }

  lemma ItemAdmissible(dep: Deployment, w: seq<nat>, x: Item)
    requires dep.Valid() && SixWords(w) && L.ItemAdmitted(x)
    ensures AdmissibleItem(Hookr(dep, w), x, OriginalsOf(Hookr(dep, w))) <==> L.ItemMeets(x, w[0], w[4], GetField(w[4], 160, 24))
  {
    if x.kind == LP_REWARDS {
      LpAdmissible(dep, w, x);
    } else {
      DynamicAdmissible(dep, w, x);
    }
  }

  // ----- canonical sets ---------------------------------------------------------------------------------------

  predicate LegacyKinds(items: seq<Item>) {
    forall x :: x in items ==> Overlay.Registered(x)
  }

  lemma ParametersAgree(x: Item)
    requires Overlay.Registered(x)
    ensures ParametersAdmitted(KindNamed(HookrKinds(), x.kind).parameters, x.parameters) <==> L.ItemAdmitted(x)
  {
    KindNames();
    L.KindsDiffer();
    if x.kind == LP_REWARDS {
      var ps := LpRewards().parameters;
      assert ps[0].name == "lpBps";
      assert (set i | 0 <= i < |ps| :: ps[i].name) == {"lpBps"};
    } else {
      var ps := DynamicFee().parameters;
      assert ps[0].name == "dynamicFee" && ps[0].values == ["OFF"];
      assert (set i | 0 <= i < |ps| :: ps[i].name) == {"dynamicFee"};
    }
  }

  lemma NoLegacyConflict(d: Descriptor, items: seq<Item>)
    requires d.interventions == HookrKinds() && LegacyKinds(items)
    ensures !HasConflict(d, items)
  {
    KindNames();
    L.KindsDiffer();
    forall x, y | x in items && y in items
      ensures y.kind !in KindNamed(d.interventions, x.kind).conflictsWith
    {
      assert Overlay.Registered(x) && Overlay.Registered(y);
    }
  }

  lemma ThreeRepeat(items: seq<Item>)
    requires LegacyKinds(items) && |items| > 2
    ensures RepeatsKind(items)
  {
    assert items[0] in items && items[1] in items && items[2] in items;
    if items[0].kind != items[1].kind && items[0].kind != items[2].kind {
      assert items[1].kind == items[2].kind;
    }
  }

  // Distinct legacy kinds are at most two.
  lemma AtMostTwo(items: seq<Item>)
    requires LegacyKinds(items) && !RepeatsKind(items)
    ensures |items| <= 2
  {
    if |items| > 2 {
      ThreeRepeat(items);
    }
  }

  function InKindOrder(items: seq<Item>): seq<Item> {
    if |items| == 2 && items[0].kind == LP_REWARDS then [items[1], items[0]] else items
  }

  lemma SortedInKindOrder(items: seq<Item>)
    requires Overlay.CheckSet(items).Ok?
    ensures Sort(ByKind, items) == InKindOrder(items)
  {
    L.CheckedSet(items);
    L.KindsDiffer();
    StringLeTotal(DYNAMIC_FEE, LP_REWARDS);
    if |items| == 1 {
      assert Sort(ByKind, items[1..]) == [];
      assert items == [items[0]];
    } else {
      var last := items[1..];
      assert last == [items[1]] && last[1..] == [];
      assert Sort(ByKind, last[1..]) == [];
      assert Sort(ByKind, last) == [items[1]];
      assert items == [items[0], items[1]];
      assert Insert(ByKind, items[0], []) == [items[0]];
    }
  }

  lemma CanonicalLegacy(dep: Deployment, w: seq<nat>, items: seq<Item>)
    requires LegacyKinds(items) && |w| == 6
    ensures
      var r := CanonicalInterventions(Hookr(dep, w), items);
      if Overlay.CheckSet(items).Ok? && forall x :: x in items ==> L.ItemAdmitted(x) then r == Ok(InKindOrder(items)) else r.Err?
  {
    var d := Hookr(dep, w);
    KindNames();
    NoLegacyConflict(d, items);
    forall x | x in items
      ensures HasKind(d.interventions, x.kind)
      ensures ParametersAdmitted(KindNamed(d.interventions, x.kind).parameters, x.parameters) <==> L.ItemAdmitted(x)
    {
      assert Overlay.Registered(x);
      ParametersAgree(x);
    }
    if !RepeatsKind(items) {
      AtMostTwo(items);
    }
    if Overlay.CheckSet(items).Ok? {
      SortedInKindOrder(items);
    }
  }
}
