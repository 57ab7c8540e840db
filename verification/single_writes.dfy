// The single-kind writes of the first SDK and their agreement with the overlay engine.
// Each masks one or two words of an authenticated projection of the Rules and Root accounts. The projection must be bound:
// addresses, code hashes, the profile's baseline words, the base fee, and a Root record in mode 3.
module SingleWrites {
  import opened Wrappers
  import opened Bits
  import opened JsonValues
  import opened Descriptors
  import opened Composition
  import opened LegacyWords
  import Hookr1
  import Overlay
  import L = LegacyRefinement

  datatype SingleKind = LpRewardsKind | DynamicOffKind | OtherKind

  datatype SingleCode = TargetState | LpRange | Unsupported | NotActive

  // Addresses and code hashes of the pinned generation, its slots, base fee and configuration words.
  datatype Profile = Profile(
    rulesAddress: nat, rulesHash: nat, rootAddress: nat, rootHash: nat,
    configSlot: nat, rootRecordSlot: nat, base: nat, baseline: seq<nat>)
  {
    predicate Valid() {
      base < Pow2(24) && |baseline| == 4 && forall i :: 0 <= i < |baseline| ==> IsWord(baseline[i])
    }

    function ConfigWord(i: nat): nat {
      if i < |baseline| then baseline[i] else 0
    }

    function ExpectedRules(): map<nat, nat> {
      map[configSlot := ConfigWord(0), configSlot + 1 := ConfigWord(1),
          configSlot + 2 := ConfigWord(2), configSlot + 3 := ConfigWord(3)]
    }
  }

  datatype Account = Account(address: nat, codeHash: nat, storage: map<nat, nat>)

  datatype Projection = Projection(root: Account, rules: Account)

  datatype SingleWrite = SingleWrite(address: nat, slot: nat, before: nat, after: nat, mask: nat)

  const MASK_LP: nat := Shl(65535, 160)
  const MASK_DYNAMIC: nat := Or(Shl(0xffffff, 40), Shl(65535, 128))
  const MASK_MODE: nat := Shl(1, 248)

  predicate PinnedIdentity(p: Profile, x: Projection) {
    && x.root.address == p.rootAddress && x.root.codeHash == p.rootHash
    && x.rules.address == p.rulesAddress && x.rules.codeHash == p.rulesHash
  }

  predicate CompleteStorage(p: Profile, x: Projection) {
    x.rules.storage == p.ExpectedRules() && x.root.storage.Keys == {p.rootRecordSlot}
  }

  // Initialised, in mode 3, naming the pinned Rules and base fee.
  predicate OriginalRecord(p: Profile, root: nat) {
    && IsWord(root)
    && And(root, Pow2(160) - 1) == p.rulesAddress
    && GetField(root, 160, 24) == p.base
    && GetField(root, 232, 8) == 1
    && Shr(root, 248) == 3
  }

  // What every single-kind plan demands of its projection.
  predicate Bound(p: Profile, x: Projection) {
    && PinnedIdentity(p, x)
    && CompleteStorage(p, x)
    && p.rootRecordSlot in x.root.storage
    && OriginalRecord(p, x.root.storage[p.rootRecordSlot])
  }

  function RulesWord(p: Profile, x: Projection): nat {
    if p.configSlot in x.rules.storage then x.rules.storage[p.configSlot] else 0
  }

  function RootWord(p: Profile, x: Projection): nat {
    if p.rootRecordSlot in x.root.storage then x.root.storage[p.rootRecordSlot] else 0
  }

  function LpWrites(p: Profile, word: nat, lp: nat): seq<SingleWrite> {
    [SingleWrite(p.rulesAddress, p.configSlot, word, Or(AndNot(word, MASK_LP), Shl(lp, 160)), MASK_LP)]
  }

  function DynamicOffWrites(p: Profile, word: nat, root: nat): seq<SingleWrite> {
    [SingleWrite(p.rulesAddress, p.configSlot, word, Or(AndNot(word, MASK_DYNAMIC), Shl(p.base, 40)), MASK_DYNAMIC),
     SingleWrite(p.rootAddress, p.rootRecordSlot, root, AndNot(root, MASK_MODE), MASK_MODE)]
  }

  function Writes(p: Profile, x: Projection, kind: SingleKind, lp: Json): Result<seq<SingleWrite>, SingleCode> {
    if !PinnedIdentity(p, x) then Err(TargetState)
    else if !CompleteStorage(p, x) then Err(TargetState)
    else
      var word, root := RulesWord(p, x), RootWord(p, x);
      if !OriginalRecord(p, root) then Err(TargetState)
      else if kind == LpRewardsKind then
        if !(lp.JInt? && 0 <= lp.n <= 99) then Err(LpRange) else Ok(LpWrites(p, word, lp.n))
      else if !(kind == DynamicOffKind && lp == JNull) then Err(Unsupported)
      else if !(GetField(word, 40, 24) > p.base && GetField(word, 128, 16) > 0) then Err(NotActive)
      else Ok(DynamicOffWrites(p, word, root))
  }

  // ----- the same intervention as an overlay item -------------------------------------------------------------

  function AsItem(kind: SingleKind, lp: Json): Item
    requires kind != OtherKind
  {
    if kind == LpRewardsKind then Item(Hookr1.LP_REWARDS, map["lpBps" := lp])
    else Item(Hookr1.DYNAMIC_FEE, map["dynamicFee" := JStr("OFF")])
  }

  // An overlay write at its place, with the mask of its target.
  function Masked(p: Profile, o: Overlay.OverlayWrite, kind: SingleKind): SingleWrite {
    if o.target == Overlay.RULES
    then SingleWrite(p.rulesAddress, p.configSlot, o.before, o.after, if kind == LpRewardsKind then MASK_LP else MASK_DYNAMIC)
    else SingleWrite(p.rootAddress, p.rootRecordSlot, o.before, o.after, MASK_MODE)
  }

  function MaskedAll(p: Profile, os: seq<Overlay.OverlayWrite>, kind: SingleKind): seq<SingleWrite> {
    seq(|os|, (i: int) requires 0 <= i < |os| => Masked(p, os[i], kind))
  }

  lemma MasksAreFields()
    ensures MASK_LP == Mask(160, 16)
    ensures MASK_DYNAMIC == Or(Mask(40, 24), Mask(128, 16))
  {
    L.FieldPowers();
  }

  lemma LpMaskedWord(word: nat, lp: nat)
    ensures Or(AndNot(word, MASK_LP), Shl(lp, 160)) == L.LpRules(word, lp)
  {
    MasksAreFields();
  }

  lemma DynamicMaskedWord(word: nat, base: nat)
    requires base < Pow2(24)
    ensures Or(AndNot(word, MASK_DYNAMIC), Shl(base, 40)) == L.DynamicRules(word, base)
  {
    MasksAreFields();
    TwoMaskPut(word, 40, 24, base, 128, 16);
  }

  lemma ModeMaskedWord(root: nat)
    ensures AndNot(root, MASK_MODE) == PutField(root, 248, 1, 0)
  {
    AndNotModeBit(root);
  }

  lemma BoundWords(p: Profile, x: Projection)
    requires p.Valid() && Bound(p, x)
    ensures RulesWord(p, x) == p.baseline[0] && IsWord(RulesWord(p, x)) && IsWord(RootWord(p, x))
    ensures GetField(RootWord(p, x), 248, 8) == 3
  {
    assert p.configSlot in p.ExpectedRules();
    ShiftReadsMode(RootWord(p, x));
  }

  lemma LpOverlay(lp: Json, rules0: nat, root0: nat, base: nat)
    requires IsWord(rules0) && IsWord(root0) && base < Pow2(24) && GetField(rules0, 160, 16) == 100
    ensures
      var o := Overlay.ComposeOverlay([AsItem(LpRewardsKind, lp)], rules0, root0, base);
      && (o.Ok? <==> lp.JInt? && 0 <= lp.n <= 99)
      && (o.Ok? ==> o.value.writes == [Overlay.OverlayWrite(Overlay.RULES, rules0, L.LpRules(rules0, lp.n))])
  {
    var item := AsItem(LpRewardsKind, lp);
    L.KindsDiffer();
    L.OverlayClosedForm([item], rules0, root0, base);
    assert item.parameters.Keys == {"lpBps"};
  }

  lemma DynamicItemAdmitted()
    ensures
      var item := AsItem(DynamicOffKind, JNull);
      L.ItemAdmitted(item) && item.kind != Hookr1.LP_REWARDS && Overlay.CheckSet([item]).Ok?
  {
    var item := AsItem(DynamicOffKind, JNull);
    L.KindsDiffer();
    assert item.parameters.Keys == {"dynamicFee"};
  }

  lemma OneDynamic(item: Item, rules0: nat, root0: nat, base: nat)
    requires L.ItemAdmitted(item) && item.kind != Hookr1.LP_REWARDS && GetField(root0, 248, 8) == 3
    ensures L.SetPasses([item], rules0, root0, base) <==> GetField(rules0, 40, 24) > base && GetField(rules0, 128, 16) > 0
    ensures L.SetWrites([item], rules0, root0, base) ==
            [Overlay.OverlayWrite(Overlay.RULES, rules0, L.DynamicRules(rules0, base)),
             Overlay.OverlayWrite(Overlay.ROOT, root0, PutField(root0, 248, 1, 0))]
  {
  }

  lemma DynamicOverlay(rules0: nat, root0: nat, base: nat)
    requires IsWord(rules0) && IsWord(root0) && base < Pow2(24) && GetField(root0, 248, 8) == 3
    ensures
      var o := Overlay.ComposeOverlay([AsItem(DynamicOffKind, JNull)], rules0, root0, base);
      && (o.Ok? <==> GetField(rules0, 40, 24) > base && GetField(rules0, 128, 16) > 0)
      && (o.Ok? ==> o.value.writes == [Overlay.OverlayWrite(Overlay.RULES, rules0, L.DynamicRules(rules0, base)),
                                       Overlay.OverlayWrite(Overlay.ROOT, root0, PutField(root0, 248, 1, 0))])
  {
    var item := AsItem(DynamicOffKind, JNull);
    DynamicItemAdmitted();
    OneDynamic(item, rules0, root0, base);
    L.OverlayClosedForm([item], rules0, root0, base);
  }

  lemma UnboundRefused(p: Profile, x: Projection, kind: SingleKind, lp: Json)
    requires !Bound(p, x)
    ensures Writes(p, x, kind, lp).Err?
  {
  }

  lemma BoundDynamic(p: Profile, x: Projection)
    requires Bound(p, x)
    ensures Writes(p, x, DynamicOffKind, JNull) ==
            if GetField(RulesWord(p, x), 40, 24) > p.base && GetField(RulesWord(p, x), 128, 16) > 0
            then Ok(DynamicOffWrites(p, RulesWord(p, x), RootWord(p, x))) else Err(NotActive)
  {
  }

  // LP: on every bound projection whose original rate is 100 the two implementations accept the same rates and
  // produce the same word; the single-kind one asks mode 3 besides, even though it leaves the mode alone.
  lemma LpSameAsOverlay(p: Profile, x: Projection, lp: Json)
    requires p.Valid() && GetField(p.baseline[0], 160, 16) == 100
    ensures
      var s := Writes(p, x, LpRewardsKind, lp);
      var o := Overlay.ComposeOverlay([AsItem(LpRewardsKind, lp)], RulesWord(p, x), RootWord(p, x), p.base);
      && (s.Ok? <==> Bound(p, x) && o.Ok?)
      && (s.Ok? ==> s.value == MaskedAll(p, o.value.writes, LpRewardsKind))
  {
    if !Bound(p, x) {
      UnboundRefused(p, x, LpRewardsKind, lp);
    } else {
      BoundWords(p, x);
      LpOverlay(lp, RulesWord(p, x), RootWord(p, x), p.base);
      if lp.JInt? && 0 <= lp.n <= 99 {
        LpMaskedWord(RulesWord(p, x), lp.n);
      }
    }
  }

  // The same projection with its Root record in another mode.
  function InMode(p: Profile, x: Projection, mode: nat): Projection
    requires p.rootRecordSlot in x.root.storage
  {
    x.(root := x.root.(storage := x.root.storage[p.rootRecordSlot := PutField(x.root.storage[p.rootRecordSlot], 248, 8, mode)]))
  }

  // That mode 3 is the difference: in any other mode the single-kind LP write is refused and the overlay accepts.
  lemma OverlayTakesOtherModes(p: Profile, x: Projection, lp: nat, mode: nat)
    requires p.Valid() && GetField(p.baseline[0], 160, 16) == 100 && Bound(p, x) && lp <= 99 && mode < Pow2(8) && mode != 3
    ensures
      var y := InMode(p, x, mode);
      && Writes(p, y, LpRewardsKind, JInt(lp)).Err?
      && Overlay.ComposeOverlay([AsItem(LpRewardsKind, JInt(lp))], RulesWord(p, y), RootWord(p, y), p.base).Ok?
  {
    var y, root := InMode(p, x, mode), RootWord(p, x);
    BoundWords(p, x);
    ModeIsWord(root, mode);
    GetAfterPut(root, 248, 8, mode);
    ShiftReadsMode(RootWord(p, y));
    LpOverlay(JInt(lp), RulesWord(p, y), RootWord(p, y), p.base);
  }

  lemma ModeIsWord(root: nat, mode: nat)
    requires IsWord(root) && mode < Pow2(8)
    ensures IsWord(PutField(root, 248, 8, mode))
  {
    forall i: nat | WORD_BITS <= i
      ensures !Bit(PutField(root, 248, 8, mode), i)
    {
      PutFieldBit(root, 248, 8, mode, i);
      BelowHasNoHighBits(root, WORD_BITS, i);
    }
    NoHighBitsIsBelow(PutField(root, 248, 8, mode), WORD_BITS);
  }

  lemma DynamicWritesAgree(p: Profile, rules0: nat, root0: nat)
    requires p.Valid()
    ensures DynamicOffWrites(p, rules0, root0) ==
            MaskedAll(p, [Overlay.OverlayWrite(Overlay.RULES, rules0, L.DynamicRules(rules0, p.base)),
                          Overlay.OverlayWrite(Overlay.ROOT, root0, PutField(root0, 248, 1, 0))], DynamicOffKind)
  {
    L.TargetsDiffer();
    DynamicMaskedWord(rules0, p.base);
    ModeMaskedWord(root0);
  }

  // Dynamic fee off: the same projections are accepted, with the same two words in the same order.
  lemma DynamicSameAsOverlay(p: Profile, x: Projection)
    requires p.Valid()
    ensures
      var s := Writes(p, x, DynamicOffKind, JNull);
      var o := Overlay.ComposeOverlay([AsItem(DynamicOffKind, JNull)], RulesWord(p, x), RootWord(p, x), p.base);
      && (s.Ok? <==> Bound(p, x) && o.Ok?)
      && (s.Ok? ==> s.value == MaskedAll(p, o.value.writes, DynamicOffKind))
  {
    if Bound(p, x) {
      BoundWords(p, x);
      BoundDynamic(p, x);
      DynamicOverlay(RulesWord(p, x), RootWord(p, x), p.base);
      DynamicWritesAgree(p, RulesWord(p, x), RootWord(p, x));
    } else {
      UnboundRefused(p, x, DynamicOffKind, JNull);
    }
  }
}
