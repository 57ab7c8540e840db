// The identities of sessions and variants.
module SessionIdentity {
  import opened Wrappers
  import opened Orders
  import opened JsonValues
  import opened Composition
  import Hookr1
  import L = LegacyRefinement

  type Raw = seq<nat>
  type Hash = nat

  const MAX_VARIANTS: nat := 8
  const BASELINE_LP: int := 100
  const OVERLAY_BACKEND := "nitro-hookr-config-overlay/0.1"
  const DYNAMIC_BACKEND := "nitro-hookr-dynamic-fee-off/0.1"

  // ----- variants ---------------------------------------------------------------------------------------------

  datatype Variant =
    | LpVariant(poolId: nat, original: int, replacement: int)
    | DynamicVariant(poolId: nat, backend: string)
    | OverlayVariant(poolId: nat, originalLp: int, lp: int, fee: string, items: seq<Item>, backend: string)

  datatype VariantCode =
    | UnsupportedVariant
    | UnsupportedBackend
    | LpRequired
    | DynamicFeeOnIsBaseline
    | DynamicFeeOffOnly

  type Settings = map<string, Json>

  const LP_KEY := "lpBps"
  const FEE_KEY := "dynamicFee"
  const BACKEND_KEY := "backend"

  predicate LpAllowed(v: Json) {
    v.JInt? && 0 <= v.n <= 99
  }

  function FeeCheck(v: Json): Option<VariantCode> {
    if v == JStr("ON") then Some(DynamicFeeOnIsBaseline) else if v != JStr("OFF") then Some(DynamicFeeOffOnly) else None
  }

  function LpItem(v: Json): Item {
    Item(Hookr1.LP_REWARDS, map[LP_KEY := v])
  }

  function FeeItem(v: Json): Item {
    Item(Hookr1.DYNAMIC_FEE, map[FEE_KEY := v])
  }

  // The settings as a canonical typed set.
  function OverlayItems(p: Settings): Result<seq<Item>, VariantCode> {
    if LP_KEY in p && !LpAllowed(p[LP_KEY]) then Err(LpRequired)
    else if FEE_KEY in p && FeeCheck(p[FEE_KEY]).Some? then Err(FeeCheck(p[FEE_KEY]).value)
    else
      var items := (if LP_KEY in p then [LpItem(p[LP_KEY])] else []) + (if FEE_KEY in p then [FeeItem(p[FEE_KEY])] else []);
      if items == [] then Err(UnsupportedVariant) else Ok(Sort(ByKind, items))
  }

  // The first LP rate and the first fee setting among the items.
  function LpOf(items: seq<Item>): int {
    if items == [] then BASELINE_LP
    else if LP_KEY in items[0].parameters && items[0].parameters[LP_KEY].JInt? then items[0].parameters[LP_KEY].n
    else LpOf(items[1..])
  }

  function FeeOf(items: seq<Item>): string {
    if items == [] then "ON"
    else if FEE_KEY in items[0].parameters && items[0].parameters[FEE_KEY].JStr? then items[0].parameters[FEE_KEY].s
    else FeeOf(items[1..])
  }

  function VariantOf(p: Settings, poolId: nat, baselineLp: int): Result<Variant, VariantCode> {
    if !(p.Keys <= {LP_KEY, FEE_KEY, BACKEND_KEY}) then Err(UnsupportedVariant)
    else if BACKEND_KEY in p && p[BACKEND_KEY] != JStr(OVERLAY_BACKEND) then Err(UnsupportedBackend)
    else if BACKEND_KEY in p || (LP_KEY in p && FEE_KEY in p) then
      var items :- OverlayItems(p);
      Ok(OverlayVariant(poolId, baselineLp, LpOf(items), FeeOf(items), items, OVERLAY_BACKEND))
    else if FEE_KEY in p then
      if FeeCheck(p[FEE_KEY]).Some? then Err(FeeCheck(p[FEE_KEY]).value) else Ok(DynamicVariant(poolId, DYNAMIC_BACKEND))
    else if LP_KEY in p then
      if LpAllowed(p[LP_KEY]) then Ok(LpVariant(poolId, baselineLp, p[LP_KEY].n)) else Err(LpRequired)
    else Err(UnsupportedVariant)
  }

  // Settings that give the variant back. One entry per item, and the backend when there is only one.
  function ItemSettings(items: seq<Item>): Settings {
    if items == [] then map[]
    else
      var i := items[0].parameters;
      var rest := ItemSettings(items[1..]);
      if LP_KEY in i then map[LP_KEY := i[LP_KEY]] + rest
      else if FEE_KEY in i then map[FEE_KEY := i[FEE_KEY]] + rest
      else rest
  }

  function SettingsOf(v: Variant): Settings {
    match v
    case LpVariant(_, _, lp) => map[LP_KEY := JInt(lp)]
    case DynamicVariant(_, _) => map[FEE_KEY := JStr("OFF")]
    case OverlayVariant(_, _, _, _, items, backend) =>
      var s := ItemSettings(items);
      if |s| == 1 then s[BACKEND_KEY := JStr(backend)] else s
  }

  datatype SortKey = SortKey(rank: nat, lp: int, fee: string)

  function SortKeyOf(v: Variant): SortKey {
    match v
    case LpVariant(_, _, lp) => SortKey(0, lp, "")
    case DynamicVariant(_, _) => SortKey(1, 0, "")
    case OverlayVariant(_, _, lp, fee, _, _) => SortKey(2, lp, fee)
  }

  // ----- normal form ------------------------------------------------------------------------------------------

  lemma KeysDiffer()
    ensures LP_KEY != FEE_KEY && LP_KEY != BACKEND_KEY && FEE_KEY != BACKEND_KEY
  {
    assert |LP_KEY| == 5 && |FEE_KEY| == 10 && |BACKEND_KEY| == 7;
  }

  // The items of a set in kind order: the fee, then the rate.
  lemma ItemsInOrder(p: Settings)
    requires OverlayItems(p).Ok?
    ensures OverlayItems(p).value ==
            (if FEE_KEY in p then [FeeItem(p[FEE_KEY])] else []) + (if LP_KEY in p then [LpItem(p[LP_KEY])] else [])
  {
    L.KindsDiffer();
    StringLeTotal(Hookr1.DYNAMIC_FEE, Hookr1.LP_REWARDS);
    if LP_KEY in p && FEE_KEY in p {
      SortTwo(LpItem(p[LP_KEY]), FeeItem(p[FEE_KEY]));
    } else if LP_KEY in p {
      SortOne(LpItem(p[LP_KEY]));
    } else {
      SortOne(FeeItem(p[FEE_KEY]));
    }
  }

  lemma SortOne(x: Item)
    ensures Sort(ByKind, [x]) == [x] && [] + [x] == [x] && [x] + [] == [x]
  {
    assert [x][1..] == [];
    assert Sort(ByKind, [x][1..]) == [];
  }

  lemma SortTwo(x: Item, y: Item)
    requires !ByKind(x, y)
    ensures Sort(ByKind, [x] + [y]) == [y] + [x]
  {
    SortOne(y);
    var s := [x] + [y];
    assert s[0] == x && s[1..] == [y];
    assert Sort(ByKind, s) == Insert(ByKind, x, [y]);
    assert [y][1..] == [];
    assert Insert(ByKind, x, [y][1..]) == [x];
  }

  predicate Requested(p: Settings) {
    && (LP_KEY in p ==> LpAllowed(p[LP_KEY])) && (FEE_KEY in p ==> p[FEE_KEY] == JStr("OFF"))
  }

  // What an overlay variant says about the settings it came from.
  lemma OverlayReads(p: Settings)
    requires OverlayItems(p).Ok?
    ensures
      var items := OverlayItems(p).value;
      && Requested(p)
      && LpOf(items) == (if LP_KEY in p then p[LP_KEY].n else BASELINE_LP)
      && FeeOf(items) == (if FEE_KEY in p then "OFF" else "ON")
      && ItemSettings(items) == (if LP_KEY in p then map[LP_KEY := p[LP_KEY]] else map[]) + (if FEE_KEY in p then map[FEE_KEY := p[FEE_KEY]] else map[])
  {
    ItemsInOrder(p);
    KeysDiffer();
    var items := OverlayItems(p).value;
    if LP_KEY in p && FEE_KEY in p {
      TwoItems(p[LP_KEY], p[FEE_KEY], items);
    } else if LP_KEY in p {
      OneLp(p[LP_KEY], items);
    } else {
      OneFee(p[FEE_KEY], items);
    }
  }

  lemma OneLp(lp: Json, items: seq<Item>)
    requires LpAllowed(lp) && items == [LpItem(lp)]
    ensures LpOf(items) == lp.n && FeeOf(items) == "ON" && ItemSettings(items) == map[LP_KEY := lp]
  {
    KeysDiffer();
    assert items[1..] == [];
    assert FeeOf(items[1..]) == "ON" && ItemSettings(items[1..]) == map[];
  }

  lemma OneFee(fee: Json, items: seq<Item>)
    requires fee == JStr("OFF") && items == [FeeItem(fee)]
    ensures LpOf(items) == BASELINE_LP && FeeOf(items) == "OFF" && ItemSettings(items) == map[FEE_KEY := fee]
  {
    KeysDiffer();
    assert items[1..] == [];
    assert LpOf(items[1..]) == BASELINE_LP && ItemSettings(items[1..]) == map[];
  }

  lemma TwoItems(lp: Json, fee: Json, items: seq<Item>)
    requires LpAllowed(lp) && fee == JStr("OFF") && items == [FeeItem(fee)] + [LpItem(lp)]
    ensures LpOf(items) == lp.n && FeeOf(items) == "OFF" && ItemSettings(items) == map[LP_KEY := lp] + map[FEE_KEY := fee]
  {
    KeysDiffer();
    assert items[1..] == [LpItem(lp)];
    OneLp(lp, items[1..]);
    assert ItemSettings(items) == map[FEE_KEY := fee] + map[LP_KEY := lp];
  }

  // Items depend only on the two settings.
  lemma ItemsDependOn(p: Settings, q: Settings)
    requires LP_KEY in p <==> LP_KEY in q
    requires FEE_KEY in p <==> FEE_KEY in q
    requires LP_KEY in p ==> p[LP_KEY] == q[LP_KEY]
    requires FEE_KEY in p ==> p[FEE_KEY] == q[FEE_KEY]
    ensures OverlayItems(p) == OverlayItems(q)
  {
  }

  // The settings of an overlay variant are those it came from, with the backend named when there is only one.
  lemma SettingsRead(p: Settings, v: Variant)
    requires OverlayItems(p).Ok? && v.OverlayVariant? && v.items == OverlayItems(p).value && v.backend == OVERLAY_BACKEND
    ensures
      var q := SettingsOf(v);
      && q.Keys <= {LP_KEY, FEE_KEY, BACKEND_KEY}
      && (LP_KEY in q <==> LP_KEY in p) && (LP_KEY in q ==> q[LP_KEY] == p[LP_KEY])
      && (FEE_KEY in q <==> FEE_KEY in p) && (FEE_KEY in q ==> q[FEE_KEY] == p[FEE_KEY])
      && (BACKEND_KEY in q <==> (LP_KEY in p) != (FEE_KEY in p)) && (BACKEND_KEY in q ==> q[BACKEND_KEY] == JStr(OVERLAY_BACKEND))
  {
    KeysDiffer();
    OverlayReads(p);
    SizeOfSettings(p, ItemSettings(v.items));
  }

  lemma OverlayNormal(p: Settings, poolId: nat, baselineLp: int)
    requires VariantOf(p, poolId, baselineLp).Ok? && VariantOf(p, poolId, baselineLp).value.OverlayVariant?
    ensures VariantOf(SettingsOf(VariantOf(p, poolId, baselineLp).value), poolId, baselineLp) == VariantOf(p, poolId, baselineLp)
  {
    var v := VariantOf(p, poolId, baselineLp).value;
    SettingsRead(p, v);
    SomeSetting(p);
    ItemsDependOn(SettingsOf(v), p);
  }

  lemma SomeSetting(p: Settings)
    requires OverlayItems(p).Ok?
    ensures LP_KEY in p || FEE_KEY in p
  {
  }

  lemma SizeOfSettings(p: Settings, s: Settings)
    requires s == (if LP_KEY in p then map[LP_KEY := p[LP_KEY]] else map[]) + (if FEE_KEY in p then map[FEE_KEY := p[FEE_KEY]] else map[])
    ensures |s| == 1 <==> (LP_KEY in p) != (FEE_KEY in p)
    ensures s.Keys <= {LP_KEY, FEE_KEY}
    ensures LP_KEY in s <==> LP_KEY in p
    ensures FEE_KEY in s <==> FEE_KEY in p
    ensures LP_KEY in s ==> s[LP_KEY] == p[LP_KEY]
    ensures FEE_KEY in s ==> s[FEE_KEY] == p[FEE_KEY]
  {
    KeysDiffer();
    if LP_KEY in p && FEE_KEY in p {
      assert s.Keys == {LP_KEY, FEE_KEY};
      assert |s.Keys| == 2;
    } else if LP_KEY in p {
      assert s.Keys == {LP_KEY};
    } else if FEE_KEY in p {
      assert s.Keys == {FEE_KEY};
    } else {
      assert s.Keys == {};
    }
    assert |s| == |s.Keys|;
  }

  // The shape of a variant: what it asks for, and which worker it is for.
  predicate AsksFor(v: Variant, p: Settings, poolId: nat, baselineLp: int)
    requires Requested(p)
  {
    var both := LP_KEY in p && FEE_KEY in p;
    match v
    case LpVariant(pool, original, lp) =>
      !both && BACKEND_KEY !in p && LP_KEY in p && pool == poolId && original == baselineLp && JInt(lp) == p[LP_KEY]
    case DynamicVariant(pool, backend) => !both && BACKEND_KEY !in p && FEE_KEY in p && pool == poolId && backend == DYNAMIC_BACKEND
    case OverlayVariant(pool, original, lp, fee, items, backend) =>
      && (both || BACKEND_KEY in p) && pool == poolId && original == baselineLp && backend == OVERLAY_BACKEND
      && lp == (if LP_KEY in p then p[LP_KEY].n else BASELINE_LP) && fee == (if FEE_KEY in p then "OFF" else "ON")
      && items == (if FEE_KEY in p then [FeeItem(p[FEE_KEY])] else []) + (if LP_KEY in p then [LpItem(p[LP_KEY])] else [])
  }

  // Settings give a variant exactly when they name nothing else, ask for a rate up to 99 or for the fee to be off, and name
  // no other backend; the variant asks for just that, its items in kind order.
  lemma DerivedExactly(p: Settings, poolId: nat, baselineLp: int)
    ensures VariantOf(p, poolId, baselineLp).Ok? <==>
            && p.Keys <= {LP_KEY, FEE_KEY, BACKEND_KEY} && (BACKEND_KEY in p ==> p[BACKEND_KEY] == JStr(OVERLAY_BACKEND))
            && Requested(p) && (LP_KEY in p || FEE_KEY in p)
    ensures VariantOf(p, poolId, baselineLp).Ok? ==> Requested(p) && AsksFor(VariantOf(p, poolId, baselineLp).value, p, poolId, baselineLp)
  {
    if OverlayItems(p).Ok? {
      ItemsInOrder(p);
      OverlayReads(p);
      SomeSetting(p);
    }
  }

  // A descriptor is a normal form: the settings read off it derive it again.
  lemma VariantIsNormalForm(p: Settings, poolId: nat, baselineLp: int)
    requires VariantOf(p, poolId, baselineLp).Ok?
    ensures VariantOf(SettingsOf(VariantOf(p, poolId, baselineLp).value), poolId, baselineLp) == VariantOf(p, poolId, baselineLp)
  {
    KeysDiffer();
    if VariantOf(p, poolId, baselineLp).value.OverlayVariant? {
      OverlayNormal(p, poolId, baselineLp);
    }
  }

  // Under one header the sort key tells variants apart.
  lemma SortKeyInjective(p: Settings, q: Settings, poolId: nat, baselineLp: int)
    requires VariantOf(p, poolId, baselineLp).Ok? && VariantOf(q, poolId, baselineLp).Ok?
    ensures SortKeyOf(VariantOf(p, poolId, baselineLp).value) == SortKeyOf(VariantOf(q, poolId, baselineLp).value) <==>
            VariantOf(p, poolId, baselineLp) == VariantOf(q, poolId, baselineLp)
  {
    var v, u := VariantOf(p, poolId, baselineLp).value, VariantOf(q, poolId, baselineLp).value;
    if v.OverlayVariant? && u.OverlayVariant? && SortKeyOf(v) == SortKeyOf(u) {
      OverlayReads(p);
      OverlayReads(q);
      assert "ON" != "OFF";
      assert LP_KEY in p <==> LP_KEY in q;
      assert FEE_KEY in p <==> FEE_KEY in q;
      ItemsDependOn(p, q);
    }
  }

  // ----- headers and records ----------------------------------------------------------------------------------

  datatype Checkpoint = Checkpoint(chainId: nat, blockNumber: nat, blockHash: Hash, stateRoot: Hash)

  // What the adapter reads from a source; `trust` is the adapter's statement about it, `rest` its other shared fields.
  datatype SourceInfo = SourceInfo(checkpoint: Checkpoint, trust: nat, scenario: Hash, poolId: nat, rest: nat, baselineWords: seq<nat>)

  // What the session id commits to: everything but the trust statement and the limits.
  datatype Identity = Identity(checkpoint: Checkpoint, sha: Hash, bytes: nat, scenario: Hash, poolId: nat, rest: nat, baselineWords: seq<nat>)

  datatype Header = Header(sessionId: Hash, identity: Identity, trust: nat, maxVariants: nat)

  datatype Record = Record(sessionId: Hash, variantId: Hash, variant: Variant, bindings: Identity)

  // Hashes are parameters, taken to be injective.
  datatype Adapter = Adapter(
    load: Raw -> Option<SourceInfo>,
    digest: Raw -> Hash,
    sessionCommit: Identity -> Hash,
    variantCommit: (Hash, Variant) -> Hash)
  {
    ghost predicate Injective() {
      && (forall x, y :: digest(x) == digest(y) ==> x == y)
      && (forall x, y :: sessionCommit(x) == sessionCommit(y) ==> x == y)
      && (forall s, v, t, u :: variantCommit(s, v) == variantCommit(t, u) ==> s == t && v == u)
    }
  }

  // A source is read against its pin.
  function LoadSource(a: Adapter, raw: Raw, pin: Hash): Option<SourceInfo> {
    if a.digest(raw) == pin then a.load(raw) else None
  }

  function HeaderOf(a: Adapter, raw: Raw, info: SourceInfo): Header {
    var identity := Identity(info.checkpoint, a.digest(raw), |raw|, info.scenario, info.poolId, info.rest, info.baselineWords);
    Header(a.sessionCommit(identity), identity, info.trust, MAX_VARIANTS)
  }

  function RecordOf(a: Adapter, h: Header, v: Variant): Record {
    Record(h.sessionId, a.variantCommit(h.sessionId, v), v, h.identity)
  }

  function VariantUnder(h: Header, p: Settings): Result<Variant, VariantCode> {
    VariantOf(p, h.identity.poolId, BASELINE_LP)
  }

  predicate IsHeaderOf(a: Adapter, h: Header, raw: Raw) {
    a.load(raw).Some? && h == HeaderOf(a, raw, a.load(raw).value)
  }

  // A record that re-derives itself: from this header, by a descriptor in normal form.
  predicate IsRecordOf(a: Adapter, h: Header, r: Record) {
    VariantUnder(h, SettingsOf(r.variant)) == Ok(r.variant) && r == RecordOf(a, h, r.variant)
  }

  // One session id belongs to one source and one header, whatever is not part of the id.
  lemma SameIdSameHeader(a: Adapter, h: Header, raw: Raw, g: Header, raw': Raw)
    requires a.Injective() && IsHeaderOf(a, h, raw) && IsHeaderOf(a, g, raw') && h.sessionId == g.sessionId
    ensures raw == raw' && h == g
  {
    assert a.sessionCommit(h.identity) == a.sessionCommit(g.identity);
    assert a.digest(raw) == a.digest(raw');
  }

  lemma RegisteredRecord(a: Adapter, h: Header, p: Settings)
    requires VariantUnder(h, p).Ok?
    ensures IsRecordOf(a, h, RecordOf(a, h, VariantUnder(h, p).value))
  {
    VariantIsNormalForm(p, h.identity.poolId, BASELINE_LP);
  }

  // A variant id determines the record within a session.
  lemma SameVariantSameRecord(a: Adapter, h: Header, r: Record, q: Record)
    requires a.Injective() && IsRecordOf(a, h, r) && IsRecordOf(a, h, q) && r.variantId == q.variantId
    ensures r == q
  {
    assert a.variantCommit(h.sessionId, r.variant) == a.variantCommit(h.sessionId, q.variant);
  }
}
