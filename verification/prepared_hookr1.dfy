// Prepared inputs that exist: every hookr-1 profile whose LP rate is 100 builds inputs that rebuild to themselves, and
// their respellings are accepted. Listing two of its originals the wrong way round, it builds nothing.
module PreparedHookr1 {
  import opened Wrappers
  import opened Bits
  import opened Orders
  import opened JsonValues
  import opened Descriptors
  import opened Composition
  import opened CompositionMeaning
  import opened Originals
  import opened Hookr1
  import opened Hookr1Valid
  import opened SpelledValues
  import opened PreparedInputs
  import opened PreparedSpellings
  import L = LegacyRefinement
  import E = LegacyEquivalence
  import Overlay

  predicate HookrWords(w: seq<nat>) {
    SixWords(w) && GetField(w[0], 160, 16) == 100
  }

  function LpItem(lp: nat): Item {
    Item(LP_REWARDS, map["lpBps" := JInt(lp)])
  }

  // ----- building -------------------------------------------------------------------------------------------

  lemma HookrIndexOrdered(dep: Deployment, w: seq<nat>)
    requires dep.Valid() && SixWords(w)
    ensures IndexOrdered(Hookr(dep, w))
  {
    var d := Hookr(dep, w);
    HookrIsValid(dep, w);
    ListedConfiguration(w);
    OriginalConfiguration(dep, w);
  }

  lemma ListedConfiguration(w: seq<nat>)
    requires |w| == 6
    ensures ListedWords(Pins(w), RULES_CONFIG) == w[..4]
  {
    TargetNamesDiffer();
    var pins := Pins(w);
    assert ListedWords(pins[4..], RULES_CONFIG) == [] by {
      assert pins[4..][1..] == pins[5..] && pins[5..][1..] == [];
      assert ListedWords(pins[5..], RULES_CONFIG) == [];
    }
    assert pins[3..][1..] == pins[4..] && ListedWords(pins[3..], RULES_CONFIG) == [w[3]];
    assert pins[2..][1..] == pins[3..] && ListedWords(pins[2..], RULES_CONFIG) == [w[2], w[3]];
    assert pins[1..][1..] == pins[2..] && ListedWords(pins[1..], RULES_CONFIG) == [w[1], w[2], w[3]];
    assert ListedWords(pins, RULES_CONFIG) == [w[0], w[1], w[2], w[3]];
  }

  lemma OriginalConfiguration(dep: Deployment, w: seq<nat>)
    requires dep.Valid() && SixWords(w)
    ensures RowOf(OriginalsOf(Hookr(dep, w)), RULES_CONFIG) == w[..4]
  {
    var d := Hookr(dep, w);
    TargetsAreValid(dep, w);
    OriginalsAreValid(dep, w);
    OriginalsAreSupplied(d);
    assert d.targets[0].name == RULES_CONFIG;
    forall i | 0 <= i < 4
      ensures WordAt(OriginalsOf(d), RULES_CONFIG, i) == w[i]
    {
      PinMatches(d, i);
    }
    var row := RowOf(OriginalsOf(d), RULES_CONFIG);
    assert |row| == 4;
    assert forall i :: 0 <= i < 4 ==> row[i] == WordAt(OriginalsOf(d), RULES_CONFIG, i);
  }

  // Every admitted rate composes on originals with rate 100, and writes word 0 of the configuration.
  lemma LpComposes(dep: Deployment, w: seq<nat>, lp: nat)
    requires dep.Valid() && HookrWords(w) && lp <= 99
    ensures
      var c := Compose(Hookr(dep, w), [LpItem(lp)], OriginalsOf(Hookr(dep, w)));
      c.Ok? && |c.value.writes| == 1 && c.value.writes[0].word == 0
  {
    var items := [LpItem(lp)];
    L.KindsDiffer();
    GetFieldFits(w[4], 160, 24);
    assert !RepeatsKind(items);
    assert Overlay.CheckSet(items) == Ok(());
    assert L.ItemAdmitted(items[0]);
    L.OverlayClosedForm(items, w[0], w[4], E.BaseFee(w));
    E.SameAsOverlay(dep, w, items);
    assert !L.HasDynamic(items);
  }

  lemma CanonicalOfOne(d: Descriptor, x: Item)
    requires CanonicalInterventions(d, [x]).Ok?
    ensures CanonicalInterventions(d, [x]) == Ok([x]) && CanonicalJson(d, EncodeItems([x])) == Ok([x])
  {
    CanonicalSet(d, [x]);
    CanonicalIsTyped(d, [x]);
    assert Sort(ByKind, [x][1..]) == [];
    assert CanonicalInterventions(d, [x]) == Ok([x]);
    assert x in [x];
    DecodeOfEncoded(d, [x]);
  }

  // For every bound source and every admitted rate there is a prepared input.
  lemma LpInputsBuild(commit: Commit, p: Profile, dep: Deployment, w: seq<nat>, source: Members, engine: Value, lp: nat)
    requires dep.Valid() && HookrWords(w) && p.d == Hookr(dep, w) && SourceBound(p, source) && EngineOk(engine) && lp <= 99
    ensures CanonicalInterventions(p.d, [LpItem(lp)]) == Ok([LpItem(lp)])
    ensures BuildSpec(commit, p, source, EncodeItems([LpItem(lp)]), engine).Ok?
  {
    var items := [LpItem(lp)];
    LpComposes(dep, w, lp);
    HookrIndexOrdered(dep, w);
    CanonicalOfOne(p.d, LpItem(lp));
    BuildsExactly(commit, p, source, EncodeItems(items), engine);
  }

  // ----- respellings ----------------------------------------------------------------------------------------

  // The least a source has to say.
  function SmallSource(p: Profile, stateRoot: string): Members {
    map["poolId" := VStr(p.poolId), "releaseManifestSha256" := VStr(p.manifestCommitment),
        "checkpoint" := VObj(map["chainId" := VInt(p.chainId), "stateRoot" := VStr(stateRoot)])]
  }

  function ThreeKeys(a: string, b: string, c: string): Value {
    VObj(map["binarySha256" := VStr(a), "policySha256" := VStr(b), "sourceSha256" := VStr(c)])
  }

  lemma SmallSourceBound(p: Profile, stateRoot: string)
    ensures SourceBound(p, SmallSource(p, stateRoot)) && EngineOk(ThreeKeys("", "", ""))
  {
  }

  // What a built input's overlay says about its one write and about the revision.
  lemma BuiltOverlay(commit: Commit, p: Profile, source: Members, engine: Value, canon: seq<Item>, c: Composed)
    requires "checkpoint" in source && "poolId" in source && CheckpointMember(source, "stateRoot").Some?
    requires |c.writes| == 1 && c.writes[0].word == 0
    ensures OneWrite(Assemble(commit, p, source, engine, canon, c), VInt(0), VInt(p.revision))
  {
    var body := AssembledBody(commit, p, source, engine, canon, c);
    TransformMembers(commit, p, CheckpointMember(source, "stateRoot").value, canon, c.writes);
    var t := Transform(commit, p, CheckpointMember(source, "stateRoot").value, canon, c.writes);
    TransformWrites(commit, p, CheckpointMember(source, "stateRoot").value, canon, c.writes);
    assert WritesJson(c.writes).items[0] == WriteJson(c.writes[0]);
    assert Member(Assemble(commit, p, source, engine, canon, c), "profileOverlay") == Some(t);
  }

  // The overlay of an input has one write, with this word index, and names this revision.
  predicate OneWrite(spec: Members, index: Value, revision: Value) {
    && "profileOverlay" in spec && spec["profileOverlay"].VObj?
    && var overlay := spec["profileOverlay"].members;
       && "writes" in overlay && overlay["writes"].VArr? && |overlay["writes"].items| == 1 && overlay["writes"].items[0].VObj?
       && "word" in overlay["writes"].items[0].members && overlay["writes"].items[0].members["word"] == index
       && "descriptor" in overlay && overlay["descriptor"].VObj?
       && "revision" in overlay["descriptor"].members && overlay["descriptor"].members["revision"] == revision
  }

  // Every such profile has a prepared input.
  lemma PreparedInputExists(commit: Commit, p: Profile, dep: Deployment, w: seq<nat>) returns (spec: Members)
    requires dep.Valid() && HookrWords(w) && p.d == Hookr(dep, w)
    ensures Rebuild(commit, p, spec) == Ok(spec) && OneWrite(spec, VInt(0), VInt(p.revision))
  {
    var source, engine, items := SmallSource(p, "0x00"), ThreeKeys("", "", ""), [LpItem(0)];
    SmallSourceBound(p, "0x00");
    LpInputsBuild(commit, p, dep, w, source, engine, 0);
    spec := BuildSpec(commit, p, source, EncodeItems(items), engine).value;
    BuildIsIdempotent(commit, p, source, EncodeItems(items), engine);
    var canon, c := BuiltParts(commit, p, source, EncodeItems(items), engine);
    CanonicalOfOne(p.d, LpItem(0));
    LpComposes(dep, w, 0);
    BuiltOverlay(commit, p, source, engine, canon, c);
  }

  // Its word index respelled as False or 0.0, or its revision as a float, it is still accepted and no fixpoint.
  lemma RespelledInputs(commit: Commit, p: Profile, spec: Members, text: string)
    requires Rebuild(commit, p, spec) == Ok(spec) && OneWrite(spec, VInt(0), VInt(p.revision))
    ensures
      var overlay := spec["profileOverlay"].members;
      && Loose(commit, p, Respelled(commit, spec, WithWordIndex(overlay, 0, VBool(false))))
      && Loose(commit, p, Respelled(commit, spec, WithWordIndex(overlay, 0, VFloat("0.0", 0.0))))
      && Loose(commit, p, Respelled(commit, spec, WithRevision(overlay, VFloat(text, p.revision as real))))
  {
    var overlay := spec["profileOverlay"].members;
    WordIndexRespelled(commit, p, spec, 0, VBool(false));
    WordIndexRespelled(commit, p, spec, 0, VFloat("0.0", 0.0));
    RevisionRespelled(commit, p, spec, VFloat(text, p.revision as real));
  }

  // Accepted, but not what building it returns.
  ghost predicate Loose(commit: Commit, p: Profile, spec: Members) {
    ValidateSpec(commit, p, spec).Ok? && Rebuild(commit, p, spec) != Ok(spec)
  }

  const DEPLOYMENT: Deployment := Deployment(1, 2, 3, 4, 5, 1, 1, 1, 1, 0, 0)

  // A word with rate 100 and nothing else.
  lemma HundredWord() returns (v: nat)
    ensures IsWord(v) && GetField(v, 160, 16) == 100 && v != 1
  {
    var offset: nat, width: nat := 160, 16;
    v := PutField(0, offset, width, 100);
    assert 100 < Pow2(width) by {
      assert Pow2(7) == 128;
      PowerGrows(7, width);
    }
    GetAfterPut(0, offset, width, 100);
    forall i: nat | WORD_BITS <= i
      ensures !Bit(v, i)
    {
      PutFieldBit(0, offset, width, 100, i);
      ZeroBit(i);
    }
    NoHighBitsIsBelow(v, WORD_BITS);
    PutFieldBit(0, offset, width, 100, 0);
    ZeroBit(0);
  }

  // Small numbers are words.
  lemma EightFits(bits: nat)
    requires 3 <= bits
    ensures 8 <= Pow2(bits)
  {
    assert Pow2(3) == 8;
    PowerGrows(3, bits);
  }

  // The hypotheses above are met.
  lemma Concrete() returns (w: seq<nat>)
    ensures DEPLOYMENT.Valid() && HookrWords(w) && w[0] != w[1]
  {
    var v := HundredWord();
    EightFits(WORD_BITS);
    w := [v, 1, 0, 0, 0, 0];
  }

  function HookrProfile(d: Descriptor): Profile {
    Profile(d, "hookr-1", 2, "00", "0x01", 4663, "00")
  }

  // Whatever the commitment, there are a prepared input and two respellings of it that are accepted and no fixpoints.
  lemma SomeInputIsLoose(commit: Commit) returns (p: Profile, spec: Members)
    ensures Rebuild(commit, p, spec) == Ok(spec) && OneWrite(spec, VInt(0), VInt(p.revision))
    ensures
      var overlay := spec["profileOverlay"].members;
      && Loose(commit, p, Respelled(commit, spec, WithWordIndex(overlay, 0, VBool(false))))
      && Loose(commit, p, Respelled(commit, spec, WithRevision(overlay, VFloat("2.0", p.revision as real))))
  {
    var w := Concrete();
    p := HookrProfile(Hookr(DEPLOYMENT, w));
    spec := PreparedInputExists(commit, p, DEPLOYMENT, w);
    RespelledInputs(commit, p, spec, "2.0");
  }

  lemma {:induction false} PowerGrows(a: nat, b: nat)
    requires a <= b
    ensures Pow2(a) <= Pow2(b)
    decreases b
  {
    if a < b {
      PowerGrows(a, b - 1);
    }
  }

  // ----- originals out of order -----------------------------------------------------------------------------

  // The first two pins listed the other way round.
  function Swapped(dep: Deployment, w: seq<nat>): Descriptor
    requires |w| == 6
  {
    Hookr(dep, w).(originalState := [Pins(w)[1], Pins(w)[0]] + Pins(w)[2..])
  }

  // A valid descriptor that builds nothing, whatever the source, the items and the engine.
  lemma SwappedNeverBuilds(commit: Commit, p: Profile, dep: Deployment, w: seq<nat>, source: Members, items: Value, engine: Value)
    requires dep.Valid() && SixWords(w) && w[0] != w[1] && p.d == Swapped(dep, w)
    ensures Valid(p.d) && BuildSpec(commit, p, source, items, engine).Err?
  {
    SwappedIsValid(dep, w);
    SwappedOutOfOrder(dep, w);
    OutOfOrderNeverBuilds(commit, p, source, items, engine);
  }

  lemma SwappedIsValid(dep: Deployment, w: seq<nat>)
    requires dep.Valid() && SixWords(w)
    ensures Valid(Swapped(dep, w))
  {
    var d, e := Hookr(dep, w), Swapped(dep, w);
    HookrIsValid(dep, w);
    SwappedOriginals(dep, w);
    SameSections(d, e);
  }

  // Validity of the other sections does not look at the originals.
  lemma SameSections(d: Descriptor, e: Descriptor)
    requires Valid(d) && e == d.(originalState := e.originalState)
    ensures ValidContracts(e) && ValidTargets(e) && ValidFields(e) && ValidKinds(e)
  {
    SameContracts(d, e);
    SameFields(d, e);
    SameKinds(d, e);
  }

  lemma SameContracts(d: Descriptor, e: Descriptor)
    requires ValidContracts(d) && ValidTargets(d) && e == d.(originalState := e.originalState)
    ensures ValidContracts(e) && ValidTargets(e)
  {
  }

  lemma SameFields(d: Descriptor, e: Descriptor)
    requires ValidFields(d) && e == d.(originalState := e.originalState)
    ensures ValidFields(e)
  {
  }

  lemma SameKinds(d: Descriptor, e: Descriptor)
    requires ValidKinds(d) && e == d.(originalState := e.originalState)
    ensures ValidKinds(e)
  {
  }

  lemma SwappedPins(dep: Deployment, w: seq<nat>)
    requires dep.Valid() && SixWords(w)
    ensures forall i :: 0 <= i < 6 ==> OriginalOk(Swapped(dep, w), Swapped(dep, w).originalState[i])
  {
    var d, e := Hookr(dep, w), Swapped(dep, w);
    PinsAreOk(dep, w);
    forall i | 0 <= i < 6
      ensures OriginalOk(e, e.originalState[i])
    {
      assert e.originalState[i] == Pins(w)[Other(i)] && OriginalOk(d, Pins(w)[Other(i)]);
    }
  }

  lemma SwappedOriginals(dep: Deployment, w: seq<nat>)
    requires dep.Valid() && SixWords(w)
    ensures ValidOriginals(Swapped(dep, w))
  {
    var e := Swapped(dep, w);
    SwappedPins(dep, w);
    TargetNamesDiffer();
    forall i, word: nat | 0 <= i < |e.targets| && word < e.targets[i].words
      ensures PinsWord(e, e.targets[i].name, word)
    {
      var k := if i == 0 then Other(word) else 4 + word;
      assert e.originalState[k].target == e.targets[i].name && e.originalState[k].word == word;
    }
  }

  function Other(i: int): int {
    if i == 0 then 1 else if i == 1 then 0 else i
  }

  lemma SwappedOutOfOrder(dep: Deployment, w: seq<nat>)
    requires dep.Valid() && SixWords(w) && w[0] != w[1]
    ensures !IndexOrdered(Swapped(dep, w))
  {
    var e := Swapped(dep, w);
    SwappedIsValid(dep, w);
    IndexOrderedByWords(e);
    TargetNamesDiffer();
    var pins := e.originalState;
    assert ListedWords(pins, RULES_CONFIG) == [w[1]] + ListedWords(pins[1..], RULES_CONFIG);
    OriginalsAreSupplied(e);
    PinMatches(e, 1);
    assert WordAt(OriginalsOf(e), RULES_CONFIG, 0) == w[0];
  }
}
