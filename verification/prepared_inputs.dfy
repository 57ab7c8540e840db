// Prepared inputs: building and validating them agree.
// An input binds a session source to a descriptor and one canonical intervention set. Validation derives every part again
// and compares with Python's equality, so a number may be spelled otherwise and still pass; building derives the parts and
// validates the result. Rebuilding an input from its own parts returns it exactly when it is accepted and spelled plainly.
module PreparedInputs {
  import opened Wrappers
  import opened Bits
  import opened Orders
  import opened JsonValues
  import opened SpelledValues
  import opened Descriptors
  import opened Composition
  import opened CompositionFacts
  import opened CompositionMeaning
  import opened Originals

  // Any function of a domain and a JSON value; no property of it is used here.
  type Commit = (string, Value) -> string
  type Members = map<string, Value>

  const SPEC_DOMAIN := "rhook/hookr-profile-overlay/0.1"
  const ORIGIN_KIND := "AUTHENTICATED_CHECKPOINT_PROFILE_OVERLAY"

  // A parsed descriptor with the identity its bytes have.
  datatype Profile = Profile(
    d: Descriptor,
    profileId: string,
    revision: int,
    sha256: string,
    poolId: string,
    chainId: int,
    manifestCommitment: string)

  datatype SpecCode =
    | SpecBinding
    | SpecCommitment
    | CanonicalOrder
    | DerivedWrites
    | VariantWord
    | SpecOrigin
    | Composing(code: Code)

  // ----- rendering -----------------------------------------------------------------------------------------

  const DIGITS := "0123456789abcdef"

  // The digits of n in base 16, most significant first, padded to `count`.
  function HexDigits(n: nat, count: nat): string {
    seq(count, (i: int) requires 0 <= i < count => DIGITS[Shr(n, 4 * (count - 1 - i)) % 16])
  }

  function WordText(n: nat): string {
    "0x" + HexDigits(n, 64)
  }

  function AddressText(n: nat): string {
    "0x" + HexDigits(n, 40)
  }

  function WordTexts(row: seq<nat>): seq<Value> {
    seq(|row|, (i: int) requires 0 <= i < |row| => VStr(WordText(row[i])))
  }

  // A parameter is an integer or a string; whatever else stands in its place is of no parameter's type.
  function AsParameter(v: Value): Json {
    match v
    case VInt(n) => JInt(n)
    case VStr(t) => JStr(t)
    case VBool(b) => JBool(b)
    case _ => JNull
  }

  function AsValue(j: Json): Value {
    match j
    case JInt(n) => VInt(n)
    case JStr(t) => VStr(t)
    case JBool(b) => VBool(b)
    case _ => VNull
  }

  function EncodeItem(x: Item): Value {
    VObj(map["kind" := VStr(x.kind), "parameters" := VObj(map k | k in x.parameters :: AsValue(x.parameters[k]))])
  }

  function DecodeItem(j: Value): Option<Item> {
    if j.VObj? && j.members.Keys == {"kind", "parameters"} && j.members["kind"].VStr? && j.members["parameters"].VObj? then
      var m := j.members["parameters"].members;
      Some(Item(j.members["kind"].s, map k | k in m :: AsParameter(m[k])))
    else None
  }

  // Integers and strings only.
  predicate Typed(x: Item) {
    forall k :: k in x.parameters ==> x.parameters[k].JInt? || x.parameters[k].JStr?
  }

  lemma ItemRoundTrip(x: Item, j: Value)
    requires Typed(x)
    ensures DecodeItem(EncodeItem(x)) == Some(x)
    ensures DecodeItem(j) == Some(x) ==> EncodeItem(x) == j
  {
    var m := map k | k in x.parameters :: AsValue(x.parameters[k]);
    assert (map k | k in m :: AsParameter(m[k])) == x.parameters;
    if DecodeItem(j) == Some(x) {
      var n := j.members["parameters"].members;
      forall k | k in n
        ensures k in m && n[k] == m[k]
      {
        assert k in x.parameters && x.parameters[k] == AsParameter(n[k]);
      }
      assert n == m;
      assert EncodeItem(x).members == j.members;
    }
  }

  lemma TypedIsPlain(x: Item)
    requires Typed(x)
    ensures Plain(EncodeItem(x))
  {
    var m := map k | k in x.parameters :: AsValue(x.parameters[k]);
    assert Plain(VObj(m));
  }

  lemma AdmittedIsTyped(ps: seq<ParameterDecl>, x: Item)
    requires ParametersAdmitted(ps, x.parameters)
    ensures Typed(x)
  {
    forall k | k in x.parameters
      ensures x.parameters[k].JInt? || x.parameters[k].JStr?
    {
      var j :| 0 <= j < |ps| && ps[j].name == k;
      assert ParameterAdmits(ps[j], x.parameters[ps[j].name]);
    }
  }

  lemma CanonicalIsTyped(d: Descriptor, items: seq<Item>)
    requires CanonicalInterventions(d, items).Ok?
    ensures forall x :: x in items ==> Typed(x)
    ensures forall x :: x in CanonicalInterventions(d, items).value ==> Typed(x)
  {
    CanonicalSet(d, items);
    forall x | x in items
      ensures Typed(x)
    {
      var ps := KindNamed(d.interventions, x.kind).parameters;
      assert ParametersAdmitted(ps, x.parameters);
      AdmittedIsTyped(ps, x);
    }
  }

  function EncodeItems(xs: seq<Item>): Value {
    VArr(seq(|xs|, (i: int) requires 0 <= i < |xs| => EncodeItem(xs[i])))
  }

  // Shape and kind of the items in order; the first bad one decides.
  function DecodeItems(d: Descriptor, js: seq<Value>): Result<seq<Item>, Code> {
    if js == [] then Ok([])
    else
      match DecodeItem(js[0])
      case None => Err(InterventionShape)
      case Some(x) =>
        if !HasKind(d.interventions, x.kind) then Err(UnknownIntervention)
        else
          var rest :- DecodeItems(d, js[1..]);
          Ok([x] + rest)
  }

  // canonical_interventions on parsed JSON
  function CanonicalJson(d: Descriptor, j: Value): Result<seq<Item>, Code> {
    if !j.VArr? || !(1 <= |j.items| <= |d.interventions|) then Err(InterventionCount)
    else
      var items :- DecodeItems(d, j.items);
      CanonicalInterventions(d, items)
  }

  lemma {:induction false} DecodeOfEncoded(d: Descriptor, xs: seq<Item>)
    requires DeclaredKinds(d, xs) && forall x :: x in xs ==> Typed(x)
    ensures DecodeItems(d, EncodeItems(xs).items) == Ok(xs)
  {
    if xs != [] {
      ItemRoundTrip(xs[0], VNull);
      assert EncodeItems(xs).items[1..] == EncodeItems(xs[1..]).items;
      assert DeclaredKinds(d, xs[1..]);
      DecodeOfEncoded(d, xs[1..]);
      assert HasKind(d.interventions, xs[0].kind);
      assert xs == [xs[0]] + xs[1..];
    }
  }

  // The canonical set in its JSON spelling is accepted as itself.
  lemma CanonicalJsonTwice(d: Descriptor, j: Value)
    requires CanonicalJson(d, j).Ok?
    ensures CanonicalJson(d, EncodeItems(CanonicalJson(d, j).value)) == CanonicalJson(d, j)
    ensures CanonicalInterventions(d, CanonicalJson(d, j).value) == CanonicalJson(d, j)
  {
    var items := DecodeItems(d, j.items).value;
    CanonicalSet(d, items);
    CanonicalTwice(d, items);
    CanonicalIsTyped(d, items);
    SortMultiset(ByKind, items);
    DecodeOfEncoded(d, CanonicalJson(d, j).value);
  }

  // ----- the parts of a prepared input ----------------------------------------------------------------------

  function WriteJson(w: Write): Value {
    VObj(map["address" := VStr(AddressText(w.address)), "after" := VStr(WordText(w.after)), "before" := VStr(WordText(w.before)),
             "slot" := VStr(WordText(w.slot)), "target" := VStr(w.target), "word" := VInt(w.word)])
  }

  function WritesJson(ws: seq<Write>): Value {
    VArr(seq(|ws|, (i: int) requires 0 <= i < |ws| => WriteJson(ws[i])))
  }

  function CodeHashes(d: Descriptor): Value {
    VObj(map name | name in (set i | 0 <= i < |d.contracts| && d.contracts[i].requirement.CodeHashEquals? :: d.contracts[i].name) ::
           var r := ContractNamed(d.contracts, name).requirement;
           VStr(WordText(if r.CodeHashEquals? then r.codeHash else 0)))
  }

  function DescriptorJson(p: Profile): Value {
    VObj(map["profileId" := VStr(p.profileId), "revision" := VInt(p.revision), "sha256" := VStr(p.sha256)])
  }

  function Member(m: Members, key: string): Option<Value> {
    if key in m then Some(m[key]) else None
  }

  // spec['checkpoint'][key]
  function CheckpointMember(m: Members, key: string): Option<Value> {
    if "checkpoint" in m && m["checkpoint"].VObj? then Member(m["checkpoint"].members, key) else None
  }

  function TransformBody(p: Profile, stateRoot: Value, canon: seq<Item>, writes: seq<Write>): Members {
    map["schema" := VStr(SPEC_DOMAIN + "/transform"),
        "descriptor" := DescriptorJson(p),
        "originalStateRoot" := stateRoot,
        "poolId" := VStr(p.poolId),
        "codeHashes" := CodeHashes(p.d),
        "interventions" := EncodeItems(canon),
        "writes" := WritesJson(writes)]
  }

  function Transform(commit: Commit, p: Profile, stateRoot: Value, canon: seq<Item>, writes: seq<Write>): Value {
    var body := TransformBody(p, stateRoot, canon, writes);
    VObj(body["interventionCommitment" := VStr(commit(SPEC_DOMAIN + "/transform", VObj(body)))])
  }

  function Capsule(commit: Commit, p: Profile, checkpoint: Value, poolId: Value, canon: seq<Item>): string {
    var intent := VObj(map["schema" := VStr(SPEC_DOMAIN + "/intent"), "poolId" := poolId,
                           "profile" := VObj(map["profileId" := VStr(p.profileId), "sha256" := VStr(p.sha256)]),
                           "interventions" := EncodeItems(canon)]);
    commit(SPEC_DOMAIN + "/checkpoint", VObj(map["checkpoint" := checkpoint, "intent" := intent]))
  }

  function Origin(commit: Commit, p: Profile, checkpoint: Value, poolId: Value, canon: seq<Item>): Value {
    VObj(map["kind" := VStr(ORIGIN_KIND), "capsuleId" := VStr(Capsule(commit, p, checkpoint, poolId, canon))])
  }

  // The baseline words of the configuration target in listing order of originalState.words.
  function ListedWords(pins: seq<OriginalWord>, target: string): seq<nat> {
    if pins == [] then []
    else (if pins[0].target == target then [pins[0].value] else []) + ListedWords(pins[1..], target)
  }

  function Configurations(baseline: seq<nat>, variant: seq<nat>): Value {
    VObj(map["baseline" := VArr(WordTexts(baseline)), "variant" := VArr(WordTexts(variant))])
  }

  function RowOf(words: Words, target: string): seq<nat> {
    if target in words then words[target] else []
  }

  // ----- validate_spec --------------------------------------------------------------------------------------

  function ValidateSpec(commit: Commit, p: Profile, spec: Members): Result<(), SpecCode> {
    var body := spec - {"scenarioCommitment"};
    if "scenarioCommitment" !in spec then Err(SpecBinding)
    else if Member(body, "schema") != Some(VStr(SPEC_DOMAIN))
            || !Equal(spec["scenarioCommitment"], VStr(commit(SPEC_DOMAIN, VObj(body)))) then Err(SpecCommitment)
    else if "configOverlay" in body || "intervention" in body then Err(SpecBinding)
    else if !("profileOverlay" in body && body["profileOverlay"].VObj?) then Err(SpecBinding)
    else
      var overlay := body["profileOverlay"].members;
      if !("descriptor" in overlay && Equal(overlay["descriptor"], DescriptorJson(p))) then Err(SpecBinding)
      else if "interventions" !in overlay then Err(SpecBinding)
      else
        match CanonicalJson(p.d, overlay["interventions"])
        case Err(code) => Err(Composing(code))
        case Ok(canon) =>
          if !Equal(overlay["interventions"], EncodeItems(canon)) then Err(CanonicalOrder)
          else
            match Compose(p.d, canon, OriginalsOf(p.d))
            case Err(code) => Err(Composing(code))
            case Ok(c) => ValidateDerived(commit, p, body, canon, c)
  }

  function ValidateDerived(commit: Commit, p: Profile, body: Members, canon: seq<Item>, c: Composed): Result<(), SpecCode>
    requires "profileOverlay" in body
  {
    var target := p.d.configurationTarget;
    if CheckpointMember(body, "stateRoot").None? then Err(SpecBinding)
    else if !Equal(body["profileOverlay"], Transform(commit, p, CheckpointMember(body, "stateRoot").value, canon, c.writes)) then Err(DerivedWrites)
    else if "configurations" !in body then Err(SpecBinding)
    else if !Equal(body["configurations"], Configurations(ListedWords(p.d.originalState, target), RowOf(c.words, target))) then Err(VariantWord)
    else if "poolId" !in body || "origin" !in body then Err(SpecBinding)
    else if !Equal(body["origin"], Origin(commit, p, body["checkpoint"], body["poolId"], canon)) then Err(SpecOrigin)
    else if !(Equal(body["poolId"], VStr(p.poolId))
              && CheckpointMember(body, "chainId").Some? && Equal(CheckpointMember(body, "chainId").value, VInt(p.chainId))
              && "releaseManifestSha256" in body && Equal(body["releaseManifestSha256"], VStr(p.manifestCommitment))) then Err(SpecBinding)
    else Ok(())
  }

  // ----- build_spec -----------------------------------------------------------------------------------------

  predicate EngineOk(engine: Value) {
    engine.VObj? && engine.members.Keys == {"binarySha256", "policySha256", "sourceSha256"}
  }

  function BuildSpec(commit: Commit, p: Profile, source: Members, items: Value, engine: Value): Result<Members, SpecCode> {
    if !("poolId" in source && Equal(source["poolId"], VStr(p.poolId))
         && CheckpointMember(source, "chainId").Some? && Equal(CheckpointMember(source, "chainId").value, VInt(p.chainId)))
    then Err(SpecBinding)
    else if !EngineOk(engine) then Err(SpecBinding)
    else
      match CanonicalJson(p.d, items)
      case Err(code) => Err(Composing(code))
      case Ok(canon) =>
        match Compose(p.d, canon, OriginalsOf(p.d))
        case Err(code) => Err(Composing(code))
        case Ok(c) =>
          if CheckpointMember(source, "stateRoot").None? then Err(SpecBinding)
          else
            var spec := Assemble(commit, p, source, engine, canon, c);
            match ValidateSpec(commit, p, spec)
            case Err(code) => Err(code)
            case Ok(_) => Ok(spec)
  }

  // The source with its other interventions dropped and these members set.
  function Filled(source: Members, engine: Value, overlay: Value, origin: Value, configurations: Value): Members {
    (source - {"scenarioCommitment", "configOverlay", "intervention"})
    ["schema" := VStr(SPEC_DOMAIN)]["engine" := engine]["profileOverlay" := overlay]["origin" := origin]["configurations" := configurations]
  }

  function Sealed(commit: Commit, body: Members): Members {
    body["scenarioCommitment" := VStr(commit(SPEC_DOMAIN, VObj(body)))]
  }

  function Assemble(commit: Commit, p: Profile, source: Members, engine: Value, canon: seq<Item>, c: Composed): Members
    requires "checkpoint" in source && "poolId" in source && CheckpointMember(source, "stateRoot").Some?
  {
    var target := p.d.configurationTarget;
    Sealed(commit, Filled(source, engine, Transform(commit, p, CheckpointMember(source, "stateRoot").value, canon, c.writes),
                          Origin(commit, p, source["checkpoint"], source["poolId"], canon),
                          Configurations(RowOf(OriginalsOf(p.d), target), RowOf(c.words, target))))
  }

  // Rebuilding a prepared input from itself.
  function Rebuild(commit: Commit, p: Profile, spec: Members): Result<Members, SpecCode> {
    if "profileOverlay" in spec && spec["profileOverlay"].VObj? && "interventions" in spec["profileOverlay"].members && "engine" in spec
    then BuildSpec(commit, p, spec, spec["profileOverlay"].members["interventions"], spec["engine"])
    else Err(SpecBinding)
  }

  // ----- the fixpoint ---------------------------------------------------------------------------------------

  // The originals of the configuration target are listed in index order.
  predicate IndexOrdered(d: Descriptor) {
    WordTexts(ListedWords(d.originalState, d.configurationTarget)) == WordTexts(RowOf(OriginalsOf(d), d.configurationTarget))
  }

  // No boolean or float stands for an integer in the overlay, and it repeats the checkpoint's state root as it is written.
  predicate PlainOverlay(spec: Members) {
    && "profileOverlay" in spec && spec["profileOverlay"].VObj?
    && "originalStateRoot" in spec["profileOverlay"].members
    && CheckpointMember(spec, "stateRoot") == Some(spec["profileOverlay"].members["originalStateRoot"])
    && forall k :: k in spec["profileOverlay"].members && k != "originalStateRoot" ==> Plain(spec["profileOverlay"].members[k])
  }

  predicate ThreeKeyEngine(spec: Members) {
    "engine" in spec && EngineOk(spec["engine"])
  }

  lemma ItemsArePlain(d: Descriptor, items: seq<Item>)
    requires CanonicalInterventions(d, items).Ok?
    ensures Plain(EncodeItems(CanonicalInterventions(d, items).value))
  {
    CanonicalIsTyped(d, items);
    var canon := CanonicalInterventions(d, items).value;
    forall i | 0 <= i < |canon|
      ensures Plain(EncodeItem(canon[i]))
    {
      TypedIsPlain(canon[i]);
    }
  }

  lemma WriteIsPlain(w: Write)
    ensures Plain(WriteJson(w))
  {
  }

  lemma WritesArePlain(ws: seq<Write>)
    ensures Plain(WritesJson(ws))
  {
    forall i | 0 <= i < |ws|
      ensures Plain(WritesJson(ws).items[i])
    {
      WriteIsPlain(ws[i]);
    }
  }

  lemma DescriptorIsPlain(p: Profile)
    ensures Plain(CodeHashes(p.d)) && Plain(DescriptorJson(p))
  {
  }

  lemma BodyIsPlain(p: Profile, stateRoot: Value, canon: seq<Item>, writes: seq<Write>, k: string)
    requires Plain(EncodeItems(canon)) && Plain(WritesJson(writes)) && Plain(CodeHashes(p.d)) && Plain(DescriptorJson(p))
    ensures "originalStateRoot" in TransformBody(p, stateRoot, canon, writes)
    ensures TransformBody(p, stateRoot, canon, writes)["originalStateRoot"] == stateRoot
    ensures k in TransformBody(p, stateRoot, canon, writes) && k != "originalStateRoot" ==> Plain(TransformBody(p, stateRoot, canon, writes)[k])
  {
  }

  lemma TransformIsPlain(commit: Commit, p: Profile, stateRoot: Value, canon: seq<Item>, writes: seq<Write>)
    requires Plain(EncodeItems(canon))
    ensures
      var t := Transform(commit, p, stateRoot, canon, writes);
      && t.VObj? && "originalStateRoot" in t.members && t.members["originalStateRoot"] == stateRoot
      && forall k :: k in t.members && k != "originalStateRoot" ==> Plain(t.members[k])
  {
    WritesArePlain(writes);
    DescriptorIsPlain(p);
    var body := TransformBody(p, stateRoot, canon, writes);
    var sealed := body["interventionCommitment" := VStr(commit(SPEC_DOMAIN + "/transform", VObj(body)))];
    BodyIsPlain(p, stateRoot, canon, writes, "schema");
    forall k | k in sealed && k != "originalStateRoot"
      ensures Plain(sealed[k])
    {
      BodyIsPlain(p, stateRoot, canon, writes, k);
    }
  }

  // An accepted plain overlay is spelled exactly as it is derived.
  lemma PlainIsDerived(overlay: Value, derived: Value)
    requires overlay.VObj? && derived.VObj? && Equal(overlay, derived)
    requires "originalStateRoot" in overlay.members && "originalStateRoot" in derived.members
    requires overlay.members["originalStateRoot"] == derived.members["originalStateRoot"]
    requires forall k :: k in overlay.members && k != "originalStateRoot" ==> Plain(overlay.members[k])
    requires forall k :: k in derived.members && k != "originalStateRoot" ==> Plain(derived.members[k])
    ensures overlay == derived
  {
    forall k | k in overlay.members
      ensures overlay.members[k] == derived.members[k]
    {
      if k != "originalStateRoot" {
        EqualWhenPlain(overlay.members[k], derived.members[k]);
      }
    }
    assert overlay.members == derived.members;
  }

  lemma TextRowHasNoNumber(row: seq<nat>)
    ensures NoNumber(VArr(WordTexts(row)))
  {
    forall i | 0 <= i < |row|
      ensures NoNumber(WordTexts(row)[i])
    {
      assert WordTexts(row)[i] == VStr(WordText(row[i]));
    }
  }

  lemma TextsHaveNoNumber(baseline: seq<nat>, variant: seq<nat>)
    ensures NoNumber(Configurations(baseline, variant))
  {
    TextRowHasNoNumber(baseline);
    TextRowHasNoNumber(variant);
  }

  lemma SameBaseline(baseline: seq<nat>, variant: seq<nat>, baseline': seq<nat>, variant': seq<nat>)
    requires Configurations(baseline, variant) == Configurations(baseline', variant')
    ensures WordTexts(baseline) == WordTexts(baseline')
  {
    assert Configurations(baseline, variant).members["baseline"] == Configurations(baseline', variant').members["baseline"];
  }

  // The source is bound to the profile's pool, chain and release and names its state root.
  predicate SourceBound(p: Profile, source: Members) {
    && "poolId" in source && Equal(source["poolId"], VStr(p.poolId))
    && CheckpointMember(source, "chainId").Some? && Equal(CheckpointMember(source, "chainId").value, VInt(p.chainId))
    && CheckpointMember(source, "stateRoot").Some?
    && "releaseManifestSha256" in source && Equal(source["releaseManifestSha256"], VStr(p.manifestCommitment))
  }

  // What validation has established about an accepted input, check by check.
  lemma AcceptedOverlay(commit: Commit, p: Profile, spec: Members) returns (canon: seq<Item>, c: Composed)
    requires ValidateSpec(commit, p, spec).Ok?
    ensures
      var body := spec - {"scenarioCommitment"};
      && Member(body, "schema") == Some(VStr(SPEC_DOMAIN)) && "configOverlay" !in body && "intervention" !in body
      && "profileOverlay" in body && body["profileOverlay"].VObj?
      && "descriptor" in body["profileOverlay"].members && Equal(body["profileOverlay"].members["descriptor"], DescriptorJson(p))
      && "interventions" in body["profileOverlay"].members
      && CanonicalJson(p.d, body["profileOverlay"].members["interventions"]) == Ok(canon)
      && Equal(body["profileOverlay"].members["interventions"], EncodeItems(canon))
      && Compose(p.d, canon, OriginalsOf(p.d)) == Ok(c)
      && ValidateDerived(commit, p, body, canon, c).Ok?
  {
    canon := CanonicalJson(p.d, spec["profileOverlay"].members["interventions"]).value;
    c := Compose(p.d, canon, OriginalsOf(p.d)).value;
  }

  // What the derived checks establish: values that hold no number are equal only to themselves.
  lemma DerivedParts(commit: Commit, p: Profile, body: Members, canon: seq<Item>, c: Composed)
    requires "profileOverlay" in body && ValidateDerived(commit, p, body, canon, c).Ok?
    ensures SourceBound(p, body)
    ensures Equal(body["profileOverlay"], Transform(commit, p, CheckpointMember(body, "stateRoot").value, canon, c.writes))
    ensures
      var target := p.d.configurationTarget;
      Member(body, "configurations") == Some(Configurations(ListedWords(p.d.originalState, target), RowOf(c.words, target)))
    ensures Member(body, "origin") == Some(Origin(commit, p, body["checkpoint"], body["poolId"], canon))
  {
    var target := p.d.configurationTarget;
    TextsHaveNoNumber(ListedWords(p.d.originalState, target), RowOf(c.words, target));
    EqualToNoNumber(body["configurations"], Configurations(ListedWords(p.d.originalState, target), RowOf(c.words, target)));
    EqualToNoNumber(body["origin"], Origin(commit, p, body["checkpoint"], body["poolId"], canon));
  }

  lemma SameBound(p: Profile, a: Members, b: Members)
    requires SourceBound(p, a) && Member(a, "checkpoint") == Member(b, "checkpoint") && Member(a, "poolId") == Member(b, "poolId")
    requires Member(a, "releaseManifestSha256") == Member(b, "releaseManifestSha256")
    ensures SourceBound(p, b) && CheckpointMember(a, "stateRoot") == CheckpointMember(b, "stateRoot")
  {
  }

  lemma AcceptedParts(commit: Commit, p: Profile, spec: Members) returns (canon: seq<Item>, c: Composed)
    requires ValidateSpec(commit, p, spec).Ok?
    ensures "scenarioCommitment" in spec && "schema" in spec && spec["schema"] == VStr(SPEC_DOMAIN)
    ensures spec["scenarioCommitment"] == VStr(commit(SPEC_DOMAIN, VObj(spec - {"scenarioCommitment"})))
    ensures "configOverlay" !in spec && "intervention" !in spec && SourceBound(p, spec)
    ensures "profileOverlay" in spec && spec["profileOverlay"].VObj? && "interventions" in spec["profileOverlay"].members
    ensures CanonicalJson(p.d, spec["profileOverlay"].members["interventions"]) == Ok(canon)
    ensures Compose(p.d, canon, OriginalsOf(p.d)) == Ok(c)
    ensures Equal(spec["profileOverlay"], Transform(commit, p, CheckpointMember(spec, "stateRoot").value, canon, c.writes))
    ensures
      var target := p.d.configurationTarget;
      "configurations" in spec && spec["configurations"] == Configurations(ListedWords(p.d.originalState, target), RowOf(c.words, target))
    ensures "origin" in spec && spec["origin"] == Origin(commit, p, spec["checkpoint"], spec["poolId"], canon)
  {
    var body := spec - {"scenarioCommitment"};
    canon, c := AcceptedOverlay(commit, p, spec);
    EqualToNoNumber(spec["scenarioCommitment"], VStr(commit(SPEC_DOMAIN, VObj(body))));
    DerivedParts(commit, p, body, canon, c);
    SameButCommitment(spec);
    SameBound(p, body, spec);
  }

  lemma SameButCommitment(spec: Members)
    ensures forall k :: k != "scenarioCommitment" ==> Member(spec - {"scenarioCommitment"}, k) == Member(spec, k)
    ensures Member(spec - {"scenarioCommitment"}, "schema") == Member(spec, "schema")
    ensures Member(spec - {"scenarioCommitment"}, "configOverlay") == Member(spec, "configOverlay")
    ensures Member(spec - {"scenarioCommitment"}, "intervention") == Member(spec, "intervention")
    ensures Member(spec - {"scenarioCommitment"}, "profileOverlay") == Member(spec, "profileOverlay")
    ensures Member(spec - {"scenarioCommitment"}, "configurations") == Member(spec, "configurations")
    ensures Member(spec - {"scenarioCommitment"}, "origin") == Member(spec, "origin")
    ensures Member(spec - {"scenarioCommitment"}, "checkpoint") == Member(spec, "checkpoint")
    ensures Member(spec - {"scenarioCommitment"}, "poolId") == Member(spec, "poolId")
    ensures Member(spec - {"scenarioCommitment"}, "releaseManifestSha256") == Member(spec, "releaseManifestSha256")
  {
  }

  // Filling an input with its own members changes nothing.
  lemma FilledWithOwn(spec: Members)
    requires "configOverlay" !in spec && "intervention" !in spec && "schema" in spec && spec["schema"] == VStr(SPEC_DOMAIN)
    requires "engine" in spec && "profileOverlay" in spec && "origin" in spec && "configurations" in spec
    ensures Filled(spec, spec["engine"], spec["profileOverlay"], spec["origin"], spec["configurations"]) == spec - {"scenarioCommitment"}
    ensures "scenarioCommitment" in spec ==> (spec - {"scenarioCommitment"})["scenarioCommitment" := spec["scenarioCommitment"]] == spec
  {
    KeysDiffer();
    var s := spec - {"scenarioCommitment", "configOverlay", "intervention"};
    assert s == spec - {"scenarioCommitment"};
    var f := Filled(spec, spec["engine"], spec["profileOverlay"], spec["origin"], spec["configurations"]);
    assert f.Keys == s.Keys;
    forall k | k in s
      ensures f[k] == s[k]
    {
    }
  }

  lemma KeysDiffer()
    ensures "schema" != "engine" && "schema" != "profileOverlay" && "schema" != "origin" && "schema" != "configurations"
    ensures "engine" != "profileOverlay" && "engine" != "origin" && "engine" != "configurations"
    ensures "profileOverlay" != "origin" && "profileOverlay" != "configurations" && "origin" != "configurations"
  {
    assert |"schema"| == 6 && |"engine"| == 6 && |"profileOverlay"| == 14 && |"origin"| == 6 && |"configurations"| == 14;
    assert "schema"[0] == 's' && "engine"[0] == 'e' && "origin"[0] == 'o' && "profileOverlay"[0] == 'p' && "configurations"[0] == 'c';
  }

  // Assembling an accepted, plainly written, index-ordered input from itself changes nothing.
  lemma AssembleIsIdentity(commit: Commit, p: Profile, spec: Members, canon: seq<Item>, c: Composed)
    requires "checkpoint" in spec && "poolId" in spec && CheckpointMember(spec, "stateRoot").Some?
    requires "configOverlay" !in spec && "intervention" !in spec && "engine" in spec
    requires "schema" in spec && spec["schema"] == VStr(SPEC_DOMAIN)
    requires "profileOverlay" in spec && spec["profileOverlay"] == Transform(commit, p, CheckpointMember(spec, "stateRoot").value, canon, c.writes)
    requires "origin" in spec && spec["origin"] == Origin(commit, p, spec["checkpoint"], spec["poolId"], canon)
    requires
      var target := p.d.configurationTarget;
      "configurations" in spec && spec["configurations"] == Configurations(RowOf(OriginalsOf(p.d), target), RowOf(c.words, target))
    requires "scenarioCommitment" in spec
    requires spec["scenarioCommitment"] == VStr(commit(SPEC_DOMAIN, VObj(spec - {"scenarioCommitment"})))
    ensures Assemble(commit, p, spec, spec["engine"], canon, c) == spec
  {
    FilledWithOwn(spec);
  }

  lemma AcceptedRebuilds(commit: Commit, p: Profile, spec: Members)
    requires ValidateSpec(commit, p, spec).Ok? && ThreeKeyEngine(spec) && PlainOverlay(spec) && IndexOrdered(p.d)
    ensures Rebuild(commit, p, spec) == Ok(spec)
  {
    var canon, c := AcceptedParts(commit, p, spec);
    CanonicalJsonTwice(p.d, spec["profileOverlay"].members["interventions"]);
    ItemsArePlain(p.d, canon);
    var stateRoot := CheckpointMember(spec, "stateRoot").value;
    TransformIsPlain(commit, p, stateRoot, canon, c.writes);
    PlainIsDerived(spec["profileOverlay"], Transform(commit, p, stateRoot, canon, c.writes));
    AssembleIsIdentity(commit, p, spec, canon, c);
  }

  // What a successful build has produced.
  lemma BuiltParts(commit: Commit, p: Profile, source: Members, items: Value, engine: Value) returns (canon: seq<Item>, c: Composed)
    requires BuildSpec(commit, p, source, items, engine).Ok?
    ensures "checkpoint" in source && "poolId" in source && CheckpointMember(source, "stateRoot").Some? && EngineOk(engine)
    ensures CanonicalJson(p.d, items) == Ok(canon) && Compose(p.d, canon, OriginalsOf(p.d)) == Ok(c)
    ensures BuildSpec(commit, p, source, items, engine) == Ok(Assemble(commit, p, source, engine, canon, c))
    ensures ValidateSpec(commit, p, Assemble(commit, p, source, engine, canon, c)).Ok?
  {
    canon := CanonicalJson(p.d, items).value;
    c := Compose(p.d, canon, OriginalsOf(p.d)).value;
  }

  // Two of the parts an assembled input holds.
  lemma AssembledParts(commit: Commit, p: Profile, source: Members, engine: Value, canon: seq<Item>, c: Composed)
    requires "checkpoint" in source && "poolId" in source && CheckpointMember(source, "stateRoot").Some?
    ensures
      var s, target := Assemble(commit, p, source, engine, canon, c), p.d.configurationTarget;
      && "profileOverlay" in s && s["profileOverlay"] == Transform(commit, p, CheckpointMember(source, "stateRoot").value, canon, c.writes)
      && "configurations" in s && s["configurations"] == Configurations(RowOf(OriginalsOf(p.d), target), RowOf(c.words, target))
  {
  }

  // What a spec that builds itself has been assembled from.
  lemma RebuiltParts(commit: Commit, p: Profile, spec: Members) returns (canon: seq<Item>, c: Composed)
    requires Rebuild(commit, p, spec) == Ok(spec)
    ensures ValidateSpec(commit, p, spec).Ok? && ThreeKeyEngine(spec) && Plain(EncodeItems(canon))
    ensures CheckpointMember(spec, "stateRoot").Some? && "profileOverlay" in spec && "configurations" in spec
    ensures spec["profileOverlay"] == Transform(commit, p, CheckpointMember(spec, "stateRoot").value, canon, c.writes)
    ensures
      var target := p.d.configurationTarget;
      spec["configurations"] == Configurations(RowOf(OriginalsOf(p.d), target), RowOf(c.words, target))
  {
    var items := spec["profileOverlay"].members["interventions"];
    canon, c := BuiltParts(commit, p, spec, items, spec["engine"]);
    CanonicalJsonTwice(p.d, items);
    ItemsArePlain(p.d, canon);
    AssembledParts(commit, p, spec, spec["engine"], canon, c);
  }

  lemma RebuiltIsAccepted(commit: Commit, p: Profile, spec: Members)
    requires Rebuild(commit, p, spec) == Ok(spec)
    ensures ValidateSpec(commit, p, spec).Ok? && ThreeKeyEngine(spec) && PlainOverlay(spec) && IndexOrdered(p.d)
  {
    var canon, c := RebuiltParts(commit, p, spec);
    TransformIsPlain(commit, p, CheckpointMember(spec, "stateRoot").value, canon, c.writes);
    var canon', c' := AcceptedParts(commit, p, spec);
    var target := p.d.configurationTarget;
    SameBaseline(ListedWords(p.d.originalState, target), RowOf(c'.words, target), RowOf(OriginalsOf(p.d), target), RowOf(c.words, target));
  }

  // Validation accepts a three-key-engine input exactly when building it from itself returns it unchanged,
  // provided the originals are listed in index order and the overlay spells its numbers as integers.
  lemma PreparedInputsAreFixpoints(commit: Commit, p: Profile, spec: Members)
    ensures Rebuild(commit, p, spec) == Ok(spec) <==>
            ValidateSpec(commit, p, spec).Ok? && ThreeKeyEngine(spec) && PlainOverlay(spec) && IndexOrdered(p.d)
  {
    if Rebuild(commit, p, spec) == Ok(spec) {
      RebuiltIsAccepted(commit, p, spec);
    }
    if ValidateSpec(commit, p, spec).Ok? && ThreeKeyEngine(spec) && PlainOverlay(spec) && IndexOrdered(p.d) {
      AcceptedRebuilds(commit, p, spec);
    }
  }
  // ----- when building succeeds -----------------------------------------------------------------------------

  // Validation accepts when its checks hold one by one.
  lemma ChecksAccept(commit: Commit, p: Profile, spec: Members, canon: seq<Item>, c: Composed)
    requires "scenarioCommitment" in spec
    requires spec["scenarioCommitment"] == VStr(commit(SPEC_DOMAIN, VObj(spec - {"scenarioCommitment"})))
    requires
      var body := spec - {"scenarioCommitment"};
      && Member(body, "schema") == Some(VStr(SPEC_DOMAIN)) && "configOverlay" !in body && "intervention" !in body
      && "profileOverlay" in body && body["profileOverlay"].VObj?
      && "descriptor" in body["profileOverlay"].members && Equal(body["profileOverlay"].members["descriptor"], DescriptorJson(p))
      && "interventions" in body["profileOverlay"].members
      && CanonicalJson(p.d, body["profileOverlay"].members["interventions"]) == Ok(canon)
      && Equal(body["profileOverlay"].members["interventions"], EncodeItems(canon))
      && Compose(p.d, canon, OriginalsOf(p.d)) == Ok(c)
      && ValidateDerived(commit, p, body, canon, c).Ok?
    ensures ValidateSpec(commit, p, spec).Ok?
  {
    EqualItself(spec["scenarioCommitment"]);
  }

  // What a filled body holds.
  lemma FilledMembers(source: Members, engine: Value, overlay: Value, origin: Value, configurations: Value)
    ensures
      var body := Filled(source, engine, overlay, origin, configurations);
      && Member(body, "schema") == Some(VStr(SPEC_DOMAIN)) && "configOverlay" !in body && "intervention" !in body
      && "scenarioCommitment" !in body && Member(body, "engine") == Some(engine) && Member(body, "profileOverlay") == Some(overlay)
      && Member(body, "origin") == Some(origin) && Member(body, "configurations") == Some(configurations)
      && Member(body, "checkpoint") == Member(source, "checkpoint") && Member(body, "poolId") == Member(source, "poolId")
      && Member(body, "releaseManifestSha256") == Member(source, "releaseManifestSha256")
  {
    KeysDiffer();
  }

  lemma SealedBody(commit: Commit, body: Members)
    requires "scenarioCommitment" !in body
    ensures Sealed(commit, body) - {"scenarioCommitment"} == body && "scenarioCommitment" in Sealed(commit, body)
    ensures forall k :: k != "scenarioCommitment" ==> Member(Sealed(commit, body), k) == Member(body, k)
  {
  }

  // What an assembled input holds, before its commitment.
  lemma AssembledBody(commit: Commit, p: Profile, source: Members, engine: Value, canon: seq<Item>, c: Composed) returns (body: Members)
    requires "checkpoint" in source && "poolId" in source && CheckpointMember(source, "stateRoot").Some?
    ensures
      var s := Assemble(commit, p, source, engine, canon, c);
      && s == Sealed(commit, body) && body == s - {"scenarioCommitment"} && "scenarioCommitment" in s
      && forall k :: k != "scenarioCommitment" ==> Member(s, k) == Member(body, k)
    ensures Member(body, "schema") == Some(VStr(SPEC_DOMAIN)) && "configOverlay" !in body && "intervention" !in body
    ensures Member(body, "engine") == Some(engine)
    ensures Member(body, "profileOverlay") == Some(Transform(commit, p, CheckpointMember(source, "stateRoot").value, canon, c.writes))
    ensures Member(body, "origin") == Some(Origin(commit, p, source["checkpoint"], source["poolId"], canon))
    ensures
      var target := p.d.configurationTarget;
      Member(body, "configurations") == Some(Configurations(RowOf(OriginalsOf(p.d), target), RowOf(c.words, target)))
    ensures Member(body, "checkpoint") == Some(source["checkpoint"]) && Member(body, "poolId") == Some(source["poolId"])
    ensures Member(body, "releaseManifestSha256") == Member(source, "releaseManifestSha256")
  {
    var target := p.d.configurationTarget;
    var overlay := Transform(commit, p, CheckpointMember(source, "stateRoot").value, canon, c.writes);
    var origin := Origin(commit, p, source["checkpoint"], source["poolId"], canon);
    var configurations := Configurations(RowOf(OriginalsOf(p.d), target), RowOf(c.words, target));
    body := Filled(source, engine, overlay, origin, configurations);
    FilledMembers(source, engine, overlay, origin, configurations);
    SealedBody(commit, body);
  }

  lemma TransformMembers(commit: Commit, p: Profile, stateRoot: Value, canon: seq<Item>, writes: seq<Write>)
    ensures
      var t := Transform(commit, p, stateRoot, canon, writes);
      && t.VObj? && Member(t.members, "descriptor") == Some(DescriptorJson(p))
      && Member(t.members, "interventions") == Some(EncodeItems(canon)) && Member(t.members, "originalStateRoot") == Some(stateRoot)
  {
  }

  lemma TransformWrites(commit: Commit, p: Profile, stateRoot: Value, canon: seq<Item>, writes: seq<Write>)
    ensures
      var t := Transform(commit, p, stateRoot, canon, writes);
      t.VObj? && Member(t.members, "writes") == Some(WritesJson(writes))
  {
  }

  lemma DerivedAccepts(commit: Commit, p: Profile, body: Members, canon: seq<Item>, c: Composed)
    requires SourceBound(p, body)
    requires Member(body, "profileOverlay") == Some(Transform(commit, p, CheckpointMember(body, "stateRoot").value, canon, c.writes))
    requires
      var target := p.d.configurationTarget;
      Member(body, "configurations") == Some(Configurations(ListedWords(p.d.originalState, target), RowOf(c.words, target)))
    requires Member(body, "origin") == Some(Origin(commit, p, body["checkpoint"], body["poolId"], canon))
    ensures ValidateDerived(commit, p, body, canon, c).Ok?
  {
    EqualItself(body["profileOverlay"]);
    EqualItself(body["configurations"]);
    EqualItself(body["origin"]);
  }

  lemma AssembledIsAccepted(commit: Commit, p: Profile, source: Members, engine: Value, canon: seq<Item>, c: Composed)
    requires SourceBound(p, source) && IndexOrdered(p.d)
    requires CanonicalJson(p.d, EncodeItems(canon)) == Ok(canon) && Compose(p.d, canon, OriginalsOf(p.d)) == Ok(c)
    ensures ValidateSpec(commit, p, Assemble(commit, p, source, engine, canon, c)).Ok?
  {
    var stateRoot := CheckpointMember(source, "stateRoot").value;
    var body := AssembledBody(commit, p, source, engine, canon, c);
    TransformMembers(commit, p, stateRoot, canon, c.writes);
    EqualItself(DescriptorJson(p));
    EqualItself(EncodeItems(canon));
    assert SourceBound(p, body) by {
      assert Member(body, "releaseManifestSha256") == Some(source["releaseManifestSha256"]);
    }
    DerivedAccepts(commit, p, body, canon, c);
    ChecksAccept(commit, p, Sealed(commit, body), canon, c);
  }

  // Building succeeds exactly when the source is bound, the engine has its three keys, the items are a canonical set that
  // composes on the originals, and the originals are listed in index order.
  lemma BuildsExactly(commit: Commit, p: Profile, source: Members, items: Value, engine: Value)
    ensures BuildSpec(commit, p, source, items, engine).Ok? <==>
            && SourceBound(p, source) && EngineOk(engine) && IndexOrdered(p.d) && CanonicalJson(p.d, items).Ok?
            && Compose(p.d, CanonicalJson(p.d, items).value, OriginalsOf(p.d)).Ok?
  {
    if BuildSpec(commit, p, source, items, engine).Ok? {
      var canon, c := BuiltParts(commit, p, source, items, engine);
      BuiltIsBound(commit, p, source, engine, canon, c);
    }
    if SourceBound(p, source) && EngineOk(engine) && IndexOrdered(p.d) && CanonicalJson(p.d, items).Ok?
       && Compose(p.d, CanonicalJson(p.d, items).value, OriginalsOf(p.d)).Ok? {
      var canon := CanonicalJson(p.d, items).value;
      CanonicalJsonTwice(p.d, items);
      AssembledIsAccepted(commit, p, source, engine, canon, Compose(p.d, canon, OriginalsOf(p.d)).value);
    }
  }

  lemma BuiltIsBound(commit: Commit, p: Profile, source: Members, engine: Value, canon: seq<Item>, c: Composed)
    requires "checkpoint" in source && "poolId" in source && CheckpointMember(source, "stateRoot").Some?
    requires ValidateSpec(commit, p, Assemble(commit, p, source, engine, canon, c)).Ok?
    ensures SourceBound(p, source) && IndexOrdered(p.d)
  {
    var s, target := Assemble(commit, p, source, engine, canon, c), p.d.configurationTarget;
    var body := AssembledBody(commit, p, source, engine, canon, c);
    var canon', c' := AcceptedParts(commit, p, s);
    SameButCommitment(s);
    SameBaseline(ListedWords(p.d.originalState, target), RowOf(c'.words, target), RowOf(OriginalsOf(p.d), target), RowOf(c.words, target));
    SameBound(p, s, source);
  }

  // What was built rebuilds to itself.
  lemma BuildIsIdempotent(commit: Commit, p: Profile, source: Members, items: Value, engine: Value)
    requires BuildSpec(commit, p, source, items, engine).Ok?
    ensures
      var s := BuildSpec(commit, p, source, items, engine).value;
      Rebuild(commit, p, s) == Ok(s)
  {
    var canon, c := BuiltParts(commit, p, source, items, engine);
    var s := Assemble(commit, p, source, engine, canon, c);
    BuiltIsBound(commit, p, source, engine, canon, c);
    var body := AssembledBody(commit, p, source, engine, canon, c);
    CanonicalJsonTwice(p.d, items);
    ItemsArePlain(p.d, canon);
    TransformIsPlain(commit, p, CheckpointMember(source, "stateRoot").value, canon, c.writes);
    assert Member(s, "engine") == Some(engine) && Member(s, "checkpoint") == Some(source["checkpoint"]);
    assert Member(s, "profileOverlay") == Member(body, "profileOverlay");
    AcceptedRebuilds(commit, p, s);
  }

  // ----- the listing order ----------------------------------------------------------------------------------

  lemma {:induction false} DigitsDiffer(a: nat, b: nat)
    requires a < 16 && b < 16 && DIGITS[a] == DIGITS[b]
    ensures a == b
  {
  }

  lemma LowBitOf(n: nat, i: nat)
    requires i < 4
    ensures Bit(n, i) == Bit(n % 16, i)
  {
    assert Pow2(4) == 16 by {
      assert Pow2(2) == 4;
    }
    assert n == 16 * (n / 16) + n % 16;
    LowBits(n / 16, n % 16, 4, i);
  }

  // The spelling of a word determines it.
  lemma WordTextInjective(n: nat, m: nat)
    requires IsWord(n) && IsWord(m) && WordText(n) == WordText(m)
    ensures n == m
  {
    var a, b := HexDigits(n, 64), HexDigits(m, 64);
    assert WordText(n)[2..] == a && WordText(m)[2..] == b;
    forall i: nat
      ensures Bit(n, i) == Bit(m, i)
    {
      if i < WORD_BITS {
        var k: nat, r: nat := i / 4, i % 4;
        var at: nat := 63 - k;
        assert a[at] == DIGITS[Shr(n, 4 * k) % 16] && b[at] == DIGITS[Shr(m, 4 * k) % 16];
        DigitsDiffer(Shr(n, 4 * k) % 16, Shr(m, 4 * k) % 16);
        LowBitOf(Shr(n, 4 * k), r);
        LowBitOf(Shr(m, 4 * k), r);
        ShrBit(n, 4 * k, r);
        ShrBit(m, 4 * k, r);
      } else {
        BelowHasNoHighBits(n, WORD_BITS, i);
        BelowHasNoHighBits(m, WORD_BITS, i);
      }
    }
    SameBits(n, m);
  }

  lemma {:induction false} ListedAreWords(pins: seq<OriginalWord>, target: string)
    requires forall i :: 0 <= i < |pins| ==> IsWord(pins[i].value)
    ensures forall i :: 0 <= i < |ListedWords(pins, target)| ==> IsWord(ListedWords(pins, target)[i])
  {
    if pins != [] {
      ListedAreWords(pins[1..], target);
    }
  }

  lemma WordTextsInjective(a: seq<nat>, b: seq<nat>)
    requires (forall i :: 0 <= i < |a| ==> IsWord(a[i])) && (forall i :: 0 <= i < |b| ==> IsWord(b[i]))
    requires WordTexts(a) == WordTexts(b)
    ensures a == b
  {
    assert |WordTexts(a)| == |a| && |WordTexts(b)| == |b|;
    forall i | 0 <= i < |a|
      ensures a[i] == b[i]
    {
      assert WordTexts(a)[i] == VStr(WordText(a[i])) && WordTexts(b)[i] == VStr(WordText(b[i]));
      WordTextInjective(a[i], b[i]);
    }
  }

  // Index order is about the words, not their spelling.
  lemma IndexOrderedByWords(d: Descriptor)
    requires Valid(d)
    ensures IndexOrdered(d) <==> ListedWords(d.originalState, d.configurationTarget) == RowOf(OriginalsOf(d), d.configurationTarget)
  {
    var target := d.configurationTarget;
    ListedAreWords(d.originalState, target);
    OriginalsAreSupplied(d);
    if IndexOrdered(d) {
      RowIsWords(d, OriginalsOf(d), target);
      WordTextsInjective(ListedWords(d.originalState, target), RowOf(OriginalsOf(d), target));
    }
  }

  lemma RowIsWords(d: Descriptor, words: Words, target: string)
    requires Supplied(d, words)
    ensures forall i :: 0 <= i < |RowOf(words, target)| ==> IsWord(RowOf(words, target)[i])
  {
    if target in words {
      assert target in TargetNames(d);
    }
  }
}
