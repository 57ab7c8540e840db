// Where prepared inputs are not fixpoints: listing order and number spellings.
// An overlay that Python holds equal to the derived one, put in its place and committed again, is accepted as long as it
// leaves the interventions as they were, which must be of their types; only the derived spelling is what building returns.
module PreparedSpellings {
  import opened Wrappers
  import opened Descriptors
  import opened Composition
  import opened Originals
  import opened SpelledValues
  import opened PreparedInputs

  // Originals listed out of index order: no input can be built at all.
  lemma OutOfOrderNeverBuilds(commit: Commit, p: Profile, source: Members, items: Value, engine: Value)
    requires !IndexOrdered(p.d)
    ensures BuildSpec(commit, p, source, items, engine).Err?
  {
    BuildsExactly(commit, p, source, items, engine);
  }

  // A prepared input with its overlay spelled otherwise, committed again.
  function Respelled(commit: Commit, spec: Members, overlay: Value): Members {
    Sealed(commit, (spec - {"scenarioCommitment"})["profileOverlay" := overlay])
  }

  lemma RespelledMembers(commit: Commit, spec: Members, overlay: Value)
    ensures
      var body, r := (spec - {"scenarioCommitment"})["profileOverlay" := overlay], Respelled(commit, spec, overlay);
      && r == Sealed(commit, body) && r - {"scenarioCommitment"} == body && "scenarioCommitment" in r
      && Member(r, "profileOverlay") == Some(overlay)
      && Member(r, "checkpoint") == Member(spec, "checkpoint")
  {
    var body := (spec - {"scenarioCommitment"})["profileOverlay" := overlay];
    SealedBody(commit, body);
    RespelledBody(spec, overlay);
  }

  lemma RespelledBody(spec: Members, overlay: Value)
    ensures
      var body := (spec - {"scenarioCommitment"})["profileOverlay" := overlay];
      && Member(body, "checkpoint") == Member(spec, "checkpoint") && Member(body, "poolId") == Member(spec, "poolId")
      && Member(body, "releaseManifestSha256") == Member(spec, "releaseManifestSha256")
      && Member(body, "configurations") == Member(spec, "configurations") && Member(body, "origin") == Member(spec, "origin")
      && Member(body, "schema") == Member(spec, "schema") && Member(body, "configOverlay") == Member(spec, "configOverlay")
      && Member(body, "intervention") == Member(spec, "intervention") && Member(body, "profileOverlay") == Some(overlay)
  {
  }

  // The items of an accepted set are spelled plainly: a parameter must be of its type, not merely equal.
  lemma AcceptedItem(d: Descriptor, j: Value, x: Item)
    requires DecodeItem(j) == Some(x) && Typed(x)
    ensures Plain(j)
  {
    ItemRoundTrip(x, j);
    TypedIsPlain(x);
  }

  lemma {:induction false} DecodedInOrder(d: Descriptor, js: seq<Value>)
    requires DecodeItems(d, js).Ok?
    ensures |DecodeItems(d, js).value| == |js|
    ensures forall i :: 0 <= i < |js| ==> DecodeItem(js[i]) == Some(DecodeItems(d, js).value[i])
  {
    if js != [] {
      DecodedInOrder(d, js[1..]);
      assert forall i :: 0 < i < |js| ==> js[i] == js[1..][i - 1];
    }
  }

  lemma AcceptedItemsArePlain(d: Descriptor, j: Value)
    requires CanonicalJson(d, j).Ok?
    ensures Plain(j)
  {
    var items := DecodeItems(d, j.items).value;
    DecodedInOrder(d, j.items);
    CanonicalIsTyped(d, items);
    forall i | 0 <= i < |j.items|
      ensures Plain(j.items[i])
    {
      assert items[i] in items;
      AcceptedItem(d, j.items[i], items[i]);
    }
  }

  // An overlay Python holds equal to the derived one, with the derived items: every check on it still holds.
  lemma RespelledChecks(commit: Commit, p: Profile, body: Members, overlay: Value, canon: seq<Item>, c: Composed)
    requires "profileOverlay" in body && body["profileOverlay"] == overlay && SourceBound(p, body)
    requires Equal(overlay, Transform(commit, p, CheckpointMember(body, "stateRoot").value, canon, c.writes))
    requires
      var target := p.d.configurationTarget;
      Member(body, "configurations") == Some(Configurations(ListedWords(p.d.originalState, target), RowOf(c.words, target)))
    requires Member(body, "origin") == Some(Origin(commit, p, body["checkpoint"], body["poolId"], canon))
    ensures ValidateDerived(commit, p, body, canon, c).Ok?
    ensures overlay.VObj? && "descriptor" in overlay.members && Equal(overlay.members["descriptor"], DescriptorJson(p))
    ensures "interventions" in overlay.members && Equal(overlay.members["interventions"], EncodeItems(canon))
  {
    EqualItself(body["configurations"]);
    EqualItself(body["origin"]);
    TransformMembers(commit, p, CheckpointMember(body, "stateRoot").value, canon, c.writes);
  }

  // The facts about a prepared input that its respelling shares.
  lemma PreparedParts(commit: Commit, p: Profile, spec: Members) returns (canon: seq<Item>, c: Composed)
    requires Rebuild(commit, p, spec) == Ok(spec)
    ensures SourceBound(p, spec) && "profileOverlay" in spec
    ensures spec["profileOverlay"] == Transform(commit, p, CheckpointMember(spec, "stateRoot").value, canon, c.writes)
    ensures CanonicalJson(p.d, EncodeItems(canon)) == Ok(canon) && Compose(p.d, canon, OriginalsOf(p.d)) == Ok(c)
    ensures Member(spec, "schema") == Some(VStr(SPEC_DOMAIN)) && "configOverlay" !in spec && "intervention" !in spec
    ensures
      var target := p.d.configurationTarget;
      Member(spec, "configurations") == Some(Configurations(ListedWords(p.d.originalState, target), RowOf(c.words, target)))
    ensures Member(spec, "origin") == Some(Origin(commit, p, spec["checkpoint"], spec["poolId"], canon))
  {
    RebuiltIsAccepted(commit, p, spec);
    canon, c := AcceptedParts(commit, p, spec);
    var stateRoot := CheckpointMember(spec, "stateRoot").value;
    CanonicalJsonTwice(p.d, spec["profileOverlay"].members["interventions"]);
    ItemsArePlain(p.d, canon);
    TransformIsPlain(commit, p, stateRoot, canon, c.writes);
    TransformMembers(commit, p, stateRoot, canon, c.writes);
    PlainIsDerived(spec["profileOverlay"], Transform(commit, p, stateRoot, canon, c.writes));
  }

  lemma RespelledAccepted(commit: Commit, p: Profile, spec: Members, overlay: Value)
    requires Rebuild(commit, p, spec) == Ok(spec) && "profileOverlay" in spec && spec["profileOverlay"].VObj?
    requires Equal(overlay, spec["profileOverlay"]) && overlay.VObj?
    requires Member(overlay.members, "interventions") == Member(spec["profileOverlay"].members, "interventions")
    ensures ValidateSpec(commit, p, Respelled(commit, spec, overlay)).Ok?
  {
    var canon, c := PreparedParts(commit, p, spec);
    var stateRoot := CheckpointMember(spec, "stateRoot").value;
    TransformMembers(commit, p, stateRoot, canon, c.writes);
    RespelledMembers(commit, spec, overlay);
    var body := (spec - {"scenarioCommitment"})["profileOverlay" := overlay];
    RespelledBody(spec, overlay);
    SameBound(p, spec, body);
    RespelledChecks(commit, p, body, overlay, canon, c);
    BodyAccepted(commit, p, body, canon, c);
  }

  // A body whose overlay holds the derived items and passes the derived checks is accepted once it is committed.
  lemma BodyAccepted(commit: Commit, p: Profile, body: Members, canon: seq<Item>, c: Composed)
    requires "scenarioCommitment" !in body && Member(body, "schema") == Some(VStr(SPEC_DOMAIN))
    requires "configOverlay" !in body && "intervention" !in body && "profileOverlay" in body && body["profileOverlay"].VObj?
    requires
      var overlay := body["profileOverlay"].members;
      && "descriptor" in overlay && Equal(overlay["descriptor"], DescriptorJson(p))
      && Member(overlay, "interventions") == Some(EncodeItems(canon))
    requires CanonicalJson(p.d, EncodeItems(canon)) == Ok(canon) && Compose(p.d, canon, OriginalsOf(p.d)) == Ok(c)
    requires ValidateDerived(commit, p, body, canon, c).Ok?
    ensures ValidateSpec(commit, p, Sealed(commit, body)).Ok?
  {
    SealedBody(commit, body);
    EqualItself(EncodeItems(canon));
    ChecksAccept(commit, p, Sealed(commit, body), canon, c);
  }

  lemma AcceptedSpelling(commit: Commit, p: Profile, spec: Members, overlay: Value)
    requires Rebuild(commit, p, spec) == Ok(spec) && "profileOverlay" in spec && spec["profileOverlay"].VObj?
    requires Equal(overlay, spec["profileOverlay"]) && overlay.VObj?
    requires ValidateSpec(commit, p, Respelled(commit, spec, overlay)).Ok?
    ensures Member(overlay.members, "interventions") == Member(spec["profileOverlay"].members, "interventions")
  {
    var canon, c := PreparedParts(commit, p, spec);
    TransformMembers(commit, p, CheckpointMember(spec, "stateRoot").value, canon, c.writes);
    RespelledMembers(commit, spec, overlay);
    var canon', c' := AcceptedParts(commit, p, Respelled(commit, spec, overlay));
    AcceptedItemsArePlain(p.d, overlay.members["interventions"]);
    AcceptedItemsArePlain(p.d, EncodeItems(canon));
    EqualWhenPlain(overlay.members["interventions"], EncodeItems(canon));
  }

  // A respelled overlay of a prepared input is accepted exactly when it leaves the items alone, and rebuilds to itself
  // exactly when it is no respelling.
  lemma RespellingExactly(commit: Commit, p: Profile, spec: Members, overlay: Value)
    requires Rebuild(commit, p, spec) == Ok(spec) && "profileOverlay" in spec && spec["profileOverlay"].VObj?
    requires Equal(overlay, spec["profileOverlay"]) && overlay.VObj?
    ensures ValidateSpec(commit, p, Respelled(commit, spec, overlay)).Ok? <==>
            Member(overlay.members, "interventions") == Member(spec["profileOverlay"].members, "interventions")
    ensures Rebuild(commit, p, Respelled(commit, spec, overlay)) == Ok(Respelled(commit, spec, overlay)) <==>
            overlay == spec["profileOverlay"]
  {
    if Member(overlay.members, "interventions") == Member(spec["profileOverlay"].members, "interventions") {
      RespelledAccepted(commit, p, spec, overlay);
    }
    if ValidateSpec(commit, p, Respelled(commit, spec, overlay)).Ok? {
      AcceptedSpelling(commit, p, spec, overlay);
    }
    RespellingRebuilds(commit, p, spec, overlay);
  }

  lemma RespellingRebuilds(commit: Commit, p: Profile, spec: Members, overlay: Value)
    requires Rebuild(commit, p, spec) == Ok(spec) && "profileOverlay" in spec && spec["profileOverlay"].VObj?
    requires Equal(overlay, spec["profileOverlay"]) && overlay.VObj?
    ensures Rebuild(commit, p, Respelled(commit, spec, overlay)) == Ok(Respelled(commit, spec, overlay)) <==>
            overlay == spec["profileOverlay"]
  {
    if overlay == spec["profileOverlay"] {
      NotRespelled(commit, p, spec);
    }
    if Rebuild(commit, p, Respelled(commit, spec, overlay)) == Ok(Respelled(commit, spec, overlay)) {
      RebuiltSpelling(commit, p, spec, overlay);
    }
  }

  lemma NotRespelled(commit: Commit, p: Profile, spec: Members)
    requires Rebuild(commit, p, spec) == Ok(spec) && "profileOverlay" in spec
    ensures Respelled(commit, spec, spec["profileOverlay"]) == spec
  {
    RebuiltIsAccepted(commit, p, spec);
    var canon, c := AcceptedParts(commit, p, spec);
    OwnSeal(commit, spec);
  }

  lemma OwnSeal(commit: Commit, spec: Members)
    requires "profileOverlay" in spec && "scenarioCommitment" in spec
    requires spec["scenarioCommitment"] == VStr(commit(SPEC_DOMAIN, VObj(spec - {"scenarioCommitment"})))
    ensures Respelled(commit, spec, spec["profileOverlay"]) == spec
  {
    var body := spec - {"scenarioCommitment"};
    assert body["profileOverlay" := spec["profileOverlay"]] == body;
    assert body["scenarioCommitment" := spec["scenarioCommitment"]] == spec;
  }

  // The items determine what was composed.
  lemma SameComposed(d: Descriptor, canon: seq<Item>, c: Composed, canon': seq<Item>, c': Composed)
    requires CanonicalJson(d, EncodeItems(canon)) == Ok(canon) && Compose(d, canon, OriginalsOf(d)) == Ok(c)
    requires CanonicalJson(d, EncodeItems(canon')) == Ok(canon') && Compose(d, canon', OriginalsOf(d)) == Ok(c')
    requires EncodeItems(canon) == EncodeItems(canon')
    ensures canon == canon' && c == c'
  {
  }

  lemma RebuiltSpelling(commit: Commit, p: Profile, spec: Members, overlay: Value)
    requires Rebuild(commit, p, spec) == Ok(spec) && "profileOverlay" in spec && spec["profileOverlay"].VObj?
    requires Equal(overlay, spec["profileOverlay"]) && overlay.VObj?
    requires Rebuild(commit, p, Respelled(commit, spec, overlay)) == Ok(Respelled(commit, spec, overlay))
    ensures overlay == spec["profileOverlay"]
  {
    var r := Respelled(commit, spec, overlay);
    RespelledMembers(commit, spec, overlay);
    RebuiltIsAccepted(commit, p, r);
    AcceptedSpelling(commit, p, spec, overlay);
    var canon, c := PreparedParts(commit, p, spec);
    var canon', c' := PreparedParts(commit, p, r);
    TransformMembers(commit, p, CheckpointMember(spec, "stateRoot").value, canon, c.writes);
    TransformMembers(commit, p, CheckpointMember(r, "stateRoot").value, canon', c'.writes);
    SameComposed(p.d, canon, c, canon', c');
  }

  // ----- two respellings ------------------------------------------------------------------------------------

  // The word index of the k-th write in another spelling.
  function WithWordIndex(overlay: Members, k: nat, index: Value): Value
    requires "writes" in overlay && overlay["writes"].VArr? && k < |overlay["writes"].items| && overlay["writes"].items[k].VObj?
  {
    var write := VObj(overlay["writes"].items[k].members["word" := index]);
    VObj(overlay["writes" := VArr(overlay["writes"].items[k := write])])
  }

  lemma WordIndexRespelled(commit: Commit, p: Profile, spec: Members, k: nat, index: Value)
    requires Rebuild(commit, p, spec) == Ok(spec) && "profileOverlay" in spec && spec["profileOverlay"].VObj?
    requires
      var overlay := spec["profileOverlay"].members;
      && "writes" in overlay && overlay["writes"].VArr? && k < |overlay["writes"].items| && overlay["writes"].items[k].VObj?
      && "word" in overlay["writes"].items[k].members
      && index != overlay["writes"].items[k].members["word"] && Equal(index, overlay["writes"].items[k].members["word"])
    ensures
      var r := Respelled(commit, spec, WithWordIndex(spec["profileOverlay"].members, k, index));
      ValidateSpec(commit, p, r).Ok? && Rebuild(commit, p, r) != Ok(r)
  {
    var overlay := spec["profileOverlay"].members;
    var items := overlay["writes"].items;
    var loose := WithWordIndex(overlay, k, index);
    var write := items[k].members["word" := index];
    EqualMembers(write, items[k].members);
    EqualArrays(items[k := VObj(write)], items);
    EqualMembers(loose.members, overlay);
    assert loose.members["writes"].items[k].members["word"] == index;
    RespellingExactly(commit, p, spec, loose);
  }

  // The revision in the overlay's descriptor in another spelling.
  function WithRevision(overlay: Members, revision: Value): Value
    requires "descriptor" in overlay && overlay["descriptor"].VObj?
  {
    VObj(overlay["descriptor" := VObj(overlay["descriptor"].members["revision" := revision])])
  }

  lemma RevisionRespelled(commit: Commit, p: Profile, spec: Members, revision: Value)
    requires Rebuild(commit, p, spec) == Ok(spec) && "profileOverlay" in spec && spec["profileOverlay"].VObj?
    requires
      var overlay := spec["profileOverlay"].members;
      && "descriptor" in overlay && overlay["descriptor"].VObj? && "revision" in overlay["descriptor"].members
      && revision != overlay["descriptor"].members["revision"] && Equal(revision, overlay["descriptor"].members["revision"])
    ensures
      var r := Respelled(commit, spec, WithRevision(spec["profileOverlay"].members, revision));
      ValidateSpec(commit, p, r).Ok? && Rebuild(commit, p, r) != Ok(r)
  {
    var overlay := spec["profileOverlay"].members;
    var loose := WithRevision(overlay, revision);
    EqualMembers(loose.members["descriptor"].members, overlay["descriptor"].members);
    EqualMembers(loose.members, overlay);
    assert loose.members["descriptor"].members["revision"] == revision;
    RespellingExactly(commit, p, spec, loose);
  }
}
