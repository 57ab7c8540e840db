// What a prepared input says about the change: its overlay spells every changed word before and after.
module PreparedTexts {
  import opened Wrappers
  import opened Descriptors
  import opened Composition
  import opened CompositionWrites
  import opened Originals
  import opened SpelledValues
  import opened PreparedInputs

  // This entry spells the change of word i of the t-th target.
  predicate SpellsChange(v: Value, d: Descriptor, originals: Words, words: Words, t: nat, i: nat)
    requires t < |d.targets|
  {
    var target := d.targets[t];
    && v.VObj? && v.members.Keys == {"address", "after", "before", "slot", "target", "word"}
    && v.members["target"] == VStr(target.name) && v.members["word"] == VInt(i)
    && v.members["address"] == VStr(AddressText(ContractNamed(d.contracts, target.contract).address))
    && v.members["slot"] == VStr(WordText(target.slot + i))
    && v.members["before"] == VStr(WordText(WordAt(originals, target.name, i)))
    && v.members["after"] == VStr(WordText(WordAt(words, target.name, i)))
  }

  lemma WriteSpells(d: Descriptor, originals: Words, words: Words, t: nat, i: nat)
    requires t < |d.targets|
    ensures SpellsChange(WriteJson(WriteAt(d, originals, words, t, i)), d, originals, words, t, i)
  {
  }

  ghost predicate SpellsSomeChange(v: Value, d: Descriptor, originals: Words, words: Words) {
    exists t: nat, i: nat :: ChangedAt(d, originals, words, t, i) && SpellsChange(v, d, originals, words, t, i)
  }

  // The entries spell the changes and nothing else.
  ghost predicate SpellsChanges(entries: seq<Value>, d: Descriptor, originals: Words, words: Words) {
    && (forall k :: 0 <= k < |entries| ==> SpellsSomeChange(entries[k], d, originals, words))
    && (forall t: nat, i: nat :: ChangedAt(d, originals, words, t, i) ==>
          exists k :: 0 <= k < |entries| && SpellsChange(entries[k], d, originals, words, t, i))
  }

  lemma WritesSpell(d: Descriptor, originals: Words, words: Words, writes: seq<Write>)
    requires ExactlyTheChanges(d, originals, words, writes)
    ensures SpellsChanges(WritesJson(writes).items, d, originals, words)
  {
    var entries := WritesJson(writes).items;
    forall k | 0 <= k < |entries|
      ensures SpellsSomeChange(entries[k], d, originals, words)
    {
      assert writes[k] in writes && entries[k] == WriteJson(writes[k]);
      var t: nat, i: nat :| ChangedAt(d, originals, words, t, i) && writes[k] == WriteAt(d, originals, words, t, i);
      WriteSpells(d, originals, words, t, i);
    }
    forall t: nat, i: nat | ChangedAt(d, originals, words, t, i)
      ensures exists k :: 0 <= k < |entries| && SpellsChange(entries[k], d, originals, words, t, i)
    {
      var k :| 0 <= k < |writes| && writes[k] == WriteAt(d, originals, words, t, i);
      WriteSpells(d, originals, words, t, i);
      assert entries[k] == WriteJson(writes[k]);
    }
  }

  // Every input that is built says so: what was composed on the originals, word by word, and the words of the
  // configuration target before and after.
  lemma BuiltInputSpellsTheChanges(commit: Commit, p: Profile, source: Members, items: Value, engine: Value)
    requires Valid(p.d) && BuildSpec(commit, p, source, items, engine).Ok?
    ensures CanonicalJson(p.d, items).Ok? && Compose(p.d, CanonicalJson(p.d, items).value, OriginalsOf(p.d)).Ok?
    ensures
      var s, originals, target := BuildSpec(commit, p, source, items, engine).value, OriginalsOf(p.d), p.d.configurationTarget;
      var words := Compose(p.d, CanonicalJson(p.d, items).value, originals).value.words;
      && "profileOverlay" in s && s["profileOverlay"].VObj?
      && "writes" in s["profileOverlay"].members && s["profileOverlay"].members["writes"].VArr?
      && SpellsChanges(s["profileOverlay"].members["writes"].items, p.d, originals, words)
      && Member(s, "configurations") ==
         Some(VObj(map["baseline" := VArr(WordTexts(RowOf(originals, target))), "variant" := VArr(WordTexts(RowOf(words, target)))]))
  {
    var canon, c := BuiltParts(commit, p, source, items, engine);
    var stateRoot := CheckpointMember(source, "stateRoot").value;
    AssembledParts(commit, p, source, engine, canon, c);
    TransformWrites(commit, p, stateRoot, canon, c.writes);
    WritesAreTheChanges(p.d, canon, OriginalsOf(p.d), c);
    WritesSpell(p.d, OriginalsOf(p.d), c.words, c.writes);
  }
}
