// Applying derived writes to a world's storage: authenticate every original word first, then write only in
// the variant world.
module Worlds {
  import opened Wrappers
  import opened Descriptors
  import opened Composition
  import opened CompositionWrites

  datatype WorldCode = UnknownWorld | WriteTarget | OriginalWordChanged

  type Place = (nat, nat)  // address and slot
  type Storage = map<Place, nat>

  const BASELINE := "SCENARIO_BASELINE"
  const VARIANT := "SCENARIO_VARIANT"

  function PlaceOf(w: Write): Place {
    (w.address, w.slot)
  }

  function PlaceAt(d: Descriptor, t: nat, i: nat): Place
    requires t < |d.targets|
  {
    (ContractNamed(d.contracts, d.targets[t].contract).address, d.targets[t].slot + i)
  }

  // The write names a declared target word by its address and slot.
  predicate Allowed(d: Descriptor, w: Write) {
    exists t: nat, i: nat | t < |d.targets| && i < d.targets[t].words ::
      PlaceAt(d, t, i) == PlaceOf(w) && d.targets[t].name == w.target && i == w.word
  }

  predicate Holding(storage: Storage, w: Write) {
    PlaceOf(w) in storage && storage[PlaceOf(w)] == w.before
  }

  function Overwritten(storage: Storage, writes: seq<Write>): Storage {
    if writes == [] then storage
    else Overwritten(storage, writes[..|writes| - 1])[PlaceOf(writes[|writes| - 1]) := writes[|writes| - 1].after]
  }

  function ApplyOutcome(d: Descriptor, storage: Storage, writes: seq<Write>, world: string): Result<Storage, WorldCode> {
    if world != BASELINE && world != VARIANT then Err(UnknownWorld)
    else if exists w :: w in writes && !Allowed(d, w) then Err(WriteTarget)
    else if exists w :: w in writes && !Holding(storage, w) then Err(OriginalWordChanged)
    else Ok(if world == VARIANT then Overwritten(storage, writes) else storage)
  }

  class World {
    var storage: Storage

    constructor (initial: Storage)
      ensures storage == initial
    {
      storage := initial;
    }

    method SetStorage(place: Place, value: nat)
      modifies this
      ensures storage == old(storage)[place := value]
    {
      storage := storage[place := value];
    }
  }

  method ApplyWrites(d: Descriptor, state: World, writes: seq<Write>, world: string) returns (r: Result<seq<Write>, WorldCode>)
    modifies state
    ensures r.Ok? <==> ApplyOutcome(d, old(state.storage), writes, world).Ok?
    ensures r.Err? ==> ApplyOutcome(d, old(state.storage), writes, world) == Err(r.error) && state.storage == old(state.storage)
    ensures r.Ok? ==> ApplyOutcome(d, old(state.storage), writes, world) == Ok(state.storage)
    ensures r.Ok? ==> |r.value| == |writes| && forall k :: 0 <= k < |writes| ==>
              r.value[k] == if world == VARIANT then writes[k] else writes[k].(after := writes[k].before)
  {
    if world != BASELINE && world != VARIANT {
      return Err(UnknownWorld);
    }
    for k := 0 to |writes|
      invariant forall l :: 0 <= l < k ==> Allowed(d, writes[l])
    {
      if !Allowed(d, writes[k]) {
        return Err(WriteTarget);
      }
    }
    for k := 0 to |writes|
      invariant forall l :: 0 <= l < k ==> Holding(state.storage, writes[l])
    {
      if !Holding(state.storage, writes[k]) {
        return Err(OriginalWordChanged);
      }
    }
    if world == VARIANT {
      for k := 0 to |writes|
        invariant state.storage == Overwritten(old(state.storage), writes[..k])
      {
        assert writes[..k + 1][..k] == writes[..k];
        state.SetStorage(PlaceOf(writes[k]), writes[k].after);
      }
      assert writes[..|writes|] == writes;
    }
    return Ok(seq(|writes|, (k: int) requires 0 <= k < |writes| =>
      if world == VARIANT then writes[k] else writes[k].(after := writes[k].before)));
  }

  // ----- places ---------------------------------------------------------------------------------------------

  lemma {:induction false} SameAddressSameContract(contracts: seq<Contract>, x: string, y: string)
    requires forall i, j :: 0 <= i < j < |contracts| ==> contracts[i].address != contracts[j].address
    requires HasContract(contracts, x) && HasContract(contracts, y)
    requires ContractNamed(contracts, x).address == ContractNamed(contracts, y).address
    ensures x == y
  {
    ContractFound(contracts, x);
    ContractFound(contracts, y);
    var i :| 0 <= i < |contracts| && contracts[i] == ContractNamed(contracts, x);
    var j :| 0 <= j < |contracts| && contracts[j] == ContractNamed(contracts, y);
    assert i == j;
  }

  // Different declared words live in different places.
  lemma PlacesDistinct(d: Descriptor, t: nat, i: nat, t': nat, i': nat)
    requires Valid(d) && t < |d.targets| && i < d.targets[t].words && t' < |d.targets| && i' < d.targets[t'].words
    requires PlaceAt(d, t, i) == PlaceAt(d, t', i')
    ensures t == t' && i == i'
  {
    assert TargetOk(d, d.targets[t]) && TargetOk(d, d.targets[t']);
    SameAddressSameContract(d.contracts, d.targets[t].contract, d.targets[t'].contract);
    assert t == t';
  }

  ghost predicate PlacesApart(d: Descriptor) {
    forall t: nat, i: nat, t': nat, i': nat ::
      t < |d.targets| && i < d.targets[t].words && t' < |d.targets| && i' < d.targets[t'].words && PlaceAt(d, t, i) == PlaceAt(d, t', i')
      ==> t == t' && i == i'
  }

  lemma ValidPlacesApart(d: Descriptor)
    requires Valid(d)
    ensures PlacesApart(d)
  {
    forall t: nat, i: nat, t': nat, i': nat |
      t < |d.targets| && i < d.targets[t].words && t' < |d.targets| && i' < d.targets[t'].words && PlaceAt(d, t, i) == PlaceAt(d, t', i')
      ensures t == t' && i == i'
    {
      PlacesDistinct(d, t, i, t', i');
    }
  }

  // ----- overwriting ----------------------------------------------------------------------------------------

  lemma {:induction false} OverwrittenElsewhere(storage: Storage, writes: seq<Write>, place: Place)
    requires forall w :: w in writes ==> PlaceOf(w) != place
    ensures place in Overwritten(storage, writes) <==> place in storage
    ensures place in storage ==> Overwritten(storage, writes)[place] == storage[place]
  {
    if writes != [] {
      assert writes[|writes| - 1] in writes;
      OverwrittenElsewhere(storage, writes[..|writes| - 1], place);
    }
  }

  lemma {:induction false} OverwrittenAt(storage: Storage, writes: seq<Write>, k: nat)
    requires k < |writes| && forall i, j :: 0 <= i < j < |writes| ==> PlaceOf(writes[i]) != PlaceOf(writes[j])
    ensures PlaceOf(writes[k]) in Overwritten(storage, writes)
    ensures Overwritten(storage, writes)[PlaceOf(writes[k])] == writes[k].after
  {
    if k < |writes| - 1 {
      OverwrittenAt(storage, writes[..|writes| - 1], k);
    }
  }

  // ----- composed writes in the two worlds ------------------------------------------------------------------

  // The storage holds these words at the declared places.
  ghost predicate Stores(d: Descriptor, storage: Storage, words: Words) {
    forall t: nat, i: nat :: t < |d.targets| && i < d.targets[t].words ==>
      PlaceAt(d, t, i) in storage && storage[PlaceAt(d, t, i)] == WordAt(words, d.targets[t].name, i)
  }

  lemma OriginOf(d: Descriptor, originals: Words, words: Words, writes: seq<Write>, w: Write) returns (t: nat, i: nat)
    requires ExactlyTheChanges(d, originals, words, writes) && w in writes
    ensures ChangedAt(d, originals, words, t, i) && w == WriteAt(d, originals, words, t, i)
    ensures PlaceAt(d, t, i) == PlaceOf(w) && d.targets[t].name == w.target && w.word == i
  {
    t, i :| ChangedAt(d, originals, words, t, i) && w == WriteAt(d, originals, words, t, i);
  }

  lemma ChangePlacesApart(d: Descriptor, originals: Words, words: Words, writes: seq<Write>, k: nat, l: nat)
    requires PlacesApart(d) && ExactlyTheChanges(d, originals, words, writes) && k < l < |writes|
    ensures PlaceOf(writes[k]) != PlaceOf(writes[l])
  {
    var t, i := OriginOf(d, originals, words, writes, writes[k]);
    var t', i' := OriginOf(d, originals, words, writes, writes[l]);
  }

  lemma ChangesAllowed(d: Descriptor, originals: Words, words: Words, writes: seq<Write>)
    requires ExactlyTheChanges(d, originals, words, writes)
    ensures forall w :: w in writes ==> Allowed(d, w)
  {
    forall w | w in writes
      ensures Allowed(d, w)
    {
      var t, i := OriginOf(d, originals, words, writes, w);
    }
  }

  lemma MatchingStateHolds(d: Descriptor, storage: Storage, originals: Words, words: Words, writes: seq<Write>)
    requires ExactlyTheChanges(d, originals, words, writes) && Stores(d, storage, originals)
    ensures forall w :: w in writes ==> Holding(storage, w)
  {
    forall w | w in writes
      ensures Holding(storage, w)
    {
      var t, i := OriginOf(d, originals, words, writes, w);
    }
  }

  lemma UnchangedNotWritten(d: Descriptor, originals: Words, words: Words, writes: seq<Write>, t: nat, i: nat)
    requires PlacesApart(d) && ExactlyTheChanges(d, originals, words, writes)
    requires t < |d.targets| && i < d.targets[t].words && !ChangedAt(d, originals, words, t, i)
    ensures forall w :: w in writes ==> PlaceOf(w) != PlaceAt(d, t, i)
  {
    forall w | w in writes
      ensures PlaceOf(w) != PlaceAt(d, t, i)
    {
      var t', i' := OriginOf(d, originals, words, writes, w);
    }
  }

  lemma OverwrittenWord(d: Descriptor, storage: Storage, originals: Words, words: Words, writes: seq<Write>, t: nat, i: nat)
    requires PlacesApart(d) && ExactlyTheChanges(d, originals, words, writes) && Stores(d, storage, originals)
    requires t < |d.targets| && i < d.targets[t].words
    ensures PlaceAt(d, t, i) in Overwritten(storage, writes)
    ensures Overwritten(storage, writes)[PlaceAt(d, t, i)] == WordAt(words, d.targets[t].name, i)
  {
    if ChangedAt(d, originals, words, t, i) {
      assert WriteAt(d, originals, words, t, i) in writes;
      var k :| 0 <= k < |writes| && writes[k] == WriteAt(d, originals, words, t, i);
      forall a, b | 0 <= a < b < |writes|
        ensures PlaceOf(writes[a]) != PlaceOf(writes[b])
      {
        ChangePlacesApart(d, originals, words, writes, a, b);
      }
      OverwrittenAt(storage, writes, k);
    } else {
      UnchangedNotWritten(d, originals, words, writes, t, i);
      OverwrittenElsewhere(storage, writes, PlaceAt(d, t, i));
    }
  }

  // On a state that holds the originals, the composed writes are accepted in both worlds: the baseline is left
  // as it is; the variant holds the composed words at the declared places and everything else as before.
  lemma WorldsOfComposition(d: Descriptor, items: seq<Item>, originals: Words, c: Composed, storage: Storage)
    requires Valid(d) && Compose(d, items, originals) == Ok(c) && Stores(d, storage, originals)
    ensures ApplyOutcome(d, storage, c.writes, BASELINE) == Ok(storage)
    ensures ApplyOutcome(d, storage, c.writes, VARIANT).Ok?
    ensures
      var variant := ApplyOutcome(d, storage, c.writes, VARIANT).value;
      && Stores(d, variant, c.words)
      && forall place :: (forall t: nat, i: nat :: t < |d.targets| && i < d.targets[t].words ==> PlaceAt(d, t, i) != place) ==>
           (place in variant <==> place in storage) && (place in storage ==> variant[place] == storage[place])
  {
    ValidPlacesApart(d);
    WritesAreTheChanges(d, items, originals, c);
    ChangesAllowed(d, originals, c.words, c.writes);
    MatchingStateHolds(d, storage, originals, c.words, c.writes);
    var variant := Overwritten(storage, c.writes);
    assert ApplyOutcome(d, storage, c.writes, VARIANT) == Ok(variant);
    forall t: nat, i: nat | t < |d.targets| && i < d.targets[t].words
      ensures PlaceAt(d, t, i) in variant && variant[PlaceAt(d, t, i)] == WordAt(c.words, d.targets[t].name, i)
    {
      OverwrittenWord(d, storage, originals, c.words, c.writes, t, i);
    }
    forall place | forall t: nat, i: nat :: t < |d.targets| && i < d.targets[t].words ==> PlaceAt(d, t, i) != place
      ensures place in variant <==> place in storage
      ensures place in storage ==> variant[place] == storage[place]
    {
      forall w | w in c.writes
        ensures PlaceOf(w) != place
      {
        var t, i := OriginOf(d, originals, c.words, c.writes, w);
      }
      OverwrittenElsewhere(storage, c.writes, place);
    }
  }

  // The same writes are never accepted a second time: the variant no longer holds their originals.
  lemma NeverAppliedTwice(d: Descriptor, items: seq<Item>, originals: Words, c: Composed, storage: Storage, world: string)
    requires Valid(d) && Compose(d, items, originals) == Ok(c)
    requires ApplyOutcome(d, storage, c.writes, VARIANT).Ok? && (world == BASELINE || world == VARIANT)
    ensures ApplyOutcome(d, ApplyOutcome(d, storage, c.writes, VARIANT).value, c.writes, world) == Err(OriginalWordChanged)
  {
    ValidPlacesApart(d);
    WritesAreTheChanges(d, items, originals, c);
    SomethingIsWritten(d, items, originals, c);
    ChangesAllowed(d, originals, c.words, c.writes);
    forall a, b | 0 <= a < b < |c.writes|
      ensures PlaceOf(c.writes[a]) != PlaceOf(c.writes[b])
    {
      ChangePlacesApart(d, originals, c.words, c.writes, a, b);
    }
    OverwrittenAt(storage, c.writes, 0);
    var w := c.writes[0];
    var t, i := OriginOf(d, originals, c.words, c.writes, w);
    assert w in c.writes && !Holding(Overwritten(storage, c.writes), w);
  }
}
