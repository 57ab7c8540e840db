// The EXACT_WORDS originals of a descriptor: the only words `Compose` accepts.
// A descriptor lists one pin for each word of each target, in any order; the reader fills one row of words for each
// target from those pins.
module Originals {
  import opened Bits
  import opened Descriptors
  import opened Composition

  function PinnedValue(pins: seq<OriginalWord>, target: string, i: nat): nat {
    if pins == [] then 0
    else if pins[|pins| - 1].target == target && pins[|pins| - 1].word == i then pins[|pins| - 1].value
    else PinnedValue(pins[..|pins| - 1], target, i)
  }

  function OriginalsOf(d: Descriptor): Words {
    map n | n in TargetNames(d) :: PinnedRow(d.originalState, TargetNamed(d.targets, n))
  }

  function PinnedRow(pins: seq<OriginalWord>, t: Target): seq<nat> {
    seq(t.words, (i: int) requires 0 <= i < t.words => PinnedValue(pins, t.name, i))
  }

  // The words after the pins read so far.
  ghost predicate HoldsPins(d: Descriptor, pins: seq<OriginalWord>, words: Words) {
    && words.Keys == TargetNames(d)
    && forall n :: n in words ==> words[n] == PinnedRow(pins, TargetNamed(d.targets, n))
  }

  lemma OneMorePin(d: Descriptor, pins: seq<OriginalWord>, words: Words, w: OriginalWord)
    requires HoldsPins(d, pins, words) && OriginalOk(d, w)
    ensures w.target in words && w.word < |words[w.target]|
    ensures HoldsPins(d, pins + [w], SetWord(words, w.target, w.word, w.value))
  {
    TargetFound(d.targets, w.target);
    assert w.target in TargetNames(d);
    assert (pins + [w])[..|pins|] == pins;
    var words' := SetWord(words, w.target, w.word, w.value);
    forall n | n in words'
      ensures words'[n] == PinnedRow(pins + [w], TargetNamed(d.targets, n))
    {
      var k :| 0 <= k < |d.targets| && d.targets[k].name == n;
      TargetFound(d.targets, n);
    }
  }

  // words[w.target][w.word] = w.value, pin by pin
  method ReadOriginals(d: Descriptor) returns (words: Words)
    requires ValidOriginals(d)
    ensures words == OriginalsOf(d)
  {
    words := map n | n in TargetNames(d) :: PinnedRow([], TargetNamed(d.targets, n));
    for k := 0 to |d.originalState|
      invariant HoldsPins(d, d.originalState[..k], words)
    {
      var w := d.originalState[k];
      OneMorePin(d, d.originalState[..k], words, w);
      assert d.originalState[..k + 1] == d.originalState[..k] + [w];
      words := SetWord(words, w.target, w.word, w.value);
    }
    assert d.originalState[..|d.originalState|] == d.originalState;
  }

  lemma {:induction false} PinnedValueOfPin(pins: seq<OriginalWord>, k: nat)
    requires k < |pins|
    requires forall i, j :: 0 <= i < j < |pins| ==> !(pins[i].target == pins[j].target && pins[i].word == pins[j].word)
    ensures PinnedValue(pins, pins[k].target, pins[k].word) == pins[k].value
  {
    if k < |pins| - 1 {
      assert pins[..|pins| - 1][k] == pins[k];
      PinnedValueOfPin(pins[..|pins| - 1], k);
    }
  }

  lemma OriginalRow(d: Descriptor, t: nat)
    requires ValidTargets(d) && t < |d.targets|
    ensures d.targets[t].name in OriginalsOf(d)
    ensures OriginalsOf(d)[d.targets[t].name] == PinnedRow(d.originalState, d.targets[t])
  {
    TargetByIndex(d.targets, t);
  }

  lemma PinnedIsWord(d: Descriptor, t: nat, i: nat)
    requires ValidOriginals(d) && t < |d.targets| && i < d.targets[t].words
    ensures IsWord(PinnedValue(d.originalState, d.targets[t].name, i))
  {
    assert PinsWord(d, d.targets[t].name, i);
    var k :| 0 <= k < |d.originalState| && d.originalState[k].target == d.targets[t].name && d.originalState[k].word == i;
    PinnedValueOfPin(d.originalState, k);
    assert OriginalOk(d, d.originalState[k]);
  }

  lemma OriginalRowsAreWords(d: Descriptor, t: nat)
    requires ValidTargets(d) && ValidOriginals(d) && t < |d.targets|
    ensures
      var words, n := OriginalsOf(d), d.targets[t].name;
      n in words && |words[n]| == d.targets[t].words && forall w :: 0 <= w < |words[n]| ==> IsWord(words[n][w])
  {
    OriginalRow(d, t);
    forall w | 0 <= w < d.targets[t].words
      ensures IsWord(PinnedRow(d.originalState, d.targets[t])[w])
    {
      PinnedIsWord(d, t, w);
    }
  }

  lemma PinMatches(d: Descriptor, k: nat)
    requires ValidTargets(d) && ValidOriginals(d) && k < |d.originalState|
    ensures WordAt(OriginalsOf(d), d.originalState[k].target, d.originalState[k].word) == d.originalState[k].value
  {
    assert OriginalOk(d, d.originalState[k]);
    TargetFound(d.targets, d.originalState[k].target);
    var t :| 0 <= t < |d.targets| && d.targets[t] == TargetNamed(d.targets, d.originalState[k].target);
    OriginalRow(d, t);
    PinnedValueOfPin(d.originalState, k);
  }

  lemma OriginalsAreSupplied(d: Descriptor)
    requires ValidTargets(d) && ValidOriginals(d)
    ensures Supplied(d, OriginalsOf(d)) && MatchesOriginals(d, OriginalsOf(d))
  {
    forall t | 0 <= t < |d.targets|
      ensures
        var words, n := OriginalsOf(d), d.targets[t].name;
        n in words && |words[n]| == d.targets[t].words && forall w :: 0 <= w < |words[n]| ==> IsWord(words[n][w])
    {
      OriginalRowsAreWords(d, t);
    }
    forall k | 0 <= k < |d.originalState|
      ensures WordAt(OriginalsOf(d), d.originalState[k].target, d.originalState[k].word) == d.originalState[k].value
    {
      PinMatches(d, k);
    }
  }

  lemma MatchingRow(d: Descriptor, words: Words, t: nat)
    requires ValidTargets(d) && ValidOriginals(d) && Supplied(d, words) && MatchesOriginals(d, words) && t < |d.targets|
    ensures words[d.targets[t].name] == PinnedRow(d.originalState, d.targets[t])
  {
    var n := d.targets[t].name;
    forall i | 0 <= i < |words[n]|
      ensures words[n][i] == PinnedValue(d.originalState, n, i)
    {
      assert PinsWord(d, n, i);
      var k :| 0 <= k < |d.originalState| && d.originalState[k].target == n && d.originalState[k].word == i;
      PinnedValueOfPin(d.originalState, k);
    }
  }

  // Exactly one set of words passes the two original-state checks.
  lemma OnlyTheOriginalsPass(d: Descriptor, words: Words)
    requires Valid(d)
    ensures Supplied(d, words) && MatchesOriginals(d, words) <==> words == OriginalsOf(d)
  {
    OriginalsAreSupplied(d);
    if Supplied(d, words) && MatchesOriginals(d, words) {
      forall n | n in words
        ensures words[n] == OriginalsOf(d)[n]
      {
        assert n in TargetNames(d);
        var t :| 0 <= t < |d.targets| && d.targets[t].name == n;
        OriginalRow(d, t);
        MatchingRow(d, words, t);
      }
    }
  }
}
