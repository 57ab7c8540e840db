// The depth scanner agrees with the parser on every text that parses.
module JsonDepth {
  import opened Wrappers
  import opened JsonValues
  import opened JsonText
  import opened JsonParser
  import opened JsonRoundTrip
  import opened JsonGrammar
  import opened JsonReading

  function Outside(depth: int, peak: int): Scan {
    Scan(depth, false, false, peak)
  }

  function Inside(depth: int, peak: int): Scan {
    Scan(depth, true, false, peak)
  }

  // ----- text that leaves the scanner alone -------------------------------------------------------------------

  predicate Plain(c: char) {
    c != '"' && c != '\\' && c != '[' && c != '{' && c != ']' && c != '}'
  }

  lemma {:induction false} PlainScan(st: Scan, s: string, k: nat)
    requires k <= |s| && !st.escape && forall i :: 0 <= i < k ==> Plain(s[i])
    ensures ScanAll(st, s) == ScanAll(st, s[k..])
    decreases k
  {
    if k > 0 {
      assert Step(st, s[0]) == st;
      PlainScan(st, s[1..], k - 1);
      assert s[1..][k - 1..] == s[k..];
    } else {
      assert s[0..] == s;
    }
  }

  lemma {:induction false} SpaceScan(depth: int, peak: int, s: string)
    ensures ScanAll(Outside(depth, peak), s) == ScanAll(Outside(depth, peak), SkipSpace(s))
    decreases |s|
  {
    if s != "" && IsSpace(s[0]) {
      SpaceScan(depth, peak, s[1..]);
    }
  }

  lemma {:induction false} DigitsScan(depth: int, peak: int, s: string, n: nat)
    ensures ScanAll(Outside(depth, peak), s) == ScanAll(Outside(depth, peak), Digits(s, n).1)
    decreases |s|
  {
    if StartsWithDigit(s) {
      DigitsScan(depth, peak, s[1..], 10 * n + (s[0] - '0') as nat);
    }
  }

  lemma NatScan(depth: int, peak: int, s: string)
    requires ParseNat(s).Ok?
    ensures ScanAll(Outside(depth, peak), s) == ScanAll(Outside(depth, peak), ParseNat(s).value.1)
  {
    PlainScan(Outside(depth, peak), s, 1);
    if s[0] != '0' {
      DigitsScan(depth, peak, s[1..], (s[0] - '0') as nat);
    }
  }

  lemma IntScan(depth: int, peak: int, s: string)
    requires ParseInt(s).Ok?
    ensures ScanAll(Outside(depth, peak), s) == ScanAll(Outside(depth, peak), ParseInt(s).value.1)
  {
    if s != "" && s[0] == '-' {
      PlainScan(Outside(depth, peak), s, 1);
      NatScan(depth, peak, s[1..]);
    } else {
      NatScan(depth, peak, s);
    }
  }

  // ----- strings ----------------------------------------------------------------------------------------------

  lemma Hex4Plain(s: string)
    requires Hex4(s).Some?
    ensures forall i :: 0 <= i < 4 ==> Plain(s[i])
  {
    assert HexValue(s[0]).Some? && HexValue(s[1]).Some? && HexValue(s[2]).Some? && HexValue(s[3]).Some?;
  }

  lemma Hex4Scan(depth: int, peak: int, s: string)
    requires Hex4(s).Some?
    ensures ScanAll(Inside(depth, peak), s) == ScanAll(Inside(depth, peak), s[4..])
  {
    Hex4Plain(s);
    PlainScan(Inside(depth, peak), s, 4);
  }

  // A backslash and the character it escapes.
  lemma EscapedScan(depth: int, peak: int, s: string)
    requires |s| >= 2 && s[0] == '\\'
    ensures ScanAll(Inside(depth, peak), s) == ScanAll(Inside(depth, peak), s[2..])
  {
    assert s[1..][1..] == s[2..];
    assert ScanAll(Inside(depth, peak), s) == ScanAll(Scan(depth, true, true, peak), s[1..]);
  }

  lemma UnicodeScan(depth: int, peak: int, s: string)
    requires UnicodeEscape(s).Ok?
    ensures ScanAll(Inside(depth, peak), s) == ScanAll(Inside(depth, peak), UnicodeEscape(s).value.1)
  {
    var high := Hex4(s);
    Hex4Scan(depth, peak, s);
    if 0xD800 <= high.value < 0xE000 {
      EscapedScan(depth, peak, s[4..]);
      assert s[4..][2..] == s[6..];
      Hex4Scan(depth, peak, s[6..]);
      assert s[6..][4..] == s[10..];
    }
  }

  // A string ends the quotation it began and nothing else.
  lemma {:induction false} StringScan(depth: int, peak: int, s: string)
    requires ParseString(s).Ok?
    ensures ScanAll(Inside(depth, peak), s) == ScanAll(Outside(depth, peak), ParseString(s).value.1)
    decreases |s|
  {
    if s[0] == '"' {
      assert Step(Inside(depth, peak), s[0]) == Outside(depth, peak);
    } else if s[0] == '\\' {
      EscapedScan(depth, peak, s);
      if s[1] == 'u' {
        UnicodeScan(depth, peak, s[2..]);
        StringScan(depth, peak, UnicodeEscape(s[2..]).value.1);
      } else {
        StringScan(depth, peak, s[2..]);
      }
    } else {
      assert Step(Inside(depth, peak), s[0]) == Inside(depth, peak);
      StringScan(depth, peak, s[1..]);
    }
  }

  // ----- values -----------------------------------------------------------------------------------------------

  ghost function ListNesting(items: seq<Json>): nat {
    if items == [] then 0 else Max(Nesting(items[0]), ListNesting(items[1..]))
  }

  ghost function PairsNesting(pairs: Pairs): nat {
    if pairs == [] then 0 else Max(Nesting(pairs[0].1), PairsNesting(pairs[1..]))
  }

  lemma {:induction false} ArrayNesting(v: Json, i: nat)
    requires v.JArr? && i <= |v.items|
    ensures ItemsNesting(v, i) == ListNesting(v.items[i..])
    decreases |v.items| - i
  {
    if i < |v.items| {
      ArrayNesting(v, i + 1);
      assert v.items[i..][1..] == v.items[i + 1..];
    }
  }

  lemma {:induction false} PairsAreMembers(v: Json, keys: seq<string>, pairs: Pairs)
    requires v.JObj? && |keys| == |pairs| && (forall k :: k in keys ==> k in v.members)
    requires forall i :: 0 <= i < |pairs| ==> keys[i] == pairs[i].0 && v.members[keys[i]] == pairs[i].1
    ensures MembersNesting(v, keys) == PairsNesting(pairs)
  {
    if keys != [] {
      PairsAreMembers(v, keys[1..], pairs[1..]);
    }
  }

  function KeysOf(pairs: Pairs): seq<string> {
    seq(|pairs|, (i: int) requires 0 <= i < |pairs| => pairs[i].0)
  }

  lemma KeysOfObject(pairs: Pairs)
    requires UniqueKeys(pairs)
    ensures forall k :: k in KeysOf(pairs) <==> k in ToMap(pairs)
  {
    var keys := KeysOf(pairs);
    ToMapHolds(pairs);
    forall k
      ensures k in keys <==> k in ToMap(pairs)
    {
      if k in ToMap(pairs) {
        var i :| 0 <= i < |pairs| && pairs[i].0 == k;
        assert keys[i] == k;
      }
      if k in keys {
        var i :| 0 <= i < |keys| && keys[i] == k;
        assert pairs[i].0 == k;
      }
    }
  }

  // The nesting of an object read from pairs, whatever their order.
  lemma ObjectNesting(pairs: Pairs)
    requires UniqueKeys(pairs)
    ensures Nesting(JObj(ToMap(pairs))) == 1 + PairsNesting(pairs)
  {
    var v, keys := JObj(ToMap(pairs)), KeysOf(pairs);
    KeysOfObject(pairs);
    ToMapHolds(pairs);
    NestingForgetsOrder(v, keys, SortedKeys(v.members.Keys));
    PairsAreMembers(v, keys, pairs);
  }

  // The peak after reading a value at a depth.
  function Raised(depth: int, peak: int, nesting: int): int {
    Max(peak, depth + nesting)
  }

  lemma RaisedTwice(depth: int, peak: int, a: int, b: int)
    ensures Raised(depth, Raised(depth, peak, a), b) == Raised(depth, peak, Max(a, b))
  {
  }

  lemma OneMoreItem(v: Json, more: seq<Json>)
    ensures ListNesting([v] + more) == Max(Nesting(v), ListNesting(more))
  {
    assert ([v] + more)[1..] == more;
  }

  lemma OneMorePair(p: (string, Json), more: Pairs)
    ensures PairsNesting([p] + more) == Max(Nesting(p.1), PairsNesting(more))
  {
    assert ([p] + more)[1..] == more;
  }

  lemma {:induction false} ItemsScan(depth: int, peak: int, s: string)
    requires depth <= peak && ParseItems(s).Ok?
    ensures
      var r := ParseItems(s).value;
      ScanAll(Outside(depth, peak), s) == ScanAll(Outside(depth - 1, Raised(depth, peak, ListNesting(r.0))), r.1)
    decreases |s|, 2
  {
    var first := ParseValue(s).value;
    var raised := Raised(depth, peak, Nesting(first.0));
    ValueScan(depth, peak, s);
    SpaceScan(depth, raised, first.1);
    var after := SkipSpace(first.1);
    if after[0] == ']' {
      assert Step(Outside(depth, raised), after[0]) == Outside(depth - 1, raised);
      OneMoreItem(first.0, []);
      assert [first.0] + [] == [first.0];
    } else {
      assert Step(Outside(depth, raised), after[0]) == Outside(depth, raised);
      SpaceScan(depth, raised, after[1..]);
      ItemsScan(depth, raised, SkipSpace(after[1..]));
      var more := ParseItems(SkipSpace(after[1..])).value.0;
      OneMoreItem(first.0, more);
      RaisedTwice(depth, peak, Nesting(first.0), ListNesting(more));
    }
  }

  lemma {:induction false} MemberScan(depth: int, peak: int, s: string)
    requires depth <= peak && ParseMember(s).Ok?
    ensures
      var r := ParseMember(s).value;
      ScanAll(Outside(depth, peak), s) == ScanAll(Outside(depth, Raised(depth, peak, Nesting(r.0.1))), r.1)
    decreases |s|, 0
  {
    var key := ParseString(s[1..]).value;
    assert Step(Outside(depth, peak), s[0]) == Inside(depth, peak);
    StringScan(depth, peak, s[1..]);
    SpaceScan(depth, peak, key.1);
    var colon := SkipSpace(key.1);
    assert Step(Outside(depth, peak), colon[0]) == Outside(depth, peak);
    SpaceScan(depth, peak, colon[1..]);
    ValueScan(depth, peak, SkipSpace(colon[1..]));
  }

  lemma {:induction false} MembersScan(depth: int, peak: int, s: string)
    requires depth <= peak && ParseMembers(s).Ok?
    ensures
      var r := ParseMembers(s).value;
      ScanAll(Outside(depth, peak), s) == ScanAll(Outside(depth - 1, Raised(depth, peak, PairsNesting(r.0))), r.1)
    decreases |s|, 1
  {
    var first := ParseMember(s).value;
    var raised := Raised(depth, peak, Nesting(first.0.1));
    MemberScan(depth, peak, s);
    SpaceScan(depth, raised, first.1);
    var after := SkipSpace(first.1);
    if after[0] == '}' {
      assert Step(Outside(depth, raised), after[0]) == Outside(depth - 1, raised);
      OneMorePair(first.0, []);
      assert [first.0] + [] == [first.0];
    } else {
      assert Step(Outside(depth, raised), after[0]) == Outside(depth, raised);
      SpaceScan(depth, raised, after[1..]);
      MembersScan(depth, raised, SkipSpace(after[1..]));
      var more := ParseMembers(SkipSpace(after[1..])).value.0;
      OneMorePair(first.0, more);
      RaisedTwice(depth, peak, Nesting(first.0.1), PairsNesting(more));
    }
  }

  lemma OpenScan(depth: int, peak: int, s: string)
    requires s != "" && (s[0] == '[' || s[0] == '{')
    ensures ScanAll(Outside(depth, peak), s) == ScanAll(Outside(depth + 1, Max(peak, depth + 1)), SkipSpace(s[1..]))
  {
    assert Step(Outside(depth, peak), s[0]) == Outside(depth + 1, Max(peak, depth + 1));
    SpaceScan(depth + 1, Max(peak, depth + 1), s[1..]);
  }

  lemma CloseScan(depth: int, peak: int, s: string)
    requires s != "" && (s[0] == ']' || s[0] == '}')
    ensures ScanAll(Outside(depth, peak), s) == ScanAll(Outside(depth - 1, peak), s[1..])
  {
    assert Step(Outside(depth, peak), s[0]) == Outside(depth - 1, peak);
  }

  lemma RaisedInside(depth: int, peak: int, nesting: nat)
    ensures Raised(depth + 1, Max(peak, depth + 1), nesting) == Raised(depth, peak, 1 + nesting)
  {
  }

  // What an array's text is made of.
  lemma ArrayParts(s: string)
    requires s != "" && s[0] == '[' && ParseValue(s).Ok?
    ensures
      var inside := SkipSpace(s[1..]);
      if inside != "" && inside[0] == ']' then ParseValue(s) == Ok((JArr([]), inside[1..]))
      else ParseItems(inside).Ok? && ParseValue(s) == Ok((JArr(ParseItems(inside).value.0), ParseItems(inside).value.1))
  {
  }

  lemma EmptyScan(depth: int, peak: int, s: string)
    requires s != "" && (s[0] == '[' || s[0] == '{')
    requires
      var inside := SkipSpace(s[1..]);
      inside != "" && (inside[0] == ']' || inside[0] == '}')
    ensures ScanAll(Outside(depth, peak), s) == ScanAll(Outside(depth, Raised(depth, peak, 1)), SkipSpace(s[1..])[1..])
  {
    OpenScan(depth, peak, s);
    CloseScan(depth + 1, Max(peak, depth + 1), SkipSpace(s[1..]));
  }

  lemma {:induction false} ArrayScan(depth: int, peak: int, s: string)
    requires depth <= peak && s != "" && s[0] == '[' && ParseItems(SkipSpace(s[1..])).Ok?
    ensures
      var r := ParseItems(SkipSpace(s[1..])).value;
      ScanAll(Outside(depth, peak), s) == ScanAll(Outside(depth, Raised(depth, peak, 1 + ListNesting(r.0))), r.1)
    decreases |s|, 0, 0
  {
    OpenScan(depth, peak, s);
    ItemsScan(depth + 1, Max(peak, depth + 1), SkipSpace(s[1..]));
    RaisedInside(depth, peak, ListNesting(ParseItems(SkipSpace(s[1..])).value.0));
  }

  lemma {:induction false} ObjectScan(depth: int, peak: int, s: string)
    requires depth <= peak && s != "" && s[0] == '{' && ParseMembers(SkipSpace(s[1..])).Ok?
    ensures
      var r := ParseMembers(SkipSpace(s[1..])).value;
      ScanAll(Outside(depth, peak), s) == ScanAll(Outside(depth, Raised(depth, peak, 1 + PairsNesting(r.0))), r.1)
    decreases |s|, 0, 0
  {
    OpenScan(depth, peak, s);
    MembersScan(depth + 1, Max(peak, depth + 1), SkipSpace(s[1..]));
    RaisedInside(depth, peak, PairsNesting(ParseMembers(SkipSpace(s[1..])).value.0));
  }

  // What an object's text is made of.
  lemma ObjectParts(s: string)
    requires s != "" && s[0] == '{' && ParseValue(s).Ok?
    ensures
      var inside := SkipSpace(s[1..]);
      if inside != "" && inside[0] == '}' then ParseValue(s) == Ok((JObj(map[]), inside[1..]))
      else
        && ParseMembers(inside).Ok? && UniqueKeys(ParseMembers(inside).value.0)
        && ParseValue(s) == Ok((JObj(ToMap(ParseMembers(inside).value.0)), ParseMembers(inside).value.1))
  {
  }

  lemma {:induction false} ArrayValueScan(depth: int, peak: int, s: string)
    requires depth <= peak && s != "" && s[0] == '[' && ParseValue(s).Ok?
    ensures
      var r := ParseValue(s).value;
      ScanAll(Outside(depth, peak), s) == ScanAll(Outside(depth, Raised(depth, peak, Nesting(r.0))), r.1)
    decreases |s|, 0, 1
  {
    var inside := SkipSpace(s[1..]);
    ArrayParts(s);
    if inside != "" && inside[0] == ']' {
      EmptyScan(depth, peak, s);
      assert Nesting(JArr([])) == 1;
    } else {
      ArrayScan(depth, peak, s);
      ArrayNesting(JArr(ParseItems(inside).value.0), 0);
      assert ParseItems(inside).value.0[0..] == ParseItems(inside).value.0;
    }
  }

  lemma NoMembers()
    ensures Nesting(JObj(map[])) == 1
  {
    ObjectNesting([]);
    assert ToMap([]) == map[];
    assert PairsNesting([]) == 0;
  }

  lemma {:induction false} ObjectValueScan(depth: int, peak: int, s: string)
    requires depth <= peak && s != "" && s[0] == '{' && ParseValue(s).Ok?
    ensures
      var r := ParseValue(s).value;
      ScanAll(Outside(depth, peak), s) == ScanAll(Outside(depth, Raised(depth, peak, Nesting(r.0))), r.1)
    decreases |s|, 0, 1
  {
    var inside := SkipSpace(s[1..]);
    ObjectParts(s);
    if inside != "" && inside[0] == '}' {
      EmptyScan(depth, peak, s);
      NoMembers();
    } else {
      ObjectScan(depth, peak, s);
      ObjectNesting(ParseMembers(inside).value.0);
    }
  }

  lemma LiteralScan(depth: int, peak: int, s: string)
    requires "null" <= s || "true" <= s || "false" <= s
    ensures ScanAll(Outside(depth, peak), s) == ScanAll(Outside(depth, peak), ParseValue(s).value.1)
  {
    if "null" <= s {
      assert forall i :: 0 <= i < 4 ==> s[i] == "null"[i];
      PlainScan(Outside(depth, peak), s, 4);
    } else if "true" <= s {
      assert forall i :: 0 <= i < 4 ==> s[i] == "true"[i];
      PlainScan(Outside(depth, peak), s, 4);
    } else {
      assert forall i :: 0 <= i < 5 ==> s[i] == "false"[i];
      PlainScan(Outside(depth, peak), s, 5);
    }
  }

  // Reading a value leaves the scanner at its depth, with the peak raised to the depth plus the value's nesting.
  lemma {:induction false} ValueScan(depth: int, peak: int, s: string)
    requires depth <= peak && ParseValue(s).Ok?
    ensures
      var r := ParseValue(s).value;
      ScanAll(Outside(depth, peak), s) == ScanAll(Outside(depth, Raised(depth, peak, Nesting(r.0))), r.1)
    decreases |s|, 1
  {
    if s[0] == '"' {
      assert Step(Outside(depth, peak), s[0]) == Inside(depth, peak);
      StringScan(depth, peak, s[1..]);
    } else if s[0] == '[' {
      ArrayValueScan(depth, peak, s);
    } else if s[0] == '{' {
      ObjectValueScan(depth, peak, s);
    } else if "null" <= s || "true" <= s || "false" <= s {
      LiteralScan(depth, peak, s);
    } else {
      IntScan(depth, peak, s);
    }
  }

  // ----- results ----------------------------------------------------------------------------------------------

  // On every text that parses, the scanner's peak is the nesting of the value and it ends at depth zero.
  lemma PeakIsNesting(text: string)
    requires Parse(text).Ok?
    ensures ScanAll(Start(), text) == Outside(0, Nesting(Parse(text).value))
  {
    SpaceScan(0, 0, text);
    ValueScan(0, 0, SkipSpace(text));
    var read := ParseValue(SkipSpace(text)).value;
    SpaceScan(0, Nesting(read.0), read.1);
  }

  // `strict` gives a value for a text if and only if the text spells it, by the grammar, and it nests at most 64 deep.
  lemma StrictExactly(text: string, v: Json)
    ensures Strict(text) == Ok(v) <==> Spells(text, v) && Nesting(v) <= MAX_DEPTH
    ensures Strict(text).Ok? <==> Parse(text).Ok? && Nesting(Parse(text).value) <= MAX_DEPTH
  {
    ParseExactly(text, v);
    if Parse(text).Ok? {
      PeakIsNesting(text);
    }
  }

  // Canonical text, with or without its newline, is accepted exactly up to that nesting and gives the value back.
  lemma StrictCanonical(v: Json, rest: string)
    requires rest == "" || rest == "\n"
    ensures Strict(Text(v) + rest) == if Nesting(v) <= MAX_DEPTH then Ok(v) else Err(TooDeep)
  {
    ParseCanonical(v, rest);
    PeakIsNesting(Text(v) + rest);
  }

  // ----- descriptor bytes -------------------------------------------------------------------------------------

  datatype EncodingCode = BadSize | NotAscii | NotStrict(code: JsonCode) | NotCanonical

  predicate IsAscii(text: string) {
    forall i :: 0 <= i < |text| ==> text[i] < 128 as char
  }

  // Descriptor bytes before validation: they must be the canonical text of what they parse to, and one newline.
  ghost function ParseDescriptor(text: string, limit: nat): Result<Json, EncodingCode> {
    if !(0 < |text| <= limit) then Err(BadSize)
    else if !IsAscii(text) then Err(NotAscii)
    else
      var parsed := Strict(text);
      if parsed.Err? then Err(NotStrict(parsed.error))
      else if Text(parsed.value) + "\n" != text then Err(NotCanonical)
      else Ok(parsed.value)
  }

  // A value is read from exactly one text: its canonical one, if that is short, ASCII and not too deep.
  lemma OneTextPerValue(text: string, limit: nat, v: Json)
    ensures ParseDescriptor(text, limit) == Ok(v) <==>
            text == Text(v) + "\n" && |text| <= limit && IsAscii(text) && Nesting(v) <= MAX_DEPTH
  {
    if text == Text(v) + "\n" {
      StrictCanonical(v, "\n");
    }
    if ParseDescriptor(text, limit) == Ok(v) {
      StrictCanonical(v, "\n");
    }
  }
}
