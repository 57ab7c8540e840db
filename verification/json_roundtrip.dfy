// Reading canonical text gives the value back.
// Numbers, strings and values are read by induction on the value, each with an arbitrary rest behind it that begins with a
// delimiter; an object is read back from its sorted keys, and equal texts therefore come from equal values.
module JsonRoundTrip {
  import opened Wrappers
  import opened JsonValues
  import opened JsonText
  import opened JsonParser

  // What may follow a value inside canonical text: a delimiter, the final newline, or nothing.
  predicate Ends(rest: string) {
    rest == "" || rest[0] == ',' || rest[0] == ']' || rest[0] == '}' || rest[0] == '\n'
  }

  // ----- numbers ----------------------------------------------------------------------------------------------

  lemma {:induction false} DigitsOfNat(n: nat, rest: string)
    ensures Digits(NatText(n) + rest, 0) == Digits(rest, n)
    decreases n
  {
    if n < 10 {
      assert (NatText(n) + rest)[0] == Digit(n) && (NatText(n) + rest)[1..] == rest;
    } else {
      var last := [Digit(n % 10)];
      assert NatText(n) + rest == NatText(n / 10) + (last + rest);
      DigitsOfNat(n / 10, last + rest);
      assert (last + rest)[0] == Digit(n % 10) && (last + rest)[1..] == rest;
    }
  }

  lemma {:induction false} NatTextStarts(n: nat)
    ensures NatText(n) != "" && IsDigit(NatText(n)[0]) && (NatText(n)[0] == '0' <==> n == 0)
    ensures n == 0 ==> NatText(n) == "0"
    decreases n
  {
    if n >= 10 {
      NatTextStarts(n / 10);
    }
  }

  lemma NatRoundTrip(n: nat, rest: string)
    requires Ends(rest)
    ensures ParseNat(NatText(n) + rest) == Ok((n, rest))
  {
    var s := NatText(n) + rest;
    NatTextStarts(n);
    DigitsOfNat(n, rest);
    assert s[0] == NatText(n)[0];
    if n == 0 {
      assert s[1..] == rest;
    } else {
      assert Digits(s, 0) == Digits(s[1..], (s[0] - '0') as nat);
    }
  }

  lemma IntTextStarts(n: int)
    ensures IntText(n) != "" && (IsDigit(IntText(n)[0]) || (IntText(n)[0] == '-' && |IntText(n)| > 1 && IsDigit(IntText(n)[1])))
  {
    NatTextStarts(if n < 0 then -n else n);
  }

  lemma NegativeRoundTrip(n: nat, rest: string)
    requires Ends(rest)
    ensures ParseInt(['-'] + NatText(n) + rest) == Ok((0 - n, rest))
  {
    var s := ['-'] + NatText(n) + rest;
    assert s[0] == '-' && s[1..] == NatText(n) + rest;
    NatRoundTrip(n, rest);
  }

  lemma IntRoundTrip(n: int, rest: string)
    requires Ends(rest)
    ensures ParseInt(IntText(n) + rest) == Ok((n, rest))
    ensures IntText(n) != "" && (IsDigit(IntText(n)[0]) || (IntText(n)[0] == '-' && |IntText(n)| > 1 && IsDigit(IntText(n)[1])))
  {
    IntTextStarts(n);
    if n < 0 {
      NegativeRoundTrip(-n, rest);
    } else {
      NatRoundTrip(n, rest);
      assert (IntText(n) + rest)[0] == IntText(n)[0];
    }
  }

  // ----- strings ----------------------------------------------------------------------------------------------

  lemma ControlRoundTrip(c: char, rest: string)
    requires c < ' '
    ensures UnicodeEscape(['0', '0', HexDigit(c as nat / 16), HexDigit(c as nat % 16)] + rest) == Ok((c, rest))
  {
    var s := ['0', '0', HexDigit(c as nat / 16), HexDigit(c as nat % 16)] + rest;
    assert HexValue(s[2]) == Some(c as nat / 16) && HexValue(s[3]) == Some(c as nat % 16);
    assert Hex4(s) == Some(c as nat);
    assert s[4..] == rest;
  }

  predicate TakesTwo(c: char) {
    c == '"' || c == '\\' || c == '\n' || c == '\r' || c == '\t' || c == FORM_FEED || c == BACKSPACE
  }

  lemma SimpleRoundTrip(c: char, s: string, rest: string)
    requires TakesTwo(c) && ParseString(rest).Ok? && s == Escape(c) + rest
    ensures ParseString(s) == Ok(([c] + ParseString(rest).value.0, ParseString(rest).value.1))
  {
    assert |Escape(c)| == 2 && s[0] == '\\' && s[1] == Escape(c)[1];
    assert s[2..] == rest;
    assert SimpleEscape(s[1]) == Some(c);
  }

  lemma UnicodeRoundTrip(c: char, s: string, rest: string)
    requires !TakesTwo(c) && c < ' ' && ParseString(rest).Ok? && s == Escape(c) + rest
    ensures ParseString(s) == Ok(([c] + ParseString(rest).value.0, ParseString(rest).value.1))
  {
    ControlRoundTrip(c, rest);
    assert s[0] == '\\' && s[1] == 'u';
    assert s[2..] == ['0', '0', HexDigit(c as nat / 16), HexDigit(c as nat % 16)] + rest;
  }

  lemma EscapeRoundTrip(c: char, rest: string)
    requires ParseString(rest).Ok?
    ensures
      var more := ParseString(rest).value;
      ParseString(Escape(c) + rest) == Ok(([c] + more.0, more.1))
  {
    var s := Escape(c) + rest;
    if TakesTwo(c) {
      SimpleRoundTrip(c, s, rest);
    } else if c < ' ' {
      UnicodeRoundTrip(c, s, rest);
    } else {
      assert s[0] == c && s[1..] == rest;
    }
  }

  lemma {:induction false} StringRoundTrip(s: string, rest: string)
    ensures ParseString(Escaped(s) + ['"'] + rest) == Ok((s, rest))
    decreases |s|
  {
    if s == "" {
      assert Escaped(s) + ['"'] + rest == ['"'] + rest;
    } else {
      StringRoundTrip(s[1..], rest);
      EscapeRoundTrip(s[0], Escaped(s[1..]) + ['"'] + rest);
      assert Escaped(s) + ['"'] + rest == Escape(s[0]) + (Escaped(s[1..]) + ['"'] + rest);
      assert [s[0]] + s[1..] == s;
    }
  }

  lemma QuotedRoundTrip(s: string, rest: string)
    ensures (Quoted(s) + rest)[0] == '"' && ParseString((Quoted(s) + rest)[1..]) == Ok((s, rest))
  {
    StringRoundTrip(s, rest);
    assert (Quoted(s) + rest)[1..] == Escaped(s) + ['"'] + rest;
  }

  // ----- values -----------------------------------------------------------------------------------------------

  // The first character of a value is neither a space nor a delimiter.
  lemma TextStarts(v: Json)
    ensures Text(v) != "" && !IsSpace(Text(v)[0]) && !Ends(Text(v))
  {
    if v.JInt? {
      IntRoundTrip(v.n, "");
    }
  }

  lemma IntValueRoundTrip(n: int, rest: string)
    requires Ends(rest)
    ensures ParseValue(IntText(n) + rest) == Ok((JInt(n), rest))
  {
    var s := IntText(n) + rest;
    IntRoundTrip(n, rest);
    assert s[0] == IntText(n)[0];
    assert "null"[0] == 'n' && "true"[0] == 't' && "false"[0] == 'f' && "NaN"[0] == 'N' && "Infinity"[0] == 'I';
    if s[0] == '-' {
      assert s[1] == IntText(n)[1] && "-Infinity"[1] == 'I';
    } else {
      assert "-Infinity"[0] == '-';
    }
  }

  lemma LiteralRoundTrip(v: Json, rest: string)
    requires v.JNull? || v.JBool?
    ensures ParseValue(Text(v) + rest) == Ok((v, rest))
  {
    var s := Text(v) + rest;
    assert s[|Text(v)|..] == rest;
    assert "null"[0] == 'n' && "true"[0] == 't' && "false"[0] == 'f';
    assert s[0] == Text(v)[0];
    assert Text(v) <= s;
  }

  lemma {:induction false} ItemsRoundTrip(v: Json, i: nat, rest: string)
    requires v.JArr? && i < |v.items|
    ensures ParseItems(ItemsText(v, i) + "]" + rest) == Ok((v.items[i..], rest))
    decreases v, 0, |v.items| - i
  {
    var s := ItemsText(v, i) + "]" + rest;
    if i == |v.items| - 1 {
      var after := "]" + rest;
      assert s == Text(v.items[i]) + after;
      ValueRoundTrip(v.items[i], after);
      assert after[1..] == rest;
      assert v.items[i..] == [v.items[i]];
    } else {
      var more := ItemsText(v, i + 1) + "]" + rest;
      var after := "," + more;
      assert s == Text(v.items[i]) + after;
      ValueRoundTrip(v.items[i], after);
      assert after[1..] == more;
      TextStarts(v.items[i + 1]);
      assert more[0] == Text(v.items[i + 1])[0];
      ItemsRoundTrip(v, i + 1, rest);
      assert v.items[i..] == [v.items[i]] + v.items[i + 1..];
    }
  }

  lemma {:induction false} MemberRoundTrip(v: Json, key: string, rest: string)
    requires v.JObj? && key in v.members && Ends(rest)
    ensures ParseMember(MemberText(v, key) + rest) == Ok(((key, v.members[key]), rest))
    decreases v, 0, 0
  {
    var value := Text(v.members[key]) + rest;
    assert MemberText(v, key) + rest == Quoted(key) + (":" + value);
    QuotedRoundTrip(key, ":" + value);
    assert (":" + value)[1..] == value;
    TextStarts(v.members[key]);
    assert value[0] == Text(v.members[key])[0];
    ValueRoundTrip(v.members[key], rest);
  }

  ghost function PairsOf(v: Json, keys: seq<string>): Pairs
    requires v.JObj? && forall k :: k in keys ==> k in v.members
  {
    seq(|keys|, (i: int) requires 0 <= i < |keys| => (keys[i], v.members[keys[i]]))
  }

  lemma MembersStart(v: Json, keys: seq<string>)
    requires v.JObj? && keys != [] && forall k :: k in keys ==> k in v.members
    ensures MembersText(v, keys) != "" && MembersText(v, keys)[0] == '"'
  {
    assert Quoted(keys[0])[0] == '"';
    assert MemberText(v, keys[0])[0] == '"';
  }

  lemma {:induction false} MembersRoundTrip(v: Json, keys: seq<string>, rest: string)
    requires v.JObj? && keys != [] && forall k :: k in keys ==> k in v.members
    ensures ParseMembers(MembersText(v, keys) + "}" + rest) == Ok((PairsOf(v, keys), rest))
    decreases v, 0, |keys|
  {
    var s := MembersText(v, keys) + "}" + rest;
    if |keys| == 1 {
      var after := "}" + rest;
      assert s == MemberText(v, keys[0]) + after;
      MemberRoundTrip(v, keys[0], after);
      assert after[1..] == rest;
      assert PairsOf(v, keys) == [(keys[0], v.members[keys[0]])];
    } else {
      var more := MembersText(v, keys[1..]) + "}" + rest;
      var after := "," + more;
      assert s == MemberText(v, keys[0]) + after;
      MemberRoundTrip(v, keys[0], after);
      assert after[1..] == more;
      MembersStart(v, keys[1..]);
      assert more[0] == '"';
      MembersRoundTrip(v, keys[1..], rest);
      assert PairsOf(v, keys) == [(keys[0], v.members[keys[0]])] + PairsOf(v, keys[1..]);
    }
  }

  lemma {:induction false} ToMapHolds(pairs: Pairs)
    requires UniqueKeys(pairs)
    ensures forall k :: k in ToMap(pairs) <==> exists i :: 0 <= i < |pairs| && pairs[i].0 == k
    ensures forall i :: 0 <= i < |pairs| ==> pairs[i].0 in ToMap(pairs) && ToMap(pairs)[pairs[i].0] == pairs[i].1
    decreases |pairs|
  {
    if pairs != [] {
      var last := |pairs| - 1;
      ToMapHolds(pairs[..last]);
      forall k
        ensures k in ToMap(pairs) <==> exists i :: 0 <= i < |pairs| && pairs[i].0 == k
      {
        if i :| 0 <= i < |pairs| && pairs[i].0 == k {
          assert i == last || pairs[..last][i].0 == k;
        }
        if k in ToMap(pairs) && k != pairs[last].0 {
          var i :| 0 <= i < last && pairs[..last][i].0 == k;
          assert pairs[i].0 == k;
        }
      }
      forall i | 0 <= i < |pairs|
        ensures pairs[i].0 in ToMap(pairs) && ToMap(pairs)[pairs[i].0] == pairs[i].1
      {
        if i < last {
          assert pairs[..last][i] == pairs[i];
        }
      }
    }
  }

  lemma ToMapOfMembers(v: Json, keys: seq<string>)
    requires v.JObj? && (forall k :: k in keys <==> k in v.members) && UniqueKeys(PairsOf(v, keys))
    ensures ToMap(PairsOf(v, keys)) == v.members
  {
    var pairs := PairsOf(v, keys);
    ToMapHolds(pairs);
    var m := ToMap(pairs);
    forall k
      ensures k in m <==> k in v.members
    {
      if k in v.members {
        var i :| 0 <= i < |keys| && keys[i] == k;
        assert pairs[i].0 == k;
      }
    }
    forall k | k in m
      ensures m[k] == v.members[k]
    {
      var i :| 0 <= i < |pairs| && pairs[i].0 == k;
      assert m[pairs[i].0] == pairs[i].1;
    }
    assert m == v.members;
  }

  lemma ObjectOfSorted(v: Json)
    requires v.JObj?
    ensures Object(PairsOf(v, SortedKeys(v.members.Keys))) == Ok(v)
  {
    var keys := SortedKeys(v.members.Keys);
    SortedKeysAscend(v.members.Keys);
    assert UniqueKeys(PairsOf(v, keys));
    assert forall k :: k in keys <==> k in v.members;
    ToMapOfMembers(v, keys);
  }

  lemma {:induction false} ArrayRoundTrip(v: Json, rest: string)
    requires v.JArr?
    ensures ParseValue(Text(v) + rest) == Ok((v, rest))
    decreases v, 1
  {
    var s := Text(v) + rest;
    var inside := ItemsText(v, 0) + "]" + rest;
    assert s[0] == '[' && s[1..] == inside;
    if v.items == [] {
      assert inside == "]" + rest && inside[1..] == rest;
    } else {
      TextStarts(v.items[0]);
      assert inside[0] == Text(v.items[0])[0];
      ItemsRoundTrip(v, 0, rest);
      assert v.items[0..] == v.items;
    }
  }

  lemma ObjectFromMembers(s: string, pairs: Pairs, v: Json, rest: string)
    requires |s| > 1 && s[0] == '{' && s[1] == '"'
    requires ParseMembers(s[1..]) == Ok((pairs, rest)) && Object(pairs) == Ok(v)
    ensures ParseValue(s) == Ok((v, rest))
  {
    assert SkipSpace(s[1..]) == s[1..];
  }

  lemma EmptyObject(v: Json, rest: string)
    requires v == JObj(map[])
    ensures ParseValue("{}" + rest) == Ok((v, rest))
  {
    var s := "{}" + rest;
    assert s[1..][1..] == rest;
    assert SkipSpace(s[1..]) == s[1..];
  }

  lemma {:induction false} ObjectRoundTrip(v: Json, rest: string)
    requires v.JObj?
    ensures ParseValue(Text(v) + rest) == Ok((v, rest))
    decreases v, 1
  {
    var keys := SortedKeys(v.members.Keys);
    if keys == [] {
      assert v.members.Keys == {};
      assert v.members == map[];
      assert Text(v) + rest == "{}" + rest;
      EmptyObject(v, rest);
    } else {
      var s, inside := Text(v) + rest, MembersText(v, keys) + "}" + rest;
      assert s[0] == '{' && s[1..] == inside;
      MembersStart(v, keys);
      MembersRoundTrip(v, keys, rest);
      ObjectOfSorted(v);
      ObjectFromMembers(s, PairsOf(v, keys), v, rest);
    }
  }

  // Parsing the text of a value, whatever delimiter follows, gives the value and leaves the rest.
  lemma {:induction false} ValueRoundTrip(v: Json, rest: string)
    requires Ends(rest)
    ensures ParseValue(Text(v) + rest) == Ok((v, rest))
    decreases v, 2
  {
    match v {
      case JInt(n) => IntValueRoundTrip(n, rest);
      case JStr(s) =>
        QuotedRoundTrip(s, rest);
      case JArr(_) => ArrayRoundTrip(v, rest);
      case JObj(_) => ObjectRoundTrip(v, rest);
      case _ => LiteralRoundTrip(v, rest);
    }
  }

  lemma ParseCanonical(v: Json, rest: string)
    requires rest == "" || rest == "\n"
    ensures Parse(Text(v) + rest) == Ok(v)
  {
    TextStarts(v);
    assert (Text(v) + rest)[0] == Text(v)[0];
    ValueRoundTrip(v, rest);
    assert SkipSpace("") == "";
    assert rest == "\n" ==> rest[1..] == "";
  }

  // Different values have different canonical texts.
  lemma TextInjective(a: Json, b: Json)
    ensures Text(a) == Text(b) <==> a == b
  {
    ParseCanonical(a, "");
    ParseCanonical(b, "");
    assert Text(a) + "" == Text(a) && Text(b) + "" == Text(b);
  }
}
