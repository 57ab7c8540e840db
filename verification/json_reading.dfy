// The reader accepts exactly the texts the grammar admits, and gives the value they spell.
module JsonReading {
  import opened Wrappers
  import opened JsonValues
  import opened JsonGrammar
  import opened JsonParser
  import JsonRoundTrip

  // What may follow a value: space, a delimiter, or nothing.
  predicate Follows(rest: string) {
    rest == "" || Blank(rest[..1]) || rest[0] == ',' || rest[0] == ']' || rest[0] == '}'
  }

  // How much of s was read when `rest` is left.
  predicate Splits(s: string, n: nat, rest: string) {
    n <= |s| && s[n..] == rest
  }

  lemma Joined(a: string, b: string, c: string)
    ensures (a + b) + c == a + (b + c)
  {
  }

  // ----- space ------------------------------------------------------------------------------------------------

  lemma {:induction false} SpaceRead(s: string) returns (b: string)
    ensures s == b + SkipSpace(s) && Blank(b)
    ensures SkipSpace(s) != "" ==> !IsSpace(SkipSpace(s)[0])
  {
    if s != "" && IsSpace(s[0]) {
      var more := SpaceRead(s[1..]);
      b := [s[0]] + more;
      Joined([s[0]], more, SkipSpace(s));
    } else {
      b := "";
    }
  }

  lemma {:induction false} BlankSkipped(a: string, x: string)
    requires Blank(a)
    ensures SkipSpace(a + x) == SkipSpace(x)
    decreases |a|
  {
    if a == "" {
      assert a + x == x;
    } else {
      assert (a + x)[0] == a[0] && (a + x)[1..] == a[1..] + x;
      BlankSkipped(a[1..], x);
    }
  }

  // ----- numbers ----------------------------------------------------------------------------------------------

  lemma DecimalOneMore(p: string, c: char)
    requires Decimals(p) && '0' <= c <= '9'
    ensures Decimals(p + [c]) && Decimal(p + [c]) == 10 * Decimal(p) + (c - '0') as nat
  {
    assert (p + [c])[..|p|] == p;
  }

  // Reading on after the digits p.
  lemma {:induction false} DigitsRead(p: string, s: string) returns (n: nat)
    requires Decimals(p)
    ensures Splits(s, n, Digits(s, Decimal(p)).1) && Decimals(s[..n]) && Decimals(p + s[..n])
    ensures Digits(s, Decimal(p)).0 == Decimal(p + s[..n]) && !StartsWithDigit(s[n..])
    decreases |s|
  {
    if StartsWithDigit(s) {
      DecimalOneMore(p, s[0]);
      var k := DigitsRead(p + [s[0]], s[1..]);
      n := k + 1;
      assert s[..n] == [s[0]] + s[1..][..k] && s[n..] == s[1..][k..];
      assert p + s[..n] == (p + [s[0]]) + s[1..][..k];
    } else {
      n := 0;
      assert s[0..] == s && p + s[..0] == p;
    }
  }

  lemma {:induction false} DigitsFollowed(p: string, t: string, rest: string)
    requires Decimals(p) && Decimals(t) && !StartsWithDigit(rest)
    ensures Decimals(p + t) && Digits(t + rest, Decimal(p)) == (Decimal(p + t), rest)
    decreases |t|
  {
    if t == "" {
      assert t + rest == rest && p + t == p;
    } else {
      assert (t + rest)[0] == t[0] && (t + rest)[1..] == t[1..] + rest;
      DecimalOneMore(p, t[0]);
      DigitsFollowed(p + [t[0]], t[1..], rest);
      assert p + t == (p + [t[0]]) + t[1..];
    }
  }

  lemma OneDigit(c: char)
    requires '0' <= c <= '9'
    ensures Decimals([c]) && Decimal([c]) == (c - '0') as nat
  {
    DecimalOneMore("", c);
    assert "" + [c] == [c];
  }

  lemma NatRead(s: string) returns (n: nat)
    requires ParseNat(s).Ok?
    ensures Splits(s, n, ParseNat(s).value.1) && NatSpells(s[..n], ParseNat(s).value.0)
  {
    OneDigit(s[0]);
    assert s == [s[0]] + s[1..];
    if s[0] == '0' {
      n := 1;
      assert s[..1] == [s[0]];
    } else {
      var k := DigitsRead([s[0]], s[1..]);
      n := k + 1;
      assert s[..n] == [s[0]] + s[1..][..k] && s[n..] == s[1..][k..];
    }
  }

  lemma NatFollowed(t: string, n: nat, rest: string)
    requires NatSpells(t, n) && Follows(rest)
    ensures ParseNat(t + rest) == Ok((n, rest))
  {
    var s := t + rest;
    OneDigit(t[0]);
    assert s[0] == t[0] && s[1..] == t[1..] + rest;
    assert t == [t[0]] + t[1..];
    DigitsFollowed([t[0]], t[1..], rest);
  }

  lemma IntRead(s: string) returns (n: nat)
    requires ParseInt(s).Ok?
    ensures Splits(s, n, ParseInt(s).value.1) && IntSpells(s[..n], ParseInt(s).value.0)
  {
    if s != "" && s[0] == '-' {
      var k := NatRead(s[1..]);
      n := k + 1;
      assert s[..n][1..] == s[1..][..k] && s[n..] == s[1..][k..];
    } else {
      n := NatRead(s);
    }
  }

  lemma IntFollowed(t: string, n: int, rest: string)
    requires IntSpells(t, n) && Follows(rest)
    ensures ParseInt(t + rest) == Ok((n, rest))
  {
    assert (t + rest)[0] == t[0];
    if t[0] == '-' {
      assert (t + rest)[1..] == t[1..] + rest;
      NatFollowed(t[1..], 0 - n, rest);
    } else {
      NatFollowed(t, n, rest);
    }
  }

  // ----- characters -------------------------------------------------------------------------------------------

  lemma HexExactly(c: char, n: nat)
    ensures HexValue(c) == Some(n) <==> HexSpells(c, n)
  {
  }

  lemma UnitRead(s: string)
    requires Hex4(s).Some?
    ensures UnitSpells(s[..4], Hex4(s).value)
  {
    var a, b, c, d := HexValue(s[0]).value, HexValue(s[1]).value, HexValue(s[2]).value, HexValue(s[3]).value;
    HexExactly(s[0], a);
    HexExactly(s[1], b);
    HexExactly(s[2], c);
    HexExactly(s[3], d);
    assert DigitsSpell(s[..4], a, b, c, d);
  }

  lemma FourDigits(s: string, a: nat, b: nat, c: nat, d: nat)
    requires |s| >= 4 && a < 16 && b < 16 && c < 16 && d < 16
    requires HexValue(s[0]) == Some(a) && HexValue(s[1]) == Some(b) && HexValue(s[2]) == Some(c) && HexValue(s[3]) == Some(d)
    ensures Hex4(s) == Some(4096 * a + 256 * b + 16 * c + d)
  {
  }

  lemma HexFollowed(t: string, i: nat, n: nat, s: string)
    requires i < |t| && i < |s| && s[i] == t[i] && HexSpells(t[i], n)
    ensures HexValue(s[i]) == Some(n) && n < 16
  {
    HexExactly(t[i], n);
  }

  lemma UnitFollowed(t: string, n: nat, s: string)
    requires UnitSpells(t, n) && |s| >= 4 && s[..4] == t
    ensures Hex4(s) == Some(n)
  {
    var a: nat, b: nat, c: nat, d: nat :| DigitsSpell(t, a, b, c, d) && n == 4096 * a + 256 * b + 16 * c + d;
    HexFollowed(t, 0, a, s);
    HexFollowed(t, 1, b, s);
    HexFollowed(t, 2, c, s);
    HexFollowed(t, 3, d, s);
    FourDigits(s, a, b, c, d);
  }

  lemma ShortExactly(e: char, c: char)
    ensures SimpleEscape(e) == Some(c) <==> ShortSpells(e, c)
  {
  }

  lemma HalvesJoined(high: nat, low: nat)
    requires 0xD800 <= high < 0xDC00 && 0xDC00 <= low < 0xE000
    ensures
      var above := 1024 * (high - 0xD800) + (low - 0xDC00);
      above / 1024 == high - 0xD800 && above % 1024 == low - 0xDC00 && above < 0x100000
  {
  }

  lemma PairRead(s: string, high: nat, low: nat)
    requires |s| >= 10 && s[4] == '\\' && s[5] == 'u' && UnitSpells(s[..4], high) && UnitSpells(s[6..10], low)
    requires 0xD800 <= high < 0xDC00 && 0xDC00 <= low < 0xE000
    ensures PairSpells("\\u" + s[..10], (0x10000 + 1024 * (high - 0xD800) + (low - 0xDC00)) as char)
  {
    var t := "\\u" + s[..10];
    HalvesJoined(high, low);
    assert t[2..6] == s[..4] && t[8..] == s[6..10] && t[6] == s[4] && t[7] == s[5];
  }

  lemma UnicodeRead(s: string) returns (n: nat)
    requires UnicodeEscape(s).Ok?
    ensures Splits(s, n, UnicodeEscape(s).value.1) && CharSpells("\\u" + s[..n], UnicodeEscape(s).value.0)
  {
    var high := Hex4(s).value;
    UnitRead(s);
    if high < 0xD800 || 0xE000 <= high {
      n := 4;
      assert ("\\u" + s[..4])[2..] == s[..4];
    } else {
      n := 10;
      var low := Hex4(s[6..]).value;
      UnitRead(s[6..]);
      assert s[6..][..4] == s[6..10];
      PairRead(s, high, low);
    }
  }

  lemma LongFollowed(t: string, c: char, rest: string)
    requires LongSpells(t, c)
    ensures UnicodeEscape(t[2..] + rest) == Ok((c, rest))
  {
    var s := t[2..] + rest;
    assert s[..4] == t[2..] && s[4..] == rest;
    UnitFollowed(t[2..], c as int, s);
  }

  // The two halves of a character above 0x10000.
  lemma Halves(c: char)
    requires c as int >= 0x10000
    ensures
      var high, low := 0xD800 + (c as int - 0x10000) / 1024, 0xDC00 + (c as int - 0x10000) % 1024;
      0xD800 <= high < 0xDC00 && 0xDC00 <= low < 0xE000 && c as int == 0x10000 + 1024 * (high - 0xD800) + (low - 0xDC00)
  {
  }

  lemma PairFollowed(t: string, c: char, rest: string)
    requires PairSpells(t, c)
    ensures UnicodeEscape(t[2..] + rest) == Ok((c, rest))
  {
    var s := t[2..] + rest;
    Halves(c);
    assert s[..4] == t[2..6] && s[6..][..4] == t[8..] && s[4] == t[6] && s[5] == t[7] && s[10..] == rest;
    UnitFollowed(t[2..6], 0xD800 + (c as int - 0x10000) / 1024, s);
    UnitFollowed(t[8..], 0xDC00 + (c as int - 0x10000) % 1024, s[6..]);
  }

  // ----- strings ----------------------------------------------------------------------------------------------

  lemma BodyOneMore(t: string, k: nat, c: char, s: string)
    requires k <= |t| && CharSpells(t[..k], c) && BodySpells(t[k..], s)
    ensures BodySpells(t, [c] + s)
  {
    assert ([c] + s)[1..] == s;
    assert FirstChar(t, k, [c] + s);
  }

  // The first character of what ParseString reads, by its k characters.
  lemma FirstRead(s: string) returns (k: nat)
    requires ParseString(s).Ok? && s[0] != '"'
    ensures 0 < k <= |s| && ParseString(s[k..]).Ok? && ParseString(s).value.1 == ParseString(s[k..]).value.1
    ensures exists c :: CharSpells(s[..k], c) && ParseString(s).value.0 == [c] + ParseString(s[k..]).value.0
  {
    if s[0] == '\\' && s[1] == 'u' {
      var n := UnicodeRead(s[2..]);
      k := n + 2;
      assert s[..k] == "\\u" + s[2..][..n] && s[k..] == s[2..][n..];
    } else if s[0] == '\\' {
      k := 2;
      ShortExactly(s[1], SimpleEscape(s[1]).value);
      assert s[..2] == ['\\', s[1]];
    } else {
      k := 1;
      assert s[..1] == [s[0]];
    }
  }

  lemma {:induction false} StringRead(s: string) returns (n: nat)
    requires ParseString(s).Ok?
    ensures n < |s| && s[n] == '"' && Splits(s, n + 1, ParseString(s).value.1) && BodySpells(s[..n], ParseString(s).value.0)
    decreases |s|
  {
    if s[0] == '"' {
      n := 0;
    } else {
      var k := FirstRead(s);
      var c :| CharSpells(s[..k], c) && ParseString(s).value.0 == [c] + ParseString(s[k..]).value.0;
      var m := StringRead(s[k..]);
      n := k + m;
      assert s[..n][..k] == s[..k] && s[..n][k..] == s[k..][..m] && s[n + 1..] == s[k..][m + 1..];
      BodyOneMore(s[..n], k, c, ParseString(s[k..]).value.0);
    }
  }

  lemma CharFollowed(t: string, c: char, rest: string)
    requires CharSpells(t, c) && ParseString(rest).Ok?
    ensures ParseString(t + rest) == Ok(([c] + ParseString(rest).value.0, ParseString(rest).value.1))
  {
    var s := t + rest;
    assert s[0] == t[0] && s[|t|..] == rest;
    if LongSpells(t, c) || PairSpells(t, c) {
      if LongSpells(t, c) {
        LongFollowed(t, c, rest);
      } else {
        PairFollowed(t, c, rest);
      }
      assert s[2..] == t[2..] + rest && s[1] == 'u';
    } else if |t| == 2 && t[0] == '\\' {
      ShortExactly(t[1], c);
      assert s[1] == t[1];
    } else {
      assert s[1..] == rest;
    }
  }

  lemma Cut(t: string, k: nat, x: string)
    requires k <= |t|
    ensures t + x == t[..k] + (t[k..] + x)
  {
  }

  lemma {:induction false} BodyFollowed(t: string, str: string, rest: string)
    requires BodySpells(t, str)
    ensures ParseString(t + (['"'] + rest)) == Ok((str, rest))
    decreases |str|
  {
    var quote := ['"'] + rest;
    if str == "" {
      assert t + quote == quote && quote[1..] == rest;
    } else {
      var k: nat :| FirstChar(t, k, str);
      BodyFollowed(t[k..], str[1..], rest);
      CharFollowed(t[..k], str[0], t[k..] + quote);
      Cut(t, k, quote);
      assert [str[0]] + str[1..] == str;
    }
  }

  lemma StringFollowed(t: string, str: string, rest: string)
    requires StringSpells(t, str)
    ensures t + rest != "" && (t + rest)[0] == '"' && ParseString((t + rest)[1..]) == Ok((str, rest))
  {
    BodyFollowed(t[1..|t| - 1], str, rest);
    assert (t + rest)[1..] == t[1..|t| - 1] + (['"'] + rest);
  }

  lemma QuotedRead(s: string) returns (t: string)
    requires s != "" && s[0] == '"' && ParseString(s[1..]).Ok?
    ensures s == t + ParseString(s[1..]).value.1 && StringSpells(t, ParseString(s[1..]).value.0)
  {
    var k := StringRead(s[1..]);
    t := s[..k + 2];
    assert t[|t| - 1] == s[1..][k] && t[1..|t| - 1] == s[1..][..k] && s[k + 2..] == s[1..][k + 1..];
  }

  // ----- what is read is spelled ------------------------------------------------------------------------------

  lemma SpellsPadded(a: string, t: string, b: string, v: Json)
    requires Blank(a) && ValueSpells(t, v) && Blank(b)
    ensures Spells(a + t + b, v)
  {
    var s := a + t + b;
    assert s[..|a|] == a && s[|a|..|a| + |t|] == t && s[|a| + |t|..] == b;
    assert Within(s, |a|, |a| + |t|, v);
  }

  lemma Head(s: string, c: char)
    requires s != "" && s[0] == c
    ensures s == [c] + s[1..]
  {
  }

  // A value and the space around it.
  lemma {:induction false} PaddedRead(s: string, a: string) returns (t: string)
    requires ParseValue(s).Ok? && Blank(a)
    ensures s == t + SkipSpace(ParseValue(s).value.1) && Spells(a + t, ParseValue(s).value.0)
    decreases |s|, 2
  {
    var x := ValueRead(s);
    var b := SpaceRead(ParseValue(s).value.1);
    t := x + b;
    Joined(a, x, b);
    Joined(x, b, SkipSpace(ParseValue(s).value.1));
    SpellsPadded(a, x, b, ParseValue(s).value.0);
  }

  lemma ItemsJoined(x: string, y: string, items: seq<Json>)
    requires |items| > 1 && Spells(x, items[0]) && ItemsSpell(y, items[1..])
    ensures ItemsSpell(x + ([','] + y), items)
  {
    var t := x + ([','] + y);
    assert t[..|x|] == x && t[|x|] == ',' && t[|x| + 1..] == y;
    assert FirstItem(t, |x|, items);
  }

  lemma ItemsParts(s: string)
    requires ParseItems(s).Ok?
    ensures ParseValue(s).Ok?
    ensures
      var first, after := ParseValue(s).value.0, SkipSpace(ParseValue(s).value.1);
      && after != "" && (after[0] == ']' || after[0] == ',')
      && (after[0] == ']' ==> ParseItems(s).value == ([first], after[1..]))
      && (after[0] == ',' ==>
            && ParseItems(SkipSpace(after[1..])).Ok?
            && ParseItems(s).value == ([first] + ParseItems(SkipSpace(after[1..])).value.0, ParseItems(SkipSpace(after[1..])).value.1))
  {
  }

  // x, a delimiter, b, y and the rest, as one text.
  lemma Pieces(s: string, x: string, c: char, after: string, b: string, y: string, rest: string)
    requires s == x + after && after == [c] + (b + (y + rest))
    ensures s == (x + ([c] + (b + y))) + rest
  {
  }

  lemma Inside(a: string, x: string, c: char, z: string)
    ensures a + (x + ([c] + z)) == (a + x) + ([c] + z)
  {
  }

  // The items s begins with, up to the closing bracket; a is the space before them.
  lemma {:induction false} ItemsRead(s: string, a: string) returns (t: string)
    requires ParseItems(s).Ok? && Blank(a)
    ensures s == t + ([']'] + ParseItems(s).value.1) && ParseItems(s).value.0 != [] && ItemsSpell(a + t, ParseItems(s).value.0)
    decreases |s|, 3
  {
    ItemsParts(s);
    var x := PaddedRead(s, a);
    var after, read := SkipSpace(ParseValue(s).value.1), ParseItems(s).value;
    Head(after, after[0]);
    if after[0] == ']' {
      t := x;
      assert |read.0| == 1;
    } else {
      var b := SpaceRead(after[1..]);
      var y := ItemsRead(SkipSpace(after[1..]), b);
      t := x + ([','] + (b + y));
      Pieces(s, x, ',', after, b, y, [']'] + read.1);
      assert read.0[1..] == ParseItems(SkipSpace(after[1..])).value.0;
      ItemsJoined(a + x, b + y, read.0);
      Inside(a, x, ',', b + y);
    }
  }

  lemma NamedJoined(a: string, q: string, b: string, x: string, pair: (string, Json))
    requires Blank(a) && StringSpells(q, pair.0) && Blank(b) && Spells(x, pair.1)
    ensures MemberSpells(a + (q + (b + ([':'] + x))), pair)
  {
    var t := a + (q + (b + ([':'] + x)));
    var i, j, k: nat := |a|, |a| + |q|, |a| + |q| + |b|;
    assert t[..i] == a && t[i..j] == q && t[j..k] == b && t[k] == ':' && t[k + 1..] == x;
    assert NamedAt(t, i, j, k, pair);
  }

  lemma MemberParts(s: string)
    requires ParseMember(s).Ok?
    ensures s != "" && s[0] == '"' && ParseString(s[1..]).Ok?
    ensures
      var colon := SkipSpace(ParseString(s[1..]).value.1);
      && colon != "" && colon[0] == ':' && ParseValue(SkipSpace(colon[1..])).Ok?
      && ParseMember(s).value.0.0 == ParseString(s[1..]).value.0
      && ParseMember(s).value.0.1 == ParseValue(SkipSpace(colon[1..])).value.0
      && ParseMember(s).value.1 == ParseValue(SkipSpace(colon[1..])).value.1
  {
  }

  // q, b, a colon, c, x and the rest, as one text.
  lemma NamedPieces(s: string, q: string, b: string, c: string, x: string, rest: string)
    requires s == q + (b + ([':'] + (c + (x + rest))))
    ensures s == (q + (b + ([':'] + (c + x)))) + rest
  {
  }

  lemma {:induction false} MemberFromParts(s: string, a: string, key: (string, string), colon: string, value: (Json, string)) returns (t: string)
    requires Blank(a) && s != "" && s[0] == '"' && ParseString(s[1..]) == Ok(key)
    requires colon == SkipSpace(key.1) && colon != "" && colon[0] == ':' && ParseValue(SkipSpace(colon[1..])) == Ok(value)
    ensures s == t + SkipSpace(value.1) && MemberSpells(a + t, (key.0, value.0))
    decreases |s|, 1
  {
    var q := QuotedRead(s);
    var b := SpaceRead(key.1);
    Head(colon, ':');
    var c := SpaceRead(colon[1..]);
    var x := PaddedRead(SkipSpace(colon[1..]), c);
    t := q + (b + ([':'] + (c + x)));
    NamedPieces(s, q, b, c, x, SkipSpace(value.1));
    NamedJoined(a, q, b, c + x, (key.0, value.0));
  }

  lemma {:induction false} MemberRead(s: string, a: string) returns (t: string)
    requires ParseMember(s).Ok? && Blank(a)
    ensures s == t + SkipSpace(ParseMember(s).value.1) && MemberSpells(a + t, ParseMember(s).value.0)
    decreases |s|, 2
  {
    MemberParts(s);
    var key := ParseString(s[1..]).value;
    var colon := SkipSpace(key.1);
    t := MemberFromParts(s, a, key, colon, ParseValue(SkipSpace(colon[1..])).value);
  }

  lemma MembersJoined(x: string, y: string, pairs: Pairs)
    requires |pairs| > 1 && MemberSpells(x, pairs[0]) && MembersSpell(y, pairs[1..])
    ensures MembersSpell(x + ([','] + y), pairs)
  {
    var t := x + ([','] + y);
    assert t[..|x|] == x && t[|x|] == ',' && t[|x| + 1..] == y;
    assert FirstMember(t, |x|, pairs);
  }

  lemma MembersParts(s: string)
    requires ParseMembers(s).Ok?
    ensures ParseMember(s).Ok?
    ensures
      var first, after := ParseMember(s).value.0, SkipSpace(ParseMember(s).value.1);
      && after != "" && (after[0] == '}' || after[0] == ',')
      && (after[0] == '}' ==> ParseMembers(s).value == ([first], after[1..]))
      && (after[0] == ',' ==>
            && ParseMembers(SkipSpace(after[1..])).Ok?
            && ParseMembers(s).value == ([first] + ParseMembers(SkipSpace(after[1..])).value.0, ParseMembers(SkipSpace(after[1..])).value.1))
  {
  }

  lemma {:induction false} MembersRead(s: string, a: string) returns (t: string)
    requires ParseMembers(s).Ok? && Blank(a)
    ensures s == t + (['}'] + ParseMembers(s).value.1) && ParseMembers(s).value.0 != [] && MembersSpell(a + t, ParseMembers(s).value.0)
    decreases |s|, 3
  {
    MembersParts(s);
    var x := MemberRead(s, a);
    var after, read := SkipSpace(ParseMember(s).value.1), ParseMembers(s).value;
    Head(after, after[0]);
    if after[0] == '}' {
      t := x;
      assert |read.0| == 1;
    } else {
      var b := SpaceRead(after[1..]);
      var y := MembersRead(SkipSpace(after[1..]), b);
      t := x + ([','] + (b + y));
      Pieces(s, x, ',', after, b, y, ['}'] + read.1);
      assert read.0[1..] == ParseMembers(SkipSpace(after[1..])).value.0;
      MembersJoined(a + x, b + y, read.0);
      Inside(a, x, ',', b + y);
    }
  }

  lemma ObjectLists(pairs: Pairs)
    requires Object(pairs).Ok? && pairs != []
    ensures Lists(pairs, ToMap(pairs)) && ToMap(pairs) != map[]
  {
    JsonRoundTrip.ToMapHolds(pairs);
    assert pairs[0].0 in ToMap(pairs);
  }

  lemma Bracketed(s: string, first: char, a: string, t: string, last: char, rest: string)
    requires s == [first] + (a + (t + ([last] + rest)))
    ensures s == ([first] + ((a + t) + [last])) + rest
    ensures
      var whole := [first] + ((a + t) + [last]);
      Enclosed(whole, first, last) && whole[1..|whole| - 1] == a + t
  {
    var whole := [first] + ((a + t) + [last]);
    assert whole[|whole| - 1] == last;
  }

  lemma {:induction false} ArrayRead(s: string) returns (t: string)
    requires s != "" && s[0] == '[' && ParseValue(s).Ok?
    ensures s == t + ParseValue(s).value.1 && ValueSpells(t, ParseValue(s).value.0)
    decreases |s|, 0
  {
    Head(s, '[');
    var a := SpaceRead(s[1..]);
    var inside := SkipSpace(s[1..]);
    var y := "";
    if inside[0] == ']' {
      Head(inside, ']');
    } else {
      y := ItemsRead(inside, a);
    }
    t := ['['] + ((a + y) + [']']);
    assert inside == y + ([']'] + ParseValue(s).value.1);
    Bracketed(s, '[', a, y, ']', ParseValue(s).value.1);
    assert y == "" ==> a + y == a;
  }

  lemma ObjectSpells(t: string, pairs: Pairs, m: map<string, Json>)
    requires Enclosed(t, '{', '}') && Lists(pairs, m) && m != map[] && MembersSpell(t[1..|t| - 1], pairs)
    ensures ValueSpells(t, JObj(m))
  {
  }

  lemma ObjectParts(s: string)
    requires s != "" && s[0] == '{' && ParseValue(s).Ok?
    ensures
      var inside := SkipSpace(s[1..]);
      && inside != ""
      && (inside[0] == '}' ==> ParseValue(s).value == (JObj(map[]), inside[1..]))
      && (inside[0] != '}' ==>
            && ParseMembers(inside).Ok? && Object(ParseMembers(inside).value.0).Ok?
            && ParseValue(s).value == (JObj(ToMap(ParseMembers(inside).value.0)), ParseMembers(inside).value.1))
  {
  }

  lemma {:induction false} ObjectRead(s: string) returns (t: string)
    requires s != "" && s[0] == '{' && ParseValue(s).Ok?
    ensures s == t + ParseValue(s).value.1 && ValueSpells(t, ParseValue(s).value.0)
    decreases |s|, 0
  {
    ObjectParts(s);
    Head(s, '{');
    var a := SpaceRead(s[1..]);
    var inside, rest := SkipSpace(s[1..]), ParseValue(s).value.1;
    if inside[0] == '}' {
      Head(inside, '}');
      t := ['{'] + ((a + "") + ['}']);
      Bracketed(s, '{', a, "", '}', rest);
      assert a + "" == a;
    } else {
      var y := MembersRead(inside, a);
      var pairs := ParseMembers(inside).value.0;
      t := ['{'] + ((a + y) + ['}']);
      Bracketed(s, '{', a, y, '}', rest);
      ObjectLists(pairs);
      ObjectSpells(t, pairs, ToMap(pairs));
    }
  }

  lemma {:induction false} ValueRead(s: string) returns (t: string)
    requires ParseValue(s).Ok?
    ensures s == t + ParseValue(s).value.1 && ValueSpells(t, ParseValue(s).value.0)
    decreases |s|, 1
  {
    if s[0] == '"' {
      t := QuotedRead(s);
    } else if s[0] == '[' {
      t := ArrayRead(s);
    } else if s[0] == '{' {
      t := ObjectRead(s);
    } else if "null" <= s || "true" <= s {
      t := s[..4];
    } else if "false" <= s {
      t := s[..5];
    } else {
      var n := IntRead(s);
      t := s[..n];
    }
  }

  // ----- what is spelled is read ------------------------------------------------------------------------------

  // What may follow a value once the space behind it is skipped.
  predicate Delimited(rest: string) {
    rest == "" || rest[0] == ',' || rest[0] == ']' || rest[0] == '}'
  }

  // No value begins with space or a delimiter.
  lemma ValueStarts(t: string, v: Json)
    requires ValueSpells(t, v)
    ensures t != "" && !IsSpace(t[0]) && !Delimited(t) && t[0] != ':'
  {
  }

  lemma LiteralFollowed(t: string, v: Json, rest: string)
    requires (v.JNull? || v.JBool?) && ValueSpells(t, v)
    ensures ParseValue(t + rest) == Ok((v, rest))
  {
    var s := t + rest;
    assert "null"[0] == 'n' && "true"[0] == 't' && "false"[0] == 'f';
    assert s[|t|..] == rest && s[0] == t[0] && t <= s;
  }

  lemma IntValueFollowed(t: string, n: int, rest: string)
    requires IntSpells(t, n) && Follows(rest)
    ensures ParseValue(t + rest) == Ok((JInt(n), rest))
  {
    var s := t + rest;
    IntFollowed(t, n, rest);
    assert s[0] == t[0];
    assert "null"[0] == 'n' && "true"[0] == 't' && "false"[0] == 'f' && "NaN"[0] == 'N' && "Infinity"[0] == 'I';
    if t[0] == '-' {
      assert s[1] == t[1] && '0' <= t[1] <= '9' && "-Infinity"[1] == 'I';
    } else {
      assert "-Infinity"[0] == '-';
    }
  }

  lemma CutAt(t: string, k: nat, c: char, x: string)
    requires k < |t| && t[k] == c
    ensures t + x == t[..k] + ([c] + (t[k + 1..] + x)) && ([c] + (t[k + 1..] + x))[1..] == t[k + 1..] + x
  {
  }

  // Space, a value, and a rest that begins with neither.
  lemma SpaceBefore(a: string, x: string)
    requires Blank(a) && x != "" && !IsSpace(x[0])
    ensures SkipSpace(a + x) == x
  {
    BlankSkipped(a, x);
  }

  lemma {:induction false} SpellsFollowed(t: string, v: Json, rest: string)
    requires Spells(t, v) && Delimited(rest)
    ensures
      var x := SkipSpace(t + rest);
      x != "" && !Delimited(x) && ParseValue(x).Ok? && ParseValue(x).value.0 == v && SkipSpace(ParseValue(x).value.1) == rest
    decreases |t|, 2
  {
    var i: nat, j: nat :| Within(t, i, j, v);
    var core, behind := t[i..j], t[j..];
    ValueStarts(core, v);
    assert t + rest == t[..i] + (core + (behind + rest));
    assert (core + (behind + rest))[0] == core[0];
    SpaceBefore(t[..i], core + (behind + rest));
    assert behind != "" ==> (behind + rest)[..1] == behind[..1];
    assert behind == "" ==> behind + rest == rest;
    ValueFollowed(core, v, behind + rest);
    BlankSkipped(behind, rest);
  }

  lemma ItemsMade(s: string, first: (Json, string), more: (seq<Json>, string))
    requires ParseValue(s) == Ok(first) && SkipSpace(first.1) != "" && SkipSpace(first.1)[0] == ','
    requires ParseItems(SkipSpace(SkipSpace(first.1)[1..])) == Ok(more)
    ensures ParseItems(s) == Ok(([first.0] + more.0, more.1))
  {
  }

  lemma ItemsEnd(s: string, first: (Json, string))
    requires ParseValue(s) == Ok(first) && SkipSpace(first.1) != "" && SkipSpace(first.1)[0] == ']'
    ensures ParseItems(s) == Ok(([first.0], SkipSpace(first.1)[1..]))
  {
  }

  lemma {:induction false} ItemsFollowed(t: string, items: seq<Json>, rest: string)
    requires ItemsSpell(t, items)
    ensures
      var x := SkipSpace(t + ([']'] + rest));
      x != "" && x[0] != ']' && ParseItems(x) == Ok((items, rest))
    decreases |t|, 3
  {
    var x := SkipSpace(t + ([']'] + rest));
    if |items| == 1 {
      SpellsFollowed(t, items[0], [']'] + rest);
      ItemsEnd(x, ParseValue(x).value);
      assert items == [items[0]];
    } else {
      var k: nat :| FirstItem(t, k, items);
      var more := t[k + 1..] + ([']'] + rest);
      ItemsFollowed(t[k + 1..], items[1..], rest);
      SpellsFollowed(t[..k], items[0], [','] + more);
      CutAt(t, k, ',', [']'] + rest);
      ItemsMade(x, ParseValue(x).value, (items[1..], rest));
      assert items == [items[0]] + items[1..];
    }
  }

  lemma MemberMade(s: string, key: (string, string), value: (Json, string))
    requires s != "" && s[0] == '"' && ParseString(s[1..]) == Ok(key)
    requires SkipSpace(key.1) != "" && SkipSpace(key.1)[0] == ':' && ParseValue(SkipSpace(SkipSpace(key.1)[1..])) == Ok(value)
    ensures ParseMember(s) == Ok(((key.0, value.0), value.1))
  {
  }

  lemma MemberCut(t: string, rest: string, i: nat, j: nat, k: nat)
    requires i <= j <= k < |t|
    ensures t + rest == t[..i] + (t[i..j] + (t[j..k] + ([t[k]] + (t[k + 1..] + rest))))
  {
  }

  lemma {:induction false} MemberFollowed(t: string, pair: (string, Json), rest: string)
    requires MemberSpells(t, pair) && Delimited(rest)
    ensures
      var x := SkipSpace(t + rest);
      x != "" && x[0] == '"' && ParseMember(x).Ok? && ParseMember(x).value.0 == pair && SkipSpace(ParseMember(x).value.1) == rest
    decreases |t|, 3
  {
    var i: nat, j: nat, k: nat :| NamedAt(t, i, j, k, pair);
    var more := t[k + 1..] + rest;
    var colon := [t[k]] + more;
    var x := t[i..j] + (t[j..k] + colon);
    MemberCut(t, rest, i, j, k);
    StringFollowed(t[i..j], pair.0, t[j..k] + colon);
    SpaceBefore(t[..i], x);
    SpaceBefore(t[j..k], colon);
    assert colon[1..] == more;
    SpellsFollowed(t[k + 1..], pair.1, rest);
    MemberMade(x, (pair.0, t[j..k] + colon), ParseValue(SkipSpace(more)).value);
  }

  lemma MembersMade(s: string, first: ((string, Json), string), more: (Pairs, string))
    requires ParseMember(s) == Ok(first) && SkipSpace(first.1) != "" && SkipSpace(first.1)[0] == ','
    requires ParseMembers(SkipSpace(SkipSpace(first.1)[1..])) == Ok(more)
    ensures ParseMembers(s) == Ok(([first.0] + more.0, more.1))
  {
  }

  lemma MembersEnd(s: string, first: ((string, Json), string))
    requires ParseMember(s) == Ok(first) && SkipSpace(first.1) != "" && SkipSpace(first.1)[0] == '}'
    ensures ParseMembers(s) == Ok(([first.0], SkipSpace(first.1)[1..]))
  {
  }

  lemma {:induction false} MembersFollowed(t: string, pairs: Pairs, rest: string)
    requires MembersSpell(t, pairs)
    ensures
      var x := SkipSpace(t + (['}'] + rest));
      x != "" && x[0] == '"' && ParseMembers(x) == Ok((pairs, rest))
    decreases |t|, 4
  {
    var x := SkipSpace(t + (['}'] + rest));
    if |pairs| == 1 {
      MemberFollowed(t, pairs[0], ['}'] + rest);
      MembersEnd(x, ParseMember(x).value);
      assert pairs == [pairs[0]];
    } else {
      var k: nat :| FirstMember(t, k, pairs);
      var more := t[k + 1..] + (['}'] + rest);
      MembersFollowed(t[k + 1..], pairs[1..], rest);
      MemberFollowed(t[..k], pairs[0], [','] + more);
      CutAt(t, k, ',', ['}'] + rest);
      MembersMade(x, ParseMember(x).value, (pairs[1..], rest));
      assert pairs == [pairs[0]] + pairs[1..];
    }
  }

  lemma ListedObject(pairs: Pairs, m: map<string, Json>)
    requires Lists(pairs, m)
    ensures Object(pairs) == Ok(JObj(m))
  {
    JsonRoundTrip.ToMapHolds(pairs);
    var made := ToMap(pairs);
    forall k
      ensures k in made <==> k in m
    {
    }
    forall k | k in m
      ensures made[k] == m[k]
    {
      var i :| 0 <= i < |pairs| && pairs[i].0 == k;
    }
    assert made == m;
  }

  lemma Unbracketed(t: string, first: char, last: char, rest: string)
    requires Enclosed(t, first, last)
    ensures t + rest != "" && (t + rest)[0] == first && (t + rest)[1..] == t[1..|t| - 1] + ([last] + rest)
    ensures ([last] + rest)[1..] == rest
  {
  }

  lemma {:induction false} ArrayFollowed(t: string, v: Json, rest: string)
    requires v.JArr? && ValueSpells(t, v)
    ensures ParseValue(t + rest) == Ok((v, rest))
    decreases |t|, 0
  {
    Unbracketed(t, '[', ']', rest);
    if v.items == [] {
      SpaceBefore(t[1..|t| - 1], [']'] + rest);
    } else {
      ItemsFollowed(t[1..|t| - 1], v.items, rest);
    }
  }

  lemma {:induction false} ObjectFollowed(t: string, v: Json, rest: string)
    requires v.JObj? && ValueSpells(t, v)
    ensures ParseValue(t + rest) == Ok((v, rest))
    decreases |t|, 0
  {
    Unbracketed(t, '{', '}', rest);
    if v.members == map[] {
      SpaceBefore(t[1..|t| - 1], ['}'] + rest);
    } else {
      var pairs :| Lists(pairs, v.members) && MembersSpell(t[1..|t| - 1], pairs);
      MembersFollowed(t[1..|t| - 1], pairs, rest);
      ListedObject(pairs, v.members);
    }
  }

  lemma {:induction false} ValueFollowed(t: string, v: Json, rest: string)
    requires ValueSpells(t, v) && Follows(rest)
    ensures ParseValue(t + rest) == Ok((v, rest))
    decreases |t|, 1
  {
    match v {
      case JInt(n) => IntValueFollowed(t, n, rest);
      case JStr(s) => StringFollowed(t, s, rest);
      case JArr(_) => ArrayFollowed(t, v, rest);
      case JObj(_) => ObjectFollowed(t, v, rest);
      case _ => LiteralFollowed(t, v, rest);
    }
  }

  // ----- the reader, exactly ----------------------------------------------------------------------------------

  // The reader gives a value for a text if and only if the text spells the value.
  lemma ParseExactly(text: string, v: Json)
    ensures Parse(text) == Ok(v) <==> Spells(text, v)
  {
    if Parse(text) == Ok(v) {
      var a := SpaceRead(text);
      var t := PaddedRead(SkipSpace(text), a);
      assert t + "" == t;
    }
    if Spells(text, v) {
      SpellsFollowed(text, v, "");
      assert text + "" == text;
    }
  }

  // No text spells two values.
  lemma OneValuePerText(text: string, v: Json, w: Json)
    requires Spells(text, v) && Spells(text, w)
    ensures v == w
  {
    ParseExactly(text, v);
    ParseExactly(text, w);
  }
}
