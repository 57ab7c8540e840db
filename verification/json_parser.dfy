// The JSON reader behind `strict`, with the depth scanner that runs before it: sections 2 to 7 of RFC 8259.
module JsonParser {
  import opened Wrappers
  import opened JsonValues

  // The last two stand for what is outside this model: fractions and exponents, and escapes that spell half a pair.
  datatype JsonCode =
    | ValueExpected
    | UnterminatedString
    | ControlCharacter
    | InvalidEscape
    | ConstantRefused
    | DelimiterExpected
    | PropertyNameExpected
    | DuplicateKey
    | ExtraData
    | TooDeep
    | FloatNumber
    | LoneSurrogate

  const MAX_DEPTH: int := 64

  // ----- scanner ----------------------------------------------------------------------------------------------

  datatype Scan = Scan(depth: int, quoted: bool, escape: bool, peak: int)

  function Step(st: Scan, c: char): Scan {
    if st.quoted then
      if st.escape then st.(escape := false)
      else if c == '\\' then st.(escape := true)
      else if c == '"' then st.(quoted := false)
      else st
    else if c == '"' then st.(quoted := true)
    else if c == '[' || c == '{' then
      st.(depth := st.depth + 1, peak := if st.depth + 1 > st.peak then st.depth + 1 else st.peak)
    else if c == ']' || c == '}' then st.(depth := st.depth - 1)
    else st
  }

  function ScanAll(st: Scan, s: string): Scan
    decreases |s|
  {
    if s == "" then st else ScanAll(Step(st, s[0]), s[1..])
  }

  function Start(): Scan {
    Scan(0, false, false, 0)
  }

  lemma {:induction false} PeakGrows(st: Scan, s: string)
    ensures ScanAll(st, s).peak >= st.peak
    decreases |s|
  {
    if s != "" {
      PeakGrows(Step(st, s[0]), s[1..]);
    }
  }

  lemma {:induction false} ScanOneMore(st: Scan, s: string, i: nat)
    requires i < |s|
    ensures ScanAll(st, s[..i + 1]) == Step(ScanAll(st, s[..i]), s[i])
    decreases i
  {
    if i == 0 {
      assert s[..1][1..] == "";
      assert ScanAll(Step(st, s[0]), s[..1][1..]) == Step(st, s[0]);
    } else {
      assert s[..i + 1][1..] == s[1..][..i] && s[..i][1..] == s[1..][..i - 1];
      ScanOneMore(Step(st, s[0]), s[1..], i - 1);
    }
  }

  lemma {:induction false} ScanConcat(st: Scan, a: string, b: string)
    ensures ScanAll(st, a + b) == ScanAll(ScanAll(st, a), b)
    decreases |a|
  {
    if a == "" {
      assert a + b == b;
    } else {
      assert (a + b)[1..] == a[1..] + b;
      ScanConcat(Step(st, a[0]), a[1..], b);
    }
  }

  // The depth check: stops at the first bracket beyond the limit.
  method DepthWithin(text: string) returns (ok: bool)
    ensures ok <==> ScanAll(Start(), text).peak <= MAX_DEPTH
  {
    var depth, quoted, escape := 0, false, false;
    ghost var peak := 0;
    assert text[..0] == "";
    for i := 0 to |text|
      invariant ScanAll(Start(), text[..i]) == Scan(depth, quoted, escape, peak) && peak <= MAX_DEPTH
    {
      var c := text[i];
      ScanOneMore(Start(), text, i);
      if quoted {
        if escape {
          escape := false;
        } else if c == '\\' {
          escape := true;
        } else if c == '"' {
          quoted := false;
        }
      } else if c == '"' {
        quoted := true;
      } else if c == '[' || c == '{' {
        depth := depth + 1;
        if depth > MAX_DEPTH {
          assert text == text[..i + 1] + text[i + 1..];
          ScanConcat(Start(), text[..i + 1], text[i + 1..]);
          PeakGrows(ScanAll(Start(), text[..i + 1]), text[i + 1..]);
          return false;
        }
        peak := if depth > peak then depth else peak;
      } else if c == ']' || c == '}' {
        depth := depth - 1;
      }
    }
    assert text[..|text|] == text;
    return true;
  }

  // ----- characters and numbers -------------------------------------------------------------------------------

  predicate IsSpace(c: char) {
    c == ' ' || c == '\t' || c == '\n' || c == '\r'
  }

  predicate IsDigit(c: char) {
    '0' <= c <= '9'
  }

  predicate StartsWithDigit(s: string) {
    s != "" && IsDigit(s[0])
  }

  function SkipSpace(s: string): (rest: string)
    ensures |rest| <= |s|
  {
    if s != "" && IsSpace(s[0]) then SkipSpace(s[1..]) else s
  }

  // Reads digits onto the value so far.
  function Digits(s: string, n: nat): (r: (nat, string))
    ensures |r.1| <= |s|
  {
    if StartsWithDigit(s) then Digits(s[1..], 10 * n + (s[0] - '0') as nat) else (n, s)
  }

  // A fraction, or an exponent, that turns the number into a float.
  predicate FloatTail(s: string) {
    s != "" &&
    if s[0] == '.' then StartsWithDigit(s[1..])
    else (s[0] == 'e' || s[0] == 'E')
         && (StartsWithDigit(s[1..]) || (|s| > 1 && (s[1] == '+' || s[1] == '-') && StartsWithDigit(s[2..])))
  }

  function ParseNat(s: string): (r: Result<(nat, string), JsonCode>)
    ensures r.Ok? ==> |r.value.1| < |s|
  {
    if !StartsWithDigit(s) then Err(ValueExpected)
    else
      var read := if s[0] == '0' then (0, s[1..]) else Digits(s[1..], (s[0] - '0') as nat);
      if FloatTail(read.1) then Err(FloatNumber) else Ok(read)
  }

  function ParseInt(s: string): (r: Result<(int, string), JsonCode>)
    ensures r.Ok? ==> |r.value.1| < |s|
  {
    if s != "" && s[0] == '-' then
      var read :- ParseNat(s[1..]);
      Ok((0 - read.0, read.1))
    else
      var read :- ParseNat(s);
      Ok((read.0, read.1))
  }

  function HexValue(c: char): Option<nat> {
    if '0' <= c <= '9' then Some((c - '0') as nat)
    else if 'a' <= c <= 'f' then Some((c - 'a') as nat + 10)
    else if 'A' <= c <= 'F' then Some((c - 'A') as nat + 10)
    else None
  }

  // Four hexadecimal digits.
  function Hex4(s: string): (r: Option<nat>)
    ensures r.Some? ==> |s| >= 4 && r.value < 65536
  {
    if |s| < 4 then None
    else
      var a, b, c, d := HexValue(s[0]), HexValue(s[1]), HexValue(s[2]), HexValue(s[3]);
      if a.Some? && b.Some? && c.Some? && d.Some? && a.value < 16 && b.value < 16 && c.value < 16 && d.value < 16
      then Some(4096 * a.value + 256 * b.value + 16 * c.value + d.value) else None
  }

  function SimpleEscape(c: char): Option<char> {
    if c == '"' || c == '\\' || c == '/' then Some(c)
    else if c == 'b' then Some(8 as char)
    else if c == 'f' then Some(12 as char)
    else if c == 'n' then Some('\n')
    else if c == 'r' then Some('\r')
    else if c == 't' then Some('\t')
    else None
  }

  // The character of a \u escape whose four digits begin s, with the rest of the text.
  function UnicodeEscape(s: string): (r: Result<(char, string), JsonCode>)
    ensures r.Ok? ==> |r.value.1| < |s|
  {
    var high := Hex4(s);
    if high.None? then Err(InvalidEscape)
    else if high.value < 0xD800 || 0xE000 <= high.value then Ok((high.value as char, s[4..]))
    else if high.value < 0xDC00 && |s| >= 6 && s[4] == '\\' && s[5] == 'u' then
      var low := Hex4(s[6..]);
      if low.None? then Err(InvalidEscape)
      else if 0xDC00 <= low.value < 0xE000 then
        Ok(((0x10000 + 1024 * (high.value - 0xD800) + (low.value - 0xDC00)) as char, s[10..]))
      else Err(LoneSurrogate)
    else Err(LoneSurrogate)
  }

  // The string whose opening quote has been read.
  function ParseString(s: string): (r: Result<(string, string), JsonCode>)
    ensures r.Ok? ==> |r.value.1| < |s|
    decreases |s|
  {
    if s == "" then Err(UnterminatedString)
    else if s[0] == '"' then Ok(("", s[1..]))
    else if s[0] == '\\' then
      if |s| < 2 then Err(UnterminatedString)
      else if s[1] == 'u' then
        var unicode :- UnicodeEscape(s[2..]);
        var more :- ParseString(unicode.1);
        Ok(([unicode.0] + more.0, more.1))
      else if SimpleEscape(s[1]).Some? then
        var more :- ParseString(s[2..]);
        Ok(([SimpleEscape(s[1]).value] + more.0, more.1))
      else Err(InvalidEscape)
    else if s[0] < ' ' then Err(ControlCharacter)
    else
      var more :- ParseString(s[1..]);
      Ok(([s[0]] + more.0, more.1))
  }

  // ----- values -----------------------------------------------------------------------------------------------

  type Pairs = seq<(string, Json)>

  // The pairs hook: keys must be unique.
  predicate UniqueKeys(pairs: Pairs) {
    forall i, j :: 0 <= i < j < |pairs| ==> pairs[i].0 != pairs[j].0
  }

  function ToMap(pairs: Pairs): map<string, Json> {
    if pairs == [] then map[] else ToMap(pairs[..|pairs| - 1])[pairs[|pairs| - 1].0 := pairs[|pairs| - 1].1]
  }

  function Object(pairs: Pairs): Result<Json, JsonCode> {
    if UniqueKeys(pairs) then Ok(JObj(ToMap(pairs))) else Err(DuplicateKey)
  }

  function ParseValue(s: string): (r: Result<(Json, string), JsonCode>)
    ensures r.Ok? ==> |r.value.1| < |s|
    decreases |s|, 1
  {
    if s == "" then Err(ValueExpected)
    else if s[0] == '"' then
      var read :- ParseString(s[1..]);
      Ok((JStr(read.0), read.1))
    else if s[0] == '[' then
      var inside := SkipSpace(s[1..]);
      if inside != "" && inside[0] == ']' then Ok((JArr([]), inside[1..]))
      else
        var read :- ParseItems(inside);
        Ok((JArr(read.0), read.1))
    else if s[0] == '{' then
      var inside := SkipSpace(s[1..]);
      if inside != "" && inside[0] == '}' then Ok((JObj(map[]), inside[1..]))
      else
        var read :- ParseMembers(inside);
        var value :- Object(read.0);
        Ok((value, read.1))
    else if "null" <= s then Ok((JNull, s[4..]))
    else if "true" <= s then Ok((JBool(true), s[4..]))
    else if "false" <= s then Ok((JBool(false), s[5..]))
    else if "NaN" <= s || "Infinity" <= s || "-Infinity" <= s then Err(ConstantRefused)
    else
      var read :- ParseInt(s);
      Ok((JInt(read.0), read.1))
  }

  // The items of a non-empty array, and its closing bracket.
  function ParseItems(s: string): (r: Result<(seq<Json>, string), JsonCode>)
    ensures r.Ok? ==> |r.value.1| < |s|
    decreases |s|, 2
  {
    var first :- ParseValue(s);
    var after := SkipSpace(first.1);
    if after == "" then Err(DelimiterExpected)
    else if after[0] == ']' then Ok(([first.0], after[1..]))
    else if after[0] == ',' then
      var more :- ParseItems(SkipSpace(after[1..]));
      Ok(([first.0] + more.0, more.1))
    else Err(DelimiterExpected)
  }

  // One member: a name, a colon and a value.
  function ParseMember(s: string): (r: Result<((string, Json), string), JsonCode>)
    ensures r.Ok? ==> |r.value.1| < |s|
    decreases |s|, 0
  {
    if s == "" || s[0] != '"' then Err(PropertyNameExpected)
    else
      var key :- ParseString(s[1..]);
      var colon := SkipSpace(key.1);
      if colon == "" || colon[0] != ':' then Err(DelimiterExpected)
      else
        var value :- ParseValue(SkipSpace(colon[1..]));
        Ok(((key.0, value.0), value.1))
  }

  // The members of a non-empty object, and its closing brace.
  function ParseMembers(s: string): (r: Result<(Pairs, string), JsonCode>)
    ensures r.Ok? ==> |r.value.1| < |s|
    decreases |s|, 1
  {
    var first :- ParseMember(s);
    var after := SkipSpace(first.1);
    if after == "" then Err(DelimiterExpected)
    else if after[0] == '}' then Ok(([first.0], after[1..]))
    else if after[0] == ',' then
      var more :- ParseMembers(SkipSpace(after[1..]));
      Ok(([first.0] + more.0, more.1))
    else Err(DelimiterExpected)
  }

  function Parse(text: string): Result<Json, JsonCode> {
    var read :- ParseValue(SkipSpace(text));
    if SkipSpace(read.1) == "" then Ok(read.0) else Err(ExtraData)
  }

  function Strict(text: string): Result<Json, JsonCode> {
    if ScanAll(Start(), text).peak > MAX_DEPTH then Err(TooDeep) else Parse(text)
  }
}
