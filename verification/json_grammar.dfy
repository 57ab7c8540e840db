// What JSON text spells a value: sections 2 to 7 of RFC 8259, read as a relation. Nothing here looks at the reader.
module JsonGrammar {
  import opened JsonValues

  // Any run of space, tab, newline and carriage return.
  predicate Blank(t: string) {
    forall i :: 0 <= i < |t| ==> t[i] == ' ' || t[i] == '\t' || t[i] == '\n' || t[i] == '\r'
  }

  // ----- numbers ----------------------------------------------------------------------------------------------

  predicate Decimals(t: string) {
    forall i :: 0 <= i < |t| ==> '0' <= t[i] <= '9'
  }

  // The number that decimal digits write.
  function Decimal(t: string): nat
    requires Decimals(t)
  {
    if t == "" then 0 else 10 * Decimal(t[..|t| - 1]) + (t[|t| - 1] - '0') as nat
  }

  // No leading zero.
  predicate NatSpells(t: string, n: nat) {
    t != "" && Decimals(t) && (t[0] == '0' ==> |t| == 1) && Decimal(t) == n
  }

  predicate IntSpells(t: string, n: int) {
    if t != "" && t[0] == '-' then n <= 0 && NatSpells(t[1..], 0 - n) else n >= 0 && NatSpells(t, n)
  }

  // ----- strings ----------------------------------------------------------------------------------------------

  // Digits, then letters in either case.
  predicate HexSpells(c: char, n: nat) {
    if n < 10 then c as int == '0' as int + n else n < 16 && (c as int == 'a' as int + n - 10 || c as int == 'A' as int + n - 10)
  }

  ghost predicate DigitsSpell(t: string, a: nat, b: nat, c: nat, d: nat) {
    |t| == 4 && HexSpells(t[0], a) && HexSpells(t[1], b) && HexSpells(t[2], c) && HexSpells(t[3], d)
  }

  // Four hexadecimal digits.
  ghost predicate UnitSpells(t: string, n: nat) {
    exists a: nat, b: nat, c: nat, d: nat :: DigitsSpell(t, a, b, c, d) && n == 4096 * a + 256 * b + 16 * c + d
  }

  // The short escape e of a character.
  predicate ShortSpells(e: char, c: char) {
    || (e == c && (c == '"' || c == '\\' || c == '/'))
    || (e == 'b' && c as int == 8) || (e == 'f' && c as int == 12) || (e == 'n' && c as int == 10)
    || (e == 'r' && c as int == 13) || (e == 't' && c as int == 9)
  }

  // \u escapes: of a character below 0x10000, and of one above by a pair.
  ghost predicate LongSpells(t: string, c: char) {
    |t| == 6 && t[0] == '\\' && t[1] == 'u' && UnitSpells(t[2..], c as int)
  }

  ghost predicate PairSpells(t: string, c: char) {
    && |t| == 12 && t[0] == '\\' && t[1] == 'u' && t[6] == '\\' && t[7] == 'u' && c as int >= 0x10000
    && UnitSpells(t[2..6], 0xD800 + (c as int - 0x10000) / 1024) && UnitSpells(t[8..], 0xDC00 + (c as int - 0x10000) % 1024)
  }

  // A character as itself, unless it is a quote, a backslash or a control character, or by any of its escapes.
  ghost predicate CharSpells(t: string, c: char) {
    || (t == [c] && c >= ' ' && c != '"' && c != '\\')
    || (|t| == 2 && t[0] == '\\' && ShortSpells(t[1], c))
    || LongSpells(t, c) || PairSpells(t, c)
  }

  ghost predicate BodySpells(t: string, s: string)
    decreases |s|, 1
  {
    if s == "" then t == "" else exists k: nat :: FirstChar(t, k, s)
  }

  // The first k characters spell the first one of s, the others the rest.
  ghost predicate FirstChar(t: string, k: nat, s: string)
    requires s != ""
    decreases |s|, 0
  {
    k <= |t| && CharSpells(t[..k], s[0]) && BodySpells(t[k..], s[1..])
  }

  ghost predicate StringSpells(t: string, s: string) {
    |t| >= 2 && t[0] == '"' && t[|t| - 1] == '"' && BodySpells(t[1..|t| - 1], s)
  }

  // ----- values -----------------------------------------------------------------------------------------------

  // The members of an object in some order, each once.
  ghost predicate Lists(pairs: seq<(string, Json)>, m: map<string, Json>) {
    && (forall i, j :: 0 <= i < j < |pairs| ==> pairs[i].0 != pairs[j].0)
    && (forall i :: 0 <= i < |pairs| ==> pairs[i].0 in m && m[pairs[i].0] == pairs[i].1)
    && (forall k :: k in m ==> exists i :: 0 <= i < |pairs| && pairs[i].0 == k)
  }

  predicate Enclosed(t: string, first: char, last: char) {
    |t| >= 2 && t[0] == first && t[|t| - 1] == last
  }

  // Text without space around it.
  ghost predicate ValueSpells(t: string, v: Json)
    decreases |t|, 0
  {
    match v
    case JNull => t == "null"
    case JBool(b) => t == if b then "true" else "false"
    case JInt(n) => IntSpells(t, n)
    case JStr(s) => StringSpells(t, s)
    case JArr(items) =>
      Enclosed(t, '[', ']') && if items == [] then Blank(t[1..|t| - 1]) else ItemsSpell(t[1..|t| - 1], items)
    case JObj(m) =>
      Enclosed(t, '{', '}') && if m == map[] then Blank(t[1..|t| - 1])
                               else exists pairs :: Lists(pairs, m) && MembersSpell(t[1..|t| - 1], pairs)
  }

  ghost predicate Within(t: string, i: nat, j: nat, v: Json)
    decreases |t|, 1
  {
    i <= j <= |t| && Blank(t[..i]) && ValueSpells(t[i..j], v) && Blank(t[j..])
  }

  // A value with any space around it.
  ghost predicate Spells(t: string, v: Json)
    decreases |t|, 2
  {
    exists i: nat, j: nat :: Within(t, i, j, v)
  }

  // Values separated by commas.
  ghost predicate ItemsSpell(t: string, items: seq<Json>)
    decreases |t|, 4
  {
    if items == [] then false
    else if |items| == 1 then Spells(t, items[0])
    else exists k: nat :: FirstItem(t, k, items)
  }

  ghost predicate FirstItem(t: string, k: nat, items: seq<Json>)
    requires items != []
    decreases |t|, 3
  {
    k < |t| && t[k] == ',' && Spells(t[..k], items[0]) && ItemsSpell(t[k + 1..], items[1..])
  }

  // A name, a colon and a value, with any space around each.
  ghost predicate NamedAt(t: string, i: nat, j: nat, k: nat, pair: (string, Json))
    decreases |t|, 2
  {
    && i <= j <= k < |t| && Blank(t[..i]) && StringSpells(t[i..j], pair.0) && Blank(t[j..k]) && t[k] == ':'
    && Spells(t[k + 1..], pair.1)
  }

  ghost predicate MemberSpells(t: string, pair: (string, Json))
    decreases |t|, 3
  {
    exists i: nat, j: nat, k: nat :: NamedAt(t, i, j, k, pair)
  }

  ghost predicate MembersSpell(t: string, pairs: seq<(string, Json)>)
    decreases |t|, 5
  {
    if pairs == [] then false
    else if |pairs| == 1 then MemberSpells(t, pairs[0])
    else exists k: nat :: FirstMember(t, k, pairs)
  }

  ghost predicate FirstMember(t: string, k: nat, pairs: seq<(string, Json)>)
    requires pairs != []
    decreases |t|, 4
  {
    k < |t| && t[k] == ',' && MemberSpells(t[..k], pairs[0]) && MembersSpell(t[k + 1..], pairs[1..])
  }
}
