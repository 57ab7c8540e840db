// Canonical JSON text: sorted keys, no spaces, minimal escapes. Characters are Unicode scalar values.
// An object is a map, so its text recovers the order of its members by sorting the keys by code point. Strings escape
// the quote, the backslash and the control characters only, with the short forms where they exist. Nesting counts
// brackets: a scalar has none, a list or an object one more than its deepest member.
// Reading is in json_parser.dfy; that it undoes writing is proved in json_roundtrip.dfy.
module JsonText {
  import opened JsonValues
  import opened Orders

  // ----- numbers and strings ----------------------------------------------------------------------------------

  function Digit(n: nat): char
    requires n < 10
  {
    '0' + n as char
  }

  function NatText(n: nat): string {
    if n < 10 then [Digit(n)] else NatText(n / 10) + [Digit(n % 10)]
  }

  function IntText(n: int): string {
    if n < 0 then "-" + NatText(-n) else NatText(n)
  }

  function HexDigit(n: nat): char
    requires n < 16
  {
    if n < 10 then '0' + n as char else 'a' + (n - 10) as char
  }

  const BACKSPACE: char := 8 as char
  const FORM_FEED: char := 12 as char

  function Escape(c: char): string {
    if c == '"' then ['\\', '"']
    else if c == '\\' then ['\\', '\\']
    else if c == '\n' then ['\\', 'n']
    else if c == '\r' then ['\\', 'r']
    else if c == '\t' then ['\\', 't']
    else if c == FORM_FEED then ['\\', 'f']
    else if c == BACKSPACE then ['\\', 'b']
    else if c < ' ' then ['\\', 'u', '0', '0', HexDigit(c as nat / 16), HexDigit(c as nat % 16)]
    else [c]
  }

  function Escaped(s: string): string {
    if s == "" then "" else Escape(s[0]) + Escaped(s[1..])
  }

  function Quoted(s: string): string {
    ['"'] + Escaped(s) + ['"']
  }

  // ----- keys in order ----------------------------------------------------------------------------------------

  predicate IsLeast(k: string, keys: set<string>) {
    k in keys && forall j :: j in keys ==> StringLe(k, j)
  }

  lemma OneMoreKey(keys: set<string>, x: string, k: string) returns (least: string)
    requires IsLeast(k, keys)
    ensures IsLeast(least, keys + {x})
  {
    StringLeTotal(x, k);
    StringLeTotal(x, x);
    least := if StringLe(x, k) then x else k;
    forall j | j in keys + {x}
      ensures StringLe(least, j)
    {
      if j in keys && least == x {
        StringLeTransitive(x, k, j);
      }
    }
  }

  lemma {:induction false} LeastExists(keys: set<string>)
    requires keys != {}
    ensures exists k :: IsLeast(k, keys)
  {
    var x :| x in keys;
    var rest := keys - {x};
    assert keys == rest + {x};
    if rest == {} {
      StringLeTotal(x, x);
      assert IsLeast(x, keys);
    } else {
      LeastExists(rest);
      var k :| IsLeast(k, rest);
      var least := OneMoreKey(rest, x, k);
    }
  }

  ghost function LeastKey(keys: set<string>): (k: string)
    requires keys != {}
    ensures IsLeast(k, keys)
  {
    LeastExists(keys);
    var k :| IsLeast(k, keys);
    k
  }

  ghost function SortedKeys(keys: set<string>): (s: seq<string>)
    ensures forall k :: k in s <==> k in keys
    ensures |s| == |keys|
  {
    if keys == {} then [] else [LeastKey(keys)] + SortedKeys(keys - {LeastKey(keys)})
  }

  predicate Distinct(keys: seq<string>) {
    forall i, j :: 0 <= i < j < |keys| ==> keys[i] != keys[j]
  }

  lemma {:induction false} SortedKeysAscend(keys: set<string>)
    ensures Distinct(SortedKeys(keys))
    ensures forall i, j :: 0 <= i < j < |SortedKeys(keys)| ==> StringLe(SortedKeys(keys)[i], SortedKeys(keys)[j])
  {
    if keys != {} {
      SortedKeysAscend(keys - {LeastKey(keys)});
    }
  }

  // ----- values -----------------------------------------------------------------------------------------------

  ghost function Text(v: Json): string
    decreases v, 1, 0
  {
    match v
    case JNull => "null"
    case JBool(b) => if b then "true" else "false"
    case JInt(n) => IntText(n)
    case JStr(s) => Quoted(s)
    case JArr(items) => "[" + ItemsText(v, 0) + "]"
    case JObj(m) => "{" + MembersText(v, SortedKeys(m.Keys)) + "}"
  }

  // The items of an array from the i-th on, separated by commas.
  ghost function ItemsText(v: Json, i: nat): string
    requires v.JArr? && i <= |v.items|
    decreases v, 0, |v.items| - i
  {
    if i == |v.items| then ""
    else if i == |v.items| - 1 then Text(v.items[i])
    else Text(v.items[i]) + "," + ItemsText(v, i + 1)
  }

  ghost function MemberText(v: Json, key: string): string
    requires v.JObj? && key in v.members
    decreases v, 0, 0
  {
    Quoted(key) + ":" + Text(v.members[key])
  }

  ghost function MembersText(v: Json, keys: seq<string>): string
    requires v.JObj? && forall k :: k in keys ==> k in v.members
    decreases v, 0, |keys| + 1
  {
    if keys == [] then ""
    else if |keys| == 1 then MemberText(v, keys[0])
    else MemberText(v, keys[0]) + "," + MembersText(v, keys[1..])
  }

  // ----- nesting ----------------------------------------------------------------------------------------------

  function Max(a: int, b: int): int {
    if a >= b then a else b
  }

  // Levels of arrays and objects in a value.
  ghost function Nesting(v: Json): nat
    decreases v, 1, 0
  {
    match v
    case JArr(items) => 1 + ItemsNesting(v, 0)
    case JObj(m) => 1 + MembersNesting(v, SortedKeys(m.Keys))
    case _ => 0
  }

  ghost function ItemsNesting(v: Json, i: nat): nat
    requires v.JArr? && i <= |v.items|
    decreases v, 0, |v.items| - i
  {
    if i == |v.items| then 0 else Max(Nesting(v.items[i]), ItemsNesting(v, i + 1))
  }

  ghost function MembersNesting(v: Json, keys: seq<string>): nat
    requires v.JObj? && forall k :: k in keys ==> k in v.members
    decreases v, 0, |keys|
  {
    if keys == [] then 0 else Max(Nesting(v.members[keys[0]]), MembersNesting(v, keys[1..]))
  }

  lemma {:induction false} DeepestMember(v: Json, keys: seq<string>, k: string)
    requires v.JObj? && (forall k :: k in keys ==> k in v.members) && k in keys
    ensures Nesting(v.members[k]) <= MembersNesting(v, keys)
  {
    if keys[0] != k {
      DeepestMember(v, keys[1..], k);
    }
  }

  lemma {:induction false} DeepestIsSome(v: Json, keys: seq<string>)
    requires v.JObj? && forall k :: k in keys ==> k in v.members
    ensures MembersNesting(v, keys) == 0 || exists k :: k in keys && Nesting(v.members[k]) == MembersNesting(v, keys)
  {
    if keys != [] {
      DeepestIsSome(v, keys[1..]);
      if MembersNesting(v, keys) != 0 && Nesting(v.members[keys[0]]) != MembersNesting(v, keys) {
        var k :| k in keys[1..] && Nesting(v.members[k]) == MembersNesting(v, keys[1..]);
        assert k in keys;
      }
    }
  }

  // The order in which the keys are listed does not matter for nesting.
  lemma NestingForgetsOrder(v: Json, a: seq<string>, b: seq<string>)
    requires v.JObj? && (forall k :: k in a ==> k in v.members) && (forall k :: k in a <==> k in b)
    ensures MembersNesting(v, a) == MembersNesting(v, b)
  {
    DeepestIsSome(v, a);
    DeepestIsSome(v, b);
    forall k | k in a
      ensures Nesting(v.members[k]) <= MembersNesting(v, a) && Nesting(v.members[k]) <= MembersNesting(v, b)
    {
      DeepestMember(v, a, k);
      DeepestMember(v, b, k);
    }
  }
}
