// Parsed JSON as the prepared-input checks see it: every number keeps its spelling. Python holds values equal that are
// spelled differently: True, 1 and 1.0 are one number. A float is its canonical text and its value.
module SpelledValues {
  datatype Value =
    | VNull
    | VBool(b: bool)
    | VInt(n: int)
    | VFloat(text: string, value: real)
    | VStr(s: string)
    | VArr(items: seq<Value>)
    | VObj(members: map<string, Value>)

  predicate IsNumber(v: Value) {
    v.VBool? || v.VInt? || v.VFloat?
  }

  function Number(v: Value): real
    requires IsNumber(v)
  {
    match v
    case VBool(b) => if b then 1.0 else 0.0
    case VInt(n) => n as real
    case VFloat(_, x) => x
  }

  // Python's ==
  predicate Equal(a: Value, b: Value)
    decreases a
  {
    if IsNumber(a) && IsNumber(b) then Number(a) == Number(b)
    else match a
      case VNull => b.VNull?
      case VStr(_) => b == a
      case VArr(xs) => b.VArr? && |xs| == |b.items| && forall i :: 0 <= i < |xs| ==> Equal(xs[i], b.items[i])
      case VObj(m) => b.VObj? && m.Keys == b.members.Keys && forall k :: k in m ==> Equal(m[k], b.members[k])
      case _ => false
  }

  // Every number is spelled as an integer.
  predicate Plain(a: Value)
    decreases a
  {
    match a
    case VBool(_) => false
    case VFloat(_, _) => false
    case VArr(xs) => forall i :: 0 <= i < |xs| ==> Plain(xs[i])
    case VObj(m) => forall k :: k in m ==> Plain(m[k])
    case _ => true
  }

  predicate NoNumber(a: Value)
    decreases a
  {
    match a
    case VBool(_) => false
    case VInt(_) => false
    case VFloat(_, _) => false
    case VArr(xs) => forall i :: 0 <= i < |xs| ==> NoNumber(xs[i])
    case VObj(m) => forall k :: k in m ==> NoNumber(m[k])
    case _ => true
  }

  lemma {:induction false} EqualItself(a: Value)
    ensures Equal(a, a)
    decreases a
  {
    match a
    case VArr(xs) =>
      forall i | 0 <= i < |xs| ensures Equal(xs[i], xs[i]) { EqualItself(xs[i]); }
    case VObj(m) =>
      forall k | k in m ensures Equal(m[k], m[k]) { EqualItself(m[k]); }
    case _ =>
  }

  // Between plain values Python equality is equality.
  lemma {:induction false} EqualWhenPlain(a: Value, b: Value)
    requires Equal(a, b) && Plain(a) && Plain(b)
    ensures a == b
    decreases a
  {
    match a
    case VArr(xs) =>
      forall i | 0 <= i < |xs| ensures xs[i] == b.items[i] { EqualWhenPlain(xs[i], b.items[i]); }
      assert xs == b.items;
    case VObj(m) =>
      forall k | k in m ensures m[k] == b.members[k] { EqualWhenPlain(m[k], b.members[k]); }
      assert m == b.members;
    case _ =>
  }

  lemma {:induction false} EqualToNoNumber(a: Value, b: Value)
    requires Equal(a, b) && NoNumber(b)
    ensures a == b
    decreases a
  {
    match a
    case VArr(xs) =>
      forall i | 0 <= i < |xs| ensures xs[i] == b.items[i] { EqualToNoNumber(xs[i], b.items[i]); }
      assert xs == b.items;
    case VObj(m) =>
      forall k | k in m ensures m[k] == b.members[k] { EqualToNoNumber(m[k], b.members[k]); }
      assert m == b.members;
    case _ =>
  }

  // Where one spelling is replaced by an equal one, the whole stays equal.
  lemma EqualMembers(a: map<string, Value>, b: map<string, Value>)
    requires a.Keys == b.Keys && forall k :: k in a ==> a[k] == b[k] || Equal(a[k], b[k])
    ensures Equal(VObj(a), VObj(b))
  {
    forall k | k in a
      ensures Equal(a[k], b[k])
    {
      EqualItself(b[k]);
    }
  }

  lemma EqualArrays(a: seq<Value>, b: seq<Value>)
    requires |a| == |b| && forall i :: 0 <= i < |a| ==> a[i] == b[i] || Equal(a[i], b[i])
    ensures Equal(VArr(a), VArr(b))
  {
    forall i | 0 <= i < |a|
      ensures Equal(a[i], b[i])
    {
      EqualItself(b[i]);
    }
  }
}
