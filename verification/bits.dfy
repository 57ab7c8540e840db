// Storage words as natural numbers, with the bitwise operators the source applies to them.
// Every operator is characterised bit by bit; two words with the same bits are equal. A word is a natural number
// below 2^256, but the operators are defined on all naturals. A field is an offset and a width: `GetField` is shift
// and mask, `PutField` clears under the mask and sets the shifted value. The laws used elsewhere: a put reads back,
// a put leaves every disjoint field alone, and words that agree on the bits of a field agree on the field.
module Bits {
  const WORD_BITS: nat := 256

  function Pow2(n: nat): (r: nat)
    ensures r >= 1
  {
    if n == 0 then 1 else 2 * Pow2(n - 1)
  }

  predicate Bit(n: nat, i: nat)
    decreases i
  {
    if i == 0 then n % 2 == 1 else Bit(n / 2, i - 1)
  }

  predicate IsWord(w: nat) {
    w < Pow2(WORD_BITS)
  }

  // n >> k
  function Shr(n: nat, k: nat): nat
    decreases k
  {
    if k == 0 then n else Shr(n / 2, k - 1)
  }

  // n << k
  function Shl(n: nat, k: nat): nat
    decreases k
  {
    if k == 0 then n else 2 * Shl(n, k - 1)
  }

  // a & b
  function And(a: nat, b: nat): nat {
    if a == 0 || b == 0 then 0
    else 2 * And(a / 2, b / 2) + (if a % 2 == 1 && b % 2 == 1 then 1 else 0)
  }

  // a | b
  function Or(a: nat, b: nat): nat
    decreases a + b
  {
    if a == 0 && b == 0 then 0
    else 2 * Or(a / 2, b / 2) + (if a % 2 == 1 || b % 2 == 1 then 1 else 0)
  }

  // a ^ b
  function Xor(a: nat, b: nat): nat
    decreases a + b
  {
    if a == 0 && b == 0 then 0
    else 2 * Xor(a / 2, b / 2) + (if a % 2 != b % 2 then 1 else 0)
  }

  // a & ~b
  function AndNot(a: nat, b: nat): nat
    decreases a
  {
    if a == 0 then 0
    else 2 * AndNot(a / 2, b / 2) + (if a % 2 == 1 && b % 2 == 0 then 1 else 0)
  }

  lemma {:induction false} ZeroBit(i: nat)
    ensures !Bit(0, i)
    decreases i
  {
    if i > 0 {
      ZeroBit(i - 1);
    }
  }

  lemma {:induction false} AndBit(a: nat, b: nat, i: nat)
    ensures Bit(And(a, b), i) == (Bit(a, i) && Bit(b, i))
    decreases i
  {
    if a == 0 || b == 0 {
      ZeroBit(i);
    } else if i > 0 {
      AndBit(a / 2, b / 2, i - 1);
    }
  }

  lemma {:induction false} OrBit(a: nat, b: nat, i: nat)
    ensures Bit(Or(a, b), i) == (Bit(a, i) || Bit(b, i))
    decreases i
  {
    if a == 0 && b == 0 {
      ZeroBit(i);
    } else if i > 0 {
      OrBit(a / 2, b / 2, i - 1);
    }
  }

  lemma {:induction false} XorBit(a: nat, b: nat, i: nat)
    ensures Bit(Xor(a, b), i) == (Bit(a, i) != Bit(b, i))
    decreases i
  {
    if a == 0 && b == 0 {
      ZeroBit(i);
    } else if i > 0 {
      XorBit(a / 2, b / 2, i - 1);
    }
  }

  lemma {:induction false} AndNotBit(a: nat, b: nat, i: nat)
    ensures Bit(AndNot(a, b), i) == (Bit(a, i) && !Bit(b, i))
    decreases i
  {
    if a == 0 {
      ZeroBit(i);
    } else if i > 0 {
      AndNotBit(a / 2, b / 2, i - 1);
    }
  }

  lemma {:induction false} ShrBit(n: nat, k: nat, i: nat)
    ensures Bit(Shr(n, k), i) == Bit(n, i + k)
    decreases k
  {
    if k > 0 {
      ShrBit(n / 2, k - 1, i);
    }
  }

  lemma {:induction false} ShlBit(n: nat, k: nat, i: nat)
    ensures Bit(Shl(n, k), i) == (i >= k && Bit(n, i - k))
    decreases k
  {
    if k > 0 {
      if i > 0 {
        ShlBit(n, k - 1, i - 1);
        assert Shl(n, k) / 2 == Shl(n, k - 1);
      }
    }
  }

  // 2^k - 1 is k ones.
  lemma {:induction false} OnesBit(k: nat, i: nat)
    ensures Bit(Pow2(k) - 1, i) == (i < k)
    decreases k
  {
    if k == 0 {
      ZeroBit(i);
    } else if i > 0 {
      OnesBit(k - 1, i - 1);
      assert (Pow2(k) - 1) / 2 == Pow2(k - 1) - 1;
    }
  }

  // Words are determined by their bits.
  lemma {:induction false} SameBits(a: nat, b: nat)
    requires forall i: nat :: Bit(a, i) == Bit(b, i)
    ensures a == b
    decreases a + b
  {
    if a != 0 || b != 0 {
      assert Bit(a, 0) == Bit(b, 0);
      forall i: nat
        ensures Bit(a / 2, i) == Bit(b / 2, i)
      {
        assert Bit(a, i + 1) == Bit(b, i + 1);
      }
      SameBits(a / 2, b / 2);
    }
  }

  lemma {:induction false} BelowHasNoHighBits(n: nat, w: nat, i: nat)
    requires n < Pow2(w) && w <= i
    ensures !Bit(n, i)
    decreases w
  {
    if w == 0 {
      ZeroBit(i);
    } else {
      BelowHasNoHighBits(n / 2, w - 1, i - 1);
    }
  }

  lemma {:induction false} NoHighBitsIsBelow(n: nat, w: nat)
    requires forall i: nat :: w <= i ==> !Bit(n, i)
    ensures n < Pow2(w)
    decreases w
  {
    if w == 0 {
      forall i: nat
        ensures Bit(n, i) == Bit(0, i)
      {
        ZeroBit(i);
      }
      SameBits(n, 0);
    } else {
      forall i: nat | w - 1 <= i
        ensures !Bit(n / 2, i)
      {
        assert !Bit(n, i + 1);
      }
      NoHighBitsIsBelow(n / 2, w - 1);
    }
  }

  lemma NoBitsIsZero(n: nat)
    requires forall i: nat :: !Bit(n, i)
    ensures n == 0
  {
    NoHighBitsIsBelow(n, 0);
  }

  // The number whose low bits are f(0) .. f(w-1).
  function FromBits(w: nat, f: nat -> bool): nat {
    if w == 0 then 0
    else (if f(0) then 1 else 0) + 2 * FromBits(w - 1, (i: nat) => f(i + 1))
  }

  lemma {:induction false} FromBitsBit(w: nat, f: nat -> bool, i: nat)
    ensures Bit(FromBits(w, f), i) == (i < w && f(i))
    decreases w
  {
    if w == 0 {
      ZeroBit(i);
    } else {
      var g := (i: nat) => f(i + 1);
      assert FromBits(w, f) / 2 == FromBits(w - 1, g);
      if i > 0 {
        FromBitsBit(w - 1, g, i - 1);
      }
    }
  }

  lemma FromBitsIsWord(f: nat -> bool)
    ensures IsWord(FromBits(WORD_BITS, f))
  {
    forall i: nat | WORD_BITS <= i
      ensures !Bit(FromBits(WORD_BITS, f), i)
    {
      FromBitsBit(WORD_BITS, f, i);
    }
    NoHighBitsIsBelow(FromBits(WORD_BITS, f), WORD_BITS);
  }

  // ----- bit fields -------------------------------------------------------------------------------

  // ((1 << width) - 1) << offset
  function Mask(offset: nat, width: nat): nat {
    Shl(Pow2(width) - 1, offset)
  }

  // (word >> offset) & ((1 << width) - 1)
  function GetField(word: nat, offset: nat, width: nat): nat {
    And(Shr(word, offset), Pow2(width) - 1)
  }

  // (word & ~mask) | (value << offset)
  function PutField(word: nat, offset: nat, width: nat, value: nat): nat {
    Or(AndNot(word, Mask(offset, width)), Shl(value, offset))
  }

  lemma MaskBit(offset: nat, width: nat, i: nat)
    ensures Bit(Mask(offset, width), i) == (offset <= i < offset + width)
  {
    ShlBit(Pow2(width) - 1, offset, i);
    if offset <= i {
      OnesBit(width, i - offset);
    }
  }

  lemma GetFieldBit(word: nat, offset: nat, width: nat, i: nat)
    ensures Bit(GetField(word, offset, width), i) == (i < width && Bit(word, offset + i))
  {
    AndBit(Shr(word, offset), Pow2(width) - 1, i);
    ShrBit(word, offset, i);
    OnesBit(width, i);
  }

  lemma GetFieldFits(word: nat, offset: nat, width: nat)
    ensures GetField(word, offset, width) < Pow2(width)
  {
    forall i: nat | width <= i
      ensures !Bit(GetField(word, offset, width), i)
    {
      GetFieldBit(word, offset, width, i);
    }
    NoHighBitsIsBelow(GetField(word, offset, width), width);
  }

  // A put changes exactly the field's bits.
  lemma PutFieldBit(word: nat, offset: nat, width: nat, value: nat, i: nat)
    requires value < Pow2(width)
    ensures Bit(PutField(word, offset, width, value), i) ==
            if offset <= i < offset + width then Bit(value, i - offset) else Bit(word, i)
  {
    OrBit(AndNot(word, Mask(offset, width)), Shl(value, offset), i);
    AndNotBit(word, Mask(offset, width), i);
    MaskBit(offset, width, i);
    ShlBit(value, offset, i);
    if offset + width <= i {
      BelowHasNoHighBits(value, width, i - offset);
    }
  }

  lemma GetAfterPut(word: nat, offset: nat, width: nat, value: nat)
    requires value < Pow2(width)
    ensures GetField(PutField(word, offset, width, value), offset, width) == value
  {
    var word' := PutField(word, offset, width, value);
    forall i: nat
      ensures Bit(GetField(word', offset, width), i) == Bit(value, i)
    {
      GetFieldBit(word', offset, width, i);
      PutFieldBit(word, offset, width, value, offset + i);
      if width <= i {
        BelowHasNoHighBits(value, width, i);
      }
    }
    SameBits(GetField(word', offset, width), value);
  }

  lemma GetElsewhereAfterPut(word: nat, offset: nat, width: nat, value: nat, offset': nat, width': nat)
    requires value < Pow2(width)
    requires offset + width <= offset' || offset' + width' <= offset
    ensures GetField(PutField(word, offset, width, value), offset', width') == GetField(word, offset', width')
  {
    var word' := PutField(word, offset, width, value);
    forall i: nat
      ensures Bit(GetField(word', offset', width'), i) == Bit(GetField(word, offset', width'), i)
    {
      GetFieldBit(word', offset', width', i);
      GetFieldBit(word, offset', width', i);
      PutFieldBit(word, offset, width, value, offset' + i);
    }
    SameBits(GetField(word', offset', width'), GetField(word, offset', width'));
  }

  // A field holds a value when its bits are the value's bits.
  lemma FieldHolds(word: nat, offset: nat, width: nat, value: nat)
    requires value < Pow2(width)
    requires forall i: nat :: i < width ==> Bit(word, offset + i) == Bit(value, i)
    ensures GetField(word, offset, width) == value
  {
    forall i: nat
      ensures Bit(GetField(word, offset, width), i) == Bit(value, i)
    {
      GetFieldBit(word, offset, width, i);
      if i < width {
        assert Bit(word, offset + i) == Bit(value, i);
      } else {
        BelowHasNoHighBits(value, width, i);
      }
    }
    SameBits(GetField(word, offset, width), value);
  }

  lemma SameBitsSameField(a: nat, b: nat, offset: nat, width: nat)
    requires forall i: nat :: offset <= i < offset + width ==> Bit(a, i) == Bit(b, i)
    ensures GetField(a, offset, width) == GetField(b, offset, width)
  {
    forall i: nat
      ensures Bit(GetField(a, offset, width), i) == Bit(GetField(b, offset, width), i)
    {
      GetFieldBit(a, offset, width, i);
      GetFieldBit(b, offset, width, i);
      var j := offset + i;
      if j < offset + width {
        assert Bit(a, j) == Bit(b, j);
      }
    }
    SameBits(GetField(a, offset, width), GetField(b, offset, width));
  }

  // The bits of a word put together from a high and a low part.
  lemma {:induction false} LowBits(x: nat, y: nat, k: nat, i: nat)
    requires y < Pow2(k)
    ensures Bit(Pow2(k) * x + y, i) == if i < k then Bit(y, i) else Bit(x, i - k)
    decreases k
  {
    if k == 0 {
    } else {
      var n := Pow2(k) * x + y;
      assert n == 2 * (Pow2(k - 1) * x) + y;
      assert n / 2 == Pow2(k - 1) * x + y / 2 && n % 2 == y % 2;
      if i > 0 {
        LowBits(x, y / 2, k - 1, i - 1);
      }
    }
  }
}
