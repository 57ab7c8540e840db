// Bit facts behind the legacy refinement.
// The older engines see one 8-bit mode at bit 248 of the Root record, where the descriptor has a dynamic flag, a
// recapture flag and six reserved bits. Puts to disjoint fields commute, and a put under two masks is two puts.
module LegacyWords {
  import opened Bits

  lemma ThreeBits(i: nat)
    ensures Bit(3, i) == (i < 2)
  {
    if i >= 2 {
      assert Bit(3, i) == Bit(1, i - 1) == Bit(0, i - 2);
      ZeroBit(i - 2);
    }
  }

  lemma OneBits(i: nat)
    ensures Bit(1, i) == (i == 0)
  {
    if i >= 1 {
      assert Bit(1, i) == Bit(0, i - 1);
      ZeroBit(i - 1);
    }
  }

  lemma TwoBits(i: nat)
    ensures Bit(2, i) == (i == 1)
  {
    if i >= 1 {
      assert Bit(2, i) == Bit(1, i - 1);
      OneBits(i - 1);
    }
  }

  lemma SmallPowers()
    ensures Pow2(1) == 2 && Pow2(6) == 64 && Pow2(8) == 256
  {
    assert Pow2(3) == 8;
    assert Pow2(6) == 64;
  }

  // Mode 3 is the dynamic flag, the recapture flag and six clear bits.
  lemma ModeThreeIsFlags(root: nat)
    ensures GetField(root, 248, 8) == 3 <==>
            GetField(root, 248, 1) == 1 && GetField(root, 249, 1) == 1 && GetField(root, 250, 6) == 0
  {
    SmallPowers();
    if GetField(root, 248, 8) == 3 {
      forall j: nat | 248 <= j < 256
        ensures Bit(root, j) == (j < 250)
      {
        GetFieldBit(root, 248, 8, j - 248);
        ThreeBits(j - 248);
      }
      FlagsFromBits(root);
    }
    if GetField(root, 248, 1) == 1 && GetField(root, 249, 1) == 1 && GetField(root, 250, 6) == 0 {
      BitsFromFlags(root);
      forall i: nat | i < 8
        ensures Bit(root, 248 + i) == Bit(3, i)
      {
        ThreeBits(i);
      }
      FieldHolds(root, 248, 8, 3);
    }
  }

  lemma FlagsFromBits(root: nat)
    requires forall i: nat :: 248 <= i < 256 ==> Bit(root, i) == (i < 250)
    ensures GetField(root, 248, 1) == 1 && GetField(root, 249, 1) == 1 && GetField(root, 250, 6) == 0
  {
    SmallPowers();
    forall i: nat | i < 1 ensures Bit(root, 248 + i) == Bit(1, i) { OneBits(i); }
    FieldHolds(root, 248, 1, 1);
    forall i: nat | i < 1 ensures Bit(root, 249 + i) == Bit(1, i) { OneBits(i); }
    FieldHolds(root, 249, 1, 1);
    forall i: nat | i < 6 ensures Bit(root, 250 + i) == Bit(0, i) { ZeroBit(i); }
    FieldHolds(root, 250, 6, 0);
  }

  lemma BitsFromFlags(root: nat)
    requires GetField(root, 248, 1) == 1 && GetField(root, 249, 1) == 1 && GetField(root, 250, 6) == 0
    ensures forall j: nat :: 248 <= j < 256 ==> Bit(root, j) == (j < 250)
  {
    forall j: nat | 248 <= j < 256
      ensures Bit(root, j) == (j < 250)
    {
      var i := j - 248;
      if i == 0 {
        GetFieldBit(root, 248, 1, 0);
        OneBits(0);
      } else if i == 1 {
        GetFieldBit(root, 249, 1, 0);
        OneBits(0);
      } else {
        GetFieldBit(root, 250, 6, i - 2);
        ZeroBit(i - 2);
      }
    }
  }

  // On a record in mode 3, setting the mode to 2 is clearing bit 248.
  lemma ModeTwoIsFlagCleared(root: nat)
    requires GetField(root, 248, 8) == 3
    ensures PutField(root, 248, 8, 2) == PutField(root, 248, 1, 0)
  {
    SmallPowers();
    forall i: nat
      ensures Bit(PutField(root, 248, 8, 2), i) == Bit(PutField(root, 248, 1, 0), i)
    {
      PutFieldBit(root, 248, 8, 2, i);
      PutFieldBit(root, 248, 1, 0, i);
      if 248 <= i < 256 {
        TwoBits(i - 248);
        GetFieldBit(root, 248, 8, i - 248);
        ThreeBits(i - 248);
        ZeroBit(i - 248);
      }
    }
    SameBits(PutField(root, 248, 8, 2), PutField(root, 248, 1, 0));
  }

  // root & ~(1 << 248)
  lemma AndNotModeBit(root: nat)
    ensures AndNot(root, Shl(1, 248)) == PutField(root, 248, 1, 0)
  {
    SmallPowers();
    forall i: nat
      ensures Bit(AndNot(root, Shl(1, 248)), i) == Bit(PutField(root, 248, 1, 0), i)
    {
      AndNotBit(root, Shl(1, 248), i);
      ShlBit(1, 248, i);
      PutFieldBit(root, 248, 1, 0, i);
      if 248 <= i {
        OneBits(i - 248);
        ZeroBit(i - 248);
      }
    }
    SameBits(AndNot(root, Shl(1, 248)), PutField(root, 248, 1, 0));
  }

  // root >> 248 reads the whole mode byte of a word.
  lemma ShiftReadsMode(root: nat)
    requires IsWord(root)
    ensures Shr(root, 248) == GetField(root, 248, 8)
  {
    forall i: nat
      ensures Bit(Shr(root, 248), i) == Bit(GetField(root, 248, 8), i)
    {
      ShrBit(root, 248, i);
      GetFieldBit(root, 248, 8, i);
      if 8 <= i {
        BelowHasNoHighBits(root, WORD_BITS, i + 248);
      }
    }
    SameBits(Shr(root, 248), GetField(root, 248, 8));
  }

  lemma PutsCommute(w: nat, o1: nat, w1: nat, v1: nat, o2: nat, w2: nat, v2: nat)
    requires v1 < Pow2(w1) && v2 < Pow2(w2) && (o1 + w1 <= o2 || o2 + w2 <= o1)
    ensures PutField(PutField(w, o1, w1, v1), o2, w2, v2) == PutField(PutField(w, o2, w2, v2), o1, w1, v1)
  {
    var a, b := PutField(PutField(w, o1, w1, v1), o2, w2, v2), PutField(PutField(w, o2, w2, v2), o1, w1, v1);
    forall i: nat
      ensures Bit(a, i) == Bit(b, i)
    {
      PutFieldBit(PutField(w, o1, w1, v1), o2, w2, v2, i);
      PutFieldBit(w, o1, w1, v1, i);
      PutFieldBit(PutField(w, o2, w2, v2), o1, w1, v1, i);
      PutFieldBit(w, o2, w2, v2, i);
    }
    SameBits(a, b);
  }

  // (old & ~(mask1 | mask2)) | (v << offset1): one put and one cleared field.
  lemma TwoMaskPut(w: nat, o1: nat, w1: nat, v: nat, o2: nat, w2: nat)
    requires v < Pow2(w1) && o1 + w1 <= o2
    ensures Or(AndNot(w, Or(Mask(o1, w1), Mask(o2, w2))), Shl(v, o1)) == PutField(PutField(w, o1, w1, v), o2, w2, 0)
  {
    var a, b := Or(AndNot(w, Or(Mask(o1, w1), Mask(o2, w2))), Shl(v, o1)), PutField(PutField(w, o1, w1, v), o2, w2, 0);
    forall i: nat
      ensures Bit(a, i) == Bit(b, i)
    {
      OrBit(AndNot(w, Or(Mask(o1, w1), Mask(o2, w2))), Shl(v, o1), i);
      AndNotBit(w, Or(Mask(o1, w1), Mask(o2, w2)), i);
      OrBit(Mask(o1, w1), Mask(o2, w2), i);
      MaskBit(o1, w1, i);
      MaskBit(o2, w2, i);
      ShlBit(v, o1, i);
      if o1 + w1 <= i {
        BelowHasNoHighBits(v, w1, i - o1);
      }
      PutFieldBit(PutField(w, o1, w1, v), o2, w2, 0, i);
      PutFieldBit(w, o1, w1, v, i);
      if o2 <= i {
        ZeroBit(i - o2);
      }
    }
    SameBits(a, b);
  }
}
