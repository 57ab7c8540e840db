// Packed storage of the Rules configuration: the decoder that walks the widths, the masked edit of the LP rate,
// and the edit of two bytes of the big-endian word.
module PackedWords {
  import opened Wrappers
  import opened Bits
  import opened LegacyWords
  import Hookr1

  const PACKED: nat := 12

  // Names and widths as the decoder lists them.
  function Name(i: nat): string
    requires i < PACKED
  {
    ["guardEndBlock", "maxFeePips", "snipeTaxPips", "snipeFloorPips", "snipeDecaySeconds", "dynamicFeeSens",
     "burnBps", "lpBps", "potBps", "royaltyBps", "protocolShareBps", "potEveryNBuys"][i]
  }

  function Width(i: nat): nat
    requires i < PACKED
  {
    [40, 24, 24, 24, 16, 16, 16, 16, 16, 16, 16, 32][i]
  }

  // Widths before the i-th.
  function Shift(i: nat): nat
    requires i <= PACKED
  {
    if i == 0 then 0 else Shift(i - 1) + Width(i - 1)
  }

  lemma {:induction false} ShiftIsOffset(i: nat)
    requires i <= PACKED
    ensures Shift(i) == if i < PACKED then Hookr1.HookrField(i).offset else WORD_BITS
  {
    if i > 0 {
      ShiftIsOffset(i - 1);
    }
  }

  lemma NamesAndWidths(i: nat)
    requires i < PACKED
    ensures Name(i) == Hookr1.HookrField(i).name && Width(i) == Hookr1.HookrField(i).width
  {
  }

  lemma {:induction false} ShiftsAscend(i: nat, j: nat)
    requires i < j <= PACKED
    ensures Shift(i) + Width(i) <= Shift(j)
  {
    if i < j - 1 {
      ShiftsAscend(i, j - 1);
    }
  }

  // ----- decoding ---------------------------------------------------------------------------------------------

  type Config = map<string, nat>

  datatype PackedCode =
    | StoragePadding
    | ExpectedOld
    | CaseLpRange
    | NoChange
    | UnrelatedBits
    | UnexpectedOldWord
    | UnexpectedLpValue
    | InterventionIdentity
    | ExtraBitsChanged

  function FieldsOf(w: nat): (fields: seq<nat>)
    ensures |fields| == PACKED
  {
    seq(PACKED, (i: int) requires 0 <= i < PACKED => GetField(w, Shift(i), Width(i)))
  }

  // The packed word decodes to every one of its first k fields, at the declared places.
  ghost predicate HoldsPacked(fields: Config, w: nat, k: nat)
    requires k <= PACKED
  {
    && (forall i :: 0 <= i < k ==> Name(i) in fields && fields[Name(i)] == FieldsOf(w)[i])
    && (forall n :: n in fields ==> exists i :: 0 <= i < k && n == Name(i))
  }

  lemma PackedNamesDistinct(i: nat, j: nat)
    requires i < j < PACKED
    ensures Name(i) != Name(j)
  {
    NamesAndWidths(i);
    NamesAndWidths(j);
    Hookr1.FieldNamesDistinct(i, j);
  }

  // No name but one of the first k.
  lemma PackedNameGrows(fields: Config, w: nat, k: nat, n: string)
    requires k < PACKED && HoldsPacked(fields, w, k) && n in fields
    ensures exists i :: 0 <= i < k + 1 && n == Name(i)
  {
    var i :| 0 <= i < k && n == Name(i);
    assert i < k + 1;
  }

  lemma OneMorePacked(fields: Config, w: nat, k: nat)
    requires k < PACKED && HoldsPacked(fields, w, k)
    ensures HoldsPacked(fields[Name(k) := FieldsOf(w)[k]], w, k + 1)
  {
    var name, value := Name(k), FieldsOf(w)[k];
    var more := fields[name := value];
    forall i | 0 <= i < k + 1
      ensures Name(i) in more && more[Name(i)] == FieldsOf(w)[i]
    {
      if i < k {
        PackedNamesDistinct(i, k);
      }
    }
    forall n | n in more && n != name
      ensures exists i :: 0 <= i < k + 1 && n == Name(i)
    {
      PackedNameGrows(fields, w, k, n);
    }
    assert name == Name(k) && k < k + 1;
  }

  method DecodeWord(w: nat) returns (fields: Config)
    ensures HoldsPacked(fields, w, PACKED)
  {
    fields := map[];
    var shift := 0;
    for i := 0 to PACKED
      invariant shift == Shift(i) && HoldsPacked(fields, w, i)
    {
      OneMorePacked(fields, w, i);
      fields := fields[Name(i) := And(Shr(w, shift), Pow2(Width(i)) - 1)];
      shift := shift + Width(i);
    }
  }

  datatype Rules = Rules(packed: Config, maxBuyQuoteAmount: nat, potMinBuyQuote: nat, royaltyTo: nat, integrator: nat)

  // The four words of the configuration; a padded address word is refused.
  method DecodeStorage(words: seq<nat>) returns (r: Result<Rules, PackedCode>)
    requires |words| == 4 && forall i :: 0 <= i < 4 ==> IsWord(words[i])
    ensures r.Ok? <==> words[2] < Pow2(160) && words[3] < Pow2(160)
    ensures r.Ok? ==>
              && HoldsPacked(r.value.packed, words[0], PACKED)
              && r.value.maxBuyQuoteAmount == GetField(words[1], 0, 128) && r.value.potMinBuyQuote == GetField(words[1], 128, 128)
              && r.value.royaltyTo == GetField(words[2], 0, 160) && r.value.integrator == GetField(words[3], 0, 160)
    ensures r.Err? ==> r.error == StoragePadding
  {
    var packed := DecodeWord(words[0]);
    HighBitsShift(words[2], 160);
    HighBitsShift(words[3], 160);
    if !(Shr(words[2], 160) == 0 && Shr(words[3], 160) == 0) {
      return Err(StoragePadding);
    }
    LowField(words[2], 160);
    LowField(words[3], 160);
    HighHalf(words[1]);
    return Ok(Rules(packed, And(words[1], Pow2(128) - 1), Shr(words[1], 128), words[2], words[3]));
  }

  lemma HighBitsShift(w: nat, k: nat)
    ensures Shr(w, k) == 0 <==> w < Pow2(k)
  {
    if w < Pow2(k) {
      forall i: nat
        ensures !Bit(Shr(w, k), i)
      {
        ShrBit(w, k, i);
        BelowHasNoHighBits(w, k, i + k);
      }
      NoBitsIsZero(Shr(w, k));
    }
    if Shr(w, k) == 0 {
      forall i: nat | k <= i
        ensures !Bit(w, i)
      {
        ShrBit(w, k, i - k);
        ZeroBit(i - k);
      }
      NoHighBitsIsBelow(w, k);
    }
  }

  lemma LowField(w: nat, k: nat)
    requires w < Pow2(k)
    ensures GetField(w, 0, k) == w
  {
    forall i: nat
      ensures Bit(GetField(w, 0, k), i) == Bit(w, i)
    {
      GetFieldBit(w, 0, k, i);
      if k <= i {
        BelowHasNoHighBits(w, k, i);
      }
    }
    SameBits(GetField(w, 0, k), w);
  }

  lemma HighHalf(w: nat)
    requires IsWord(w)
    ensures Shr(w, 128) == GetField(w, 128, 128)
  {
    forall i: nat
      ensures Bit(Shr(w, 128), i) == Bit(GetField(w, 128, 128), i)
    {
      ShrBit(w, 128, i);
      GetFieldBit(w, 128, 128, i);
      if 128 <= i {
        BelowHasNoHighBits(w, WORD_BITS, i + 128);
      }
    }
    SameBits(Shr(w, 128), GetField(w, 128, 128));
  }

  // ----- no bit is lost ---------------------------------------------------------------------------------------

  predicate FieldsFit(fields: seq<nat>) {
    |fields| == PACKED && forall i :: 0 <= i < PACKED ==> fields[i] < Pow2(Width(i))
  }

  // The first k fields packed into a word.
  function Packed(fields: seq<nat>, k: nat): nat
    requires |fields| == PACKED && k <= PACKED
  {
    if k == 0 then 0 else PutField(Packed(fields, k - 1), Shift(k - 1), Width(k - 1), fields[k - 1])
  }

  // Putting a field of w on top of the bits of w below it.
  lemma OneMoreFieldBits(w: nat, below: nat, shift: nat, width: nat, bit: nat)
    requires Bit(below, bit) == (bit < shift && Bit(w, bit))
    ensures Bit(PutField(below, shift, width, GetField(w, shift, width)), bit) == (bit < shift + width && Bit(w, bit))
  {
    GetFieldFits(w, shift, width);
    PutFieldBit(below, shift, width, GetField(w, shift, width), bit);
    if shift <= bit {
      GetFieldBit(w, shift, width, bit - shift);
    }
  }

  lemma {:induction false} PackedBits(w: nat, k: nat, bit: nat)
    requires k <= PACKED
    ensures Bit(Packed(FieldsOf(w), k), bit) == (bit < Shift(k) && Bit(w, bit))
  {
    if k == 0 {
      ZeroBit(bit);
    } else {
      PackedBits(w, k - 1, bit);
      OneMoreFieldBits(w, Packed(FieldsOf(w), k - 1), Shift(k - 1), Width(k - 1), bit);
    }
  }

  // Packing the decoded fields gives the word back: every bit of it is in some field.
  lemma UnpackPack(w: nat)
    requires IsWord(w)
    ensures Packed(FieldsOf(w), PACKED) == w
  {
    ShiftIsOffset(PACKED);
    forall bit: nat
      ensures Bit(Packed(FieldsOf(w), PACKED), bit) == Bit(w, bit)
    {
      PackedBits(w, PACKED, bit);
      if WORD_BITS <= bit {
        BelowHasNoHighBits(w, WORD_BITS, bit);
      }
    }
    SameBits(Packed(FieldsOf(w), PACKED), w);
  }

  lemma {:induction false} PackedField(fields: seq<nat>, k: nat, i: nat)
    requires FieldsFit(fields) && i < k <= PACKED
    ensures GetField(Packed(fields, k), Shift(i), Width(i)) == fields[i]
  {
    if i == k - 1 {
      GetAfterPut(Packed(fields, i), Shift(i), Width(i), fields[i]);
    } else {
      PackedField(fields, k - 1, i);
      ShiftsAscend(i, k - 1);
      GetElsewhereAfterPut(Packed(fields, k - 1), Shift(k - 1), Width(k - 1), fields[k - 1], Shift(i), Width(i));
    }
  }

  // Decoding packed fields gives the fields back.
  lemma PackUnpack(fields: seq<nat>)
    requires FieldsFit(fields)
    ensures FieldsOf(Packed(fields, PACKED)) == fields
  {
    forall i | 0 <= i < PACKED
      ensures FieldsOf(Packed(fields, PACKED))[i] == fields[i]
    {
      PackedField(fields, PACKED, i);
    }
  }

  // ----- the masked edit --------------------------------------------------------------------------------------

  const LP_INDEX: nat := 7
  const LP_OFFSET: nat := 160
  const LP_WIDTH: nat := 16

  lemma LpPlace()
    ensures Shift(LP_INDEX) == LP_OFFSET && Width(LP_INDEX) == LP_WIDTH && Pow2(LP_WIDTH) == 65536
  {
    ShiftIsOffset(LP_INDEX);
    assert Pow2(8) == 256;
  }

  // (word & ~MASK) | (value << 160)
  function Masked(w: nat, value: nat): nat {
    Or(AndNot(w, Mask(LP_OFFSET, LP_WIDTH)), Shl(value, LP_OFFSET))
  }

  // Decoding the masked replacement gives the old configuration with the LP rate replaced, and nothing else.
  lemma MaskedReplacesLp(w: nat, value: nat)
    requires value < Pow2(LP_WIDTH)
    ensures FieldsOf(Masked(w, value)) == FieldsOf(w)[LP_INDEX := value]
  {
    LpPlace();
    forall i | 0 <= i < PACKED
      ensures FieldsOf(Masked(w, value))[i] == FieldsOf(w)[LP_INDEX := value][i]
    {
      if i == LP_INDEX {
        GetAfterPut(w, LP_OFFSET, LP_WIDTH, value);
      } else {
        if i < LP_INDEX {
          ShiftsAscend(i, LP_INDEX);
        } else {
          ShiftsAscend(LP_INDEX, i);
        }
        GetElsewhereAfterPut(w, LP_OFFSET, LP_WIDTH, value, Shift(i), Width(i));
      }
    }
  }

  lemma UnrelatedBitsKept(w: nat, value: nat)
    requires value < Pow2(LP_WIDTH)
    ensures AndNot(Xor(Masked(w, value), w), Mask(LP_OFFSET, LP_WIDTH)) == 0
  {
    var rest := AndNot(Xor(Masked(w, value), w), Mask(LP_OFFSET, LP_WIDTH));
    forall i: nat
      ensures !Bit(rest, i)
    {
      AndNotBit(Xor(Masked(w, value), w), Mask(LP_OFFSET, LP_WIDTH), i);
      XorBit(Masked(w, value), w, i);
      MaskBit(LP_OFFSET, LP_WIDTH, i);
      PutFieldBit(w, LP_OFFSET, LP_WIDTH, value, i);
    }
    NoBitsIsZero(rest);
  }

  // The word part of a plan. The rates the case admits are a parameter; both lie below 65536.
  method PlanWord(w: nat, expectedOld: nat, newValue: nat, low: nat, high: nat) returns (r: Result<nat, PackedCode>)
    requires IsWord(w) && high < Pow2(LP_WIDTH)
    ensures r.Ok? <==> expectedOld == FieldsOf(w)[LP_INDEX] && low <= newValue <= high && newValue != expectedOld
    ensures r.Ok? ==> FieldsOf(r.value) == FieldsOf(w)[LP_INDEX := newValue] && r.value != w
    ensures r != Err(UnrelatedBits)
  {
    LpPlace();
    if expectedOld != GetField(w, LP_OFFSET, LP_WIDTH) {
      return Err(ExpectedOld);
    }
    if !(low <= newValue <= high) {
      return Err(CaseLpRange);
    }
    if newValue == expectedOld {
      return Err(NoChange);
    }
    var newWord := Masked(w, newValue);
    UnrelatedBitsKept(w, newValue);
    MaskedReplacesLp(w, newValue);
    var unrelated := AndNot(Xor(newWord, w), Mask(LP_OFFSET, LP_WIDTH)) != 0;
    return if unrelated then Err(UnrelatedBits) else Ok(newWord);
  }

  // ----- the byte edit ----------------------------------------------------------------------------------------

  newtype byte = x: int | 0 <= x < 256

  const WORD_BYTES: nat := 32

  // A big-endian word.
  function WordOf(bytes: seq<byte>): nat {
    if bytes == [] then 0 else 256 * WordOf(bytes[..|bytes| - 1]) + bytes[|bytes| - 1] as nat
  }

  lemma {:induction false} ByteBits(bytes: seq<byte>, i: nat)
    ensures Bit(WordOf(bytes), i) ==
            (i < 8 * |bytes| && Bit(bytes[|bytes| - 1 - i / 8] as nat, i % 8))
    decreases |bytes|
  {
    if bytes == [] {
      ZeroBit(i);
    } else {
      var last := |bytes| - 1;
      SmallPowers();
      LowBits(WordOf(bytes[..last]), bytes[last] as nat, 8, i);
      if i >= 8 {
        ByteBits(bytes[..last], i - 8);
        assert (i - 8) / 8 == i / 8 - 1 && (i - 8) % 8 == i % 8;
      }
    }
  }

  lemma ByteIsField(bytes: seq<byte>, k: nat)
    requires k < |bytes|
    ensures GetField(WordOf(bytes), 8 * (|bytes| - 1 - k), 8) == bytes[k] as nat
  {
    var low := 8 * (|bytes| - 1 - k);
    SmallPowers();
    forall i: nat
      ensures Bit(GetField(WordOf(bytes), low, 8), i) == Bit(bytes[k] as nat, i)
    {
      GetFieldBit(WordOf(bytes), low, 8, i);
      if i < 8 {
        ByteBits(bytes, low + i);
        assert (low + i) / 8 == |bytes| - 1 - k && (low + i) % 8 == i;
      } else {
        BelowHasNoHighBits(bytes[k] as nat, 8, i);
      }
    }
    SameBits(GetField(WordOf(bytes), low, 8), bytes[k] as nat);
  }

  // Words of equal length are equal only if their bytes are.
  lemma WordOfInjective(a: seq<byte>, b: seq<byte>)
    requires |a| == |b|
    ensures WordOf(a) == WordOf(b) <==> a == b
  {
    if WordOf(a) == WordOf(b) {
      forall k | 0 <= k < |a|
        ensures a[k] == b[k]
      {
        ByteIsField(a, k);
        ByteIsField(b, k);
      }
    }
  }

  // Clearing bytes 10 and 11 of a word is clearing the sixteen bits from bit 160 on.
  lemma TwoBytesAreTheMask(bytes: seq<byte>)
    requires |bytes| == WORD_BYTES
    ensures WordOf(bytes[10 := 0][11 := 0]) == Masked(WordOf(bytes), 0)
  {
    var edited := bytes[10 := 0][11 := 0];
    forall i: nat
      ensures Bit(WordOf(edited), i) == Bit(Masked(WordOf(bytes), 0), i)
    {
      ByteBits(edited, i);
      ByteBits(bytes, i);
      PutFieldBit(WordOf(bytes), LP_OFFSET, LP_WIDTH, 0, i);
      ZeroBit(i % 8);
      if LP_OFFSET <= i {
        ZeroBit(i - LP_OFFSET);
      }
    }
    SameBits(WordOf(edited), Masked(WordOf(bytes), 0));
  }

  // Bytes 10 and 11 are 0 and 100 exactly when the LP field is 100.
  // Bit by bit, the LP field is its two bytes.
  lemma LpBit(bytes: seq<byte>, i: nat)
    requires |bytes| == WORD_BYTES
    ensures Bit(GetField(WordOf(bytes), LP_OFFSET, LP_WIDTH), i) == Bit(256 * bytes[10] as nat + bytes[11] as nat, i)
  {
    SmallPowers();
    GetFieldBit(WordOf(bytes), LP_OFFSET, LP_WIDTH, i);
    LowBits(bytes[10] as nat, bytes[11] as nat, 8, i);
    if i < 16 {
      ByteBits(bytes, LP_OFFSET + i);
    } else {
      BelowHasNoHighBits(bytes[10] as nat, 8, i - 8);
    }
  }

  lemma LpBytes(bytes: seq<byte>)
    requires |bytes| == WORD_BYTES
    ensures GetField(WordOf(bytes), LP_OFFSET, LP_WIDTH) == 256 * bytes[10] as nat + bytes[11] as nat
  {
    var field := GetField(WordOf(bytes), LP_OFFSET, LP_WIDTH);
    var n := 256 * bytes[10] as nat + bytes[11] as nat;
    forall i: nat
      ensures Bit(field, i) == Bit(n, i)
    {
      LpBit(bytes, i);
    }
    SameBits(field, n);
  }

  function Replacement(current: seq<byte>, expected: seq<byte>): Result<seq<byte>, PackedCode>
    requires |current| == WORD_BYTES
  {
    if current != expected then Err(UnexpectedOldWord)
    else if current[10] != 0 || current[11] != 100 then Err(UnexpectedLpValue)
    else Ok(current[10 := 0][11 := 0])
  }

  // The guarded byte edit, on a copy of the current word.
  method CheckedLPReplacement(current: array<byte>, expected: array<byte>) returns (result: array<byte>, failed: Option<PackedCode>)
    requires current.Length == WORD_BYTES && expected.Length == WORD_BYTES
    ensures fresh(result) && result.Length == WORD_BYTES
    ensures Replacement(current[..], expected[..]) == if failed.None? then Ok(result[..]) else Err(failed.value)
  {
    result := new byte[WORD_BYTES](_ => 0);
    failed := None;
    if current[..] != expected[..] {
      return result, Some(UnexpectedOldWord);
    }
    if current[10] != 0 || current[11] != 100 {
      return result, Some(UnexpectedLpValue);
    }
    forall i | 0 <= i < WORD_BYTES {
      result[i] := current[i];
    }
    assert result[..] == current[..];
    result[10], result[11] := 0, 0;
    assert result[..] == current[..][10 := 0][11 := 0];
  }

  function ValidateIntervention(identity: bool, oldWord: seq<byte>, newWord: seq<byte>): Result<(), PackedCode>
    requires |oldWord| == WORD_BYTES
  {
    if !identity then Err(InterventionIdentity)
    else
      var expected :- Replacement(oldWord, oldWord);
      if expected != newWord then Err(ExtraBitsChanged) else Ok(())
  }

  // An intervention is valid exactly when its old word has LP rate 100 and its new word is the masked replacement
  // with rate 0; then the new configuration is the old one with that rate.
  lemma ValidExactly(identity: bool, oldWord: seq<byte>, newWord: seq<byte>)
    requires |oldWord| == WORD_BYTES && |newWord| == WORD_BYTES
    ensures ValidateIntervention(identity, oldWord, newWord).Ok? <==>
            identity && GetField(WordOf(oldWord), LP_OFFSET, LP_WIDTH) == 100 && WordOf(newWord) == Masked(WordOf(oldWord), 0)
    ensures ValidateIntervention(identity, oldWord, newWord).Ok? ==>
              FieldsOf(WordOf(newWord)) == FieldsOf(WordOf(oldWord))[LP_INDEX := 0]
  {
    LpBytes(oldWord);
    TwoBytesAreTheMask(oldWord);
    WordOfInjective(oldWord[10 := 0][11 := 0], newWord);
    LpPlace();
    MaskedReplacesLp(WordOf(oldWord), 0);
  }
}
