// The meaning of a set of typed interventions: every assignment takes its value from the original words, and all
// assignments happen at once. `Compose` is this meaning, in the order of checks of the source: original words,
// canonical set, demands and widths and overlaps, promises, writes. A word after a set of assignments is defined bit
// by bit. composer.dfy holds the interpreter that reaches it with masks.
module Composition {
  import opened Wrappers
  import opened Bits
  import opened Orders
  import opened JsonValues
  import opened Descriptors

  type Words = map<string, seq<nat>>

  datatype Item = Item(kind: string, parameters: map<string, Json>)

  // A selected field with the value it receives.
  datatype Assignment = Assignment(field: Field, value: nat)

  datatype Write = Write(address: nat, slot: nat, before: nat, after: nat, target: string, word: nat)

  datatype Composed = Composed(
    interventions: seq<Item>,
    writes: seq<Write>,
    words: Words,
    baseline: map<string, nat>,
    variant: map<string, nat>)

  // ----- words and fields ---------------------------------------------------------------------------

  function WordAt(words: Words, target: string, i: nat): nat {
    if target in words && i < |words[target]| then words[target][i] else 0
  }

  // words[target][i] = w on a copy
  function SetWord(words: Words, target: string, i: nat, w: nat): Words
    requires target in words && i < |words[target]|
  {
    var row: seq<nat> := words[target][i := w];
    words[target := row]
  }

  function Get(words: Words, f: Field): nat {
    GetField(WordAt(words, f.target, f.word), f.offset, f.width)
  }

  function DecodeFields(d: Descriptor, words: Words): map<string, nat> {
    map name | name in (set i | 0 <= i < |d.fields| :: d.fields[i].name) :: Get(words, FieldNamed(d.fields, name))
  }

  function TargetNames(d: Descriptor): set<string> {
    set i | 0 <= i < |d.targets| :: d.targets[i].name
  }

  // Every word of every target is present.
  predicate Supplied(d: Descriptor, words: Words) {
    && words.Keys == TargetNames(d)
    && forall i :: 0 <= i < |d.targets| ==>
         && d.targets[i].name in words
         && |words[d.targets[i].name]| == d.targets[i].words
         && forall w :: 0 <= w < |words[d.targets[i].name]| ==> IsWord(words[d.targets[i].name][w])
  }

  predicate MatchesOriginals(d: Descriptor, words: Words) {
    forall i :: 0 <= i < |d.originalState| ==>
      WordAt(words, d.originalState[i].target, d.originalState[i].word) == d.originalState[i].value
  }

  // ----- predicates ---------------------------------------------------------------------------------

  function ParamInt(params: map<string, Json>, name: string): int {
    if name in params && params[name].JInt? then params[name].n else 0
  }

  function OperandValue(d: Descriptor, o: Operand, words: Words, params: map<string, Json>): int {
    match o
    case Const(v) => v
    case FieldRef(f) => Get(words, FieldNamed(d.fields, f))
    case ParamRef(p) => ParamInt(params, p)
  }

  function FactorValue(d: Descriptor, f: Factor, words: Words): int {
    match f
    case FieldFactor(x) => Get(words, FieldNamed(d.fields, x))
    case SquareFactor(x) =>
      var v := Get(words, FieldNamed(d.fields, x)); v * v
    case DiffFactor(x, y) => Get(words, FieldNamed(d.fields, x)) - Get(words, FieldNamed(d.fields, y))
    case ConstMinusSquare(c, x) =>
      var v := Get(words, FieldNamed(d.fields, x)); c - v * v
  }

  function Comparison(op: CompareOp, a: int, b: int): bool {
    match op
    case Eq => a == b
    case Ne => a != b
    case Lt => a < b
    case Le => a <= b
    case Gt => a > b
    case Ge => a >= b
  }

  function Product(d: Descriptor, factors: seq<Factor>, words: Words, product: int): Result<int, Code> {
    if factors == [] then Ok(product)
    else if FactorValue(d, factors[0], words) < 0 then Err(NegativeFactor)
    else Product(d, factors[1..], words, product * FactorValue(d, factors[0], words))
  }

  function Holds(d: Descriptor, p: Predicate, words: Words, params: map<string, Json>): Result<bool, Code> {
    match p
    case Compare(l, op, r) =>
      Ok(Comparison(op, OperandValue(d, l, words, params), OperandValue(d, r, words, params)))
    case ProductBound(factors, strict, bound) =>
      var product :- Product(d, factors, words, 1);
      Ok(if strict then product < bound else product <= bound)
  }

  // The first predicate that does not hold stops with `failure`.
  function CheckAll(d: Descriptor, ps: seq<Predicate>, words: Words, params: map<string, Json>, failure: Code): Result<(), Code> {
    if ps == [] then Ok(())
    else
      var holds :- Holds(d, ps[0], words, params);
      if !holds then Err(failure) else CheckAll(d, ps[1..], words, params, failure)
  }

  // ----- the intervention set -----------------------------------------------------------------------

  predicate ParameterAdmits(p: ParameterDecl, v: Json) {
    match p
    case UintParameter(_, min, max) => v.JInt? && min <= v.n <= max
    case EnumParameter(_, values) => v.JStr? && v.s in values
  }

  predicate ParametersAdmitted(ps: seq<ParameterDecl>, params: map<string, Json>) {
    && params.Keys == (set i | 0 <= i < |ps| :: ps[i].name)
    && forall i :: 0 <= i < |ps| ==> ps[i].name in params && ParameterAdmits(ps[i], params[ps[i].name])
  }

  predicate ByKind(a: Item, b: Item) {
    StringLe(a.kind, b.kind)
  }

  predicate RepeatsKind(items: seq<Item>) {
    exists i, j :: 0 <= i < j < |items| && items[i].kind == items[j].kind
  }

  predicate HasConflict(d: Descriptor, items: seq<Item>) {
    exists x, y :: x in items && y in items && y.kind in KindNamed(d.interventions, x.kind).conflictsWith
  }

  function CanonicalInterventions(d: Descriptor, items: seq<Item>): Result<seq<Item>, Code> {
    if !(1 <= |items| <= |d.interventions|) then Err(InterventionCount)
    else if exists x :: x in items && !HasKind(d.interventions, x.kind) then Err(UnknownIntervention)
    else if RepeatsKind(items) then Err(DuplicateKind)
    else if HasConflict(d, items) then Err(KindConflict)
    else if exists x :: x in items && !ParametersAdmitted(KindNamed(d.interventions, x.kind).parameters, x.parameters) then Err(Parameter)
    else Ok(Sort(ByKind, items))
  }

  // ----- assignments --------------------------------------------------------------------------------

  predicate OverlapsSome(applied: seq<Assignment>, f: Field) {
    exists k :: 0 <= k < |applied| && Overlap(applied[k].field, f)
  }

  function AssignFrom(d: Descriptor, assigns: seq<Assign>, j: nat, originals: Words, params: map<string, Json>,
                      applied: seq<Assignment>): Result<seq<Assignment>, Code>
    requires j <= |assigns|
    decreases |assigns| - j
  {
    if j == |assigns| then Ok(applied)
    else
      var f := FieldNamed(d.fields, assigns[j].field);
      var value := OperandValue(d, assigns[j].value, originals, params);
      if !(0 <= value < Pow2(f.width)) then Err(ValueWidth)
      else if OverlapsSome(applied, f) then Err(MaskConflict)
      else AssignFrom(d, assigns, j + 1, originals, params, applied + [Assignment(f, value)])
  }

  // The assignments of the items from the i-th on, after `applied`; all values are read from the originals.
  function CollectFrom(d: Descriptor, canon: seq<Item>, i: nat, originals: Words, applied: seq<Assignment>): Result<seq<Assignment>, Code>
    requires i <= |canon|
    decreases |canon| - i
  {
    if i == |canon| then Ok(applied)
    else
      var k := KindNamed(d.interventions, canon[i].kind);
      var _ :- CheckAll(d, k.demands, originals, canon[i].parameters, OriginalPrecondition);
      var applied' :- AssignFrom(d, k.assign, 0, originals, canon[i].parameters, applied);
      CollectFrom(d, canon, i + 1, originals, applied')
  }

  function PromisesFrom(d: Descriptor, canon: seq<Item>, i: nat, words: Words): Result<(), Code>
    requires i <= |canon|
    decreases |canon| - i
  {
    if i == |canon| then Ok(())
    else
      var _ :- CheckAll(d, KindNamed(d.interventions, canon[i].kind).promises, words, canon[i].parameters, Invariant);
      PromisesFrom(d, canon, i + 1, words)
  }

  // ----- simultaneous update ------------------------------------------------------------------------

  predicate Covers(f: Field, target: string, i: nat, bit: nat) {
    f.target == target && f.word == i && f.offset <= bit < f.offset + f.width
  }

  // A bit of a word afterwards: the assigned bit where some assignment covers it, else the original bit.
  predicate BitAfter(w: nat, target: string, i: nat, applied: seq<Assignment>, bit: nat)
    decreases |applied|
  {
    if applied == [] then Bit(w, bit)
    else
      var a := applied[|applied| - 1];
      if Covers(a.field, target, i, bit) then Bit(a.value, bit - a.field.offset)
      else BitAfter(w, target, i, applied[..|applied| - 1], bit)
  }

  function WordAfter(w: nat, target: string, i: nat, applied: seq<Assignment>): nat {
    FromBits(WORD_BITS, (bit: nat) => BitAfter(w, target, i, applied, bit))
  }

  function RowAfter(row: seq<nat>, target: string, applied: seq<Assignment>): seq<nat> {
    seq(|row|, (i: int) requires 0 <= i < |row| => WordAfter(row[i], target, i, applied))
  }

  function WordsAfter(originals: Words, applied: seq<Assignment>): Words {
    map target | target in originals :: RowAfter(originals[target], target, applied)
  }

  predicate Touched(applied: seq<Assignment>, target: string, i: nat) {
    exists k :: 0 <= k < |applied| && applied[k].field.target == target && applied[k].field.word == i
  }

  // Writes of the touched words, in target and word order, from word i of the t-th target on.
  function WritesFrom(d: Descriptor, originals: Words, words: Words, applied: seq<Assignment>, t: nat, i: nat, writes: seq<Write>)
    : Result<seq<Write>, Code>
    requires t <= |d.targets|
    requires t < |d.targets| ==> i <= d.targets[t].words
    decreases |d.targets| - t, if t < |d.targets| then d.targets[t].words - i else 0
  {
    if t == |d.targets| then Ok(writes)
    else
      var target := d.targets[t];
      if i == target.words then WritesFrom(d, originals, words, applied, t + 1, 0, writes)
      else if !Touched(applied, target.name, i) then WritesFrom(d, originals, words, applied, t, i + 1, writes)
      else
        var before, after := WordAt(originals, target.name, i), WordAt(words, target.name, i);
        if after == before then Err(NoEffect)
        else WritesFrom(d, originals, words, applied, t, i + 1, writes + [WriteOf(d, target, i, before, after)])
  }

  function WriteOf(d: Descriptor, target: Target, i: nat, before: nat, after: nat): Write {
    Write(ContractNamed(d.contracts, target.contract).address, target.slot + i, before, after, target.name, i)
  }

  // ----- composition --------------------------------------------------------------------------------

  function Compose(d: Descriptor, items: seq<Item>, originals: Words): Result<Composed, Code> {
    if !Supplied(d, originals) then Err(OriginalStateUnavailable)
    else if !MatchesOriginals(d, originals) then Err(OriginalWordMismatch)
    else
      var canon :- CanonicalInterventions(d, items);
      ComposeCanonical(d, canon, originals)
  }

  function ComposeCanonical(d: Descriptor, canon: seq<Item>, originals: Words): Result<Composed, Code> {
    var applied :- CollectFrom(d, canon, 0, originals, []);
    var words := WordsAfter(originals, applied);
    var _ :- PromisesFrom(d, canon, 0, words);
    var writes :- WritesFrom(d, originals, words, applied, 0, 0, []);
    Ok(Composed(canon, writes, words, DecodeFields(d, originals), DecodeFields(d, words)))
  }

  // ----- bits of the simultaneous update --------------------------------------------------------------

  predicate AssignmentFits(a: Assignment) {
    1 <= a.field.width && a.field.offset + a.field.width <= WORD_BITS && a.value < Pow2(a.field.width)
  }

  predicate AllFit(applied: seq<Assignment>) {
    forall k :: 0 <= k < |applied| ==> AssignmentFits(applied[k])
  }

  predicate NoOverlap(applied: seq<Assignment>) {
    forall k, l :: 0 <= k < l < |applied| ==> !Overlap(applied[k].field, applied[l].field)
  }

  predicate Covered(applied: seq<Assignment>, target: string, i: nat, bit: nat) {
    exists k :: 0 <= k < |applied| && Covers(applied[k].field, target, i, bit)
  }

  lemma {:induction false} BitAfterUncovered(w: nat, target: string, i: nat, applied: seq<Assignment>, bit: nat)
    requires !Covered(applied, target, i, bit)
    ensures BitAfter(w, target, i, applied, bit) == Bit(w, bit)
    decreases |applied|
  {
    if applied != [] {
      var shorter := applied[..|applied| - 1];
      assert forall k :: 0 <= k < |shorter| ==> shorter[k] == applied[k];
      BitAfterUncovered(w, target, i, shorter, bit);
    }
  }

  lemma {:induction false} BitAfterCovered(w: nat, target: string, i: nat, applied: seq<Assignment>, bit: nat, k: nat)
    requires NoOverlap(applied) && k < |applied| && Covers(applied[k].field, target, i, bit)
    ensures BitAfter(w, target, i, applied, bit) == Bit(applied[k].value, bit - applied[k].field.offset)
    decreases |applied|
  {
    var last := |applied| - 1;
    if k < last {
      assert !Overlap(applied[k].field, applied[last].field);
      assert applied[..last][k] == applied[k];
      BitAfterCovered(w, target, i, applied[..last], bit, k);
    }
  }

  lemma WordAfterBit(w: nat, target: string, i: nat, applied: seq<Assignment>, bit: nat)
    requires IsWord(w) && AllFit(applied)
    ensures Bit(WordAfter(w, target, i, applied), bit) == BitAfter(w, target, i, applied, bit)
  {
    FromBitsBit(WORD_BITS, (b: nat) => BitAfter(w, target, i, applied, b), bit);
    if WORD_BITS <= bit {
      BelowHasNoHighBits(w, WORD_BITS, bit);
      BitAfterUncovered(w, target, i, applied, bit);
    }
  }

  lemma WordAfterIsWord(w: nat, target: string, i: nat, applied: seq<Assignment>)
    ensures IsWord(WordAfter(w, target, i, applied))
  {
    FromBitsIsWord((bit: nat) => BitAfter(w, target, i, applied, bit));
  }

  // No assignment, no change.
  lemma WordAfterNothing(w: nat, target: string, i: nat, applied: seq<Assignment>)
    requires IsWord(w) && AllFit(applied) && !Touched(applied, target, i)
    ensures WordAfter(w, target, i, applied) == w
  {
    forall bit: nat
      ensures Bit(WordAfter(w, target, i, applied), bit) == Bit(w, bit)
    {
      WordAfterBit(w, target, i, applied, bit);
      BitAfterUncovered(w, target, i, applied, bit);
    }
    SameBits(WordAfter(w, target, i, applied), w);
  }

  // One more assignment is one more masked put.
  lemma WordAfterOneMore(w: nat, target: string, i: nat, applied: seq<Assignment>, a: Assignment)
    requires IsWord(w) && AllFit(applied) && AssignmentFits(a)
    ensures WordAfter(w, target, i, applied + [a]) ==
            if a.field.target == target && a.field.word == i
            then PutField(WordAfter(w, target, i, applied), a.field.offset, a.field.width, a.value)
            else WordAfter(w, target, i, applied)
  {
    var more := applied + [a];
    assert more[..|more| - 1] == applied && more[|more| - 1] == a;
    var before, after := WordAfter(w, target, i, applied), WordAfter(w, target, i, more);
    var put := PutField(before, a.field.offset, a.field.width, a.value);
    forall bit: nat
      ensures Bit(after, bit) == Bit(if a.field.target == target && a.field.word == i then put else before, bit)
    {
      WordAfterBit(w, target, i, more, bit);
      WordAfterBit(w, target, i, applied, bit);
      PutFieldBit(before, a.field.offset, a.field.width, a.value, bit);
    }
    SameBits(after, if a.field.target == target && a.field.word == i then put else before);
  }
}
