// Hook profile descriptors: the data, and what a valid descriptor is.
// Numbers, hashes and addresses are the values of their hexadecimal or decimal spellings.
// Validity has five sections, checked in this order: contracts, targets, fields, original words, kinds. Each is a
// predicate that says what must hold of the lists as a whole; the loops that decide them are in validator.dfy.
// Lookup by name takes the first entry of that name, which in a valid descriptor is the only one.
module Descriptors {
  import opened Wrappers
  import opened Bits
  import opened Orders

  datatype Code =
    | DescriptorContract
    | DescriptorTarget
    | DescriptorFieldLayout
    | DescriptorOriginalState
    | DescriptorKind
    | DescriptorPredicate
    | InterventionCount
    | InterventionShape
    | UnknownIntervention
    | DuplicateKind
    | KindConflict
    | Parameter
    | OriginalStateUnavailable
    | OriginalWordMismatch
    | NegativeFactor
    | OriginalPrecondition
    | ValueWidth
    | MaskConflict
    | Invariant
    | NonTargetBits
    | FieldValue
    | NoEffect

  datatype Requirement =
    | CodeHashEquals(releaseRole: string, codeHash: nat)
    | CodePresent

  datatype Contract = Contract(name: string, address: nat, requirement: Requirement)

  datatype Target = Target(name: string, contract: string, slot: nat, words: nat)

  datatype FieldType = Uint | Flag | Address

  datatype Field = Field(name: string, target: string, word: nat, offset: nat, width: nat, kind: FieldType)

  datatype OriginalWord = OriginalWord(target: string, word: nat, value: nat)

  datatype ParameterDecl =
    | UintParameter(name: string, min: nat, max: nat)
    | EnumParameter(name: string, values: seq<string>)

  datatype Operand = Const(value: nat) | FieldRef(field: string) | ParamRef(param: string)

  datatype CompareOp = Eq | Ne | Lt | Le | Gt | Ge

  datatype Factor =
    | FieldFactor(field: string)
    | SquareFactor(field: string)
    | DiffFactor(minuend: string, subtrahend: string)
    | ConstMinusSquare(constant: nat, field: string)

  datatype Predicate =
    | Compare(left: Operand, op: CompareOp, right: Operand)
    | ProductBound(factors: seq<Factor>, strict: bool, bound: nat)

  datatype Assign = Assign(field: string, value: Operand)

  datatype Kind = Kind(
    kind: string,
    parameters: seq<ParameterDecl>,
    demands: seq<Predicate>,   // the `requires` list
    assign: seq<Assign>,
    promises: seq<Predicate>,  // the `ensures` list
    conflictsWith: seq<string>)

  datatype Descriptor = Descriptor(
    manifest: map<(string, nat), nat>,  // (role, address) to runtime hash
    contracts: seq<Contract>,
    targets: seq<Target>,
    configurationTarget: string,
    fields: seq<Field>,
    originalState: seq<OriginalWord>,
    interventions: seq<Kind>)

  const MAX_TARGET_WORDS: nat := 8
  const MAX_FACTORS: nat := 4

  // ----- lookup by name -----------------------------------------------------------------------------
  // The names looked up in a valid descriptor are declared; an undeclared name gives an empty record.

  function ContractNamed(contracts: seq<Contract>, name: string): Contract {
    if contracts == [] then Contract("", 0, CodePresent)
    else if contracts[0].name == name then contracts[0]
    else ContractNamed(contracts[1..], name)
  }

  function TargetNamed(targets: seq<Target>, name: string): Target {
    if targets == [] then Target("", "", 0, 0)
    else if targets[0].name == name then targets[0]
    else TargetNamed(targets[1..], name)
  }

  function FieldNamed(fields: seq<Field>, name: string): Field {
    if fields == [] then Field("", "", 0, 0, 0, Uint)
    else if fields[0].name == name then fields[0]
    else FieldNamed(fields[1..], name)
  }

  function KindNamed(kinds: seq<Kind>, name: string): Kind {
    if kinds == [] then Kind("", [], [], [], [], [])
    else if kinds[0].kind == name then kinds[0]
    else KindNamed(kinds[1..], name)
  }

  predicate HasContract(contracts: seq<Contract>, name: string) {
    exists i :: 0 <= i < |contracts| && contracts[i].name == name
  }

  predicate HasTarget(targets: seq<Target>, name: string) {
    exists i :: 0 <= i < |targets| && targets[i].name == name
  }

  predicate HasField(fields: seq<Field>, name: string) {
    exists i :: 0 <= i < |fields| && fields[i].name == name
  }

  predicate HasKind(kinds: seq<Kind>, name: string) {
    exists i :: 0 <= i < |kinds| && kinds[i].kind == name
  }

  lemma {:induction false} ContractFound(contracts: seq<Contract>, name: string)
    requires HasContract(contracts, name)
    ensures ContractNamed(contracts, name) in contracts && ContractNamed(contracts, name).name == name
  {
    if contracts[0].name != name {
      var i :| 0 <= i < |contracts| && contracts[i].name == name;
      assert contracts[1..][i - 1].name == name;
      ContractFound(contracts[1..], name);
    }
  }

  lemma {:induction false} TargetFound(targets: seq<Target>, name: string)
    requires HasTarget(targets, name)
    ensures TargetNamed(targets, name) in targets && TargetNamed(targets, name).name == name
  {
    if targets[0].name != name {
      var i :| 0 <= i < |targets| && targets[i].name == name;
      assert targets[1..][i - 1].name == name;
      TargetFound(targets[1..], name);
    }
  }

  lemma {:induction false} FieldFound(fields: seq<Field>, name: string)
    requires HasField(fields, name)
    ensures FieldNamed(fields, name) in fields && FieldNamed(fields, name).name == name
  {
    if fields[0].name != name {
      var i :| 0 <= i < |fields| && fields[i].name == name;
      assert fields[1..][i - 1].name == name;
      FieldFound(fields[1..], name);
    }
  }

  lemma {:induction false} KindFound(kinds: seq<Kind>, name: string)
    requires HasKind(kinds, name)
    ensures KindNamed(kinds, name) in kinds && KindNamed(kinds, name).kind == name
  {
    if kinds[0].kind != name {
      var i :| 0 <= i < |kinds| && kinds[i].kind == name;
      assert kinds[1..][i - 1].kind == name;
      KindFound(kinds[1..], name);
    }
  }

  // ----- validity -----------------------------------------------------------------------------------

  predicate ContractOk(manifest: map<(string, nat), nat>, c: Contract) {
    && c.address != 0
    && (c.requirement.CodeHashEquals? ==>
          && c.requirement.codeHash != 0
          && (c.requirement.releaseRole, c.address) in manifest
          && manifest[(c.requirement.releaseRole, c.address)] == c.requirement.codeHash)
  }

  predicate ValidContracts(d: Descriptor) {
    && d.contracts != []
    && (forall i :: 0 <= i < |d.contracts| ==> ContractOk(d.manifest, d.contracts[i]))
    && (forall i, j :: 0 <= i < j < |d.contracts| ==> d.contracts[i].name != d.contracts[j].name)
    && (forall i, j :: 0 <= i < j < |d.contracts| ==> d.contracts[i].address != d.contracts[j].address)
  }

  predicate TargetOk(d: Descriptor, t: Target) {
    && HasContract(d.contracts, t.contract)
    && ContractNamed(d.contracts, t.contract).requirement.CodeHashEquals?
    && 1 <= t.words <= MAX_TARGET_WORDS
    && t.slot + t.words <= Pow2(WORD_BITS)
  }

  // Two targets of one contract occupy separate slot ranges.
  predicate TargetsApart(s: Target, t: Target) {
    s.contract == t.contract ==> s.slot + s.words <= t.slot || t.slot + t.words <= s.slot
  }

  predicate ValidTargets(d: Descriptor) {
    && d.targets != []
    && (forall i :: 0 <= i < |d.targets| ==> TargetOk(d, d.targets[i]))
    && (forall i, j :: 0 <= i < j < |d.targets| ==> d.targets[i].name != d.targets[j].name)
    && (forall i, j :: 0 <= i < j < |d.targets| ==> TargetsApart(d.targets[i], d.targets[j]))
    && HasTarget(d.targets, d.configurationTarget)
  }

  predicate FieldOk(d: Descriptor, f: Field) {
    && HasTarget(d.targets, f.target)
    && f.word < TargetNamed(d.targets, f.target).words
    && 1 <= f.width && f.offset + f.width <= WORD_BITS
    && (f.kind.Flag? ==> f.width == 1)
    && (f.kind.Address? ==> f.width == 160)
  }

  predicate SameWord(f: Field, g: Field) {
    f.target == g.target && f.word == g.word
  }

  // Some bit of some word belongs to both fields.
  predicate Overlap(f: Field, g: Field) {
    SameWord(f, g) && f.offset < g.offset + g.width && g.offset < f.offset + f.width
  }

  predicate ValidFields(d: Descriptor) {
    && d.fields != []
    && (forall i :: 0 <= i < |d.fields| ==> FieldOk(d, d.fields[i]))
    && (forall i, j :: 0 <= i < j < |d.fields| ==> d.fields[i].name != d.fields[j].name)
    && (forall i, j :: 0 <= i < j < |d.fields| ==> !Overlap(d.fields[i], d.fields[j]))
  }

  predicate OriginalOk(d: Descriptor, o: OriginalWord) {
    && HasTarget(d.targets, o.target)
    && o.word < TargetNamed(d.targets, o.target).words
    && IsWord(o.value)
  }

  predicate PinsWord(d: Descriptor, name: string, word: nat) {
    exists i :: 0 <= i < |d.originalState| && d.originalState[i].target == name && d.originalState[i].word == word
  }

  // EXACT_WORDS: every word of every target is pinned, once.
  predicate ValidOriginals(d: Descriptor) {
    && (forall i :: 0 <= i < |d.originalState| ==> OriginalOk(d, d.originalState[i]))
    && (forall i, j :: 0 <= i < j < |d.originalState| ==>
          !(d.originalState[i].target == d.originalState[j].target && d.originalState[i].word == d.originalState[j].word))
    && (forall i, w: nat :: 0 <= i < |d.targets| && w < d.targets[i].words ==> PinsWord(d, d.targets[i].name, w))
  }

  predicate ParameterOk(p: ParameterDecl) {
    match p
    case UintParameter(_, min, max) => min <= max
    case EnumParameter(_, values) =>
      values != [] && forall i, j :: 0 <= i < j < |values| ==> values[i] != values[j]
  }

  predicate ValidParameters(ps: seq<ParameterDecl>) {
    && ps != []
    && (forall i :: 0 <= i < |ps| ==> ParameterOk(ps[i]))
    && (forall i, j :: 0 <= i < j < |ps| ==> ps[i].name != ps[j].name)
  }

  predicate DeclaresUint(ps: seq<ParameterDecl>, name: string) {
    exists i :: 0 <= i < |ps| && ps[i].UintParameter? && ps[i].name == name
  }

  predicate OperandOk(d: Descriptor, ps: seq<ParameterDecl>, o: Operand) {
    match o
    case Const(_) => true
    case FieldRef(f) => HasField(d.fields, f)
    case ParamRef(p) => DeclaresUint(ps, p)
  }

  predicate FactorOk(d: Descriptor, f: Factor) {
    match f
    case FieldFactor(x) => HasField(d.fields, x)
    case SquareFactor(x) => HasField(d.fields, x)
    case DiffFactor(x, y) => HasField(d.fields, x) && HasField(d.fields, y)
    case ConstMinusSquare(_, x) => HasField(d.fields, x)
  }

  predicate PredicateOk(d: Descriptor, ps: seq<ParameterDecl>, p: Predicate) {
    match p
    case Compare(l, _, r) => OperandOk(d, ps, l) && OperandOk(d, ps, r)
    case ProductBound(fs, _, _) =>
      1 <= |fs| <= MAX_FACTORS && forall i :: 0 <= i < |fs| ==> FactorOk(d, fs[i])
  }

  predicate AssignOk(d: Descriptor, ps: seq<ParameterDecl>, a: Assign) {
    && HasField(d.fields, a.field)
    && !FieldNamed(d.fields, a.field).kind.Address?
    && OperandOk(d, ps, a.value)
  }

  predicate ValidAssigns(d: Descriptor, ps: seq<ParameterDecl>, assigns: seq<Assign>) {
    && assigns != []
    && (forall i :: 0 <= i < |assigns| ==> AssignOk(d, ps, assigns[i]))
    && (forall i, j :: 0 <= i < j < |assigns| ==> assigns[i].field != assigns[j].field)
  }

  predicate KindOk(d: Descriptor, k: Kind) {
    && ValidParameters(k.parameters)
    && (forall i :: 0 <= i < |k.demands| ==> PredicateOk(d, k.parameters, k.demands[i]))
    && (forall i :: 0 <= i < |k.promises| ==> PredicateOk(d, k.parameters, k.promises[i]))
    && ValidAssigns(d, k.parameters, k.assign)
  }

  predicate StrictlySorted(names: seq<string>) {
    forall i, j :: 0 <= i < j < |names| ==> names[i] != names[j] && StringLe(names[i], names[j])
  }

  // Conflicts name other declared kinds, sorted and unique, and hold in both directions.
  predicate ConflictsOk(d: Descriptor, k: Kind) {
    && k.kind !in k.conflictsWith
    && StrictlySorted(k.conflictsWith)
    && forall i :: 0 <= i < |k.conflictsWith| ==>
         && HasKind(d.interventions, k.conflictsWith[i])
         && k.kind in KindNamed(d.interventions, k.conflictsWith[i]).conflictsWith
  }

  predicate ValidKinds(d: Descriptor) {
    && d.interventions != []
    && (forall i :: 0 <= i < |d.interventions| ==> KindOk(d, d.interventions[i]))
    && (forall i, j :: 0 <= i < j < |d.interventions| ==>
          d.interventions[i].kind != d.interventions[j].kind && StringLe(d.interventions[i].kind, d.interventions[j].kind))
    && (forall i :: 0 <= i < |d.interventions| ==> ConflictsOk(d, d.interventions[i]))
  }

  predicate Valid(d: Descriptor) {
    && ValidContracts(d)
    && ValidTargets(d)
    && ValidFields(d)
    && ValidOriginals(d)
    && ValidKinds(d)
  }

  lemma FieldIsDeclared(d: Descriptor, name: string)
    requires ValidFields(d) && HasField(d.fields, name)
    ensures FieldOk(d, FieldNamed(d.fields, name))
  {
    FieldFound(d.fields, name);
  }

  lemma {:induction false} TargetByIndex(targets: seq<Target>, i: nat)
    requires i < |targets|
    requires forall j, k :: 0 <= j < k < |targets| ==> targets[j].name != targets[k].name
    ensures TargetNamed(targets, targets[i].name) == targets[i]
  {
    if i > 0 {
      assert targets[0].name != targets[i].name;
      TargetByIndex(targets[1..], i - 1);
    }
  }

  lemma {:induction false} KindByIndex(kinds: seq<Kind>, i: nat)
    requires i < |kinds|
    requires forall j, k :: 0 <= j < k < |kinds| ==> kinds[j].kind != kinds[k].kind
    ensures KindNamed(kinds, kinds[i].kind) == kinds[i]
  {
    if i > 0 {
      assert kinds[0].kind != kinds[i].kind;
      KindByIndex(kinds[1..], i - 1);
    }
  }

  lemma {:induction false} ContractByIndex(contracts: seq<Contract>, i: nat)
    requires i < |contracts|
    requires forall j, k :: 0 <= j < k < |contracts| ==> contracts[j].name != contracts[k].name
    ensures ContractNamed(contracts, contracts[i].name) == contracts[i]
  {
    if i > 0 {
      assert contracts[0].name != contracts[i].name;
      ContractByIndex(contracts[1..], i - 1);
    }
  }

  // Fields of a valid descriptor are the same field or share no bit.
  lemma FieldsShareNoBit(d: Descriptor, x: string, y: string)
    requires ValidFields(d) && HasField(d.fields, x) && HasField(d.fields, y)
    ensures Overlap(FieldNamed(d.fields, x), FieldNamed(d.fields, y)) <==> x == y
  {
    FieldFound(d.fields, x);
    FieldFound(d.fields, y);
    FieldIsDeclared(d, x);
    var f, g := FieldNamed(d.fields, x), FieldNamed(d.fields, y);
    var i :| 0 <= i < |d.fields| && d.fields[i] == f;
    var j :| 0 <= j < |d.fields| && d.fields[j] == g;
    if i < j {
      assert !Overlap(d.fields[i], d.fields[j]);
    } else if j < i {
      assert !Overlap(d.fields[j], d.fields[i]);
    }
  }
}
