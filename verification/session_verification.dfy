// Verification records of a session and their comparison.
module SessionVerification {
  import opened Wrappers
  import opened Orders
  import opened SessionIdentity

  datatype Preparation = Preparation(scenario: Hash, inputSha: Hash)

  datatype RunBinding = RunBinding(scenario: Hash, inputSha: Hash, operation: Hash)

  datatype Label = RecordedRunVerified | TestOnlyChecked

  datatype Verification = Verification(status: Label, run: RunBinding, comparison: nat)

  datatype VerifyCode =
    | VariantUnknown
    | VariantNotPrepared
    | WrongVariantResult(belongsTo: Hash)
    | RunNotBound
    | AlreadyVerified
    | NotAdmitted
    | RecordDrift

  // The listed variants in the order of their ids, with what each has so far.
  datatype State = State(ids: seq<Hash>, variants: map<Hash, Variant>, prepared: map<Hash, Preparation>, verified: map<Hash, Verification>)

  const NEW: State := State([], map[], map[], map[])

  // ----- steps ------------------------------------------------------------------------------------------------

  predicate HashLe(x: Hash, y: Hash) {
    x <= y
  }

  function Added(s: State, id: Hash, v: Variant): State {
    if id in s.variants then s else s.(ids := Sort(HashLe, s.ids + [id]), variants := s.variants[id := v])
  }

  // Preparing writes once; the SDK may refuse (None).
  function Prepared(s: State, id: Hash, p: Option<Preparation>): State {
    if id !in s.variants || id in s.prepared || p.None? then s else s.(prepared := s.prepared[id := p.value])
  }

  // The first other variant, in id order, whose prepared input a run belongs to.
  function OwnerAmong(s: State, ids: seq<Hash>, id: Hash, scenario: Hash): Option<Hash> {
    if ids == [] then None
    else if ids[0] != id && ids[0] in s.prepared && s.prepared[ids[0]].scenario == scenario then Some(ids[0])
    else OwnerAmong(s, ids[1..], id, scenario)
  }

  // What verifying a run for a variant returns. `outcome` is the admitted comparison of the verifier, if any.
  function Verdict(s: State, id: Hash, run: RunBinding, testOnly: bool, outcome: Option<nat>): Result<Verification, VerifyCode> {
    if id !in s.variants then Err(VariantUnknown)
    else if id !in s.prepared then Err(VariantNotPrepared)
    else if run.scenario != s.prepared[id].scenario then
      var owner := OwnerAmong(s, s.ids, id, run.scenario);
      Err(if owner.Some? then WrongVariantResult(owner.value) else RunNotBound)
    else if run.inputSha != s.prepared[id].inputSha then Err(RunNotBound)
    else if id in s.verified then
      if s.verified[id].run.operation == run.operation then Ok(s.verified[id]) else Err(AlreadyVerified)
    else if outcome.None? then Err(NotAdmitted)
    else Ok(Verification(if testOnly then TestOnlyChecked else RecordedRunVerified, run, outcome.value))
  }

  function Verified(s: State, id: Hash, run: RunBinding, testOnly: bool, outcome: Option<nat>): State {
    var verdict := Verdict(s, id, run, testOnly, outcome);
    if verdict.Ok? then s.(verified := s.verified[id := verdict.value]) else s
  }

  // ----- comparison -------------------------------------------------------------------------------------------

  datatype Row = Row(id: Hash, variant: Variant, status: Label, comparison: nat)

  datatype Verdicts = NoVerifiedVariants | VerifiedVariantsCompared | TestOnlyNotEvidence

  predicate KeyLe(x: SortKey, y: SortKey) {
    x.rank < y.rank || (x.rank == y.rank && (x.lp < y.lp || (x.lp == y.lp && StringLe(x.fee, y.fee))))
  }

  predicate RowLe(x: Row, y: Row) {
    KeyLe(SortKeyOf(x.variant), SortKeyOf(y.variant))
  }

  function RowOf(s: State, id: Hash): Row
    requires id in s.variants && id in s.verified
  {
    Row(id, s.variants[id], s.verified[id].status, s.verified[id].comparison)
  }

  function RowsFrom(s: State, ids: seq<Hash>): seq<Row> {
    if ids == [] then []
    else if ids[0] in s.variants && ids[0] in s.verified then [RowOf(s, ids[0])] + RowsFrom(s, ids[1..])
    else RowsFrom(s, ids[1..])
  }

  // ----- the session ------------------------------------------------------------------------------------------

  class Session {
    var ids: seq<Hash>
    var variants: map<Hash, Variant>
    var prepared: map<Hash, Preparation>
    var verified: map<Hash, Verification>

    function View(): State
      reads this
    {
      State(ids, variants, prepared, verified)
    }

    constructor ()
      ensures View() == NEW
    {
      ids, variants, prepared, verified := [], map[], map[], map[];
    }

    method AddVariant(id: Hash, v: Variant)
      modifies this
      ensures View() == Added(old(View()), id, v)
    {
      if id in variants {
        return;
      }
      variants := variants[id := v];
      ids := Sort(HashLe, ids + [id]);
    }

    method PrepareVariant(id: Hash, p: Option<Preparation>)
      modifies this
      ensures View() == Prepared(old(View()), id, p)
    {
      if id !in variants || id in prepared || p.None? {
        return;
      }
      prepared := prepared[id := p.value];
    }

    method OwnerOf(id: Hash, scenario: Hash) returns (owner: Option<Hash>)
      ensures owner == OwnerAmong(View(), ids, id, scenario)
    {
      for i := 0 to |ids|
        invariant OwnerAmong(View(), ids, id, scenario) == OwnerAmong(View(), ids[i..], id, scenario)
      {
        var other := ids[i];
        if other != id && other in prepared && prepared[other].scenario == scenario {
          return Some(other);
        }
        assert ids[i..][1..] == ids[i + 1..];
      }
      return None;
    }

    method VerifySelected(id: Hash, run: RunBinding, testOnly: bool, outcome: Option<nat>) returns (r: Result<Verification, VerifyCode>)
      modifies this`verified
      ensures r == Verdict(old(View()), id, run, testOnly, outcome)
      ensures View() == Verified(old(View()), id, run, testOnly, outcome)
    {
      if id !in variants {
        return Err(VariantUnknown);
      }
      if id !in prepared {
        return Err(VariantNotPrepared);
      }
      if run.scenario != prepared[id].scenario {
        var owner := OwnerOf(id, run.scenario);
        return Err(if owner.Some? then WrongVariantResult(owner.value) else RunNotBound);
      }
      if run.inputSha != prepared[id].inputSha {
        return Err(RunNotBound);
      }
      if id in verified {
        if verified[id].run.operation != run.operation {
          return Err(AlreadyVerified);
        }
        assert verified[id := verified[id]] == verified;
        return Ok(verified[id]);
      }
      if outcome.None? {
        return Err(NotAdmitted);
      }
      var stored := Verification(if testOnly then TestOnlyChecked else RecordedRunVerified, run, outcome.value);
      verified := verified[id := stored];
      return Ok(stored);
    }

    // Rows of the verified variants, and whether any label of either kind occurs among them.
    method CollectRows() returns (r: Result<(seq<Row>, bool, bool), VerifyCode>)
      requires Inv(View())
      ensures r.Ok? && r.value.0 == RowsFrom(View(), ids)
      ensures r.value.1 == SomeLabel(View(), |ids|, RecordedRunVerified) && r.value.2 == SomeLabel(View(), |ids|, TestOnlyChecked)
    {
      var rows: seq<Row> := [];
      var recorded, tested := false, false;
      for i := 0 to |ids|
        invariant RowsFrom(View(), ids) == rows + RowsFrom(View(), ids[i..])
        invariant recorded == SomeLabel(View(), i, RecordedRunVerified) && tested == SomeLabel(View(), i, TestOnlyChecked)
      {
        OneMoreLabel(View(), i, RecordedRunVerified);
        OneMoreLabel(View(), i, TestOnlyChecked);
        assert ids[i..][1..] == ids[i + 1..] && ids[i..][0] == ids[i];
        var id := ids[i];
        if id in verified {
          var drift := id !in prepared || verified[id].run.scenario != prepared[id].scenario;
          DriftNeverFound(View(), id);
          if drift {
            return Err(RecordDrift);
          }
          rows := rows + [RowOf(View(), id)];
          recorded := recorded || verified[id].status == RecordedRunVerified;
          tested := tested || verified[id].status == TestOnlyChecked;
        }
      }
      assert ids[|ids|..] == [];
      assert rows + [] == rows;
      return Ok((rows, recorded, tested));
    }

    // The verified variants in the order of their sort keys, under the weakest of their labels.
    method CompareVerified() returns (r: Result<(Verdicts, seq<Row>), VerifyCode>)
      requires Inv(View())
      ensures r == Ok((Conclusion(View()), Sort(RowLe, RowsFrom(View(), ids))))
    {
      var collected := CollectRows();
      Labels(View());
      var recorded, tested := collected.value.1, collected.value.2;
      return Ok((if !recorded && !tested then NoVerifiedVariants
                 else if recorded && !tested then VerifiedVariantsCompared else TestOnlyNotEvidence,
                 Sort(RowLe, collected.value.0)));
    }
  }

  // ----- invariant --------------------------------------------------------------------------------------------

  // Every listed variant is known and the other way round; a verification belongs to the prepared input.
  ghost predicate Inv(s: State) {
    && (forall id :: id in s.ids <==> id in s.variants)
    && (forall id :: multiset(s.ids)[id] <= 1)
    && (forall id :: id in s.prepared ==> id in s.variants)
    && (forall id :: id in s.verified ==>
          && id in s.prepared && s.verified[id].run.scenario == s.prepared[id].scenario
          && s.verified[id].run.inputSha == s.prepared[id].inputSha)
  }

  lemma DriftNeverFound(s: State, id: Hash)
    requires Inv(s) && id in s.verified
    ensures id in s.prepared && s.verified[id].run.scenario == s.prepared[id].scenario
  {
  }

  predicate LabelAt(s: State, i: nat, status: Label) {
    i < |s.ids| && s.ids[i] in s.verified && s.verified[s.ids[i]].status == status
  }

  predicate SomeLabel(s: State, n: nat, status: Label) {
    exists i: nat :: i < n && LabelAt(s, i, status)
  }

  lemma OneMoreLabel(s: State, n: nat, status: Label)
    ensures SomeLabel(s, n + 1, status) == (SomeLabel(s, n, status) || LabelAt(s, n, status))
  {
  }

  // Verified exactly when some variant is verified and all of them by a recorded run.
  ghost function Conclusion(s: State): Verdicts {
    if s.verified == map[] then NoVerifiedVariants
    else if forall id :: id in s.verified ==> s.verified[id].status == RecordedRunVerified then VerifiedVariantsCompared
    else TestOnlyNotEvidence
  }

  lemma LabelFound(s: State, status: Label)
    requires Inv(s)
    ensures SomeLabel(s, |s.ids|, status) <==> exists id :: id in s.verified && s.verified[id].status == status
  {
    if id :| id in s.verified && s.verified[id].status == status {
      var i :| 0 <= i < |s.ids| && s.ids[i] == id;
      assert LabelAt(s, i, status);
    }
    if SomeLabel(s, |s.ids|, status) {
      var i: nat :| i < |s.ids| && LabelAt(s, i, status);
      assert s.ids[i] in s.verified;
    }
  }

  lemma Labels(s: State)
    requires Inv(s)
    ensures
      var recorded, tested := SomeLabel(s, |s.ids|, RecordedRunVerified), SomeLabel(s, |s.ids|, TestOnlyChecked);
      Conclusion(s) == if !recorded && !tested then NoVerifiedVariants
                       else if recorded && !tested then VerifiedVariantsCompared else TestOnlyNotEvidence
  {
    LabelFound(s, RecordedRunVerified);
    LabelFound(s, TestOnlyChecked);
    if s.verified != map[] {
      var id :| id in s.verified;
      assert s.verified[id].status == RecordedRunVerified || s.verified[id].status == TestOnlyChecked;
    }
  }

  datatype Op =
    | AddOp(id: Hash, v: Variant)
    | PrepareOp(id: Hash, p: Option<Preparation>)
    | VerifyOp(id: Hash, run: RunBinding, testOnly: bool, outcome: Option<nat>)

  function After(s: State, op: Op): State {
    match op
    case AddOp(id, v) => Added(s, id, v)
    case PrepareOp(id, p) => Prepared(s, id, p)
    case VerifyOp(id, run, testOnly, outcome) => Verified(s, id, run, testOnly, outcome)
  }

  function Run(s: State, ops: seq<Op>): State {
    if ops == [] then s else After(Run(s, ops[..|ops| - 1]), ops[|ops| - 1])
  }

  lemma StepInv(s: State, op: Op)
    requires Inv(s)
    ensures Inv(After(s, op))
  {
    match op {
      case AddOp(id, v) =>
        SortMultiset(HashLe, s.ids + [id]);
        SameMembers(Sort(HashLe, s.ids + [id]), s.ids + [id]);
      case _ =>
    }
  }

  lemma {:induction false} RunInv(ops: seq<Op>)
    ensures Inv(Run(NEW, ops))
  {
    if ops != [] {
      RunInv(ops[..|ops| - 1]);
      StepInv(Run(NEW, ops[..|ops| - 1]), ops[|ops| - 1]);
    }
  }

  // The first verification stays, whatever follows: in particular a test-only record is never upgraded.
  lemma {:induction false} FirstVerificationStays(s: State, ops: seq<Op>, id: Hash)
    requires id in s.verified
    ensures id in Run(s, ops).verified && Run(s, ops).verified[id] == s.verified[id]
  {
    if ops != [] {
      FirstVerificationStays(s, ops[..|ops| - 1], id);
    }
  }

  // A comparison that once was not evidence never becomes one.
  lemma TestOnlyIsForever(s: State, ops: seq<Op>)
    requires Conclusion(s) == TestOnlyNotEvidence
    ensures Conclusion(Run(s, ops)) == TestOnlyNotEvidence
  {
    var id :| id in s.verified && s.verified[id].status != RecordedRunVerified;
    FirstVerificationStays(s, ops, id);
  }

  // The rows are the verified variants, each once, in the order of their sort keys.
  lemma RowsAreTheVerified(s: State, id: Hash)
    requires Inv(s)
    ensures id in s.verified ==> multiset(RowsFrom(s, s.ids))[RowOf(s, id)] == 1
    ensures forall row :: row in RowsFrom(s, s.ids) ==> row.id in s.verified && row.id in s.variants && row == RowOf(s, row.id)
    ensures Sorted(RowLe, Sort(RowLe, RowsFrom(s, s.ids))) && multiset(Sort(RowLe, RowsFrom(s, s.ids))) == multiset(RowsFrom(s, s.ids))
  {
    RowsListed(s, s.ids);
    if id in s.verified {
      RowsOnce(s, s.ids, id);
      assert id in s.ids;
    }
    RowLeIsOrder();
    SortSorted(RowLe, RowsFrom(s, s.ids));
    SortMultiset(RowLe, RowsFrom(s, s.ids));
  }

  // A row occurs no more often than its variant is listed.
  lemma {:induction false} RowsOnce(s: State, ids: seq<Hash>, id: Hash)
    requires id in s.verified && id in s.variants
    ensures multiset(RowsFrom(s, ids))[RowOf(s, id)] == multiset(ids)[id]
  {
    if ids != [] {
      RowsOnce(s, ids[1..], id);
      assert ids == [ids[0]] + ids[1..];
      if ids[0] in s.variants && ids[0] in s.verified {
        assert RowsFrom(s, ids) == [RowOf(s, ids[0])] + RowsFrom(s, ids[1..]);
      } else {
        assert RowsFrom(s, ids) == RowsFrom(s, ids[1..]);
      }
    }
  }

  lemma {:induction false} RowsListed(s: State, ids: seq<Hash>)
    ensures forall id :: id in ids && id in s.verified && id in s.variants ==> RowOf(s, id) in RowsFrom(s, ids)
    ensures forall row :: row in RowsFrom(s, ids) ==> row.id in s.verified && row.id in s.variants && row == RowOf(s, row.id)
  {
    if ids != [] {
      RowsListed(s, ids[1..]);
    }
  }

  lemma KeyLeIsOrder(x: SortKey, y: SortKey, z: SortKey)
    ensures KeyLe(x, y) || KeyLe(y, x)
    ensures KeyLe(x, y) && KeyLe(y, z) ==> KeyLe(x, z)
    ensures KeyLe(x, y) && KeyLe(y, x) ==> x == y
  {
    StringLeTotal(x.fee, y.fee);
    if StringLe(x.fee, y.fee) && StringLe(y.fee, z.fee) {
      StringLeTransitive(x.fee, y.fee, z.fee);
    }
  }

  lemma RowLeIsOrder()
    ensures TotalPreorder(RowLe)
  {
    forall x: Row, y: Row
      ensures RowLe(x, y) || RowLe(y, x)
    {
      KeyLeIsOrder(SortKeyOf(x.variant), SortKeyOf(y.variant), SortKeyOf(y.variant));
    }
    forall x: Row, y: Row, z: Row | RowLe(x, y) && RowLe(y, z)
      ensures RowLe(x, z)
    {
      KeyLeIsOrder(SortKeyOf(x.variant), SortKeyOf(y.variant), SortKeyOf(z.variant));
    }
  }
}
