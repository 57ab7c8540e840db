// Where the records of a session come from, and when a comparison is evidence.
module SessionEvidence {
  import opened Wrappers
  import opened Orders
  import opened SessionIdentity
  import opened SessionVerification

  lemma LastOp(ops: seq<Op>) returns (shorter: seq<Op>, op: Op)
    requires ops != []
    ensures shorter == ops[..|ops| - 1] && op == ops[|ops| - 1] && ops == shorter + [op]
    ensures Run(NEW, ops) == After(Run(NEW, shorter), op)
  {
    shorter, op := ops[..|ops| - 1], ops[|ops| - 1];
  }

  // ----- variants and preparations ----------------------------------------------------------------------------

  // One of the first n operations registers the variant.
  ghost predicate Registered(ops: seq<Op>, id: Hash, n: nat) {
    exists j: nat :: j < n && j < |ops| && ops[j].AddOp? && ops[j].id == id
  }

  lemma RegisteredLater(ops: seq<Op>, op: Op, id: Hash)
    ensures Registered(ops + [op], id, |ops| + 1) <==> Registered(ops, id, |ops|) || (op.AddOp? && op.id == id)
  {
    var more := ops + [op];
    assert more[|ops|] == op;
    if Registered(ops, id, |ops|) {
      var j: nat :| j < |ops| && ops[j].AddOp? && ops[j].id == id;
      assert more[j] == ops[j];
    }
  }

  lemma StepRegisters(s: State, op: Op, id: Hash)
    ensures id in After(s, op).variants <==> id in s.variants || (op.AddOp? && op.id == id)
  {
  }

  // A variant is known exactly when some operation registered it.
  lemma {:induction false} VariantsExactly(ops: seq<Op>, id: Hash)
    ensures id in Run(NEW, ops).variants <==> Registered(ops, id, |ops|)
  {
    if ops != [] {
      var shorter, op := LastOp(ops);
      VariantsExactly(shorter, id);
      RegisteredLater(shorter, op, id);
      StepRegisters(Run(NEW, shorter), op, id);
    }
  }

  // The k-th operation prepares the variant: it is registered, and the SDK gives an input.
  ghost predicate Prepares(ops: seq<Op>, id: Hash, k: nat) {
    k < |ops| && ops[k].PrepareOp? && ops[k].id == id && ops[k].p.Some? && Registered(ops, id, k)
  }

  ghost predicate FirstPrepares(ops: seq<Op>, id: Hash, k: nat) {
    Prepares(ops, id, k) && forall j: nat :: j < k ==> !Prepares(ops, id, j)
  }

  lemma SameBefore(ops: seq<Op>, op: Op, id: Hash, k: nat)
    requires k < |ops|
    ensures Prepares(ops + [op], id, k) == Prepares(ops, id, k)
  {
    var more := ops + [op];
    assert forall j: nat :: j <= k ==> more[j] == ops[j];
    assert Registered(more, id, k) == Registered(ops, id, k);
  }

  lemma FirstBefore(ops: seq<Op>, op: Op, id: Hash, k: nat)
    requires k < |ops|
    ensures FirstPrepares(ops + [op], id, k) == FirstPrepares(ops, id, k)
  {
    forall j: nat | j <= k
      ensures Prepares(ops + [op], id, j) == Prepares(ops, id, j)
    {
      SameBefore(ops, op, id, j);
    }
  }

  lemma PreparesLast(ops: seq<Op>, op: Op, id: Hash)
    ensures Prepares(ops + [op], id, |ops|) <==> op.PrepareOp? && op.id == id && op.p.Some? && Registered(ops, id, |ops|)
  {
    var more := ops + [op];
    assert more[|ops|] == op;
    assert forall j: nat :: j < |ops| ==> more[j] == ops[j];
    assert Registered(more, id, |ops|) == Registered(ops, id, |ops|);
  }

  lemma StepPrepares(s: State, op: Op, id: Hash)
    ensures id in s.prepared ==> id in After(s, op).prepared && After(s, op).prepared[id] == s.prepared[id]
    ensures id !in s.prepared ==>
              && (id in After(s, op).prepared <==> op.PrepareOp? && op.id == id && op.p.Some? && id in s.variants)
              && (id in After(s, op).prepared ==> Some(After(s, op).prepared[id]) == op.p)
  {
  }

  lemma FirstPreparation(ops: seq<Op>, id: Hash, k: nat) returns (first: nat)
    requires Prepares(ops, id, k)
    ensures FirstPrepares(ops, id, first)
    decreases k
  {
    if j: nat :| j < k && Prepares(ops, id, j) {
      first := FirstPreparation(ops, id, j);
    } else {
      first := k;
    }
  }

  lemma {:induction false} PreparedHasItsFirst(ops: seq<Op>, id: Hash) returns (k: nat)
    requires id in Run(NEW, ops).prepared
    ensures FirstPrepares(ops, id, k)
    decreases |ops|
  {
    var shorter, op := LastOp(ops);
    StepPrepares(Run(NEW, shorter), op, id);
    if id in Run(NEW, shorter).prepared {
      k := PreparedHasItsFirst(shorter, id);
      FirstBefore(shorter, op, id, k);
    } else {
      VariantsExactly(shorter, id);
      PreparesLast(shorter, op, id);
      k := FirstPreparation(ops, id, |shorter|);
    }
  }

  lemma {:induction false} FirstIsPrepared(ops: seq<Op>, id: Hash, k: nat)
    requires FirstPrepares(ops, id, k)
    ensures id in Run(NEW, ops).prepared && Some(Run(NEW, ops).prepared[id]) == ops[k].p
    decreases |ops|
  {
    var shorter, op := LastOp(ops);
    StepPrepares(Run(NEW, shorter), op, id);
    if k < |shorter| {
      FirstBefore(shorter, op, id, k);
      FirstIsPrepared(shorter, id, k);
    } else {
      if id in Run(NEW, shorter).prepared {
        var j := PreparedHasItsFirst(shorter, id);
        FirstBefore(shorter, op, id, j);
        assert false;
      }
      VariantsExactly(shorter, id);
      PreparesLast(shorter, op, id);
    }
  }

  // A variant is prepared exactly when some operation prepares it, with the input of the first that does.
  lemma PreparedExactly(ops: seq<Op>, id: Hash)
    ensures id in Run(NEW, ops).prepared <==> exists k: nat :: Prepares(ops, id, k)
    ensures forall k: nat :: FirstPrepares(ops, id, k) ==> id in Run(NEW, ops).prepared && Some(Run(NEW, ops).prepared[id]) == ops[k].p
  {
    if id in Run(NEW, ops).prepared {
      var k := PreparedHasItsFirst(ops, id);
    }
    if k: nat :| Prepares(ops, id, k) {
      var first := FirstPreparation(ops, id, k);
      FirstIsPrepared(ops, id, first);
    }
    forall k: nat | FirstPrepares(ops, id, k)
      ensures id in Run(NEW, ops).prepared && Some(Run(NEW, ops).prepared[id]) == ops[k].p
    {
      FirstIsPrepared(ops, id, k);
    }
  }

  // ----- the owner of a foreign run ---------------------------------------------------------------------------

  // This other listed variant was prepared as that scenario.
  predicate Owns(s: State, ids: seq<Hash>, id: Hash, scenario: Hash, i: nat) {
    i < |ids| && ids[i] != id && ids[i] in s.prepared && s.prepared[ids[i]].scenario == scenario
  }

  // A foreign run is blamed on the first other variant, in id order, that it was prepared for, and on none only if there
  // is none.
  lemma {:induction false} OwnerExactly(s: State, ids: seq<Hash>, id: Hash, scenario: Hash)
    ensures OwnerAmong(s, ids, id, scenario).None? <==> forall i: nat :: !Owns(s, ids, id, scenario, i)
    ensures forall i: nat :: Owns(s, ids, id, scenario, i) && (forall j: nat :: j < i ==> !Owns(s, ids, id, scenario, j)) ==>
              OwnerAmong(s, ids, id, scenario) == Some(ids[i])
  {
    if ids != [] {
      OwnerExactly(s, ids[1..], id, scenario);
      forall i: nat
        ensures Owns(s, ids, id, scenario, i + 1) == Owns(s, ids[1..], id, scenario, i)
      {
      }
      if !Owns(s, ids, id, scenario, 0) {
        forall i: nat | Owns(s, ids, id, scenario, i) && forall j: nat :: j < i ==> !Owns(s, ids, id, scenario, j)
          ensures OwnerAmong(s, ids, id, scenario) == Some(ids[i])
        {
          assert Owns(s, ids[1..], id, scenario, i - 1);
          assert forall j: nat :: j < i - 1 ==> !Owns(s, ids[1..], id, scenario, j) by {
            assert forall j: nat :: j < i - 1 ==> Owns(s, ids[1..], id, scenario, j) == Owns(s, ids, id, scenario, j + 1);
          }
        }
        if i: nat :| Owns(s, ids, id, scenario, i) {
          assert Owns(s, ids[1..], id, scenario, i - 1);
        }
        if i: nat :| Owns(s, ids[1..], id, scenario, i) {
          assert Owns(s, ids, id, scenario, i + 1);
        }
      }
    }
  }

  // ----- where a label comes from -----------------------------------------------------------------------------

  // A verification of this variant that is bound to its prepared input and admitted.
  predicate Admits(s: State, id: Hash, op: Op) {
    && op.VerifyOp? && op.id == id && op.outcome.Some?
    && id in s.prepared && s.prepared[id] == Preparation(op.run.scenario, op.run.inputSha)
  }

  // The k-th operation is the first such verification.
  ghost predicate VerifiedBy(ops: seq<Op>, id: Hash, k: nat) {
    && k < |ops| && Admits(Run(NEW, ops[..k]), id, ops[k])
    && forall j: nat :: j < k ==> !Admits(Run(NEW, ops[..j]), id, ops[j])
  }

  // The record a verification leaves: its run and comparison, as recorded only if it was not test-only.
  predicate RecordOf(v: Verification, op: Op)
    requires op.VerifyOp? && op.outcome.Some?
  {
    v.run == op.run && v.comparison == op.outcome.value && (v.status == RecordedRunVerified <==> !op.testOnly)
  }

  lemma VerifiedEarlier(ops: seq<Op>, op: Op, id: Hash, k: nat)
    requires k < |ops|
    ensures VerifiedBy(ops + [op], id, k) <==> VerifiedBy(ops, id, k)
  {
    assert forall j: nat :: j <= k ==> (ops + [op])[..j] == ops[..j] && (ops + [op])[j] == ops[j];
  }

  lemma VerifiedNow(ops: seq<Op>, op: Op, id: Hash)
    ensures VerifiedBy(ops + [op], id, |ops|) <==>
            Admits(Run(NEW, ops), id, op) && forall j: nat :: j < |ops| ==> !Admits(Run(NEW, ops[..j]), id, ops[j])
  {
    var more := ops + [op];
    assert more[..|ops|] == ops;
    assert forall j: nat :: j < |ops| ==> more[..j] == ops[..j] && more[j] == ops[j];
  }

  lemma FirstOfSome(ops: seq<Op>, id: Hash, k: nat) returns (first: nat)
    requires k < |ops| && Admits(Run(NEW, ops[..k]), id, ops[k])
    ensures VerifiedBy(ops, id, first)
    decreases k
  {
    if j: nat :| j < k && Admits(Run(NEW, ops[..j]), id, ops[j]) {
      first := FirstOfSome(ops, id, j);
    } else {
      first := k;
    }
  }

  // One step gives an unverified variant the record of its own admitted verification, and otherwise none.
  lemma StepVerifies(s: State, op: Op, id: Hash)
    requires Inv(s) && id !in s.verified
    ensures id in After(s, op).verified <==> Admits(s, id, op)
    ensures Admits(s, id, op) ==> RecordOf(After(s, op).verified[id], op)
  {
  }

  lemma StepKeepsRecord(s: State, op: Op, id: Hash)
    requires id in s.verified
    ensures id in After(s, op).verified && After(s, op).verified[id] == s.verified[id]
  {
  }

  // The first admitted verification leaves its record.
  lemma {:induction false} FirstLeavesItsRecord(ops: seq<Op>, id: Hash, k: nat)
    requires VerifiedBy(ops, id, k)
    ensures id in Run(NEW, ops).verified && RecordOf(Run(NEW, ops).verified[id], ops[k])
    decreases |ops|
  {
    var shorter, op := ops[..|ops| - 1], ops[|ops| - 1];
    var s := Run(NEW, shorter);
    assert ops == shorter + [op];
    RunInv(shorter);
    if k < |shorter| {
      VerifiedEarlier(shorter, op, id, k);
      FirstLeavesItsRecord(shorter, id, k);
      StepKeepsRecord(s, op, id);
    } else {
      if id in s.verified {
        var j := RecordHasItsFirst(shorter, id);
        VerifiedNow(shorter, op, id);
        assert false;
      }
      StepVerifies(s, op, id);
    }
  }

  // A record has the first admitted verification behind it.
  lemma {:induction false} RecordHasItsFirst(ops: seq<Op>, id: Hash) returns (k: nat)
    requires id in Run(NEW, ops).verified
    ensures VerifiedBy(ops, id, k)
    decreases |ops|
  {
    var shorter, op := ops[..|ops| - 1], ops[|ops| - 1];
    var s := Run(NEW, shorter);
    assert ops == shorter + [op];
    RunInv(shorter);
    if id in s.verified {
      k := RecordHasItsFirst(shorter, id);
      VerifiedEarlier(shorter, op, id, k);
    } else {
      StepVerifies(s, op, id);
      forall j: nat | j < |shorter|
        ensures !Admits(Run(NEW, shorter[..j]), id, shorter[j])
      {
        if Admits(Run(NEW, shorter[..j]), id, shorter[j]) {
          var first := FirstOfSome(shorter, id, j);
          FirstLeavesItsRecord(shorter, id, first);
        }
      }
      VerifiedNow(shorter, op, id);
      k := |shorter|;
    }
  }

  // Some first verification was admitted for a variant, test-only or not.
  ghost predicate VerifiedAs(ops: seq<Op>, id: Hash, testOnly: bool) {
    exists k: nat :: VerifiedBy(ops, id, k) && ops[k].testOnly == testOnly
  }

  // A variant is verified exactly when a verification was admitted for it; its record is that of the first, labelled as
  // recorded exactly when that one was not test-only.
  lemma LabelsExactly(ops: seq<Op>, id: Hash)
    ensures
      var verified := Run(NEW, ops).verified;
      && (id in verified && verified[id].status == RecordedRunVerified <==> VerifiedAs(ops, id, false))
      && (id in verified && verified[id].status == TestOnlyChecked <==> VerifiedAs(ops, id, true))
    ensures forall k: nat :: VerifiedBy(ops, id, k) ==>
              && id in Run(NEW, ops).verified && Run(NEW, ops).verified[id].run == ops[k].run
              && Some(Run(NEW, ops).verified[id].comparison) == ops[k].outcome
  {
    if id in Run(NEW, ops).verified {
      var first := RecordHasItsFirst(ops, id);
      FirstLeavesItsRecord(ops, id, first);
    }
    forall k: nat | VerifiedBy(ops, id, k)
      ensures id in Run(NEW, ops).verified && RecordOf(Run(NEW, ops).verified[id], ops[k])
    {
      FirstLeavesItsRecord(ops, id, k);
    }
  }

  // A comparison is evidence exactly when there is a verified variant and each was verified by a run that was not
  // test-only.
  lemma EvidenceExactly(ops: seq<Op>)
    ensures Conclusion(Run(NEW, ops)) == VerifiedVariantsCompared <==>
            && Run(NEW, ops).verified != map[]
            && forall id :: id in Run(NEW, ops).verified ==> VerifiedAs(ops, id, false)
  {
    var s := Run(NEW, ops);
    forall id | id in s.verified
      ensures s.verified[id].status == RecordedRunVerified <==> VerifiedAs(ops, id, false)
    {
      LabelsExactly(ops, id);
    }
  }

  // ----- the order of the rows --------------------------------------------------------------------------------

  // Rate variants come first, by rate; then the fee variant; then combined ones, by rate and then by fee.
  predicate InOrder(x: Variant, y: Variant) {
    match x
    case LpVariant(_, _, lp) => y.LpVariant? ==> lp <= y.replacement
    case DynamicVariant(_, _) => !y.LpVariant?
    case OverlayVariant(_, _, lp, fee, _, _) => y.OverlayVariant? && (lp < y.lp || (lp == y.lp && StringLe(fee, y.fee)))
  }

  lemma RowsInOrder(s: State, i: nat, j: nat)
    requires i < j < |Sort(RowLe, RowsFrom(s, s.ids))|
    ensures InOrder(Sort(RowLe, RowsFrom(s, s.ids))[i].variant, Sort(RowLe, RowsFrom(s, s.ids))[j].variant)
  {
    RowLeIsOrder();
    SortSorted(RowLe, RowsFrom(s, s.ids));
  }
}
