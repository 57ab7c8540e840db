// The session of consecutive blocks: continuity of states and numbers, and the receipts' indices after derivation.
module BlockSession {
  import opened Wrappers
  import opened BlockLoop

  // ----- receipt indices --------------------------------------------------------------------------------------

  function WithIndex(logs: seq<Log>, i: nat): seq<Log> {
    seq(|logs|, (j: int) requires 0 <= j < |logs| => logs[j].(txIndex := i))
  }

  // Derivation numbers receipts by their position in the list it is given.
  method DeriveFields(receipts: array<Receipt>, txs: seq<Tx>) returns (ok: bool)
    modifies receipts
    ensures ok <==> |txs| == receipts.Length
    ensures !ok ==> receipts[..] == old(receipts[..])
    ensures ok ==> forall j :: 0 <= j < receipts.Length ==>
              receipts[j] == old(receipts[j]).(txHash := txs[j].hash, txIndex := j, logs := WithIndex(old(receipts[j]).logs, j))
  {
    if |txs| != receipts.Length {
      return false;
    }
    for j := 0 to receipts.Length
      invariant forall k :: 0 <= k < j ==>
                  receipts[k] == old(receipts[k]).(txHash := txs[k].hash, txIndex := k, logs := WithIndex(old(receipts[k]).logs, k))
      invariant forall k :: j <= k < receipts.Length ==> receipts[k] == old(receipts[k])
    {
      receipts[j] := receipts[j].(txHash := txs[j].hash, txIndex := j, logs := WithIndex(receipts[j].logs, j));
    }
    return true;
  }

  method IndexLogs(logs: seq<Log>, i: nat) returns (indexed: seq<Log>)
    ensures indexed == WithIndex(logs, i)
  {
    indexed := logs;
    for j := 0 to |logs|
      invariant |indexed| == |logs|
      invariant forall k :: 0 <= k < j ==> indexed[k] == logs[k].(txIndex := i)
      invariant forall k :: j <= k < |logs| ==> indexed[k] == logs[k]
    {
      indexed := indexed[j := indexed[j].(txIndex := i)];
    }
  }

  // The counterfactual re-indexing: position j gets the index of the j-th execution.
  method Reindex(receipts: array<Receipt>, executions: seq<Execution>)
    requires |executions| == receipts.Length
    modifies receipts
    ensures forall j :: 0 <= j < receipts.Length ==>
              receipts[j] == old(receipts[j]).(txIndex := executions[j].index, logs := WithIndex(old(receipts[j]).logs, executions[j].index))
  {
    for j := 0 to receipts.Length
      invariant forall k :: 0 <= k < j ==>
                  receipts[k] == old(receipts[k]).(txIndex := executions[k].index, logs := WithIndex(old(receipts[k]).logs, executions[k].index))
      invariant forall k :: j <= k < receipts.Length ==> receipts[k] == old(receipts[k])
    {
      var logs := IndexLogs(receipts[j].logs, executions[j].index);
      receipts[j] := receipts[j].(txIndex := executions[j].index, logs := logs);
    }
  }

  // A receipt that carries its own transaction's index and hash, on itself and on every log.
  predicate OwnIndex(r: Receipt, txs: seq<Tx>, i: nat) {
    && i < |txs| && r.txIndex == i && r.txHash == txs[i].hash
    && forall k :: 0 <= k < |r.logs| ==> r.logs[k].txIndex == i
  }

  function SubjectsOf(txs: seq<Tx>, executions: seq<Execution>): seq<Tx>
    requires forall j :: 0 <= j < |executions| ==> executions[j].index < |txs|
  {
    seq(|executions|, (j: int) requires 0 <= j < |executions| => txs[executions[j].index])
  }

  // Whatever the branch, every receipt and every log ends with the index of its own transaction in the block.
  method FinishReceipts(branch: Branch, receipts: array<Receipt>, executions: seq<Execution>, txs: seq<Tx>) returns (ok: bool)
    requires |executions| == receipts.Length && forall j :: 0 <= j < |executions| ==> executions[j].index < |txs|
    requires branch == Actual ==> |executions| == |txs| && forall j :: 0 <= j < |executions| ==> executions[j].index == j
    modifies receipts
    ensures ok
    ensures forall j :: 0 <= j < receipts.Length ==>
              && OwnIndex(receipts[j], txs, executions[j].index)
              && receipts[j].gasUsed == old(receipts[j]).gasUsed && |receipts[j].logs| == |old(receipts[j]).logs|
              && forall k :: 0 <= k < |receipts[j].logs| ==> receipts[j].logs[k].data == old(receipts[j]).logs[k].data
  {
    var subjects := if branch == Counterfactual then SubjectsOf(txs, executions) else txs;
    ok := DeriveFields(receipts, subjects);
    if branch == Counterfactual {
      Reindex(receipts, executions);
    }
  }

  // ----- the session ------------------------------------------------------------------------------------------

  datatype Header = Header(number: nat, hash: nat, root: nat)

  // A block as given, with the recorded header of its number.
  datatype BlockInput = BlockInput(number: nat, parentHash: nat, txs: seq<Tx>, gasLimit: nat, historical: Header)

  // What finalising and committing a state gives: the root it finalises (if it does), the root it commits, the hash of
  // the block produced and the state opened on the committed root.
  datatype Closed<+S> = Closed(finalizedRoot: Option<nat>, committedRoot: nat, producedHash: nat, reopened: S)

  datatype Session<!S> = Session(
    branch: Branch, manifest: Manifest, engine: Engine<S>, close: (S, BlockInput, Processed) -> Closed<S>,
    parent: Header, witnessRoot: nat, start: S, blocks: seq<BlockInput>)

  // Where the session stands before a block.
  datatype Stand<+S> = Stand(parent: Header, root: nat, state: S)

  datatype BlockOutput = BlockOutput(number: nat, startRoot: nat, finalRoot: nat, records: seq<Record>, processed: Processed)

  predicate WellFormed<S>(s: Session<S>) {
    forall i :: 0 <= i < |s.blocks| ==> s.blocks[i].historical.number == s.blocks[i].number
  }

  function CaseFrom<S>(s: Session<S>, i: nat, stand: Stand<S>): Case<S>
    requires i < |s.blocks|
  {
    Case(s.branch, s.manifest, s.engine, s.blocks[i].number, s.blocks[i].txs, s.blocks[i].gasLimit, stand.state)
  }

  // What closes a block whose transactions were run from a stand.
  function ClosedFrom<S>(s: Session<S>, i: nat, stand: Stand<S>): Closed<S>
    requires i < |s.blocks|
  {
    var c := CaseFrom(s, i, stand);
    s.close(PositionAt(c, |c.txs|).state, s.blocks[i], CollectedAt(c, |c.txs|))
  }

  // The parent of the next block: the one just produced, or in the counterfactual branch the recorded one.
  function NextParent<S>(branch: Branch, b: BlockInput, closed: Closed<S>): Header {
    if branch == Actual
    then Header(b.number, closed.producedHash, if closed.finalizedRoot.Some? then closed.finalizedRoot.value else 0)
    else b.historical
  }

  function StandAt<S>(s: Session<S>, i: nat): Stand<S>
    requires i <= |s.blocks|
  {
    if i == 0 then Stand(s.parent, s.witnessRoot, s.start)
    else
      var closed := ClosedFrom(s, i - 1, StandAt(s, i - 1));
      Stand(NextParent(s.branch, s.blocks[i - 1], closed), closed.committedRoot, closed.reopened)
  }

  // What a block of the session checks before and after its transactions.
  function CheckStart<S>(s: Session<S>, b: BlockInput, stand: Stand<S>): Option<BlockCode> {
    if b.number != stand.parent.number + 1 then Some(NoncontiguousNumber)
    else if b.parentHash != stand.parent.hash then Some(ParentMismatch)
    else if s.branch == Actual && stand.root != stand.parent.root then Some(ContinuityBroken)
    else if s.engine.rootOf(stand.state) != stand.root then Some(StartMismatch)
    else None
  }

  function CheckEnd<S>(closed: Closed<S>): Option<BlockCode> {
    if closed.finalizedRoot.None? then Some(FinalizationMissing)
    else if closed.committedRoot != closed.finalizedRoot.value then Some(CommitMismatch)
    else None
  }

  // Nothing stops a block run from a stand.
  ghost predicate BlockPasses<S>(s: Session<S>, i: nat, stand: Stand<S>)
    requires i < |s.blocks|
  {
    var b, c := s.blocks[i], CaseFrom(s, i, stand);
    && CheckStart(s, b, stand).None? && FIRST_BLOCK <= b.number <= LAST_BLOCK
    && AllPass(c, |c.txs|) && CheckEnd(ClosedFrom(s, i, stand)).None?
  }

  // The receipts of a block, each with its own index and otherwise as it was collected.
  ghost predicate Indexed<S>(p: Processed, c: Case<S>) {
    var collected := CollectedAt(c, |c.txs|);
    && p.executions == collected.executions && p.gasUsed == collected.gasUsed
    && |p.receipts| == |p.executions| == |collected.receipts|
    && forall j :: 0 <= j < |p.receipts| ==>
         && OwnIndex(p.receipts[j], c.txs, p.executions[j].index)
         && p.receipts[j].gasUsed == collected.receipts[j].gasUsed && |p.receipts[j].logs| == |collected.receipts[j].logs|
         && forall k :: 0 <= k < |p.receipts[j].logs| ==> p.receipts[j].logs[k].data == collected.receipts[j].logs[k].data
  }

  // The output of one block run from a stand.
  ghost predicate OutputOf<S>(out: BlockOutput, s: Session<S>, i: nat, stand: Stand<S>)
    requires i < |s.blocks|
  {
    var c := CaseFrom(s, i, stand);
    && out.number == s.blocks[i].number && out.startRoot == stand.root && out.finalRoot == ClosedFrom(s, i, stand).committedRoot
    && Recorded(out.records, c, |c.txs|) && Indexed(out.processed, c)
  }

  ghost predicate Follows<S>(out: BlockOutput, s: Session<S>, i: nat)
    requires i < |s.blocks|
  {
    BlockPasses(s, i, StandAt(s, i)) && OutputOf(out, s, i, StandAt(s, i))
  }

  ghost predicate Continuous<S>(outs: seq<BlockOutput>, s: Session<S>) {
    |outs| <= |s.blocks| && forall i :: 0 <= i < |outs| ==> Follows(outs[i], s, i)
  }

  // Interventions made in the first n blocks.
  function InterventionsIn(branch: Branch, blocks: seq<BlockInput>, n: nat): nat
    requires n <= |blocks|
  {
    if n == 0 then 0 else InterventionsIn(branch, blocks, n - 1) + Interventions(branch, blocks[n - 1].number, |blocks[n - 1].txs|)
  }

  // The whole condition of success.
  ghost predicate SessionPasses<S>(s: Session<S>) {
    && s.witnessRoot == s.parent.root
    && (forall i :: 0 <= i < |s.blocks| ==> BlockPasses(s, i, StandAt(s, i)))
    && (s.branch == Counterfactual ==> InterventionsIn(s.branch, s.blocks, |s.blocks|) == 1)
  }

  lemma ExecutionsInRange<S>(c: Case<S>)
    requires AllPass(c, |c.txs|)
    ensures
      var p := CollectedAt(c, |c.txs|);
      && |p.executions| == |p.receipts| && (forall j :: 0 <= j < |p.executions| ==> p.executions[j].index < |c.txs|)
      && (c.branch == Actual ==> |p.executions| == |c.txs| && forall j :: 0 <= j < |p.executions| ==> p.executions[j].index == j)
  {
    CollectedInStep(c, |c.txs|);
    if c.branch == Actual {
      ActualRunsAll(c, |c.txs|);
    }
  }

  // One block: its transactions, its end, then the indices of its receipts.
  method RunBlock<S>(session: BranchSession, ghost s: Session<S>, ghost i: nat, engine: Engine<S>,
                     close: (S, BlockInput, Processed) -> Closed<S>, b: BlockInput, stand: Stand<S>)
    returns (r: Result<BlockOutput, BlockCode>, next: Option<Closed<S>>)
    requires i < |s.blocks| && b == s.blocks[i] && engine == s.engine && close == s.close
    requires session.branch == s.branch && session.manifest == s.manifest && CheckStart(s, b, stand).None?
    modifies session`records, session`interventions
    ensures r.Ok? <==> BlockPasses(s, i, stand)
    ensures r.Ok? ==> OutputOf(r.value, s, i, stand) && next == Some(ClosedFrom(s, i, stand))
    ensures r.Ok? ==> session.interventions == old(session.interventions) + Interventions(s.branch, b.number, |b.txs|)
  {
    session.records := [];
    ghost var c := CaseFrom(s, i, stand);
    var result, state := session.ProcessBlock(engine, b.number, b.txs, b.gasLimit, stand.state);
    if result.Err? {
      return Err(result.error), None;
    }
    var p := result.value;
    var closed := close(state, b, p);
    var code := CheckEnd(closed);
    if code.Some? {
      return Err(code.value), None;
    }
    ExecutionsInRange(c);
    var receipts := new Receipt[|p.receipts|](i requires 0 <= i < |p.receipts| => p.receipts[i]);
    var derived := FinishReceipts(session.branch, receipts, p.executions, b.txs);
    if !derived {
      return Err(ReceiptCount), None;
    }
    return Ok(BlockOutput(b.number, stand.root, closed.committedRoot, session.records, p.(receipts := receipts[..]))), Some(closed);
  }

  lemma OneMoreBlock<S>(outs: seq<BlockOutput>, out: BlockOutput, s: Session<S>)
    requires Continuous(outs, s) && |outs| < |s.blocks| && Follows(out, s, |outs|)
    ensures Continuous(outs + [out], s)
    ensures
      var i := |outs|;
      var closed := ClosedFrom(s, i, StandAt(s, i));
      StandAt(s, i + 1) == Stand(NextParent(s.branch, s.blocks[i], closed), closed.committedRoot, closed.reopened)
  {
    forall i | 0 <= i < |outs + [out]|
      ensures Follows((outs + [out])[i], s, i)
    {
      if i < |outs| {
        assert Follows(outs[i], s, i);
      }
    }
  }

  lemma Blocked<S>(s: Session<S>, i: nat)
    requires i < |s.blocks| && !BlockPasses(s, i, StandAt(s, i))
    ensures !SessionPasses(s)
  {
  }

  lemma AllFollow<S>(outs: seq<BlockOutput>, s: Session<S>)
    requires Continuous(outs, s) && |outs| == |s.blocks|
    ensures forall i :: 0 <= i < |s.blocks| ==> BlockPasses(s, i, StandAt(s, i))
  {
    forall i | 0 <= i < |s.blocks|
      ensures BlockPasses(s, i, StandAt(s, i))
    {
      assert Follows(outs[i], s, i);
    }
  }

  // A session succeeds exactly when no block meets an obstacle from where the previous ones left it and, in the
  // counterfactual branch, exactly one intervention was made.
  method RunSession<S>(session: BranchSession, s: Session<S>) returns (r: Result<seq<BlockOutput>, BlockCode>)
    requires session.branch == s.branch && session.manifest == s.manifest && session.interventions == 0 && WellFormed(s)
    modifies session`records, session`interventions
    ensures r.Ok? <==> SessionPasses(s)
    ensures r.Ok? ==> |r.value| == |s.blocks| && Continuous(r.value, s)
    ensures r.Ok? && s.branch == Counterfactual ==> session.interventions == 1
  {
    if s.witnessRoot != s.parent.root {
      return Err(WitnessBinding);
    }
    var outs: seq<BlockOutput> := [];
    var stand := Stand(s.parent, s.witnessRoot, s.start);
    for i := 0 to |s.blocks|
      invariant |outs| == i && stand == StandAt(s, i) && Continuous(outs, s)
      invariant session.interventions == InterventionsIn(s.branch, s.blocks, i)
    {
      var b := s.blocks[i];
      var code := CheckStart(s, b, stand);
      if code.Some? {
        Blocked(s, i);
        return Err(code.value);
      }
      var out, next := RunBlock(session, s, i, s.engine, s.close, b, stand);
      if out.Err? {
        Blocked(s, i);
        return Err(out.error);
      }
      OneMoreBlock(outs, out.value, s);
      outs := outs + [out.value];
      var closed := next.value;
      stand := Stand(NextParent(s.branch, b, closed), closed.committedRoot, closed.reopened);
    }
    if s.branch == Counterfactual && session.interventions != 1 {
      return Err(InterventionCount);
    }
    AllFollow(outs, s);
    return Ok(outs);
  }

  // ----- continuity -------------------------------------------------------------------------------------------

  lemma BlockOf<S>(outs: seq<BlockOutput>, s: Session<S>, i: nat)
    requires Continuous(outs, s) && i < |outs|
    ensures BlockPasses(s, i, StandAt(s, i)) && OutputOf(outs[i], s, i, StandAt(s, i))
    ensures outs[i].records != [] ==> outs[i].records[0].preRoot == outs[i].startRoot
  {
    assert Follows(outs[i], s, i);
    var c := CaseFrom(s, i, StandAt(s, i));
    RecordsAccount(outs[i].records, c);
  }

  // Blocks of a session follow each other without a gap, each starting on the state the previous one left: at the root
  // it committed, where the first record begins.
  lemma {:induction false} SessionIsContinuous<S>(outs: seq<BlockOutput>, s: Session<S>, i: nat)
    requires Continuous(outs, s) && WellFormed(s) && i < |outs|
    ensures outs[i].number == s.blocks[i].number == s.parent.number + 1 + i
    ensures outs[i].startRoot == if i == 0 then s.witnessRoot else outs[i - 1].finalRoot
    ensures s.engine.rootOf(StandAt(s, i).state) == outs[i].startRoot
    ensures outs[i].records != [] ==> outs[i].records[0].preRoot == outs[i].startRoot
    ensures ClosedFrom(s, i, StandAt(s, i)).finalizedRoot == Some(outs[i].finalRoot)
    ensures s.branch == Actual && i > 0 ==> s.blocks[i].parentHash == ClosedFrom(s, i - 1, StandAt(s, i - 1)).producedHash
    ensures s.branch == Counterfactual && i > 0 ==> s.blocks[i].parentHash == s.blocks[i - 1].historical.hash
  {
    BlockOf(outs, s, i);
    if i > 0 {
      SessionIsContinuous(outs, s, i - 1);
      BlockOf(outs, s, i - 1);
    }
  }

  // ----- the two branches -------------------------------------------------------------------------------------

  function SessionIn<S>(s: Session<S>, branch: Branch): Session<S> {
    s.(branch := branch)
  }

  // The sessions of the two branches have the same records up to the target, and the target meets the same state.
  lemma SessionsAgreeUntilTheTarget<S>(actual: seq<BlockOutput>, variant: seq<BlockOutput>, s: Session<S>)
    requires Continuous(actual, SessionIn(s, Actual)) && Continuous(variant, SessionIn(s, Counterfactual))
    requires actual != [] && variant != [] && s.parent.number + 1 == FIRST_BLOCK
    ensures |actual[0].records| == |variant[0].records| == |s.blocks[0].txs|
    ensures forall i :: 0 <= i < TARGET_INDEX && i < |s.blocks[0].txs| ==> variant[0].records[i] == actual[0].records[i]
    ensures TARGET_INDEX < |s.blocks[0].txs| ==>
              && variant[0].records[TARGET_INDEX].preRoot == actual[0].records[TARGET_INDEX].preRoot
              && variant[0].records[TARGET_INDEX].gasBefore == actual[0].records[TARGET_INDEX].gasBefore
              && actual[0].records[TARGET_INDEX].calldata == s.manifest.input
              && variant[0].records[TARGET_INDEX].calldata == s.manifest.replacement
  {
    var a, v := SessionIn(s, Actual), SessionIn(s, Counterfactual);
    BlockOf(actual, a, 0);
    BlockOf(variant, v, 0);
    var c := CaseFrom(a, 0, StandAt(a, 0));
    assert In(c, Actual) == c && In(c, Counterfactual) == CaseFrom(v, 0, StandAt(v, 0));
    BranchesDifferFromTheTargetOn(actual[0].records, variant[0].records, c);
  }
}
