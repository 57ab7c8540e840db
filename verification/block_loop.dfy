// The native block loop on one state; the engine is a parameter.
module BlockLoop {
  import opened Wrappers

  datatype Branch = Actual | Counterfactual

  datatype Tx = Tx(hash: nat, kind: nat, data: seq<nat>)

  // The frozen case: original and replacement calldata of the target message.
  datatype Manifest = Manifest(input: seq<nat>, replacement: seq<nat>)

  const FIRST_BLOCK: nat := 70397227
  const LAST_BLOCK: nat := 70397276
  const TARGET_INDEX: nat := 3
  const TARGET_HASH: nat := 0x5f82e30b8ad8ae0bd4e5b60cbde55a47702d2d4b90234ad0db58bd9b89a458db

  // Call entries and opcodes observed while a message ran, and whether a BLOCKHASH is still unresolved.
  datatype Trace = Trace(enters: nat, opcodes: nat, pendingHash: bool)

  // What the engine is given besides the state: the message with its calldata, the gas pool and the gas used so far.
  datatype Message = Message(block: nat, index: nat, tx: Tx, data: seq<nat>, gas: nat, used: nat)

  // What it makes of that: the state, gas pool and used gas it leaves. `errorClass` is the class of a pre-execution
  // error, empty when the error has none.
  datatype Applied<+S> =
    | Refused(errorClass: string, state: S, gas: nat, used: nat, trace: Trace)
    | Ran(reverted: bool, state: S, gas: nat, used: nat, trace: Trace, receiptGas: nat, logs: seq<nat>)

  // The engine may look at the whole state it is given.
  datatype Engine<!S> = Engine(rootOf: S -> nat, converts: (nat, Tx) -> bool, apply: (S, Message) -> Applied<S>)

  datatype Status = Success | Revert | Invalidated(errorClass: string)

  datatype Record = Record(
    block: nat, index: nat, txHash: nat, calldata: seq<nat>,
    preRoot: nat, postRoot: nat, gasBefore: nat, gasAfter: nat, enters: nat, opcodes: nat,
    status: Status, execution: Option<Execution>)

  datatype Execution = Execution(index: nat, txHash: nat)

  datatype Log = Log(data: nat, txIndex: nat)

  datatype Receipt = Receipt(txHash: nat, txIndex: nat, gasUsed: nat, logs: seq<Log>)

  datatype Processed = Processed(receipts: seq<Receipt>, executions: seq<Execution>, logs: seq<Log>, gasUsed: nat)

  datatype BlockCode =
    | OutsideInterval
    | MessageError
    | TargetMismatch
    | TransactionError
    | InvalidationUnsupported
    | Unclassified
    | NotPreserved
    | UnresolvedBlockHash
    | WitnessBinding
    | NoncontiguousNumber
    | ParentMismatch
    | ContinuityBroken
    | StartMismatch
    | FinalizationMissing
    | CommitMismatch
    | ReceiptCount
    | InterventionCount

  // ----- a block and its run ----------------------------------------------------------------------------------

  datatype Case<!S> = Case(
    branch: Branch, manifest: Manifest, engine: Engine<S>, block: nat, txs: seq<Tx>, gasLimit: nat, start: S)

  // Where the loop stands before an arrival.
  datatype Position<+S> = Position(state: S, gas: nat, used: nat)

  predicate IsTarget(block: nat, i: nat) {
    block == FIRST_BLOCK && i == TARGET_INDEX
  }

  // The calldata the engine receives.
  function MessageData(branch: Branch, m: Manifest, block: nat, i: nat, tx: Tx): seq<nat> {
    if IsTarget(block, i) && branch == Counterfactual then m.replacement else tx.data
  }

  // The engine on the i-th message at a position.
  function Answer<S>(c: Case<S>, i: nat, p: Position<S>): Applied<S>
    requires i < |c.txs|
  {
    c.engine.apply(p.state, Message(c.block, i, c.txs[i], MessageData(c.branch, c.manifest, c.block, i, c.txs[i]), p.gas, p.used))
  }

  function PositionAt<S>(c: Case<S>, i: nat): Position<S>
    requires i <= |c.txs|
  {
    if i == 0 then Position(c.start, c.gasLimit, 0)
    else
      var o := Answer(c, i - 1, PositionAt(c, i - 1));
      Position(o.state, o.gas, o.used)
  }

  function AnswerAt<S>(c: Case<S>, i: nat): Applied<S>
    requires i < |c.txs|
  {
    Answer(c, i, PositionAt(c, i))
  }

  predicate UserKind(tx: Tx) {
    tx.kind == 0 || tx.kind == 1 || tx.kind == 2 || tx.kind == 4
  }

  // What is wrong with a refusal, if it is not a native failure before execution that touched nothing.
  function Unqualified<S>(tx: Tx, o: Applied<S>, pre: nat, post: nat, gas: nat, used: nat): Option<BlockCode>
    requires o.Refused?
  {
    if !UserKind(tx) then Some(InvalidationUnsupported)
    else if o.errorClass == "" then Some(Unclassified)
    else if !(pre == post && gas == o.gas && used == o.used && o.trace.enters == 0 && o.trace.opcodes == 0) then Some(NotPreserved)
    else if o.trace.pendingHash then Some(UnresolvedBlockHash)
    else None
  }

  // What stops the block at arrival i, from a position, if anything does.
  function Obstacle<S>(c: Case<S>, i: nat, p: Position<S>): Option<BlockCode>
    requires i < |c.txs|
  {
    var tx, o := c.txs[i], Answer(c, i, p);
    if !c.engine.converts(c.block, tx) then Some(MessageError)
    else if IsTarget(c.block, i) && (tx.hash != TARGET_HASH || tx.data != c.manifest.input) then Some(TargetMismatch)
    else if o.Refused? then
      if c.branch != Counterfactual then Some(TransactionError)
      else Unqualified(tx, o, c.engine.rootOf(p.state), c.engine.rootOf(o.state), p.gas, p.used)
    else if o.trace.pendingHash then Some(UnresolvedBlockHash)
    else None
  }

  predicate Passes<S>(c: Case<S>, i: nat)
    requires i < |c.txs|
  {
    Obstacle(c, i, PositionAt(c, i)).None?
  }

  ghost predicate AllPass<S>(c: Case<S>, n: nat)
    requires n <= |c.txs|
  {
    forall i :: 0 <= i < n ==> Passes(c, i)
  }

  function RecordOf<S>(c: Case<S>, i: nat, p: Position<S>): Record
    requires i < |c.txs|
  {
    var tx, o := c.txs[i], Answer(c, i, p);
    Record(c.block, i, tx.hash, MessageData(c.branch, c.manifest, c.block, i, tx), c.engine.rootOf(p.state), c.engine.rootOf(o.state),
           p.gas, o.gas, o.trace.enters, o.trace.opcodes,
           if o.Refused? then Invalidated(o.errorClass) else if o.reverted then Revert else Success,
           if o.Refused? then None else Some(Execution(i, tx.hash)))
  }

  // One record per arrival below n.
  predicate Recorded<S>(records: seq<Record>, c: Case<S>, n: nat)
    requires n <= |c.txs|
  {
    |records| == n && forall i :: 0 <= i < n ==> records[i] == RecordOf(c, i, PositionAt(c, i))
  }

  function NewLogs(logs: seq<nat>, i: nat): seq<Log> {
    seq(|logs|, (j: int) requires 0 <= j < |logs| => Log(logs[j], i))
  }

  // An arrival that ran appends its receipt, execution and logs.
  function Collect<S>(p: Processed, tx: Tx, o: Applied<S>, i: nat): Processed {
    if o.Refused? then p.(gasUsed := o.used)
    else
      var receipt := Receipt(tx.hash, 0, o.receiptGas, NewLogs(o.logs, i));
      Processed(p.receipts + [receipt], p.executions + [Execution(i, tx.hash)], p.logs + receipt.logs, o.used)
  }

  function CollectedAt<S>(c: Case<S>, n: nat): Processed
    requires n <= |c.txs|
  {
    if n == 0 then Processed([], [], [], 0) else Collect(CollectedAt(c, n - 1), c.txs[n - 1], AnswerAt(c, n - 1), n - 1)
  }

  // Interventions made by the first n arrivals of a block.
  function Interventions(branch: Branch, block: nat, n: nat): nat {
    if branch == Counterfactual && block == FIRST_BLOCK && n > TARGET_INDEX then 1 else 0
  }

  // Where a block that fails has failed: at its number, or at the first arrival that meets an obstacle.
  ghost predicate FailedAt<S>(c: Case<S>, code: BlockCode) {
    if !(FIRST_BLOCK <= c.block <= LAST_BLOCK) then code == OutsideInterval
    else exists i :: 0 <= i < |c.txs| && AllPass(c, i) && Obstacle(c, i, PositionAt(c, i)) == Some(code)
  }

  lemma ObstacleStops<S>(c: Case<S>, i: nat, code: BlockCode)
    requires FIRST_BLOCK <= c.block <= LAST_BLOCK && i < |c.txs| && AllPass(c, i) && Obstacle(c, i, PositionAt(c, i)) == Some(code)
    ensures !AllPass(c, |c.txs|) && FailedAt(c, code)
  {
    assert !Passes(c, i);
  }

  // One more arrival without an obstacle.
  lemma OneMoreArrival<S>(c: Case<S>, i: nat, before: seq<Record>, after: seq<Record>)
    requires i < |c.txs| && AllPass(c, i) && Obstacle(c, i, PositionAt(c, i)).None? && Recorded(before, c, i)
    requires after == before + [RecordOf(c, i, PositionAt(c, i))]
    ensures AllPass(c, i + 1) && Recorded(after, c, i + 1)
    ensures PositionAt(c, i + 1) == Position(AnswerAt(c, i).state, AnswerAt(c, i).gas, AnswerAt(c, i).used)
    ensures CollectedAt(c, i + 1) == Collect(CollectedAt(c, i), c.txs[i], AnswerAt(c, i), i)
  {
    assert Passes(c, i);
  }

  class BranchSession {
    const branch: Branch
    const manifest: Manifest
    var interventions: nat
    var records: seq<Record>

    constructor (branch: Branch, manifest: Manifest)
      ensures this.branch == branch && this.manifest == manifest && interventions == 0 && records == []
    {
      this.branch, this.manifest := branch, manifest;
      interventions, records := 0, [];
    }

    // Checks the target and replaces its calldata in the counterfactual branch.
    method Prepare(block: nat, i: nat, tx: Tx) returns (ok: bool, data: seq<nat>)
      modifies this`interventions
      ensures ok <==> (IsTarget(block, i) ==> tx.hash == TARGET_HASH && tx.data == manifest.input)
      ensures ok ==> data == MessageData(branch, manifest, block, i, tx)
      ensures interventions == old(interventions) + if ok && IsTarget(block, i) && branch == Counterfactual then 1 else 0
    {
      data := tx.data;
      if block != FIRST_BLOCK || i != TARGET_INDEX {
        return true, data;
      }
      if tx.hash != TARGET_HASH || tx.data != manifest.input {
        return false, data;
      }
      if branch == Counterfactual {
        data := manifest.replacement;
        interventions := interventions + 1;
      }
      return true, data;
    }

    method Finish(record: Record)
      modifies this`records
      ensures records == old(records) + [record]
    {
      records := records + [record];
    }

    // The refusal of a message: allowed only as a qualified invalidation of the counterfactual branch.
    method Invalidate<S>(tx: Tx, o: Applied<S>, pre: nat, post: nat, gas: nat, used: nat) returns (code: Option<BlockCode>)
      requires o.Refused?
      ensures code.None? <==>
              && branch == Counterfactual && UserKind(tx) && o.errorClass != "" && pre == post && gas == o.gas && used == o.used
              && o.trace.enters == 0 && o.trace.opcodes == 0 && !o.trace.pendingHash
      ensures branch == Actual ==> code == Some(TransactionError)
      ensures branch == Counterfactual ==> code == Unqualified(tx, o, pre, post, gas, used)
    {
      if branch != Counterfactual {
        return Some(TransactionError);
      }
      if !(tx.kind == 0 || tx.kind == 1 || tx.kind == 2 || tx.kind == 4) {
        return Some(InvalidationUnsupported);
      }
      if o.errorClass == "" {
        return Some(Unclassified);
      }
      if pre != post || gas != o.gas || used != o.used || o.trace.enters != 0 || o.trace.opcodes != 0 {
        return Some(NotPreserved);
      }
      return if o.trace.pendingHash then Some(UnresolvedBlockHash) else None;
    }

    // One transaction on the state: the root before it, the engine, the root after it, and its record.
    method Transact<S>(engine: Engine<S>, block: nat, i: nat, tx: Tx, p: Position<S>, ghost c: Case<S>)
      returns (code: Option<BlockCode>, answer: Option<Applied<S>>)
      requires i < |c.txs| && c.txs[i] == tx && c.engine == engine && c.block == block && c.branch == branch && c.manifest == manifest
      modifies this`records, this`interventions
      ensures code == Obstacle(c, i, p)
      ensures code.None? ==> answer == Some(Answer(c, i, p)) && records == old(records) + [RecordOf(c, i, p)]
      ensures code.None? ==> interventions == old(interventions) + if IsTarget(block, i) && branch == Counterfactual then 1 else 0
    {
      if !engine.converts(block, tx) {
        return Some(MessageError), None;
      }
      var prepared, data := Prepare(block, i, tx);
      if !prepared {
        return Some(TargetMismatch), None;
      }
      var pre := engine.rootOf(p.state);
      var o := engine.apply(p.state, Message(block, i, tx, data, p.gas, p.used));
      var post := engine.rootOf(o.state);
      if o.Refused? {
        code := Invalidate(tx, o, pre, post, p.gas, p.used);
        if code.None? {
          Finish(Record(block, i, tx.hash, data, pre, post, p.gas, o.gas, o.trace.enters, o.trace.opcodes,
                        Invalidated(o.errorClass), None));
        }
        return code, Some(o);
      }
      if o.trace.pendingHash {
        return Some(UnresolvedBlockHash), Some(o);
      }
      Finish(Record(block, i, tx.hash, data, pre, post, p.gas, o.gas, o.trace.enters, o.trace.opcodes,
                    if o.reverted then Revert else Success, Some(Execution(i, tx.hash))));
      return None, Some(o);
    }

    // The transaction loop on one state. It succeeds exactly when no arrival meets an obstacle on the state the earlier
    // ones left; then every arrival has its record, receipts and executions are those of the transactions that ran, and
    // the state is the one the last of them left. Otherwise it stops at the first obstacle.
    method ProcessBlock<S>(engine: Engine<S>, block: nat, txs: seq<Tx>, gasLimit: nat, start: S)
      returns (r: Result<Processed, BlockCode>, state: S)
      requires records == []
      modifies this`records, this`interventions
      ensures
        var c := Case(branch, manifest, engine, block, txs, gasLimit, start);
        && (r.Ok? <==> FIRST_BLOCK <= block <= LAST_BLOCK && AllPass(c, |txs|))
        && (r.Ok? ==> Recorded(records, c, |txs|) && r.value == CollectedAt(c, |txs|) && state == PositionAt(c, |txs|).state)
        && (r.Err? ==> FailedAt(c, r.error))
      ensures r.Ok? ==> interventions == old(interventions) + Interventions(branch, block, |txs|)
    {
      ghost var c := Case(branch, manifest, engine, block, txs, gasLimit, start);
      var position := Position(start, gasLimit, 0);
      state := start;
      if !(FIRST_BLOCK <= block <= LAST_BLOCK) {
        return Err(OutsideInterval), state;
      }
      var p := Processed([], [], [], 0);
      for i := 0 to |txs|
        invariant position == PositionAt(c, i) && AllPass(c, i)
        invariant Recorded(records, c, i)
        invariant p == CollectedAt(c, i)
        invariant interventions == old(interventions) + Interventions(branch, block, i)
      {
        ghost var before := records;
        var code, answer := Transact(engine, block, i, txs[i], position, c);
        if code.Some? {
          ObstacleStops(c, i, code.value);
          return Err(code.value), state;
        }
        var o := answer.value;
        OneMoreArrival(c, i, before, records);
        p := Collect(p, txs[i], o, i);
        position := Position(o.state, o.gas, o.used);
      }
      state := position.state;
      return Ok(p), state;
    }
  }

  // ----- accounting -------------------------------------------------------------------------------------------

  // Neighbouring records share their roots and gas; an invalidated arrival changes neither, ran nothing, and occurs only
  // in the counterfactual branch, for a user transaction with a classified error.
  lemma RecordsAccount<S>(records: seq<Record>, c: Case<S>)
    requires Recorded(records, c, |c.txs|) && AllPass(c, |c.txs|)
    ensures records != [] ==> records[0].preRoot == c.engine.rootOf(c.start) && records[0].gasBefore == c.gasLimit
    ensures forall i :: 0 <= i < |records| ==> records[i].block == c.block && records[i].index == i && records[i].txHash == c.txs[i].hash
    ensures forall i, j :: 0 <= i && j == i + 1 && j < |records| ==>
              records[j].preRoot == records[i].postRoot && records[j].gasBefore == records[i].gasAfter
    ensures records != [] ==> records[|records| - 1].postRoot == c.engine.rootOf(PositionAt(c, |c.txs|).state)
    ensures forall i :: 0 <= i < |records| && records[i].status.Invalidated? ==>
              && c.branch == Counterfactual && UserKind(c.txs[i]) && records[i].status.errorClass != ""
              && records[i].preRoot == records[i].postRoot && records[i].gasBefore == records[i].gasAfter
              && records[i].enters == 0 && records[i].opcodes == 0 && records[i].execution.None?
  {
    forall i | 0 <= i < |records|
      ensures records[i] == RecordOf(c, i, PositionAt(c, i)) && Passes(c, i)
    {
    }
    forall i, j | 0 <= i && j == i + 1 && j < |records|
      ensures records[j].preRoot == records[i].postRoot && records[j].gasBefore == records[i].gasAfter
    {
      assert records[i] == RecordOf(c, i, PositionAt(c, i)) && records[j] == RecordOf(c, j, PositionAt(c, j));
    }
  }

  // What the records say of the run: the end of an arrival, the message the engine was given and the state it left.
  lemma RecordsTellTheRun<S>(records: seq<Record>, c: Case<S>, i: nat)
    requires Recorded(records, c, |c.txs|) && i < |c.txs|
    ensures
      var p, o, r := PositionAt(c, i), AnswerAt(c, i), records[i];
      && o == c.engine.apply(p.state, Message(c.block, i, c.txs[i], r.calldata, p.gas, p.used))
      && (r.calldata == c.txs[i].data || (IsTarget(c.block, i) && c.branch == Counterfactual && r.calldata == c.manifest.replacement))
      && (r.status.Success? <==> o.Ran? && !o.reverted) && (r.status.Revert? <==> o.Ran? && o.reverted)
      && (o.Refused? ==> r.status == Invalidated(o.errorClass))
      && r.preRoot == c.engine.rootOf(p.state) && r.postRoot == c.engine.rootOf(o.state)
      && r.gasBefore == p.gas && r.gasAfter == o.gas && r.enters == o.trace.enters && r.opcodes == o.trace.opcodes
  {
    assert records[i] == RecordOf(c, i, PositionAt(c, i));
  }

  // ----- receipts and executions ------------------------------------------------------------------------------

  // The indices below n of the transactions that ran, in order.
  function RanBelow<S>(c: Case<S>, n: nat): seq<nat>
    requires n <= |c.txs|
  {
    if n == 0 then []
    else if AnswerAt(c, n - 1).Ran? then RanBelow(c, n - 1) + [n - 1] else RanBelow(c, n - 1)
  }

  lemma {:induction false} RanInRange<S>(c: Case<S>, n: nat)
    requires n <= |c.txs|
    ensures forall j :: 0 <= j < |RanBelow(c, n)| ==> RanBelow(c, n)[j] < n && AnswerAt(c, RanBelow(c, n)[j]).Ran?
    ensures forall j, k :: 0 <= j < k < |RanBelow(c, n)| ==> RanBelow(c, n)[j] < RanBelow(c, n)[k]
    ensures forall i :: 0 <= i < n && AnswerAt(c, i).Ran? ==> i in RanBelow(c, n)
  {
    if n > 0 {
      RanInRange(c, n - 1);
    }
  }

  function AllLogs(receipts: seq<Receipt>): seq<Log> {
    if receipts == [] then [] else AllLogs(receipts[..|receipts| - 1]) + receipts[|receipts| - 1].logs
  }

  ghost predicate InStep<S>(p: Processed, c: Case<S>, n: nat)
    requires n <= |c.txs|
  {
    var ran := RanBelow(c, n);
    && |p.receipts| == |p.executions| == |ran| && p.logs == AllLogs(p.receipts)
    && forall j :: 0 <= j < |ran| ==>
         && ran[j] < n && AnswerAt(c, ran[j]).Ran?
         && p.executions[j] == Execution(ran[j], c.txs[ran[j]].hash)
         && p.receipts[j] == Receipt(c.txs[ran[j]].hash, 0, AnswerAt(c, ran[j]).receiptGas, NewLogs(AnswerAt(c, ran[j]).logs, ran[j]))
  }

  lemma OneMoreReceipt<S>(c: Case<S>, n: nat)
    requires n < |c.txs| && InStep(CollectedAt(c, n), c, n) && AnswerAt(c, n).Ran?
    ensures InStep(CollectedAt(c, n + 1), c, n + 1)
  {
    var p, q, ran, o := CollectedAt(c, n), CollectedAt(c, n + 1), RanBelow(c, n), AnswerAt(c, n);
    assert q == Collect(p, c.txs[n], o, n);
    assert RanBelow(c, n + 1) == ran + [n];
    assert q.receipts[..|q.receipts| - 1] == p.receipts;
  }

  lemma NoMoreReceipt<S>(c: Case<S>, n: nat)
    requires n < |c.txs| && InStep(CollectedAt(c, n), c, n) && AnswerAt(c, n).Refused?
    ensures InStep(CollectedAt(c, n + 1), c, n + 1)
  {
    assert CollectedAt(c, n + 1) == CollectedAt(c, n).(gasUsed := AnswerAt(c, n).used);
    assert RanBelow(c, n + 1) == RanBelow(c, n);
  }

  lemma UsedIsCollected<S>(c: Case<S>, n: nat)
    requires n <= |c.txs|
    ensures CollectedAt(c, n).gasUsed == PositionAt(c, n).used
  {
  }

  lemma NothingInStep<S>(c: Case<S>)
    ensures InStep(CollectedAt(c, 0), c, 0)
  {
  }

  lemma {:induction false} CollectedInStep<S>(c: Case<S>, n: nat)
    requires n <= |c.txs|
    ensures InStep(CollectedAt(c, n), c, n)
  {
    if n == 0 {
      NothingInStep(c);
    } else {
      var i: nat := n - 1;
      CollectedInStep(c, i);
      if AnswerAt(c, i).Ran? {
        OneMoreReceipt(c, i);
      } else {
        NoMoreReceipt(c, i);
      }
    }
  }

  // An execution is that of its record, an executed record has its execution.
  lemma ExecutionsAreRecords<S>(records: seq<Record>, c: Case<S>, p: Processed)
    requires Recorded(records, c, |c.txs|) && InStep(p, c, |c.txs|)
    ensures forall j :: 0 <= j < |p.executions| ==>
              && p.executions[j].index < |records| && records[p.executions[j].index].execution == Some(p.executions[j])
              && p.receipts[j].txHash == p.executions[j].txHash
    ensures forall i :: 0 <= i < |records| && !records[i].status.Invalidated? ==> AnswerAt(c, i).Ran?
  {
    var ran := RanBelow(c, |c.txs|);
    forall j | 0 <= j < |p.executions|
      ensures p.executions[j].index < |records| && records[p.executions[j].index].execution == Some(p.executions[j])
    {
      assert records[ran[j]] == RecordOf(c, ran[j], PositionAt(c, ran[j]));
    }
    forall i | 0 <= i < |records| && !records[i].status.Invalidated?
      ensures AnswerAt(c, i).Ran?
    {
      assert records[i] == RecordOf(c, i, PositionAt(c, i));
    }
  }

  lemma ExecutionsAscend<S>(c: Case<S>, p: Processed)
    requires InStep(p, c, |c.txs|)
    ensures forall j, k :: 0 <= j < k < |p.executions| ==> p.executions[j].index < p.executions[k].index
  {
    var ran := RanBelow(c, |c.txs|);
    RanInRange(c, |c.txs|);
    assert forall j :: 0 <= j < |ran| ==> p.executions[j].index == ran[j];
  }

  lemma ExecutionOf<S>(c: Case<S>, p: Processed, i: nat) returns (j: nat)
    requires InStep(p, c, |c.txs|) && i < |c.txs| && AnswerAt(c, i).Ran?
    ensures j < |p.executions| && p.executions[j].index == i
  {
    var ran := RanBelow(c, |c.txs|);
    RanInRange(c, |c.txs|);
    j :| 0 <= j < |ran| && ran[j] == i;
  }

  // Receipts and executions are in step, with strictly increasing indices: exactly the arrivals not invalidated.
  lemma InStepWithRecords<S>(records: seq<Record>, c: Case<S>, p: Processed)
    requires Recorded(records, c, |c.txs|) && p == CollectedAt(c, |c.txs|)
    ensures |p.receipts| == |p.executions| && p.logs == AllLogs(p.receipts) && p.gasUsed == PositionAt(c, |c.txs|).used
    ensures forall j, k :: 0 <= j < k < |p.executions| ==> p.executions[j].index < p.executions[k].index
    ensures forall j :: 0 <= j < |p.executions| ==>
              && p.executions[j].index < |records| && records[p.executions[j].index].execution == Some(p.executions[j])
              && p.receipts[j].txHash == p.executions[j].txHash
    ensures forall i :: 0 <= i < |records| && !records[i].status.Invalidated? ==> exists j :: 0 <= j < |p.executions| && p.executions[j].index == i
  {
    CollectedInStep(c, |c.txs|);
    UsedIsCollected(c, |c.txs|);
    ExecutionsAscend(c, p);
    ExecutionsAreRecords(records, c, p);
    forall i | 0 <= i < |records| && !records[i].status.Invalidated?
      ensures exists j :: 0 <= j < |p.executions| && p.executions[j].index == i
    {
      var j := ExecutionOf(c, p, i);
    }
  }

  // In the actual branch nothing is invalidated: the j-th execution is the j-th transaction.
  lemma {:induction false} ActualRunsAll<S>(c: Case<S>, n: nat)
    requires n <= |c.txs| && c.branch == Actual && AllPass(c, n)
    ensures |RanBelow(c, n)| == n && forall j :: 0 <= j < n ==> RanBelow(c, n)[j] == j
  {
    if n > 0 {
      ActualRunsAll(c, n - 1);
      assert Passes(c, n - 1);
    }
  }

  // ----- the two branches -------------------------------------------------------------------------------------

  // The same block from the same state in the other branch.
  function In<S>(c: Case<S>, branch: Branch): Case<S> {
    c.(branch := branch)
  }

  // No intervention reaches the first n arrivals: the target is not among them, or its replacement is no replacement.
  predicate Untouched<S>(c: Case<S>, n: nat) {
    c.block == FIRST_BLOCK && TARGET_INDEX < n ==> c.manifest.replacement == c.manifest.input
  }

  lemma SameAnswer<S>(c: Case<S>, i: nat, p: Position<S>)
    requires i < |c.txs| && Untouched(c, i + 1) && Obstacle(In(c, Actual), i, p).None?
    ensures Answer(In(c, Counterfactual), i, p) == Answer(In(c, Actual), i, p)
    ensures Obstacle(In(c, Counterfactual), i, p).None?
    ensures RecordOf(In(c, Counterfactual), i, p) == RecordOf(In(c, Actual), i, p)
  {
    assert MessageData(Counterfactual, c.manifest, c.block, i, c.txs[i]) == MessageData(Actual, c.manifest, c.block, i, c.txs[i]);
  }

  ghost predicate SameRecord<S>(c: Case<S>, i: nat)
    requires i < |c.txs|
  {
    RecordOf(In(c, Counterfactual), i, PositionAt(In(c, Counterfactual), i)) == RecordOf(In(c, Actual), i, PositionAt(In(c, Actual), i))
  }

  // From one position, one answer and no obstacle, the branches go on to one position.
  lemma SameStep<S>(c: Case<S>, i: nat)
    requires i < |c.txs| && PositionAt(In(c, Counterfactual), i) == PositionAt(In(c, Actual), i)
    requires
      var p := PositionAt(In(c, Actual), i);
      && Answer(In(c, Counterfactual), i, p) == Answer(In(c, Actual), i, p) && Obstacle(In(c, Counterfactual), i, p).None?
      && RecordOf(In(c, Counterfactual), i, p) == RecordOf(In(c, Actual), i, p)
    ensures PositionAt(In(c, Counterfactual), i + 1) == PositionAt(In(c, Actual), i + 1)
    ensures Passes(In(c, Counterfactual), i) && SameRecord(c, i)
  {
  }

  // Up to the intervention the branches are one run: whatever the engine, if the actual branch gets through the first n
  // arrivals then the counterfactual one does, with the same records, and stands on the same state.
  lemma {:induction false} OneRunUntilTheTarget<S>(c: Case<S>, n: nat)
    requires n <= |c.txs| && Untouched(c, n) && AllPass(In(c, Actual), n)
    ensures PositionAt(In(c, Counterfactual), n) == PositionAt(In(c, Actual), n) && AllPass(In(c, Counterfactual), n)
    ensures forall i :: 0 <= i < n ==> SameRecord(c, i)
  {
    if n > 0 {
      var i := n - 1;
      OneRunUntilTheTarget(c, i);
      assert Passes(In(c, Actual), i);
      SameAnswer(c, i, PositionAt(In(c, Actual), i));
      SameStep(c, i);
    }
  }

  lemma SameRecords<S>(actual: seq<Record>, variant: seq<Record>, c: Case<S>, n: nat)
    requires n <= |c.txs| && Recorded(actual, In(c, Actual), |c.txs|) && Recorded(variant, In(c, Counterfactual), |c.txs|)
    requires forall i :: 0 <= i < n ==> SameRecord(c, i)
    ensures forall i :: 0 <= i < n ==> variant[i] == actual[i]
  {
    forall i | 0 <= i < n
      ensures variant[i] == actual[i]
    {
      assert SameRecord(c, i);
    }
  }

  // The records of the two branches of one block: the same up to the target, which meets the same state and gas and
  // differs in its calldata; the same altogether in any other block, or when nothing is replaced.
  lemma BranchesDifferFromTheTargetOn<S>(actual: seq<Record>, variant: seq<Record>, c: Case<S>)
    requires AllPass(In(c, Actual), |c.txs|)
    requires Recorded(actual, In(c, Actual), |c.txs|) && Recorded(variant, In(c, Counterfactual), |c.txs|)
    ensures forall i :: 0 <= i < |c.txs| && (c.block == FIRST_BLOCK ==> i < TARGET_INDEX) ==> variant[i] == actual[i]
    ensures c.block != FIRST_BLOCK || |c.txs| <= TARGET_INDEX || c.manifest.replacement == c.manifest.input ==> variant == actual
    ensures c.block == FIRST_BLOCK && TARGET_INDEX < |c.txs| ==>
              && variant[TARGET_INDEX].preRoot == actual[TARGET_INDEX].preRoot
              && variant[TARGET_INDEX].gasBefore == actual[TARGET_INDEX].gasBefore
              && actual[TARGET_INDEX].calldata == c.manifest.input && variant[TARGET_INDEX].calldata == c.manifest.replacement
  {
    if c.block != FIRST_BLOCK || |c.txs| <= TARGET_INDEX || c.manifest.replacement == c.manifest.input {
      OneRunUntilTheTarget(c, |c.txs|);
      SameRecords(actual, variant, c, |c.txs|);
    }
    if c.block == FIRST_BLOCK && TARGET_INDEX < |c.txs| {
      OneRunUntilTheTarget(c, TARGET_INDEX);
      SameRecords(actual, variant, c, TARGET_INDEX);
      assert Passes(In(c, Actual), TARGET_INDEX);
    }
  }

  // At the target the two branches give the engine one state and one message but for its calldata: the pinned transaction
  // with its own calldata in the one, with the replacement in the other.
  lemma TargetRunsTheReplacement<S>(c: Case<S>)
    requires c.block == FIRST_BLOCK && TARGET_INDEX < |c.txs| && AllPass(In(c, Actual), TARGET_INDEX + 1)
    ensures
      var p, tx := PositionAt(In(c, Actual), TARGET_INDEX), c.txs[TARGET_INDEX];
      && tx.hash == TARGET_HASH && PositionAt(In(c, Counterfactual), TARGET_INDEX) == p
      && AnswerAt(In(c, Actual), TARGET_INDEX) ==
         c.engine.apply(p.state, Message(c.block, TARGET_INDEX, tx, c.manifest.input, p.gas, p.used))
      && AnswerAt(In(c, Counterfactual), TARGET_INDEX) ==
         c.engine.apply(p.state, Message(c.block, TARGET_INDEX, tx, c.manifest.replacement, p.gas, p.used))
  {
    assert Passes(In(c, Actual), TARGET_INDEX);
    forall i | 0 <= i < TARGET_INDEX
      ensures Passes(In(c, Actual), i)
    {
    }
    OneRunUntilTheTarget(c, TARGET_INDEX);
  }
}
