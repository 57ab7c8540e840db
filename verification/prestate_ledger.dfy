// The ledger of a bridge: what its calls ask of the source and what the answers cost.
// Each call is charged and each question is listed from the state it starts in, independently of how the bridge counts;
// over any run the bridge's bytes are the sum of the charges and its attempts are the list of the questions.
module PrestateLedger {
  import opened Wrappers
  import opened PrestateTrie
  import opened PrestateBridge
  import opened PrestateRuns
  import opened PrestateHonest

  // ----- what is charged --------------------------------------------------------------------------------------

  // A proof that is asked for costs its whole response, if there is room for the exchange; otherwise nothing.
  function ProofCharge(cfg: Config, s: State, rpc: Rpc<RpcProof>): nat {
    if s.fatal.None? && ProofRoom(cfg, s, rpc) then rpc.answer.size else 0
  }

  function AccountCharge(cfg: Config, s: State, root: Hash, a: Address, rpc: Rpc<RpcProof>): nat {
    if ReadAccount(cfg.codec, s.diskNodes, root, a).Ok? then 0 else ProofCharge(cfg, s, rpc)
  }

  function FetchCharge(cfg: Config, s: State, rpc: Rpc<Bytes>): nat {
    if s.fatal.None? && CodeRoom(cfg, s, rpc) then |rpc.answer.value| else 0
  }

  // Code costs its length, after what its account cost.
  function CodeCharge(cfg: Config, s: State, root: Hash, a: Address, h: Hash, rpc: Rpc<RpcProof>, codeRpc: Rpc<Bytes>): nat {
    if s.fatal.Some? || h == cfg.codec.emptyCode || (h in s.diskCodes && cfg.codec.hash(s.diskCodes[h]) == h) then 0
    else
      var (t, account) := AccountRead(cfg, s, root, a, rpc);
      var bound := account.Ok? && account.value.Some? && account.value.value.codeHash == h;
      AccountCharge(cfg, s, root, a, rpc) + if bound then FetchCharge(cfg, t, codeRpc) else 0
  }

  function Charge(cfg: Config, s: State, op: Op): nat {
    match op
    case AccountOp(root, a, rpc) => AccountCharge(cfg, s, root, a, rpc)
    case StorageOp(root, a, k, rpc) => if ReadStorage(cfg.codec, s.diskNodes, root, a, k).Ok? then 0 else ProofCharge(cfg, s, rpc)
    case CodeOp(root, a, h, rpc, codeRpc) => CodeCharge(cfg, s, root, a, h, rpc, codeRpc)
    case HydrateOp(_, _, rpc) => ProofCharge(cfg, s, rpc)
    case WitnessOp(c, nodes, codes) => if WitnessLoaded(cfg, s, c, nodes, codes).1 then SizeOf(nodes) + SizeOf(codes) else 0
    case _ => 0
  }

  function Spent(cfg: Config, ops: seq<Op>): nat {
    if ops == [] then 0
    else Spent(cfg, ops[..|ops| - 1]) + Charge(cfg, Run(cfg, NEW, ops[..|ops| - 1]), ops[|ops| - 1])
  }

  lemma StopIsFree(s: State, code: StopCode)
    ensures Stopped(s, code).bytes == s.bytes
  {
  }

  lemma RequestIsFree(cfg: Config, s: State, kind: Kind, a: Address, slots: seq<Slot>, now: int)
    ensures
      var (t, ok) := Requested(cfg, s, kind, a, slots, now);
      && t.bytes == s.bytes
      && (ok <==> s.fatal.None? && !s.isSealed && now <= cfg.budget.expiresAt && s.requests < cfg.budget.maxRequests)
  {
  }

  lemma ResponseCosts(cfg: Config, s: State, size: nat, now: int)
    ensures
      var (t, ok) := Responded(cfg, s, size, now);
      && t.bytes == s.bytes + (if ok then size else 0)
      && (ok <==> now <= cfg.budget.expiresAt && size <= cfg.budget.maxResponseBytes && s.bytes + size <= cfg.budget.maxBytes)
  {
  }

  lemma HydrateCharges(cfg: Config, s: State, a: Address, slots: seq<Slot>, rpc: Rpc<RpcProof>)
    ensures Hydrated(cfg, s, a, slots, rpc).0.bytes == s.bytes + ProofCharge(cfg, s, rpc)
  {
    RequestIsFree(cfg, s, GetProof, a, slots, rpc.requestedAt);
    var s1 := Requested(cfg, s, GetProof, a, slots, rpc.requestedAt).0;
    if rpc.answer.Answer? {
      ResponseCosts(cfg, s1, rpc.answer.size, rpc.answeredAt);
    }
  }

  lemma AccountCharges(cfg: Config, s: State, root: Hash, a: Address, rpc: Rpc<RpcProof>)
    ensures AccountRead(cfg, s, root, a, rpc).0.bytes == s.bytes + AccountCharge(cfg, s, root, a, rpc)
  {
    HydrateCharges(cfg, s, a, [], rpc);
    StopIsFree(Hydrated(cfg, s, a, [], rpc).0, AccountPreimage);
  }

  lemma StorageCharges(cfg: Config, s: State, root: Hash, a: Address, k: Slot, rpc: Rpc<RpcProof>)
    ensures StorageRead(cfg, s, root, a, k, rpc).0.bytes == s.bytes + Charge(cfg, s, StorageOp(root, a, k, rpc))
  {
    HydrateCharges(cfg, s, a, [k], rpc);
    StopIsFree(Hydrated(cfg, s, a, [k], rpc).0, StoragePreimage);
  }

  lemma FetchCharges(cfg: Config, s: State, a: Address, h: Hash, rpc: Rpc<Bytes>)
    ensures CodeFetched(cfg, s, a, h, rpc).0.bytes == s.bytes + FetchCharge(cfg, s, rpc)
  {
    RequestIsFree(cfg, s, GetCode, a, [], rpc.requestedAt);
    var s1 := Requested(cfg, s, GetCode, a, [], rpc.requestedAt).0;
    if rpc.answer.Answer? {
      ResponseCosts(cfg, s1, |rpc.answer.value|, rpc.answeredAt);
    }
  }

  lemma CodeCharges(cfg: Config, s: State, root: Hash, a: Address, h: Hash, rpc: Rpc<RpcProof>, codeRpc: Rpc<Bytes>)
    ensures CodeRead(cfg, s, root, a, h, rpc, codeRpc).0.bytes == s.bytes + CodeCharge(cfg, s, root, a, h, rpc, codeRpc)
  {
    var t := AccountRead(cfg, s, root, a, rpc).0;
    AccountCharges(cfg, s, root, a, rpc);
    StopIsFree(t, CodeBinding);
    FetchCharges(cfg, t, a, h, codeRpc);
  }

  lemma StepCharges(cfg: Config, s: State, op: Op)
    ensures After(cfg, s, op).bytes == s.bytes + Charge(cfg, s, op)
  {
    match op {
      case AccountOp(root, a, rpc) => AccountCharges(cfg, s, root, a, rpc);
      case StorageOp(root, a, k, rpc) => StorageCharges(cfg, s, root, a, k, rpc);
      case CodeOp(root, a, h, rpc, codeRpc) => CodeCharges(cfg, s, root, a, h, rpc, codeRpc);
      case HydrateOp(a, slots, rpc) => HydrateCharges(cfg, s, a, slots, rpc);
      case _ =>
    }
  }

  // The bytes on the account of a bridge are what its calls were charged, one by one: a response in full or not at all.
  lemma {:induction false} BytesAreCharged(cfg: Config, ops: seq<Op>)
    ensures Run(cfg, NEW, ops).bytes == Spent(cfg, ops)
  {
    if ops != [] {
      BytesAreCharged(cfg, ops[..|ops| - 1]);
      StepCharges(cfg, Run(cfg, NEW, ops[..|ops| - 1]), ops[|ops| - 1]);
    }
  }

  // ----- what is asked ----------------------------------------------------------------------------------------

  // What a call asks of the source.
  datatype Question = Question(kind: Kind, address: Address, slots: seq<Slot>)

  // A request goes out while the bridge runs, is not sealed, is in time and has requests left.
  predicate Asks(cfg: Config, s: State, now: int) {
    s.fatal.None? && !s.isSealed && now <= cfg.budget.expiresAt && s.requests < cfg.budget.maxRequests
  }

  function ProofQuestions(cfg: Config, s: State, a: Address, slots: seq<Slot>, rpc: Rpc<RpcProof>): seq<Question> {
    if Asks(cfg, s, rpc.requestedAt) then [Question(GetProof, a, slots)] else []
  }

  function AccountQuestions(cfg: Config, s: State, root: Hash, a: Address, rpc: Rpc<RpcProof>): seq<Question> {
    if ReadAccount(cfg.codec, s.diskNodes, root, a).Ok? then [] else ProofQuestions(cfg, s, a, [], rpc)
  }

  function CodeQuestions(cfg: Config, s: State, root: Hash, a: Address, h: Hash, rpc: Rpc<RpcProof>, codeRpc: Rpc<Bytes>): seq<Question> {
    if s.fatal.Some? || h == cfg.codec.emptyCode || (h in s.diskCodes && cfg.codec.hash(s.diskCodes[h]) == h) then []
    else
      var (t, account) := AccountRead(cfg, s, root, a, rpc);
      var bound := account.Ok? && account.value.Some? && account.value.value.codeHash == h;
      AccountQuestions(cfg, s, root, a, rpc)
      + if bound && Asks(cfg, t, codeRpc.requestedAt) then [Question(GetCode, a, [])] else []
  }

  function Questions(cfg: Config, s: State, op: Op): seq<Question> {
    match op
    case AccountOp(root, a, rpc) => AccountQuestions(cfg, s, root, a, rpc)
    case StorageOp(root, a, k, rpc) => if ReadStorage(cfg.codec, s.diskNodes, root, a, k).Ok? then [] else ProofQuestions(cfg, s, a, [k], rpc)
    case CodeOp(root, a, h, rpc, codeRpc) => CodeQuestions(cfg, s, root, a, h, rpc, codeRpc)
    case HydrateOp(a, slots, rpc) => ProofQuestions(cfg, s, a, slots, rpc)
    case _ => []
  }

  function Asked(cfg: Config, ops: seq<Op>): seq<Question> {
    if ops == [] then []
    else Asked(cfg, ops[..|ops| - 1]) + Questions(cfg, Run(cfg, NEW, ops[..|ops| - 1]), ops[|ops| - 1])
  }

  // The questions the attempts record.
  function QuestionsOf(attempts: seq<Attempt>): seq<Question> {
    seq(|attempts|, (i: int) requires 0 <= i < |attempts| => Question(attempts[i].kind, attempts[i].address, attempts[i].slots))
  }

  lemma OneMoreAttempt(attempts: seq<Attempt>, x: Attempt)
    ensures QuestionsOf(attempts + [x]) == QuestionsOf(attempts) + [Question(x.kind, x.address, x.slots)]
  {
  }

  lemma StopAsksNothing(s: State, code: StopCode)
    ensures Stopped(s, code).attempts == s.attempts
  {
  }

  lemma RequestAsks(cfg: Config, s: State, kind: Kind, a: Address, slots: seq<Slot>, now: int)
    ensures
      var (t, ok) := Requested(cfg, s, kind, a, slots, now);
      && (ok <==> Asks(cfg, s, now))
      && QuestionsOf(t.attempts) == QuestionsOf(s.attempts) + if ok then [Question(kind, a, slots)] else []
  {
    OneMoreAttempt(s.attempts, Attempt(s.requests + 1, kind, a, slots, cfg.checkpoint));
  }

  lemma ResponseAsksNothing(cfg: Config, s: State, size: nat, now: int)
    ensures Responded(cfg, s, size, now).0.attempts == s.attempts
  {
  }

  lemma HydrateAsks(cfg: Config, s: State, a: Address, slots: seq<Slot>, rpc: Rpc<RpcProof>)
    ensures QuestionsOf(Hydrated(cfg, s, a, slots, rpc).0.attempts) == QuestionsOf(s.attempts) + ProofQuestions(cfg, s, a, slots, rpc)
  {
    RequestAsks(cfg, s, GetProof, a, slots, rpc.requestedAt);
    var s1 := Requested(cfg, s, GetProof, a, slots, rpc.requestedAt).0;
    if rpc.answer.Answer? {
      ResponseAsksNothing(cfg, s1, rpc.answer.size, rpc.answeredAt);
    }
  }

  lemma AccountAsks(cfg: Config, s: State, root: Hash, a: Address, rpc: Rpc<RpcProof>)
    ensures QuestionsOf(AccountRead(cfg, s, root, a, rpc).0.attempts) == QuestionsOf(s.attempts) + AccountQuestions(cfg, s, root, a, rpc)
  {
    HydrateAsks(cfg, s, a, [], rpc);
    StopAsksNothing(Hydrated(cfg, s, a, [], rpc).0, AccountPreimage);
  }

  lemma StorageAsks(cfg: Config, s: State, root: Hash, a: Address, k: Slot, rpc: Rpc<RpcProof>)
    ensures QuestionsOf(StorageRead(cfg, s, root, a, k, rpc).0.attempts) ==
            QuestionsOf(s.attempts) + Questions(cfg, s, StorageOp(root, a, k, rpc))
  {
    HydrateAsks(cfg, s, a, [k], rpc);
    StopAsksNothing(Hydrated(cfg, s, a, [k], rpc).0, StoragePreimage);
  }

  lemma FetchAsks(cfg: Config, s: State, a: Address, h: Hash, rpc: Rpc<Bytes>)
    ensures QuestionsOf(CodeFetched(cfg, s, a, h, rpc).0.attempts) ==
            QuestionsOf(s.attempts) + if Asks(cfg, s, rpc.requestedAt) then [Question(GetCode, a, [])] else []
  {
    RequestAsks(cfg, s, GetCode, a, [], rpc.requestedAt);
    var s1 := Requested(cfg, s, GetCode, a, [], rpc.requestedAt).0;
    if rpc.answer.Answer? {
      ResponseAsksNothing(cfg, s1, |rpc.answer.value|, rpc.answeredAt);
    }
  }

  lemma CodeAsks(cfg: Config, s: State, root: Hash, a: Address, h: Hash, rpc: Rpc<RpcProof>, codeRpc: Rpc<Bytes>)
    ensures QuestionsOf(CodeRead(cfg, s, root, a, h, rpc, codeRpc).0.attempts) ==
            QuestionsOf(s.attempts) + CodeQuestions(cfg, s, root, a, h, rpc, codeRpc)
  {
    var t := AccountRead(cfg, s, root, a, rpc).0;
    AccountAsks(cfg, s, root, a, rpc);
    StopAsksNothing(t, CodeBinding);
    FetchAsks(cfg, t, a, h, codeRpc);
  }

  lemma StepAsks(cfg: Config, s: State, op: Op)
    ensures QuestionsOf(After(cfg, s, op).attempts) == QuestionsOf(s.attempts) + Questions(cfg, s, op)
  {
    match op {
      case AccountOp(root, a, rpc) => AccountAsks(cfg, s, root, a, rpc);
      case StorageOp(root, a, k, rpc) => StorageAsks(cfg, s, root, a, k, rpc);
      case CodeOp(root, a, h, rpc, codeRpc) => CodeAsks(cfg, s, root, a, h, rpc, codeRpc);
      case HydrateOp(a, slots, rpc) => HydrateAsks(cfg, s, a, slots, rpc);
      case _ =>
    }
  }

  // The attempts of a bridge are the questions its calls put to the source, in order and with nothing left out.
  lemma {:induction false} AttemptsAreTheQuestions(cfg: Config, ops: seq<Op>)
    ensures QuestionsOf(Run(cfg, NEW, ops).attempts) == Asked(cfg, ops)
  {
    if ops != [] {
      AttemptsAreTheQuestions(cfg, ops[..|ops| - 1]);
      StepAsks(cfg, Run(cfg, NEW, ops[..|ops| - 1]), ops[|ops| - 1]);
    }
  }
}
