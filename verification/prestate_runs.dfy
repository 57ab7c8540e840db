// Runs of the bridge: what every sequence of its operations keeps.
module PrestateRuns {
  import opened Wrappers
  import opened PrestateTrie
  import opened PrestateBridge

  datatype Op =
    | AccountOp(root: Hash, a: Address, rpc: Rpc<RpcProof>)
    | StorageOp(root: Hash, a: Address, k: Slot, rpc: Rpc<RpcProof>)
    | CodeOp(root: Hash, a: Address, h: Hash, rpc: Rpc<RpcProof>, codeRpc: Rpc<Bytes>)
    | HydrateOp(a: Address, slots: seq<Slot>, rpc: Rpc<RpcProof>)
    | OpenOp(opens: bool)
    | WitnessOp(c: Checkpoint, nodes: Preimages, codes: Preimages)
    | CommitOp(dirty: Option<seq<Bytes>>)
    | SealOp
    | StopOp(code: StopCode)

  function After(cfg: Config, s: State, op: Op): State {
    match op
    case AccountOp(root, a, rpc) => AccountRead(cfg, s, root, a, rpc).0
    case StorageOp(root, a, k, rpc) => StorageRead(cfg, s, root, a, k, rpc).0
    case CodeOp(root, a, h, rpc, codeRpc) => CodeRead(cfg, s, root, a, h, rpc, codeRpc).0
    case HydrateOp(a, slots, rpc) => Hydrated(cfg, s, a, slots, rpc).0
    case OpenOp(opens) => StateOpened(s, opens).0
    case WitnessOp(c, nodes, codes) => WitnessLoaded(cfg, s, c, nodes, codes).0
    case CommitOp(dirty) => Committed(cfg, s, dirty).0
    case SealOp => SealedUp(cfg, s).0
    case StopOp(code) => Stopped(s, code)
  }

  function Run(cfg: Config, s: State, ops: seq<Op>): State {
    if ops == [] then s else After(cfg, Run(cfg, s, ops[..|ops| - 1]), ops[|ops| - 1])
  }

  // ----- budget and provenance --------------------------------------------------------------------------------

  ghost predicate WithinBudget(cfg: Config, s: State) {
    && s.requests <= cfg.budget.maxRequests && s.bytes <= cfg.budget.maxBytes
    && |s.attempts| == s.requests
    && forall i :: 0 <= i < |s.attempts| ==> s.attempts[i].index == i + 1 && s.attempts[i].context == cfg.checkpoint
  }

  // Everything kept is stored under its own hash, and everything in the witness is readable.
  ghost predicate Provenance(cfg: Config, s: State) {
    && ContentAddressed(cfg.codec, s.nodes) && ContentAddressed(cfg.codec, s.codes)
    && ContentAddressed(cfg.codec, s.diskNodes) && ContentAddressed(cfg.codec, s.diskCodes)
    && Includes(s.diskNodes, s.nodes) && Includes(s.diskCodes, s.codes)
  }

  ghost predicate SealKept(cfg: Config, s: State) {
    && (s.isSealed <==> s.record.Some?)
    && (s.isSealed ==> s.record.value == WitnessOf(cfg, s))
  }

  ghost predicate Inv(cfg: Config, s: State) {
    WithinBudget(cfg, s) && Provenance(cfg, s) && SealKept(cfg, s)
  }

  lemma StopKeeps(cfg: Config, s: State, code: StopCode)
    requires Inv(cfg, s)
    ensures Inv(cfg, Stopped(s, code)) && Stopped(s, code).fatal.Some?
    ensures Stopped(s, code).nodes == s.nodes && Stopped(s, code).diskNodes == s.diskNodes
  {
    var t := Stopped(s, code);
    assert WithinBudget(cfg, t);
    assert Provenance(cfg, t);
    assert SealKept(cfg, t);
  }

  lemma NumberedOneMore(cfg: Config, s: State, kind: Kind, a: Address, slots: seq<Slot>, t: State)
    requires WithinBudget(cfg, s) && s.requests < cfg.budget.maxRequests
    requires t.requests == s.requests + 1 && t.bytes == s.bytes
    requires t.attempts == s.attempts + [Attempt(s.requests + 1, kind, a, slots, cfg.checkpoint)]
    ensures WithinBudget(cfg, t)
  {
  }

  lemma RequestKeeps(cfg: Config, s: State, kind: Kind, a: Address, slots: seq<Slot>, now: int)
    requires Inv(cfg, s)
    ensures
      var (t, ok) := Requested(cfg, s, kind, a, slots, now);
      && Inv(cfg, t) && (t.fatal.None? <==> ok) && t.nodes == s.nodes && t.diskNodes == s.diskNodes
      && (ok ==> s.fatal.None? && !s.isSealed && t.codes == s.codes && t.diskCodes == s.diskCodes)
  {
    var (t, ok) := Requested(cfg, s, kind, a, slots, now);
    StopKeeps(cfg, s, WitnessSealed);
    StopKeeps(cfg, s, WindowExpired);
    StopKeeps(cfg, s, RequestBudget);
    if ok {
      NumberedOneMore(cfg, s, kind, a, slots, t);
      assert Provenance(cfg, t);
      assert SealKept(cfg, t);
    }
  }

  lemma ResponseKeeps(cfg: Config, s: State, size: nat, now: int)
    requires Inv(cfg, s) && s.fatal.None? && !s.isSealed
    ensures
      var (t, ok) := Responded(cfg, s, size, now);
      && Inv(cfg, t) && (t.fatal.None? <==> ok) && t.nodes == s.nodes && t.diskNodes == s.diskNodes
      && (ok ==> !t.isSealed && t.codes == s.codes && t.diskCodes == s.diskCodes)
  {
    var (t, ok) := Responded(cfg, s, size, now);
    StopKeeps(cfg, s, WindowExpired);
    StopKeeps(cfg, s, ByteBudget);
    if ok {
      assert WithinBudget(cfg, t);
      assert Provenance(cfg, t);
      assert SealKept(cfg, t);
    }
  }

  lemma NodesKeep(cfg: Config, s: State, used: Store)
    requires Inv(cfg, s) && !s.isSealed && cfg.codec.Injective() && ContentAddressed(cfg.codec, used)
    ensures
      var t := s.(nodes := s.nodes + used, diskNodes := s.diskNodes + used);
      Inv(cfg, t) && Includes(t.diskNodes, s.diskNodes) && Includes(t.diskNodes, used)
  {
    var t := s.(nodes := s.nodes + used, diskNodes := s.diskNodes + used);
    SumIncludes(cfg.codec, s.nodes, used);
    SumIncludes(cfg.codec, s.diskNodes, used);
    assert WithinBudget(cfg, t);
    assert Provenance(cfg, t);
    assert SealKept(cfg, t);
  }

  lemma HydrateKeeps(cfg: Config, s: State, a: Address, slots: seq<Slot>, rpc: Rpc<RpcProof>)
    requires Inv(cfg, s) && cfg.codec.Injective()
    ensures
      var (t, ok) := Hydrated(cfg, s, a, slots, rpc);
      && Inv(cfg, t) && (t.fatal.None? <==> ok) && Includes(t.diskNodes, s.diskNodes)
      && (ok ==>
            && rpc.answer.Answer? && VerifyProof(cfg.codec, cfg.checkpoint.stateRoot, a, slots, rpc.answer.value).Some?
            && Includes(t.diskNodes, VerifyProof(cfg.codec, cfg.checkpoint.stateRoot, a, slots, rpc.answer.value).value))
  {
    RequestKeeps(cfg, s, GetProof, a, slots, rpc.requestedAt);
    var (s1, asked) := Requested(cfg, s, GetProof, a, slots, rpc.requestedAt);
    if asked {
      StopKeeps(cfg, s1, ProofSourceUnavailable);
      StopKeeps(cfg, s1, RpcDeadline);
      if rpc.answer.Answer? {
        ResponseKeeps(cfg, s1, rpc.answer.size, rpc.answeredAt);
        var (s2, paid) := Responded(cfg, s1, rpc.answer.size, rpc.answeredAt);
        StopKeeps(cfg, s2, ProofAuthentication);
        var used := VerifyProof(cfg.codec, cfg.checkpoint.stateRoot, a, slots, rpc.answer.value);
        if paid && used.Some? {
          ProofAddressed(cfg.codec, cfg.checkpoint.stateRoot, a, slots, rpc.answer.value);
          NodesKeep(cfg, s2, used.value);
        }
      }
    }
  }

  lemma AccountKeeps(cfg: Config, s: State, root: Hash, a: Address, rpc: Rpc<RpcProof>)
    requires Inv(cfg, s) && cfg.codec.Injective()
    ensures Inv(cfg, AccountRead(cfg, s, root, a, rpc).0)
    ensures AccountRead(cfg, s, root, a, rpc).1.Ok? ==> AccountRead(cfg, s, root, a, rpc).0.fatal.None?
  {
    HydrateKeeps(cfg, s, a, [], rpc);
    StopKeeps(cfg, Hydrated(cfg, s, a, [], rpc).0, AccountPreimage);
  }

  lemma StorageKeeps(cfg: Config, s: State, root: Hash, a: Address, k: Slot, rpc: Rpc<RpcProof>)
    requires Inv(cfg, s) && cfg.codec.Injective()
    ensures Inv(cfg, StorageRead(cfg, s, root, a, k, rpc).0)
  {
    HydrateKeeps(cfg, s, a, [k], rpc);
    StopKeeps(cfg, Hydrated(cfg, s, a, [k], rpc).0, StoragePreimage);
  }

  lemma CodeKept(cfg: Config, s: State, h: Hash, code: Bytes)
    requires Inv(cfg, s) && !s.isSealed && cfg.codec.hash(code) == h
    ensures Inv(cfg, s.(codes := s.codes[h := code], diskCodes := s.diskCodes[h := code]))
  {
    var t := s.(codes := s.codes[h := code], diskCodes := s.diskCodes[h := code]);
    assert WithinBudget(cfg, t);
    assert Provenance(cfg, t);
    assert SealKept(cfg, t);
  }

  lemma FetchKeeps(cfg: Config, s: State, a: Address, h: Hash, rpc: Rpc<Bytes>)
    requires Inv(cfg, s) && cfg.codec.Injective()
    ensures Inv(cfg, CodeFetched(cfg, s, a, h, rpc).0)
  {
    RequestKeeps(cfg, s, GetCode, a, [], rpc.requestedAt);
    var (s1, asked) := Requested(cfg, s, GetCode, a, [], rpc.requestedAt);
    if asked {
      StopKeeps(cfg, s1, CodeSourceUnavailable);
      StopKeeps(cfg, s1, RpcDeadline);
      if rpc.answer.Answer? {
        ResponseKeeps(cfg, s1, |rpc.answer.value|, rpc.answeredAt);
        var (s2, paid) := Responded(cfg, s1, |rpc.answer.value|, rpc.answeredAt);
        StopKeeps(cfg, s2, CodeHashMismatch);
        if paid && cfg.codec.hash(rpc.answer.value) == h {
          CodeKept(cfg, s2, h, rpc.answer.value);
        }
      }
    }
  }

  lemma CodeKeeps(cfg: Config, s: State, root: Hash, a: Address, h: Hash, rpc: Rpc<RpcProof>, codeRpc: Rpc<Bytes>)
    requires Inv(cfg, s) && cfg.codec.Injective()
    ensures Inv(cfg, CodeRead(cfg, s, root, a, h, rpc, codeRpc).0)
  {
    AccountKeeps(cfg, s, root, a, rpc);
    FetchKeeps(cfg, AccountRead(cfg, s, root, a, rpc).0, a, h, codeRpc);
    StopKeeps(cfg, AccountRead(cfg, s, root, a, rpc).0, CodeBinding);
  }

  lemma {:induction false} AddedAddressed(c: Codec, store: Store, disk: Store, entries: Preimages)
    requires ContentAddressed(c, store) && ContentAddressed(c, disk) && Includes(disk, store) && AllHashed(c, entries)
    ensures ContentAddressed(c, Added(store, entries)) && ContentAddressed(c, Added(disk, entries))
    ensures Includes(Added(disk, entries), Added(store, entries))
  {
    if entries != [] {
      AddedAddressed(c, store, disk, entries[..|entries| - 1]);
    }
  }

  lemma WitnessKeeps(cfg: Config, s: State, c: Checkpoint, nodes: Preimages, codes: Preimages)
    requires Inv(cfg, s)
    ensures Inv(cfg, WitnessLoaded(cfg, s, c, nodes, codes).0)
  {
    if WitnessLoaded(cfg, s, c, nodes, codes).1 {
      AddedAddressed(cfg.codec, s.nodes, s.diskNodes, nodes);
      AddedAddressed(cfg.codec, s.codes, s.diskCodes, codes);
    }
  }

  lemma CommitKeeps(cfg: Config, s: State, dirty: Option<seq<Bytes>>)
    requires Inv(cfg, s) && cfg.codec.Injective()
    ensures Inv(cfg, Committed(cfg, s, dirty).0)
  {
    if dirty.Some? {
      ProofStoreAddressed(cfg.codec, dirty.value);
      SumIncludes(cfg.codec, s.diskNodes, ProofStore(cfg.codec, dirty.value));
    }
  }

  lemma StepKeeps(cfg: Config, s: State, op: Op)
    requires Inv(cfg, s) && cfg.codec.Injective()
    ensures Inv(cfg, After(cfg, s, op))
  {
    match op {
      case AccountOp(root, a, rpc) => AccountKeeps(cfg, s, root, a, rpc);
      case StorageOp(root, a, k, rpc) => StorageKeeps(cfg, s, root, a, k, rpc);
      case CodeOp(root, a, h, rpc, codeRpc) => CodeKeeps(cfg, s, root, a, h, rpc, codeRpc);
      case HydrateOp(a, slots, rpc) => HydrateKeeps(cfg, s, a, slots, rpc);
      case OpenOp(opens) =>
      case WitnessOp(c, nodes, codes) => WitnessKeeps(cfg, s, c, nodes, codes);
      case CommitOp(dirty) => CommitKeeps(cfg, s, dirty);
      case SealOp =>
      case StopOp(_) =>
    }
  }

  // In every run the budget holds, attempts are numbered from 1, everything kept is content addressed and what was
  // sealed is still the witness.
  lemma {:induction false} RunKeeps(cfg: Config, ops: seq<Op>)
    requires cfg.Valid() && cfg.codec.Injective()
    ensures Inv(cfg, Run(cfg, NEW, ops))
  {
    if ops != [] {
      RunKeeps(cfg, ops[..|ops| - 1]);
      StepKeeps(cfg, Run(cfg, NEW, ops[..|ops| - 1]), ops[|ops| - 1]);
    }
  }

  // ----- the latch --------------------------------------------------------------------------------------------

  // A stopped bridge does nothing any more.
  lemma {:induction false} FatalFreezes(cfg: Config, s: State, ops: seq<Op>)
    requires s.fatal.Some?
    ensures Run(cfg, s, ops) == s
  {
    if ops != [] {
      FatalFreezes(cfg, s, ops[..|ops| - 1]);
    }
  }

  // The first stop is the one that stays.
  lemma FirstStopStays(cfg: Config, s: State, op: Op, ops: seq<Op>)
    requires s.fatal.None? && After(cfg, s, op).fatal.Some?
    ensures Run(cfg, After(cfg, s, op), ops) == After(cfg, s, op)
  {
    FatalFreezes(cfg, After(cfg, s, op), ops);
  }

  // At most the fatal stop, the opened state or the disk differ.
  ghost predicate SameWitness(s: State, t: State) {
    t.isSealed == s.isSealed && t.nodes == s.nodes && t.codes == s.codes && t.attempts == s.attempts && t.record == s.record
  }

  lemma SealedRequests(cfg: Config, s: State, a: Address, slots: seq<Slot>, rpc: Rpc<RpcProof>, codeRpc: Rpc<Bytes>, h: Hash)
    requires s.isSealed
    ensures Hydrated(cfg, s, a, slots, rpc) == (if s.fatal.Some? then s else Stopped(s, WitnessSealed), false)
    ensures CodeFetched(cfg, s, a, h, codeRpc).0 == if s.fatal.Some? then s else Stopped(s, WitnessSealed)
  {
  }

  lemma SealedReads(cfg: Config, s: State, root: Hash, a: Address, k: Slot, rpc: Rpc<RpcProof>)
    requires s.isSealed
    ensures AccountRead(cfg, s, root, a, rpc).0 == s || AccountRead(cfg, s, root, a, rpc).0 == Stopped(s, WitnessSealed)
    ensures StorageRead(cfg, s, root, a, k, rpc).0 == s || StorageRead(cfg, s, root, a, k, rpc).0 == Stopped(s, WitnessSealed)
    ensures AccountRead(cfg, s, root, a, rpc).1.Ok? ==> AccountRead(cfg, s, root, a, rpc).0 == s
  {
    var free := Rpc(0, NoSource, false, 0);
    SealedRequests(cfg, s, a, [], rpc, free, 0);
    SealedRequests(cfg, s, a, [k], rpc, free, 0);
  }

  // Where reading code can leave the bridge.
  lemma CodeReadParts(cfg: Config, s: State, root: Hash, a: Address, h: Hash, rpc: Rpc<RpcProof>, codeRpc: Rpc<Bytes>)
    ensures
      var t, (u, account) := CodeRead(cfg, s, root, a, h, rpc, codeRpc).0, AccountRead(cfg, s, root, a, rpc);
      t == s || t == u || (account.Ok? && (t == Stopped(u, CodeBinding) || t == CodeFetched(cfg, u, a, h, codeRpc).0))
  {
  }

  lemma SealedCode(cfg: Config, s: State, root: Hash, a: Address, h: Hash, rpc: Rpc<RpcProof>, codeRpc: Rpc<Bytes>)
    requires s.isSealed
    ensures SameWitness(s, CodeRead(cfg, s, root, a, h, rpc, codeRpc).0)
  {
    CodeReadParts(cfg, s, root, a, h, rpc, codeRpc);
    SealedReads(cfg, s, root, a, 0, rpc);
    SealedRequests(cfg, s, a, [], rpc, codeRpc, h);
  }

  lemma SealedStep(cfg: Config, s: State, op: Op)
    requires s.isSealed
    ensures SameWitness(s, After(cfg, s, op))
  {
    var free := Rpc(0, NoSource, false, 0);
    match op {
      case AccountOp(root, a, rpc) => SealedReads(cfg, s, root, a, 0, rpc);
      case StorageOp(root, a, k, rpc) => SealedReads(cfg, s, root, a, k, rpc);
      case CodeOp(root, a, h, rpc, codeRpc) => SealedCode(cfg, s, root, a, h, rpc, codeRpc);
      case HydrateOp(a, slots, rpc) => SealedRequests(cfg, s, a, slots, rpc, free, 0);
      case _ =>
    }
  }

  // After sealing, witness and attempts never change, whatever is called.
  lemma {:induction false} SealedStays(cfg: Config, s: State, ops: seq<Op>)
    requires s.isSealed
    ensures SameWitness(s, Run(cfg, s, ops))
  {
    if ops != [] {
      SealedStays(cfg, s, ops[..|ops| - 1]);
      SealedStep(cfg, Run(cfg, s, ops[..|ops| - 1]), ops[|ops| - 1]);
    }
  }

  // ----- agreement with the complete state --------------------------------------------------------------------

  // Whatever was read, hydrated, loaded or committed before, an account that is returned is the account of any complete
  // state at the root it is read at.
  lemma AccountAgrees(cfg: Config, ops: seq<Op>, root: Hash, a: Address, rpc: Rpc<RpcProof>, full: Store)
    requires cfg.Valid() && cfg.codec.Injective() && ContentAddressed(cfg.codec, full)
    requires ReadAccount(cfg.codec, full, root, a).Ok?
    ensures
      var r := AccountRead(cfg, Run(cfg, NEW, ops), root, a, rpc).1;
      r.Ok? ==> r.value == ReadAccount(cfg.codec, full, root, a).value
  {
    var s := Run(cfg, NEW, ops);
    RunKeeps(cfg, ops);
    HydrateKeeps(cfg, s, a, [], rpc);
    if AccountRead(cfg, s, root, a, rpc).1.Ok? {
      var seen := if ReadAccount(cfg.codec, s.diskNodes, root, a).Ok? then s.diskNodes
                  else Hydrated(cfg, s, a, [], rpc).0.diskNodes;
      AccountsAgree(cfg.codec, seen, full, root, a);
    }
  }

  lemma StorageAgrees(cfg: Config, ops: seq<Op>, root: Hash, a: Address, k: Slot, rpc: Rpc<RpcProof>, full: Store)
    requires cfg.Valid() && cfg.codec.Injective() && ContentAddressed(cfg.codec, full)
    requires ReadStorage(cfg.codec, full, root, a, k).Ok?
    ensures
      var r := StorageRead(cfg, Run(cfg, NEW, ops), root, a, k, rpc).1;
      r.Ok? ==> r.value == ReadStorage(cfg.codec, full, root, a, k).value
  {
    var s := Run(cfg, NEW, ops);
    RunKeeps(cfg, ops);
    HydrateKeeps(cfg, s, a, [k], rpc);
    if StorageRead(cfg, s, root, a, k, rpc).1.Ok? {
      var seen := if ReadStorage(cfg.codec, s.diskNodes, root, a, k).Ok? then s.diskNodes
                  else Hydrated(cfg, s, a, [k], rpc).0.diskNodes;
      SlotsAgree(cfg.codec, seen, full, root, a, k);
    }
  }

  // Code that is returned is the one preimage of its hash.
  lemma CodeAgrees(cfg: Config, ops: seq<Op>, root: Hash, a: Address, h: Hash, rpc: Rpc<RpcProof>, codeRpc: Rpc<Bytes>, code: Bytes)
    requires cfg.Valid() && cfg.codec.Injective() && cfg.codec.hash(code) == h
    requires cfg.codec.hash([]) == cfg.codec.emptyCode
    ensures
      var r := CodeRead(cfg, Run(cfg, NEW, ops), root, a, h, rpc, codeRpc).1;
      r.Ok? ==> r.value == code
  {
    var r := CodeRead(cfg, Run(cfg, NEW, ops), root, a, h, rpc, codeRpc).1;
    if r.Ok? {
      assert cfg.codec.hash(r.value) == h;
    }
  }

  // ----- a proof that is accepted answers the read ------------------------------------------------------------

  lemma HydratedAccountReads(cfg: Config, s: State, a: Address, slots: seq<Slot>, rpc: Rpc<RpcProof>)
    requires Inv(cfg, s) && cfg.codec.Injective() && Hydrated(cfg, s, a, slots, rpc).1
    ensures ReadAccount(cfg.codec, Hydrated(cfg, s, a, slots, rpc).0.diskNodes, cfg.checkpoint.stateRoot, a).Ok?
  {
    var disk := Hydrated(cfg, s, a, slots, rpc).0.diskNodes;
    HydrateKeeps(cfg, s, a, slots, rpc);
    if cfg.checkpoint.stateRoot != cfg.codec.emptyRoot {
      ProvedAccount(cfg.codec, cfg.checkpoint.stateRoot, a, slots, rpc.answer.value, disk);
    }
  }

  lemma HydratedSlotReads(cfg: Config, s: State, a: Address, k: Slot, rpc: Rpc<RpcProof>)
    requires Inv(cfg, s) && cfg.codec.Injective() && Hydrated(cfg, s, a, [k], rpc).1
    ensures ReadStorage(cfg.codec, Hydrated(cfg, s, a, [k], rpc).0.diskNodes, cfg.checkpoint.stateRoot, a, k).Ok?
  {
    var disk := Hydrated(cfg, s, a, [k], rpc).0.diskNodes;
    HydrateKeeps(cfg, s, a, [k], rpc);
    if cfg.checkpoint.stateRoot != cfg.codec.emptyRoot {
      ProvedSlot(cfg.codec, cfg.checkpoint.stateRoot, a, [k], rpc.answer.value, disk, k);
    } else {
      assert ReadAccount(cfg.codec, disk, cfg.checkpoint.stateRoot, a) == Ok(None);
    }
  }

  // After a successful hydration the retried read succeeds: a read of a running bridge returns a value exactly when the
  // nodes are there or a proof of them is accepted.
  lemma HydrationAnswersAccount(cfg: Config, ops: seq<Op>, a: Address, rpc: Rpc<RpcProof>)
    requires cfg.Valid() && cfg.codec.Injective() && Run(cfg, NEW, ops).fatal.None?
    ensures
      var s := Run(cfg, NEW, ops);
      AccountRead(cfg, s, cfg.checkpoint.stateRoot, a, rpc).1.Ok? <==>
      ReadAccount(cfg.codec, s.diskNodes, cfg.checkpoint.stateRoot, a).Ok? || Hydrated(cfg, s, a, [], rpc).1
  {
    var s := Run(cfg, NEW, ops);
    RunKeeps(cfg, ops);
    if Hydrated(cfg, s, a, [], rpc).1 {
      HydratedAccountReads(cfg, s, a, [], rpc);
    }
  }

  lemma HydrationAnswersStorage(cfg: Config, ops: seq<Op>, a: Address, k: Slot, rpc: Rpc<RpcProof>)
    requires cfg.Valid() && cfg.codec.Injective() && Run(cfg, NEW, ops).fatal.None?
    ensures
      var s := Run(cfg, NEW, ops);
      StorageRead(cfg, s, cfg.checkpoint.stateRoot, a, k, rpc).1.Ok? <==>
      ReadStorage(cfg.codec, s.diskNodes, cfg.checkpoint.stateRoot, a, k).Ok? || Hydrated(cfg, s, a, [k], rpc).1
  {
    var s := Run(cfg, NEW, ops);
    RunKeeps(cfg, ops);
    if Hydrated(cfg, s, a, [k], rpc).1 {
      HydratedSlotReads(cfg, s, a, k, rpc);
    }
  }

  // What an accepted proof claims about an account is true of the complete state.
  lemma AcceptedProofIsTrue(cfg: Config, a: Address, slots: seq<Slot>, p: RpcProof, full: Store)
    requires cfg.codec.Injective() && cfg.checkpoint.stateRoot != cfg.codec.emptyRoot
    requires ContentAddressed(cfg.codec, full) && ReadAccount(cfg.codec, full, cfg.checkpoint.stateRoot, a).Ok?
    requires VerifyProof(cfg.codec, cfg.checkpoint.stateRoot, a, slots, p).Some?
    ensures
      var account := ReadAccount(cfg.codec, full, cfg.checkpoint.stateRoot, a).value;
      MetadataMatches(p, if account.Some? then account.value else EmptyAccount(cfg.codec))
  {
    var used := VerifyProof(cfg.codec, cfg.checkpoint.stateRoot, a, slots, p).value;
    ProofAddressed(cfg.codec, cfg.checkpoint.stateRoot, a, slots, p);
    ProvedAccount(cfg.codec, cfg.checkpoint.stateRoot, a, slots, p, used);
    AccountsAgree(cfg.codec, used, full, cfg.checkpoint.stateRoot, a);
  }
}
