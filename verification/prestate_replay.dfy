// A sealed witness is complete: loaded into another bridge it answers, without the source, whatever the run that sealed it
// had read. Stores only grow along a run, and until a state is committed the witness holds everything on disk; reads that
// succeed on a content-addressed store succeed, the same, on any larger one.
module PrestateReplay {
  import opened Wrappers
  import opened PrestateTrie
  import opened PrestateBridge
  import opened PrestateRuns

  // ----- what only grows --------------------------------------------------------------------------------------

  ghost predicate Grown(s: State, t: State) {
    s.diskNodes.Keys <= t.diskNodes.Keys && s.diskCodes.Keys <= t.diskCodes.Keys
  }

  // Everything on disk is in the witness: the case until a state is committed.
  ghost predicate Mirrored(s: State) {
    s.diskNodes == s.nodes && s.diskCodes == s.codes
  }

  ghost predicate Carries(s: State, t: State) {
    Grown(s, t) && (Mirrored(s) ==> Mirrored(t))
  }

  predicate SameStores(s: State, t: State) {
    t.nodes == s.nodes && t.codes == s.codes && t.diskNodes == s.diskNodes && t.diskCodes == s.diskCodes
  }

  lemma StopSame(s: State, code: StopCode)
    ensures SameStores(s, Stopped(s, code))
  {
  }

  lemma RequestSame(cfg: Config, s: State, kind: Kind, a: Address, slots: seq<Slot>, now: int)
    ensures SameStores(s, Requested(cfg, s, kind, a, slots, now).0)
  {
  }

  lemma ResponseSame(cfg: Config, s: State, size: nat, now: int)
    ensures SameStores(s, Responded(cfg, s, size, now).0)
  {
    StopSame(s, WindowExpired);
    StopSame(s, ByteBudget);
    var paid := s.(bytes := s.bytes + size);
    assert SameStores(s, paid);
  }

  lemma SameCarries(s: State, t: State)
    requires SameStores(s, t)
    ensures Carries(s, t)
  {
  }

  lemma NodesCarry(s: State, t: State, used: Store)
    requires t.nodes == s.nodes + used && t.diskNodes == s.diskNodes + used && t.codes == s.codes && t.diskCodes == s.diskCodes
    ensures Carries(s, t)
  {
  }

  // Hydration leaves the stores alone or adds the same nodes to both.
  lemma HydrateStores(cfg: Config, s: State, a: Address, slots: seq<Slot>, rpc: Rpc<RpcProof>) returns (used: Store)
    ensures
      var t := Hydrated(cfg, s, a, slots, rpc).0;
      SameStores(s, t) || (t.nodes == s.nodes + used && t.diskNodes == s.diskNodes + used && t.codes == s.codes && t.diskCodes == s.diskCodes)
  {
    used := map[];
    RequestSame(cfg, s, GetProof, a, slots, rpc.requestedAt);
    var s1 := Requested(cfg, s, GetProof, a, slots, rpc.requestedAt).0;
    StopSame(s1, ProofSourceUnavailable);
    StopSame(s1, RpcDeadline);
    if rpc.answer.Answer? {
      ResponseSame(cfg, s1, rpc.answer.size, rpc.answeredAt);
      StopSame(Responded(cfg, s1, rpc.answer.size, rpc.answeredAt).0, ProofAuthentication);
      var proved := VerifyProof(cfg.codec, cfg.checkpoint.stateRoot, a, slots, rpc.answer.value);
      if proved.Some? {
        used := proved.value;
      }
    }
  }

  lemma HydrateCarries(cfg: Config, s: State, a: Address, slots: seq<Slot>, rpc: Rpc<RpcProof>)
    ensures Carries(s, Hydrated(cfg, s, a, slots, rpc).0)
  {
    var t := Hydrated(cfg, s, a, slots, rpc).0;
    var used := HydrateStores(cfg, s, a, slots, rpc);
    if SameStores(s, t) {
      SameCarries(s, t);
    } else {
      NodesCarry(s, t, used);
    }
  }

  lemma StopCarries(s: State, t: State, code: StopCode)
    requires Carries(s, t)
    ensures Carries(s, Stopped(t, code))
  {
  }

  lemma AccountCarries(cfg: Config, s: State, root: Hash, a: Address, rpc: Rpc<RpcProof>)
    ensures Carries(s, AccountRead(cfg, s, root, a, rpc).0)
  {
    HydrateCarries(cfg, s, a, [], rpc);
    StopCarries(s, Hydrated(cfg, s, a, [], rpc).0, AccountPreimage);
  }

  lemma StorageCarries(cfg: Config, s: State, root: Hash, a: Address, k: Slot, rpc: Rpc<RpcProof>)
    ensures Carries(s, StorageRead(cfg, s, root, a, k, rpc).0)
  {
    HydrateCarries(cfg, s, a, [k], rpc);
    StopCarries(s, Hydrated(cfg, s, a, [k], rpc).0, StoragePreimage);
  }

  lemma CodeCarried(s: State, t: State, h: Hash, code: Bytes)
    requires t.codes == s.codes[h := code] && t.diskCodes == s.diskCodes[h := code] && t.nodes == s.nodes && t.diskNodes == s.diskNodes
    ensures Carries(s, t)
  {
  }

  lemma FetchStores(cfg: Config, s: State, a: Address, h: Hash, rpc: Rpc<Bytes>)
    ensures
      var t := CodeFetched(cfg, s, a, h, rpc).0;
      || SameStores(s, t)
      || (rpc.answer.Answer? && t.codes == s.codes[h := rpc.answer.value] && t.diskCodes == s.diskCodes[h := rpc.answer.value]
          && t.nodes == s.nodes && t.diskNodes == s.diskNodes)
  {
    RequestSame(cfg, s, GetCode, a, [], rpc.requestedAt);
    var s1 := Requested(cfg, s, GetCode, a, [], rpc.requestedAt).0;
    StopSame(s1, CodeSourceUnavailable);
    StopSame(s1, RpcDeadline);
    if rpc.answer.Answer? {
      ResponseSame(cfg, s1, |rpc.answer.value|, rpc.answeredAt);
      StopSame(Responded(cfg, s1, |rpc.answer.value|, rpc.answeredAt).0, CodeHashMismatch);
    }
  }

  lemma FetchCarries(cfg: Config, s: State, a: Address, h: Hash, rpc: Rpc<Bytes>)
    ensures Carries(s, CodeFetched(cfg, s, a, h, rpc).0)
  {
    var t := CodeFetched(cfg, s, a, h, rpc).0;
    FetchStores(cfg, s, a, h, rpc);
    if SameStores(s, t) {
      SameCarries(s, t);
    } else {
      CodeCarried(s, t, h, rpc.answer.value);
    }
  }

  lemma CodeCarries(cfg: Config, s: State, root: Hash, a: Address, h: Hash, rpc: Rpc<RpcProof>, codeRpc: Rpc<Bytes>)
    ensures Carries(s, CodeRead(cfg, s, root, a, h, rpc, codeRpc).0)
  {
    var t := AccountRead(cfg, s, root, a, rpc).0;
    AccountCarries(cfg, s, root, a, rpc);
    FetchCarries(cfg, t, a, h, codeRpc);
    StopCarries(s, t, CodeBinding);
  }

  lemma {:induction false} AddedGrows(store: Store, entries: Preimages)
    ensures store.Keys <= Added(store, entries).Keys
  {
    if entries != [] {
      AddedGrows(store, entries[..|entries| - 1]);
    }
  }

  lemma WitnessCarries(cfg: Config, s: State, c: Checkpoint, nodes: Preimages, codes: Preimages)
    ensures Carries(s, WitnessLoaded(cfg, s, c, nodes, codes).0)
  {
    var (t, ok) := WitnessLoaded(cfg, s, c, nodes, codes);
    if ok {
      AddedGrows(s.diskNodes, nodes);
      AddedGrows(s.diskCodes, codes);
      assert t.nodes == Added(s.nodes, nodes) && t.diskNodes == Added(s.diskNodes, nodes);
      assert t.codes == Added(s.codes, codes) && t.diskCodes == Added(s.diskCodes, codes);
    } else {
      StopSame(s, InitialBinding);
      StopSame(s, InitialHash);
      StopSame(s, InitialBytes);
      SameCarries(s, t);
    }
  }

  lemma StepCarries(cfg: Config, s: State, op: Op)
    ensures Grown(s, After(cfg, s, op))
    ensures !op.CommitOp? && Mirrored(s) ==> Mirrored(After(cfg, s, op))
  {
    match op {
      case AccountOp(root, a, rpc) => AccountCarries(cfg, s, root, a, rpc);
      case StorageOp(root, a, k, rpc) => StorageCarries(cfg, s, root, a, k, rpc);
      case CodeOp(root, a, h, rpc, codeRpc) => CodeCarries(cfg, s, root, a, h, rpc, codeRpc);
      case HydrateOp(a, slots, rpc) => HydrateCarries(cfg, s, a, slots, rpc);
      case WitnessOp(c, nodes, codes) => WitnessCarries(cfg, s, c, nodes, codes);
      case _ =>
    }
  }

  lemma {:induction false} RunGrows(cfg: Config, ops: seq<Op>, k: nat)
    requires k <= |ops|
    ensures Grown(Run(cfg, NEW, ops[..k]), Run(cfg, NEW, ops))
    decreases |ops|
  {
    if k == |ops| {
      assert ops[..k] == ops;
    } else {
      var shorter := ops[..|ops| - 1];
      RunGrows(cfg, shorter, k);
      assert shorter[..k] == ops[..k];
      StepCarries(cfg, Run(cfg, NEW, shorter), ops[|ops| - 1]);
    }
  }

  predicate NoCommit(ops: seq<Op>) {
    forall i :: 0 <= i < |ops| ==> !ops[i].CommitOp?
  }

  lemma {:induction false} RunMirrors(cfg: Config, ops: seq<Op>)
    requires NoCommit(ops)
    ensures Mirrored(Run(cfg, NEW, ops))
  {
    if ops != [] {
      var shorter := ops[..|ops| - 1];
      RunMirrors(cfg, shorter);
      StepCarries(cfg, Run(cfg, NEW, shorter), ops[|ops| - 1]);
    }
  }

  // ----- loading a sealed witness -----------------------------------------------------------------------------

  // The entries of a store, in some order.
  ghost predicate Lists(entries: Preimages, store: Store) {
    && (forall i :: 0 <= i < |entries| ==> entries[i].0 in store && store[entries[i].0] == entries[i].1)
    && (forall h :: h in store ==> exists i :: 0 <= i < |entries| && entries[i].0 == h)
  }

  lemma {:induction false} AddedListed(base: Store, entries: Preimages, store: Store)
    requires forall i :: 0 <= i < |entries| ==> entries[i].0 in store && store[entries[i].0] == entries[i].1
    ensures forall h :: h in Added(base, entries) <==> h in base || exists i :: 0 <= i < |entries| && entries[i].0 == h
    ensures forall i :: 0 <= i < |entries| ==>
              entries[i].0 in Added(base, entries) && Added(base, entries)[entries[i].0] == store[entries[i].0]
  {
    if entries != [] {
      var last: nat := |entries| - 1;
      var shorter := entries[..last];
      AddedListed(base, shorter, store);
      forall h
        ensures h in Added(base, entries) <==> h in base || exists i :: 0 <= i < |entries| && entries[i].0 == h
      {
        if i :| 0 <= i < |entries| && entries[i].0 == h {
          assert i == last || shorter[i].0 == h;
        }
        if h in Added(base, shorter) && h !in base {
          var i :| 0 <= i < last && shorter[i].0 == h;
          assert entries[i].0 == h;
        }
      }
      forall i | 0 <= i < |entries|
        ensures entries[i].0 in Added(base, entries) && Added(base, entries)[entries[i].0] == store[entries[i].0]
      {
        if i < last {
          assert shorter[i] == entries[i];
        }
      }
    }
  }

  lemma LoadedIsListed(entries: Preimages, store: Store)
    requires Lists(entries, store)
    ensures Added(map[], entries) == store
  {
    AddedListed(map[], entries, store);
    var made := Added(map[], entries);
    forall h
      ensures h in made <==> h in store
    {
    }
    forall h | h in store
      ensures made[h] == store[h]
    {
      var i :| 0 <= i < |entries| && entries[i].0 == h;
    }
    assert made == store;
  }

  lemma ListedAreHashed(c: Codec, entries: Preimages, store: Store)
    requires Lists(entries, store) && ContentAddressed(c, store)
    ensures AllHashed(c, entries)
  {
  }

  // Another bridge over the same codec and checkpoint.
  ghost predicate SameState(cfg: Config, other: Config) {
    other.codec == cfg.codec && other.checkpoint == cfg.checkpoint
  }

  // What a run sealed loads into a new bridge exactly when it fits its byte budget, and is then the whole of its store.
  lemma SealedWitnessReloads(cfg: Config, ops: seq<Op>, other: Config, nodes: Preimages, codes: Preimages)
    requires cfg.Valid() && cfg.codec.Injective() && SameState(cfg, other) && Run(cfg, NEW, ops).record.Some?
    requires Lists(nodes, Run(cfg, NEW, ops).record.value.nodes) && Lists(codes, Run(cfg, NEW, ops).record.value.codes)
    ensures
      var record := Run(cfg, NEW, ops).record.value;
      var (t, ok) := WitnessLoaded(other, NEW, record.checkpoint, nodes, codes);
      && (ok <==> SizeOf(nodes) + SizeOf(codes) <= other.budget.maxBytes)
      && (ok ==> t.fatal.None? && t.diskNodes == record.nodes && t.diskCodes == record.codes && Mirrored(t))
  {
    var record := Run(cfg, NEW, ops).record.value;
    RunKeeps(cfg, ops);
    ListedAreHashed(cfg.codec, nodes, record.nodes);
    ListedAreHashed(cfg.codec, codes, record.codes);
    LoadedIsListed(nodes, record.nodes);
    LoadedIsListed(codes, record.codes);
  }

  // ----- replay -----------------------------------------------------------------------------------------------

  lemma SubstoreIncluded(c: Codec, small: Store, big: Store)
    requires c.Injective() && ContentAddressed(c, small) && ContentAddressed(c, big) && small.Keys <= big.Keys
    ensures Includes(big, small)
  {
    forall h | h in small
      ensures h in big && big[h] == small[h]
    {
      SameNode(c, small, big, h);
    }
  }

  lemma LookupGrows(c: Codec, small: Store, big: Store, root: Hash, path: Path)
    requires Includes(big, small) && Lookup(c, small, root, path).Ok?
    ensures Lookup(c, big, root, path) == Lookup(c, small, root, path)
  {
    if root != c.emptyRoot {
      VisitedIsPart(c, small, root, path);
      VisitedSuffices(c, small, root, path, big);
    }
  }

  lemma AccountGrows(c: Codec, small: Store, big: Store, root: Hash, a: Address)
    requires Includes(big, small) && ReadAccount(c, small, root, a).Ok?
    ensures ReadAccount(c, big, root, a) == ReadAccount(c, small, root, a)
  {
    LookupGrows(c, small, big, root, c.addressPath(a));
  }

  lemma StorageGrows(c: Codec, small: Store, big: Store, root: Hash, a: Address, k: Slot)
    requires Includes(big, small) && ReadStorage(c, small, root, a, k).Ok?
    ensures ReadStorage(c, big, root, a, k) == ReadStorage(c, small, root, a, k)
  {
    AccountGrows(c, small, big, root, a);
    LookupGrows(c, small, big, StorageRoot(c, ReadAccount(c, small, root, a).value), c.slotPath(k));
  }

  lemma ReadFromDisk(cfg: Config, s: State, root: Hash, a: Address, k: Slot, rpc: Rpc<RpcProof>)
    ensures AccountRead(cfg, s, root, a, rpc).1.Ok? ==>
              AccountRead(cfg, s, root, a, rpc).1.value == ReadAccount(cfg.codec, AccountRead(cfg, s, root, a, rpc).0.diskNodes, root, a).value
              && ReadAccount(cfg.codec, AccountRead(cfg, s, root, a, rpc).0.diskNodes, root, a).Ok?
    ensures StorageRead(cfg, s, root, a, k, rpc).1.Ok? ==>
              ReadStorage(cfg.codec, StorageRead(cfg, s, root, a, k, rpc).0.diskNodes, root, a, k).Ok?
              && StorageRead(cfg, s, root, a, k, rpc).1.value == ReadStorage(cfg.codec, StorageRead(cfg, s, root, a, k, rpc).0.diskNodes, root, a, k).value
  {
  }

  // The disk after the k-th call is in the sealed witness.
  lemma KeptInWitness(cfg: Config, ops: seq<Op>, k: nat)
    requires cfg.Valid() && cfg.codec.Injective() && NoCommit(ops) && k < |ops| && Run(cfg, NEW, ops).record.Some?
    ensures
      var u, record := Run(cfg, NEW, ops[..k + 1]), Run(cfg, NEW, ops).record.value;
      Includes(record.nodes, u.diskNodes) && Includes(record.codes, u.diskCodes)
  {
    var u, s := Run(cfg, NEW, ops[..k + 1]), Run(cfg, NEW, ops);
    RunKeeps(cfg, ops);
    RunKeeps(cfg, ops[..k + 1]);
    RunGrows(cfg, ops, k + 1);
    RunMirrors(cfg, ops);
    SubstoreIncluded(cfg.codec, u.diskNodes, s.diskNodes);
    SubstoreIncluded(cfg.codec, u.diskCodes, s.diskCodes);
  }

  lemma OneCall(cfg: Config, ops: seq<Op>, k: nat)
    requires k < |ops|
    ensures Run(cfg, NEW, ops[..k + 1]) == After(cfg, Run(cfg, NEW, ops[..k]), ops[k])
  {
    assert ops[..k + 1][..k] == ops[..k];
  }

  // Every account a run without commits read before or after it was sealed is read, the same, by a bridge that loaded the
  // sealed witness, without a request and without the source.
  lemma ReplaysAccounts(cfg: Config, ops: seq<Op>, k: nat, other: Config, t: State, rpc: Rpc<RpcProof>)
    requires cfg.Valid() && cfg.codec.Injective() && SameState(cfg, other) && NoCommit(ops) && k < |ops| && ops[k].AccountOp?
    requires Run(cfg, NEW, ops).record.Some? && t.fatal.None? && t.diskNodes == Run(cfg, NEW, ops).record.value.nodes
    ensures
      var r := AccountRead(cfg, Run(cfg, NEW, ops[..k]), ops[k].root, ops[k].a, ops[k].rpc).1;
      r.Ok? ==> AccountRead(other, t, ops[k].root, ops[k].a, rpc) == (t, r)
  {
    var s, op := Run(cfg, NEW, ops[..k]), ops[k];
    if AccountRead(cfg, s, op.root, op.a, op.rpc).1.Ok? {
      OneCall(cfg, ops, k);
      KeptInWitness(cfg, ops, k);
      ReadFromDisk(cfg, s, op.root, op.a, 0, op.rpc);
      AccountGrows(cfg.codec, AccountRead(cfg, s, op.root, op.a, op.rpc).0.diskNodes, t.diskNodes, op.root, op.a);
    }
  }

  lemma ReplaysStorage(cfg: Config, ops: seq<Op>, i: nat, other: Config, t: State, rpc: Rpc<RpcProof>)
    requires cfg.Valid() && cfg.codec.Injective() && SameState(cfg, other) && NoCommit(ops) && i < |ops| && ops[i].StorageOp?
    requires Run(cfg, NEW, ops).record.Some? && t.fatal.None? && t.diskNodes == Run(cfg, NEW, ops).record.value.nodes
    ensures
      var r := StorageRead(cfg, Run(cfg, NEW, ops[..i]), ops[i].root, ops[i].a, ops[i].k, ops[i].rpc).1;
      r.Ok? ==> StorageRead(other, t, ops[i].root, ops[i].a, ops[i].k, rpc) == (t, r)
  {
    var s, op := Run(cfg, NEW, ops[..i]), ops[i];
    if StorageRead(cfg, s, op.root, op.a, op.k, op.rpc).1.Ok? {
      OneCall(cfg, ops, i);
      KeptInWitness(cfg, ops, i);
      ReadFromDisk(cfg, s, op.root, op.a, op.k, op.rpc);
      StorageGrows(cfg.codec, StorageRead(cfg, s, op.root, op.a, op.k, op.rpc).0.diskNodes, t.diskNodes, op.root, op.a, op.k);
    }
  }

  lemma CodeFromDisk(cfg: Config, s: State, root: Hash, a: Address, h: Hash, rpc: Rpc<RpcProof>, codeRpc: Rpc<Bytes>)
    requires CodeRead(cfg, s, root, a, h, rpc, codeRpc).1.Ok? && h != cfg.codec.emptyCode
    ensures
      var (t, r) := CodeRead(cfg, s, root, a, h, rpc, codeRpc);
      h in t.diskCodes && t.diskCodes[h] == r.value && cfg.codec.hash(r.value) == h
  {
  }

  lemma ReplaysCode(cfg: Config, ops: seq<Op>, i: nat, other: Config, t: State, rpc: Rpc<RpcProof>, codeRpc: Rpc<Bytes>)
    requires cfg.Valid() && cfg.codec.Injective() && SameState(cfg, other) && NoCommit(ops) && i < |ops| && ops[i].CodeOp?
    requires Run(cfg, NEW, ops).record.Some? && t.fatal.None? && t.diskCodes == Run(cfg, NEW, ops).record.value.codes
    ensures
      var r := CodeRead(cfg, Run(cfg, NEW, ops[..i]), ops[i].root, ops[i].a, ops[i].h, ops[i].rpc, ops[i].codeRpc).1;
      r.Ok? ==> CodeRead(other, t, ops[i].root, ops[i].a, ops[i].h, rpc, codeRpc) == (t, r)
  {
    var s, op := Run(cfg, NEW, ops[..i]), ops[i];
    if CodeRead(cfg, s, op.root, op.a, op.h, op.rpc, op.codeRpc).1.Ok? && op.h != cfg.codec.emptyCode {
      OneCall(cfg, ops, i);
      KeptInWitness(cfg, ops, i);
      CodeFromDisk(cfg, s, op.root, op.a, op.h, op.rpc, op.codeRpc);
    }
  }

  // ----- a committed state ------------------------------------------------------------------------------------

  // The nodes on the way to an account are on disk or among those a commit writes.
  ghost predicate OnDisk(c: Codec, next: Store, root: Hash, path: Path, disk: Store, dirty: Store) {
    forall h :: h in Visited(c, next, root, path) ==> h in disk || h in dirty
  }

  // After a commit an account of the state it wrote reads as it is there.
  lemma CommittedAccountReads(cfg: Config, ops: seq<Op>, dirty: seq<Bytes>, next: Store, root: Hash, a: Address)
    requires cfg.Valid() && cfg.codec.Injective() && ContentAddressed(cfg.codec, next) && root != cfg.codec.emptyRoot
    requires Committed(cfg, Run(cfg, NEW, ops), Some(dirty)).1 && ReadAccount(cfg.codec, next, root, a).Ok?
    requires OnDisk(cfg.codec, next, root, cfg.codec.addressPath(a), Run(cfg, NEW, ops).diskNodes, ProofStore(cfg.codec, dirty))
    ensures ReadAccount(cfg.codec, Committed(cfg, Run(cfg, NEW, ops), Some(dirty)).0.diskNodes, root, a) ==
            ReadAccount(cfg.codec, next, root, a)
  {
    var c, s := cfg.codec, Run(cfg, NEW, ops);
    var path, disk := c.addressPath(a), Committed(cfg, s, Some(dirty)).0.diskNodes;
    RunKeeps(cfg, ops);
    ProofStoreAddressed(c, dirty);
    SumIncludes(c, s.diskNodes, ProofStore(c, dirty));
    VisitedIsPart(c, next, root, path);
    forall h | h in Visited(c, next, root, path)
      ensures h in disk && disk[h] == Visited(c, next, root, path)[h]
    {
      SameNode(c, disk, next, h);
    }
    VisitedSuffices(c, next, root, path, disk);
  }
}
