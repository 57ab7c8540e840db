// The hydrating witness bridge: a budgeted, latching, sealable read-through cache over the trie nodes of one checkpoint.
// Clocks, the proof and code source and the state database are parameters of each call.
module PrestateBridge {
  import opened Wrappers
  import opened PrestateTrie

  datatype Checkpoint = Checkpoint(chainId: nat, blockNumber: nat, blockHash: Hash, stateRoot: Hash)

  datatype Budget = Budget(maxRequests: int, maxBytes: int, maxResponseBytes: int, expiresAt: int)

  datatype Config = Config(codec: Codec, checkpoint: Checkpoint, budget: Budget) {
    predicate Valid() {
      && checkpoint.chainId == 4663 && checkpoint.stateRoot != 0 && checkpoint.blockHash != 0
      && budget.maxRequests > 0 && budget.maxBytes > 0 && budget.maxResponseBytes > 0 && budget.expiresAt != 0
    }
  }

  datatype StopCode =
    | WitnessSealed | WindowExpired | RequestBudget | ByteBudget
    | ProofSourceUnavailable | RpcDeadline | ProofAuthentication
    | AccountPreimage | StoragePreimage | CodeBinding | CodeSourceUnavailable | CodeHashMismatch
    | StateOpenFailure | StateNotOpen | TrieUpdate
    | InitialBinding | InitialHash | InitialBytes
    | OtherStop(detail: string)

  datatype Kind = GetProof | GetCode

  datatype Attempt = Attempt(index: nat, kind: Kind, address: Address, slots: seq<Slot>, context: Checkpoint)

  datatype Witness = Witness(checkpoint: Checkpoint, nodes: Store, codes: Store, attempts: seq<Attempt>)

  datatype State = State(
    fatal: Option<StopCode>,
    isSealed: bool,
    live: bool,
    requests: nat,
    bytes: nat,
    attempts: seq<Attempt>,
    nodes: Store,
    codes: Store,
    diskNodes: Store,
    diskCodes: Store,
    record: Option<Witness>)  // what Seal returned

  const NEW: State := State(None, false, false, 0, 0, [], map[], map[], map[], map[], None)

  // One exchange with the source: the clock at the request, whether its deadline passed, the clock at the response.
  datatype Rpc<A> = Rpc(requestedAt: int, answer: RpcAnswer<A>, late: bool, answeredAt: int)

  datatype RpcAnswer<A> = NoSource | Failed | Answer(value: A, size: nat)

  // ----- steps ------------------------------------------------------------------------------------------------

  function Stopped(s: State, code: StopCode): State {
    if s.fatal.None? then s.(fatal := Some(code)) else s
  }

  // A step that may stop: the state, and whether it went through.
  type Step = (State, bool)

  function Requested(cfg: Config, s: State, kind: Kind, a: Address, slots: seq<Slot>, now: int): Step {
    if s.fatal.Some? then (s, false)
    else if s.isSealed then (Stopped(s, WitnessSealed), false)
    else if now > cfg.budget.expiresAt then (Stopped(s, WindowExpired), false)
    else if s.requests >= cfg.budget.maxRequests then (Stopped(s, RequestBudget), false)
    else
      var index := s.requests + 1;
      (s.(requests := index, attempts := s.attempts + [Attempt(index, kind, a, slots, cfg.checkpoint)]), true)
  }

  function Responded(cfg: Config, s: State, size: nat, now: int): Step {
    if now > cfg.budget.expiresAt then (Stopped(s, WindowExpired), false)
    else if size > cfg.budget.maxResponseBytes || s.bytes + size > cfg.budget.maxBytes then (Stopped(s, ByteBudget), false)
    else (s.(bytes := s.bytes + size), true)
  }

  function Hydrated(cfg: Config, s: State, a: Address, slots: seq<Slot>, rpc: Rpc<RpcProof>): Step {
    var (s1, asked) := Requested(cfg, s, GetProof, a, slots, rpc.requestedAt);
    if !asked then (s1, false)
    else if !rpc.answer.Answer? then (Stopped(s1, ProofSourceUnavailable), false)
    else if rpc.late then (Stopped(s1, RpcDeadline), false)
    else
      var (s2, paid) := Responded(cfg, s1, rpc.answer.size, rpc.answeredAt);
      if !paid then (s2, false)
      else
        match VerifyProof(cfg.codec, cfg.checkpoint.stateRoot, a, slots, rpc.answer.value)
        case None => (Stopped(s2, ProofAuthentication), false)
        case Some(used) => (s2.(nodes := s2.nodes + used, diskNodes := s2.diskNodes + used), true)
  }

  // The fatal stop of a state that has one.
  function FatalOf(s: State): StopCode {
    if s.fatal.Some? then s.fatal.value else OtherStop("")
  }

  // A read at the root its reader was made for: the checkpoint's, or one that was committed. Hydration proves against the
  // checkpoint's.
  function AccountRead(cfg: Config, s: State, root: Hash, a: Address, rpc: Rpc<RpcProof>): (State, Result<Option<StateAccount>, StopCode>) {
    if s.fatal.Some? then (s, Err(s.fatal.value))
    else
      var first := ReadAccount(cfg.codec, s.diskNodes, root, a);
      if first.Ok? then (s, Ok(first.value))
      else
        var (s1, hydrated) := Hydrated(cfg, s, a, [], rpc);
        if !hydrated then (s1, Err(FatalOf(s1)))
        else
          var again := ReadAccount(cfg.codec, s1.diskNodes, root, a);
          if again.Ok? then (s1, Ok(again.value)) else (Stopped(s1, AccountPreimage), Err(FatalOf(Stopped(s1, AccountPreimage))))
  }

  function StorageRead(cfg: Config, s: State, root: Hash, a: Address, k: Slot, rpc: Rpc<RpcProof>): (State, Result<nat, StopCode>) {
    if s.fatal.Some? then (s, Err(s.fatal.value))
    else
      var first := ReadStorage(cfg.codec, s.diskNodes, root, a, k);
      if first.Ok? then (s, Ok(first.value))
      else
        var (s1, hydrated) := Hydrated(cfg, s, a, [k], rpc);
        if !hydrated then (s1, Err(FatalOf(s1)))
        else
          var again := ReadStorage(cfg.codec, s1.diskNodes, root, a, k);
          if again.Ok? then (s1, Ok(again.value)) else (Stopped(s1, StoragePreimage), Err(FatalOf(Stopped(s1, StoragePreimage))))
  }

  function CodeFetched(cfg: Config, s: State, a: Address, h: Hash, rpc: Rpc<Bytes>): (State, Result<Bytes, StopCode>) {
    var (s1, asked) := Requested(cfg, s, GetCode, a, [], rpc.requestedAt);
    if !asked then (s1, Err(FatalOf(s1)))
    else if !rpc.answer.Answer? then (Stopped(s1, CodeSourceUnavailable), Err(FatalOf(Stopped(s1, CodeSourceUnavailable))))
    else if rpc.late then (Stopped(s1, RpcDeadline), Err(FatalOf(Stopped(s1, RpcDeadline))))
    else
      var code := rpc.answer.value;
      var (s2, paid) := Responded(cfg, s1, |code|, rpc.answeredAt);
      if !paid then (s2, Err(FatalOf(s2)))
      else if cfg.codec.hash(code) != h then (Stopped(s2, CodeHashMismatch), Err(FatalOf(Stopped(s2, CodeHashMismatch))))
      else (s2.(codes := s2.codes[h := code], diskCodes := s2.diskCodes[h := code]), Ok(code))
  }

  // The code of an account by its hash; the empty hash has no code.
  function CodeRead(cfg: Config, s: State, root: Hash, a: Address, h: Hash, rpc: Rpc<RpcProof>, codeRpc: Rpc<Bytes>)
    : (State, Result<Bytes, StopCode>)
  {
    if s.fatal.Some? then (s, Err(s.fatal.value))
    else if h == cfg.codec.emptyCode then (s, Ok([]))
    else if h in s.diskCodes && cfg.codec.hash(s.diskCodes[h]) == h then (s, Ok(s.diskCodes[h]))
    else
      var (s1, account) := AccountRead(cfg, s, root, a, rpc);
      if account.Err? then (s1, Err(account.error))
      else if account.value.None? || account.value.value.codeHash != h then
        (Stopped(s1, CodeBinding), Err(FatalOf(Stopped(s1, CodeBinding))))
      else CodeFetched(cfg, s1, a, h, codeRpc)
  }

  function StateOpened(s: State, opens: bool): Step {
    if s.fatal.Some? then (s, false)
    else if s.live then (s, true)
    else if !opens then (Stopped(s, StateOpenFailure), false)
    else (s.(live := true), true)
  }

  type Preimages = seq<(Hash, Bytes)>

  predicate AllHashed(c: Codec, entries: Preimages) {
    forall i :: 0 <= i < |entries| ==> c.hash(entries[i].1) == entries[i].0
  }

  function SizeOf(entries: Preimages): nat {
    if entries == [] then 0 else SizeOf(entries[..|entries| - 1]) + |entries[|entries| - 1].1|
  }

  function Added(store: Store, entries: Preimages): Store {
    if entries == [] then store
    else Added(store, entries[..|entries| - 1])[entries[|entries| - 1].0 := entries[|entries| - 1].1]
  }

  function WitnessLoaded(cfg: Config, s: State, c: Checkpoint, nodes: Preimages, codes: Preimages): Step {
    if s.fatal.Some? then (s, false)
    else if c != cfg.checkpoint || s.live || s.isSealed then (Stopped(s, InitialBinding), false)
    else if !(AllHashed(cfg.codec, nodes) && AllHashed(cfg.codec, codes)) then (Stopped(s, InitialHash), false)
    else if SizeOf(nodes) + SizeOf(codes) > cfg.budget.maxBytes - s.bytes then (Stopped(s, InitialBytes), false)
    else
      (s.(nodes := Added(s.nodes, nodes), diskNodes := Added(s.diskNodes, nodes),
          codes := Added(s.codes, codes), diskCodes := Added(s.diskCodes, codes),
          bytes := s.bytes + SizeOf(nodes) + SizeOf(codes)), true)
  }

  // Committing the live state writes the nodes it changed; the database reports a failure as None.
  function Committed(cfg: Config, s: State, dirty: Option<seq<Bytes>>): Step {
    if s.fatal.Some? then (s, false)
    else if !s.live then (Stopped(s, StateNotOpen), false)
    else if dirty.None? then (Stopped(s, TrieUpdate), false)
    else (s.(diskNodes := s.diskNodes + ProofStore(cfg.codec, dirty.value)), true)
  }

  function WitnessOf(cfg: Config, s: State): Witness {
    Witness(cfg.checkpoint, s.nodes, s.codes, s.attempts)
  }

  function SealedUp(cfg: Config, s: State): Step {
    if s.fatal.Some? then (s, false)
    else if s.isSealed then (Stopped(s, WitnessSealed), false)
    else (s.(isSealed := true, record := Some(WitnessOf(cfg, s))), true)
  }

  lemma KeepOne(store: Store, used: Store, h: Hash)
    requires h in used
    ensures store[h := used[h]] + used == store + used
  {
  }

  // ----- the bridge -------------------------------------------------------------------------------------------

  class Bridge {
    const cfg: Config
    var fatal: Option<StopCode>
    var isSealed: bool
    var live: bool
    var requests: nat
    var bytes: nat
    var attempts: seq<Attempt>
    var nodes: Store
    var codes: Store
    var diskNodes: Store
    var diskCodes: Store
    var record: Option<Witness>

    function View(): State
      reads this
    {
      State(fatal, isSealed, live, requests, bytes, attempts, nodes, codes, diskNodes, diskCodes, record)
    }

    constructor (cfg: Config)
      requires cfg.Valid()
      ensures this.cfg == cfg && View() == NEW
    {
      this.cfg := cfg;
      fatal, isSealed, live, requests, bytes, attempts := None, false, false, 0, 0, [];
      nodes, codes, diskNodes, diskCodes, record := map[], map[], map[], map[], None;
    }

    method Stop(code: StopCode)
      modifies this
      ensures View() == Stopped(old(View()), code)
    {
      if fatal.None? {
        fatal := Some(code);
      }
    }

    method Request(kind: Kind, a: Address, slots: seq<Slot>, now: int) returns (ok: bool)
      modifies this
      ensures (View(), ok) == Requested(cfg, old(View()), kind, a, slots, now)
    {
      if fatal.Some? {
        return false;
      }
      if isSealed {
        Stop(WitnessSealed);
        return false;
      }
      if now > cfg.budget.expiresAt {
        Stop(WindowExpired);
        return false;
      }
      if requests >= cfg.budget.maxRequests {
        Stop(RequestBudget);
        return false;
      }
      requests := requests + 1;
      attempts := attempts + [Attempt(requests, kind, a, slots, cfg.checkpoint)];
      return true;
    }

    method Response(size: nat, now: int) returns (ok: bool)
      modifies this
      ensures (View(), ok) == Responded(cfg, old(View()), size, now)
    {
      if now > cfg.budget.expiresAt {
        Stop(WindowExpired);
        return false;
      }
      if size > cfg.budget.maxResponseBytes || bytes + size > cfg.budget.maxBytes {
        Stop(ByteBudget);
        return false;
      }
      bytes := bytes + size;
      return true;
    }

    // Writes each proved node to the witness and to the disk.
    method Keep(used: Store)
      modifies this
      ensures View() == old(View()).(nodes := old(nodes) + used, diskNodes := old(diskNodes) + used)
    {
      var pending := used.Keys;
      ghost var nodes0, disk0 := nodes, diskNodes;
      while pending != {}
        invariant View() == old(View()).(nodes := nodes, diskNodes := diskNodes) && pending <= used.Keys
        invariant nodes + used == nodes0 + used && diskNodes + used == disk0 + used
        invariant forall h :: h in used && h !in pending ==> h in nodes && nodes[h] == used[h] && h in diskNodes && diskNodes[h] == used[h]
        decreases pending
      {
        var h :| h in pending;
        KeepOne(nodes, used, h);
        KeepOne(diskNodes, used, h);
        nodes := nodes[h := used[h]];
        diskNodes := diskNodes[h := used[h]];
        pending := pending - {h};
      }
      assert nodes == nodes + used && diskNodes == diskNodes + used;
    }

    method Hydrate(a: Address, slots: seq<Slot>, rpc: Rpc<RpcProof>) returns (ok: bool)
      modifies this
      ensures (View(), ok) == Hydrated(cfg, old(View()), a, slots, rpc)
    {
      var asked := Request(GetProof, a, slots, rpc.requestedAt);
      if !asked {
        return false;
      }
      if !rpc.answer.Answer? {
        Stop(ProofSourceUnavailable);
        return false;
      }
      if rpc.late {
        Stop(RpcDeadline);
        return false;
      }
      var paid := Response(rpc.answer.size, rpc.answeredAt);
      if !paid {
        return false;
      }
      var used := VerifyProof(cfg.codec, cfg.checkpoint.stateRoot, a, slots, rpc.answer.value);
      if used.None? {
        Stop(ProofAuthentication);
        return false;
      }
      Keep(used.value);
      return true;
    }

    method Account(root: Hash, a: Address, rpc: Rpc<RpcProof>) returns (r: Result<Option<StateAccount>, StopCode>)
      modifies this
      ensures (View(), r) == AccountRead(cfg, old(View()), root, a, rpc)
    {
      if fatal.Some? {
        return Err(fatal.value);
      }
      var account := ReadAccount(cfg.codec, diskNodes, root, a);
      if account.Err? {
        var hydrated := Hydrate(a, [], rpc);
        if !hydrated {
          return Err(FatalOf(View()));
        }
        account := ReadAccount(cfg.codec, diskNodes, root, a);
      }
      if account.Err? {
        Stop(AccountPreimage);
        return Err(FatalOf(View()));
      }
      return Ok(account.value);
    }

    method Storage(root: Hash, a: Address, k: Slot, rpc: Rpc<RpcProof>) returns (r: Result<nat, StopCode>)
      modifies this
      ensures (View(), r) == StorageRead(cfg, old(View()), root, a, k, rpc)
    {
      if fatal.Some? {
        return Err(fatal.value);
      }
      var value := ReadStorage(cfg.codec, diskNodes, root, a, k);
      if value.Err? {
        var hydrated := Hydrate(a, [k], rpc);
        if !hydrated {
          return Err(FatalOf(View()));
        }
        value := ReadStorage(cfg.codec, diskNodes, root, a, k);
      }
      if value.Err? {
        Stop(StoragePreimage);
        return Err(FatalOf(View()));
      }
      return Ok(value.value);
    }

    method Code(root: Hash, a: Address, h: Hash, rpc: Rpc<RpcProof>, codeRpc: Rpc<Bytes>) returns (r: Result<Bytes, StopCode>)
      modifies this
      ensures (View(), r) == CodeRead(cfg, old(View()), root, a, h, rpc, codeRpc)
    {
      if fatal.Some? {
        return Err(fatal.value);
      }
      if h == cfg.codec.emptyCode {
        return Ok([]);
      }
      if h in diskCodes && cfg.codec.hash(diskCodes[h]) == h {
        return Ok(diskCodes[h]);
      }
      var account := Account(root, a, rpc);
      if account.Err? {
        return Err(account.error);
      }
      if account.value.None? || account.value.value.codeHash != h {
        Stop(CodeBinding);
        return Err(FatalOf(View()));
      }
      r := FetchCode(a, h, codeRpc);
    }

    method FetchCode(a: Address, h: Hash, rpc: Rpc<Bytes>) returns (r: Result<Bytes, StopCode>)
      modifies this
      ensures (View(), r) == CodeFetched(cfg, old(View()), a, h, rpc)
    {
      var asked := Request(GetCode, a, [], rpc.requestedAt);
      if !asked {
        return Err(FatalOf(View()));
      }
      if !rpc.answer.Answer? {
        Stop(CodeSourceUnavailable);
        return Err(FatalOf(View()));
      }
      if rpc.late {
        Stop(RpcDeadline);
        return Err(FatalOf(View()));
      }
      var code := rpc.answer.value;
      var paid := Response(|code|, rpc.answeredAt);
      if !paid {
        return Err(FatalOf(View()));
      }
      if cfg.codec.hash(code) != h {
        Stop(CodeHashMismatch);
        return Err(FatalOf(View()));
      }
      codes := codes[h := code];
      diskCodes := diskCodes[h := code];
      return Ok(code);
    }

    method OpenState(opens: bool) returns (ok: bool)
      modifies this
      ensures (View(), ok) == StateOpened(old(View()), opens)
    {
      if fatal.Some? {
        return false;
      }
      if live {
        return true;
      }
      if !opens {
        Stop(StateOpenFailure);
        return false;
      }
      live := true;
      return true;
    }

    // Sizes and hashes of one set of preimages.
    method Weigh(entries: Preimages) returns (size: nat, hashed: bool)
      ensures hashed <==> AllHashed(cfg.codec, entries)
      ensures hashed ==> size == SizeOf(entries)
    {
      size, hashed := 0, true;
      assert entries[..0] == [];
      for i := 0 to |entries|
        invariant size == SizeOf(entries[..i]) && AllHashed(cfg.codec, entries[..i])
      {
        assert entries[..i + 1][..i] == entries[..i];
        size := size + |entries[i].1|;
        if cfg.codec.hash(entries[i].1) != entries[i].0 {
          return size, false;
        }
      }
      assert entries[..|entries|] == entries;
    }

    method AddNodes(entries: Preimages)
      modifies this
      ensures View() == old(View()).(nodes := Added(old(nodes), entries), diskNodes := Added(old(diskNodes), entries))
    {
      ghost var nodes0, disk0 := nodes, diskNodes;
      assert entries[..0] == [];
      for i := 0 to |entries|
        invariant View() == old(View()).(nodes := Added(nodes0, entries[..i]), diskNodes := Added(disk0, entries[..i]))
      {
        assert entries[..i + 1][..i] == entries[..i];
        nodes := nodes[entries[i].0 := entries[i].1];
        diskNodes := diskNodes[entries[i].0 := entries[i].1];
      }
      assert entries[..|entries|] == entries;
    }

    method AddCodes(entries: Preimages)
      modifies this
      ensures View() == old(View()).(codes := Added(old(codes), entries), diskCodes := Added(old(diskCodes), entries))
    {
      ghost var codes0, disk0 := codes, diskCodes;
      assert entries[..0] == [];
      for i := 0 to |entries|
        invariant View() == old(View()).(codes := Added(codes0, entries[..i]), diskCodes := Added(disk0, entries[..i]))
      {
        assert entries[..i + 1][..i] == entries[..i];
        codes := codes[entries[i].0 := entries[i].1];
        diskCodes := diskCodes[entries[i].0 := entries[i].1];
      }
      assert entries[..|entries|] == entries;
    }

    method LoadWitness(c: Checkpoint, nodes: Preimages, codes: Preimages) returns (ok: bool)
      modifies this
      ensures (View(), ok) == WitnessLoaded(cfg, old(View()), c, nodes, codes)
    {
      if fatal.Some? {
        return false;
      }
      if c != cfg.checkpoint || live || isSealed {
        Stop(InitialBinding);
        return false;
      }
      var nodeSize, nodesHashed := Weigh(nodes);
      var codeSize, codesHashed := Weigh(codes);
      if !nodesHashed || !codesHashed {
        Stop(InitialHash);
        return false;
      }
      if nodeSize + codeSize > cfg.budget.maxBytes - bytes {
        Stop(InitialBytes);
        return false;
      }
      AddNodes(nodes);
      AddCodes(codes);
      bytes := bytes + nodeSize + codeSize;
      return true;
    }

    method Commit(dirty: Option<seq<Bytes>>) returns (ok: bool)
      modifies this
      ensures (View(), ok) == Committed(cfg, old(View()), dirty)
    {
      if fatal.Some? {
        return false;
      }
      if !live {
        Stop(StateNotOpen);
        return false;
      }
      if dirty.None? {
        Stop(TrieUpdate);
        return false;
      }
      diskNodes := diskNodes + ProofStore(cfg.codec, dirty.value);
      return true;
    }

    method Seal() returns (ok: bool)
      modifies this
      ensures (View(), ok) == SealedUp(cfg, old(View()))
    {
      if fatal.Some? {
        return false;
      }
      if isSealed {
        Stop(WitnessSealed);
        return false;
      }
      record := Some(Witness(cfg.checkpoint, nodes, codes, attempts));
      isSealed := true;
      return true;
    }
  }
}
