// Which answers of a proof source are accepted: exactly those that tell the truth about the complete state.
module PrestateHonest {
  import opened Wrappers
  import opened PrestateTrie
  import opened PrestateBridge
  import opened PrestateRuns

  // The fields an account answers with; an absent one answers as the empty account.
  function FieldsOf(c: Codec, account: Option<StateAccount>): StateAccount {
    if account.Some? then account.value else EmptyAccount(c)
  }

  // The complete state holds the account and every slot asked for.
  predicate Holds(c: Codec, full: Store, root: Hash, a: Address, slots: seq<Slot>) {
    ReadAccount(c, full, root, a).Ok? && forall k :: k in slots ==> ReadStorage(c, full, root, a, k).Ok?
  }

  // Balances are 256-bit numbers.
  ghost predicate Balances(c: Codec) {
    forall raw :: c.accountOf(raw).Some? ==> c.accountOf(raw).value.balance < MAX_BALANCE
  }

  // A storage proof that has the slot's value and, unless there is no storage, the nodes on the way to it.
  ghost predicate HonestSlot(c: Codec, full: Store, storageRoot: Hash, sp: StorageProof, value: nat) {
    && sp.value == Some(value)
    && (storageRoot != c.emptyRoot ==> Includes(ProofStore(c, sp.proof), Visited(c, full, storageRoot, c.slotPath(sp.key))))
  }

  // The slots asked for, each proved once, in any order.
  predicate Covers(slots: seq<Slot>, sps: seq<StorageProof>) {
    && |sps| == |slots|
    && (forall i :: 0 <= i < |sps| ==> sps[i].key in slots)
    && (forall i, j :: 0 <= i < j < |sps| ==> sps[i].key != sps[j].key)
  }

  // An answer about the complete state: its nodes, the fields of its account, the values of its slots. Other nodes may
  // come with them.
  ghost predicate Honest(c: Codec, full: Store, root: Hash, a: Address, slots: seq<Slot>, p: RpcProof)
    requires Holds(c, full, root, a, slots)
  {
    var account := ReadAccount(c, full, root, a).value;
    && p.address == a && MetadataMatches(p, FieldsOf(c, account))
    && Includes(ProofStore(c, p.accountProof), Visited(c, full, root, c.addressPath(a)))
    && HonestSlots(c, full, root, a, slots, p.storageProof)
  }

  ghost predicate HonestSlots(c: Codec, full: Store, root: Hash, a: Address, slots: seq<Slot>, sps: seq<StorageProof>)
    requires Holds(c, full, root, a, slots)
  {
    && Covers(slots, sps)
    && forall i :: 0 <= i < |sps| ==>
         HonestSlot(c, full, StorageRoot(c, ReadAccount(c, full, root, a).value), sps[i], ReadStorage(c, full, root, a, sps[i].key).value)
  }

  // ----- one walk ---------------------------------------------------------------------------------------------

  lemma {:induction false} SameVisited(c: Codec, a: Store, b: Store, root: Hash, path: Path)
    requires c.Injective() && ContentAddressed(c, a) && ContentAddressed(c, b)
    requires Walk(c, a, root, path) != Err(MissingNode) && Walk(c, b, root, path) != Err(MissingNode)
    ensures Visited(c, a, root, path) == Visited(c, b, root, path)
    decreases |path|
  {
    SameNode(c, a, b, root);
    match c.hop(a[root], path) {
      case Child(h, rest) =>
        if |rest| < |path| {
          SameVisited(c, a, b, h, rest);
        }
      case _ =>
    }
  }

  // A list of nodes walks like the complete state exactly when it has the nodes visited there.
  lemma WalksExactly(c: Codec, nodes: seq<Bytes>, full: Store, root: Hash, path: Path)
    requires c.Injective() && ContentAddressed(c, full) && Walk(c, full, root, path).Ok?
    ensures Walk(c, ProofStore(c, nodes), root, path).Ok? <==> Includes(ProofStore(c, nodes), Visited(c, full, root, path))
    ensures Walk(c, ProofStore(c, nodes), root, path).Ok? ==>
              && Walk(c, ProofStore(c, nodes), root, path) == Walk(c, full, root, path)
              && Visited(c, ProofStore(c, nodes), root, path) == Visited(c, full, root, path)
  {
    var db := ProofStore(c, nodes);
    ProofStoreAddressed(c, nodes);
    if Walk(c, db, root, path).Ok? {
      SameVisited(c, db, full, root, path);
      WalksAgree(c, db, full, root, path);
      VisitedIsPart(c, db, root, path);
    } else if Includes(db, Visited(c, full, root, path)) {
      VisitedSuffices(c, full, root, path, db);
    }
  }

  // ----- storage ----------------------------------------------------------------------------------------------

  lemma SlotExactly(c: Codec, full: Store, storageRoot: Hash, sp: StorageProof)
    requires c.Injective() && ContentAddressed(c, full)
    requires Lookup(c, full, storageRoot, c.slotPath(sp.key)).Ok?
    requires DecodeSlot(c, Lookup(c, full, storageRoot, c.slotPath(sp.key)).value).Ok?
    ensures VerifySlot(c, storageRoot, sp).Some? <==>
            HonestSlot(c, full, storageRoot, sp, DecodeSlot(c, Lookup(c, full, storageRoot, c.slotPath(sp.key)).value).value)
  {
    if storageRoot != c.emptyRoot {
      WalksExactly(c, sp.proof, full, storageRoot, c.slotPath(sp.key));
    }
  }

  lemma {:induction false} SlotsExactly(c: Codec, storageRoot: Hash, expected: set<Slot>, sps: seq<StorageProof>, used: Store)
    ensures VerifySlots(c, storageRoot, expected, sps, used).Some? <==>
            && (forall i :: 0 <= i < |sps| ==> sps[i].key in expected && VerifySlot(c, storageRoot, sps[i]).Some?)
            && (forall i, j :: 0 <= i < j < |sps| ==> sps[i].key != sps[j].key)
    decreases |sps|
  {
    if sps != [] && sps[0].key in expected && VerifySlot(c, storageRoot, sps[0]).Some? {
      var rest := sps[1..];
      SlotsExactly(c, storageRoot, expected - {sps[0].key}, rest, used + VerifySlot(c, storageRoot, sps[0]).value);
      assert forall i :: 0 < i < |sps| ==> sps[i] == rest[i - 1];
      assert forall i :: 0 <= i < |rest| ==> rest[i] == sps[i + 1];
    }
  }

  // ----- a whole proof ----------------------------------------------------------------------------------------

  lemma SlotsAccepted(c: Codec, full: Store, root: Hash, a: Address, slots: seq<Slot>, sps: seq<StorageProof>, used: Store)
    requires c.Injective() && ContentAddressed(c, full) && Holds(c, full, root, a, slots)
    ensures
      var storageRoot := StorageRoot(c, ReadAccount(c, full, root, a).value);
      |sps| == |slots| && VerifySlots(c, storageRoot, Members(slots), sps, used).Some? <==> HonestSlots(c, full, root, a, slots, sps)
  {
    var storageRoot := StorageRoot(c, ReadAccount(c, full, root, a).value);
    SlotsExactly(c, storageRoot, Members(slots), sps, used);
    forall i | 0 <= i < |sps| && sps[i].key in slots
      ensures VerifySlot(c, storageRoot, sps[i]).Some? <==>
              HonestSlot(c, full, storageRoot, sps[i], ReadStorage(c, full, root, a, sps[i].key).value)
    {
      SlotExactly(c, full, storageRoot, sps[i]);
    }
  }

  // A proof is accepted if and only if it is honest, whichever complete state it is held against.
  lemma AcceptedExactly(c: Codec, full: Store, root: Hash, a: Address, slots: seq<Slot>, p: RpcProof)
    requires c.Injective() && Balances(c) && root != c.emptyRoot && ContentAddressed(c, full)
    requires Holds(c, full, root, a, slots) && Unique(slots)
    ensures VerifyProof(c, root, a, slots, p).Some? <==> Honest(c, full, root, a, slots, p)
  {
    var path, db := c.addressPath(a), ProofStore(c, p.accountProof);
    var fields := FieldsOf(c, ReadAccount(c, full, root, a).value);
    WalksExactly(c, p.accountProof, full, root, path);
    SlotsAccepted(c, full, root, a, slots, p.storageProof, Visited(c, db, root, path));
    assert fields.balance < MAX_BALANCE;
  }

  // ----- an honest source answers -----------------------------------------------------------------------------

  // The request may be made and its answer paid for, in time.
  predicate Room<A>(cfg: Config, s: State, rpc: Rpc<A>, size: nat) {
    && !s.isSealed && s.requests < cfg.budget.maxRequests
    && rpc.requestedAt <= cfg.budget.expiresAt && rpc.answeredAt <= cfg.budget.expiresAt && !rpc.late && rpc.answer.Answer?
    && size <= cfg.budget.maxResponseBytes && s.bytes + size <= cfg.budget.maxBytes
  }

  predicate ProofRoom(cfg: Config, s: State, rpc: Rpc<RpcProof>) {
    rpc.answer.Answer? && Room(cfg, s, rpc, rpc.answer.size)
  }

  // A running bridge hydrates exactly when there is room for the exchange and its proof is accepted.
  lemma HydratesExactly(cfg: Config, s: State, a: Address, slots: seq<Slot>, rpc: Rpc<RpcProof>)
    requires s.fatal.None?
    ensures Hydrated(cfg, s, a, slots, rpc).1 <==>
            ProofRoom(cfg, s, rpc) && VerifyProof(cfg.codec, cfg.checkpoint.stateRoot, a, slots, rpc.answer.value).Some?
  {
  }

  ghost predicate Faithful(cfg: Config, full: Store, a: Address, slots: seq<Slot>, rpc: Rpc<RpcProof>) {
    && Holds(cfg.codec, full, cfg.checkpoint.stateRoot, a, slots)
    && (rpc.answer.Answer? ==> Honest(cfg.codec, full, cfg.checkpoint.stateRoot, a, slots, rpc.answer.value))
  }

  // Served by an honest source, after any calls, a running bridge reads an account exactly when its nodes are there or
  // there is room for one exchange; then it gives what the complete state holds, absence included, and does not stop.
  lemma HonestSourceAnswersAccount(cfg: Config, ops: seq<Op>, a: Address, rpc: Rpc<RpcProof>, full: Store)
    requires cfg.Valid() && cfg.codec.Injective() && Balances(cfg.codec) && cfg.checkpoint.stateRoot != cfg.codec.emptyRoot
    requires ContentAddressed(cfg.codec, full) && Faithful(cfg, full, a, [], rpc) && Run(cfg, NEW, ops).fatal.None?
    ensures
      var s, root := Run(cfg, NEW, ops), cfg.checkpoint.stateRoot;
      var (t, r) := AccountRead(cfg, s, root, a, rpc);
      && (r.Ok? <==> ReadAccount(cfg.codec, s.diskNodes, root, a).Ok? || ProofRoom(cfg, s, rpc))
      && (r.Ok? ==> r == Ok(ReadAccount(cfg.codec, full, root, a).value) && t.fatal.None?)
  {
    var s, root := Run(cfg, NEW, ops), cfg.checkpoint.stateRoot;
    RunKeeps(cfg, ops);
    HydrationAnswersAccount(cfg, ops, a, rpc);
    HydratesExactly(cfg, s, a, [], rpc);
    if rpc.answer.Answer? {
      AcceptedExactly(cfg.codec, full, root, a, [], rpc.answer.value);
    }
    AccountAgrees(cfg, ops, root, a, rpc, full);
    AccountKeeps(cfg, s, root, a, rpc);
  }

  // The same for one storage slot.
  lemma HonestSourceAnswersStorage(cfg: Config, ops: seq<Op>, a: Address, k: Slot, rpc: Rpc<RpcProof>, full: Store)
    requires cfg.Valid() && cfg.codec.Injective() && Balances(cfg.codec) && cfg.checkpoint.stateRoot != cfg.codec.emptyRoot
    requires ContentAddressed(cfg.codec, full) && Faithful(cfg, full, a, [k], rpc) && Run(cfg, NEW, ops).fatal.None?
    ensures
      var s, root := Run(cfg, NEW, ops), cfg.checkpoint.stateRoot;
      var (t, r) := StorageRead(cfg, s, root, a, k, rpc);
      && (r.Ok? <==> ReadStorage(cfg.codec, s.diskNodes, root, a, k).Ok? || ProofRoom(cfg, s, rpc))
      && (r.Ok? ==> r == Ok(ReadStorage(cfg.codec, full, root, a, k).value) && t.fatal.None?)
  {
    var s, root := Run(cfg, NEW, ops), cfg.checkpoint.stateRoot;
    RunKeeps(cfg, ops);
    HydrationAnswersStorage(cfg, ops, a, k, rpc);
    HydratesExactly(cfg, s, a, [k], rpc);
    if rpc.answer.Answer? {
      AcceptedExactly(cfg.codec, full, root, a, [k], rpc.answer.value);
    }
    AnsweredRuns(cfg, s, a, k, rpc);
    assert k in [k];
    StorageAgrees(cfg, ops, root, a, k, rpc, full);
  }

  lemma AnsweredRuns(cfg: Config, s: State, a: Address, k: Slot, rpc: Rpc<RpcProof>)
    requires Inv(cfg, s) && cfg.codec.Injective()
    ensures StorageRead(cfg, s, cfg.checkpoint.stateRoot, a, k, rpc).1.Ok? ==>
            StorageRead(cfg, s, cfg.checkpoint.stateRoot, a, k, rpc).0.fatal.None?
  {
    HydrateKeeps(cfg, s, a, [k], rpc);
  }

  // ----- there are honest answers -----------------------------------------------------------------------------

  // The nodes a walk fetches, in order.
  function NodesOf(c: Codec, store: Store, root: Hash, path: Path): seq<Bytes>
    decreases |path|
  {
    if root !in store then []
    else
      match c.hop(store[root], path)
      case Child(h, rest) => if |rest| < |path| then NodesOf(c, store, h, rest) + [store[root]] else [store[root]]
      case _ => [store[root]]
  }

  lemma {:induction false} NodesAreVisited(c: Codec, store: Store, root: Hash, path: Path)
    requires ContentAddressed(c, store)
    ensures ProofStore(c, NodesOf(c, store, root, path)) == Visited(c, store, root, path)
    decreases |path|
  {
    if root in store {
      var nodes := NodesOf(c, store, root, path);
      assert nodes[|nodes| - 1] == store[root] && c.hash(store[root]) == root;
      match c.hop(store[root], path) {
        case Child(h, rest) =>
          if |rest| < |path| {
            NodesAreVisited(c, store, h, rest);
            assert nodes[..|nodes| - 1] == NodesOf(c, store, h, rest);
          }
        case _ =>
      }
    }
  }

  function SlotAnswer(c: Codec, full: Store, root: Hash, a: Address, k: Slot): StorageProof
    requires ReadStorage(c, full, root, a, k).Ok?
  {
    StorageProof(k, Some(ReadStorage(c, full, root, a, k).value),
                 NodesOf(c, full, StorageRoot(c, ReadAccount(c, full, root, a).value), c.slotPath(k)))
  }

  // What a complete state answers.
  function AnswerOf(c: Codec, full: Store, root: Hash, a: Address, slots: seq<Slot>): RpcProof
    requires Holds(c, full, root, a, slots)
  {
    var fields := FieldsOf(c, ReadAccount(c, full, root, a).value);
    RpcProof(a, NodesOf(c, full, root, c.addressPath(a)), Some(fields.balance), fields.nonce, fields.codeHash, fields.storageRoot,
             seq(|slots|, (i: int) requires 0 <= i < |slots| => assert slots[i] in slots; SlotAnswer(c, full, root, a, slots[i])))
  }

  // Every complete state has an honest answer to every question without a repeated slot, so every such question is
  // answered with what the state holds.
  lemma AnswerIsHonest(c: Codec, full: Store, root: Hash, a: Address, slots: seq<Slot>)
    requires ContentAddressed(c, full) && Holds(c, full, root, a, slots) && Unique(slots)
    ensures Honest(c, full, root, a, slots, AnswerOf(c, full, root, a, slots))
  {
    var p, account := AnswerOf(c, full, root, a, slots), ReadAccount(c, full, root, a).value;
    NodesAreVisited(c, full, root, c.addressPath(a));
    forall i | 0 <= i < |p.storageProof|
      ensures p.storageProof[i].key == slots[i] && p.storageProof[i].key in slots
      ensures HonestSlot(c, full, StorageRoot(c, account), p.storageProof[i], ReadStorage(c, full, root, a, p.storageProof[i].key).value)
    {
      NodesAreVisited(c, full, StorageRoot(c, account), c.slotPath(slots[i]));
    }
  }

  // The same for code: an honest source answers with the preimage of the hash, which the account must bind.
  lemma HonestSourceAnswersCode(cfg: Config, ops: seq<Op>, a: Address, rpc: Rpc<RpcProof>, codeRpc: Rpc<Bytes>, full: Store)
    requires cfg.Valid() && cfg.codec.Injective() && Balances(cfg.codec) && cfg.checkpoint.stateRoot != cfg.codec.emptyRoot
    requires ContentAddressed(cfg.codec, full) && Faithful(cfg, full, a, [], rpc) && Run(cfg, NEW, ops).fatal.None?
    requires ReadAccount(cfg.codec, full, cfg.checkpoint.stateRoot, a).value.Some?
    requires
      var h := ReadAccount(cfg.codec, full, cfg.checkpoint.stateRoot, a).value.value.codeHash;
      codeRpc.answer.Answer? ==> cfg.codec.hash(codeRpc.answer.value) == h
    ensures
      var s, root := Run(cfg, NEW, ops), cfg.checkpoint.stateRoot;
      var h := ReadAccount(cfg.codec, full, root, a).value.value.codeHash;
      var t, (u, account) := CodeRead(cfg, s, root, a, h, rpc, codeRpc), AccountRead(cfg, s, root, a, rpc);
      && (t.1.Ok? <==> h == cfg.codec.emptyCode || h in s.diskCodes || (account.Ok? && CodeRoom(cfg, u, codeRpc)))
      && (t.1.Ok? && h != cfg.codec.emptyCode ==> cfg.codec.hash(t.1.value) == h)
      && (t.1.Ok? ==> t.0.fatal.None?)
  {
    var s, root := Run(cfg, NEW, ops), cfg.checkpoint.stateRoot;
    var h := ReadAccount(cfg.codec, full, root, a).value.value.codeHash;
    RunKeeps(cfg, ops);
    HonestSourceAnswersAccount(cfg, ops, a, rpc, full);
    var u := AccountRead(cfg, s, root, a, rpc).0;
    if u.fatal.None? {
      FetchesExactly(cfg, u, a, h, codeRpc);
    }
  }

  predicate CodeRoom(cfg: Config, s: State, rpc: Rpc<Bytes>) {
    rpc.answer.Answer? && Room(cfg, s, rpc, |rpc.answer.value|)
  }

  // A running bridge fetches code exactly when there is room for the exchange and the code has the hash.
  lemma FetchesExactly(cfg: Config, s: State, a: Address, h: Hash, rpc: Rpc<Bytes>)
    requires s.fatal.None?
    ensures
      var (t, r) := CodeFetched(cfg, s, a, h, rpc);
      && (r.Ok? <==> CodeRoom(cfg, s, rpc) && cfg.codec.hash(rpc.answer.value) == h)
      && (r.Ok? ==> r.value == rpc.answer.value && t.fatal.None? && h in t.diskCodes && t.diskCodes[h] == r.value)
  {
  }
}
