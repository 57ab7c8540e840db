// Reading a state through trie nodes of which only some are present.
module PrestateTrie {
  import opened Wrappers

  type Bytes = seq<nat>
  type Hash = nat
  type Address = nat
  type Slot = nat
  type Path = seq<nat>
  type Store = map<Hash, Bytes>

  datatype StateAccount = StateAccount(nonce: nat, balance: nat, storageRoot: Hash, codeHash: Hash)

  // One node seen from a path: a value, nothing below, another node to follow, or bytes that are no node.
  datatype Hop = Leaf(value: Bytes) | Nothing | Child(hash: Hash, rest: Path) | NotANode

  // The node encoding, the hash and the key derivation are parameters; the hash is taken to be injective.
  datatype Codec = Codec(
    hash: Bytes -> Hash,
    hop: (Bytes, Path) -> Hop,
    accountOf: Bytes -> Option<StateAccount>,
    slotOf: Bytes -> Option<nat>,
    addressPath: Address -> Path,
    slotPath: Slot -> Path,
    emptyRoot: Hash,
    emptyCode: Hash)
  {
    ghost predicate Injective() {
      forall a, b :: hash(a) == hash(b) ==> a == b
    }
  }

  datatype ReadError = MissingNode | Malformed

  // Every entry is stored under its own hash.
  ghost predicate ContentAddressed(c: Codec, store: Store) {
    forall h :: h in store ==> c.hash(store[h]) == h
  }

  // ----- walking ----------------------------------------------------------------------------------------------

  // Follows a path from a root; the nodes come from the store. An absent value is Ok(None), never a missing node.
  function Walk(c: Codec, store: Store, root: Hash, path: Path): Result<Option<Bytes>, ReadError>
    decreases |path|
  {
    if root !in store then Err(MissingNode)
    else
      match c.hop(store[root], path)
      case Leaf(value) => Ok(Some(value))
      case Nothing => Ok(None)
      case NotANode => Err(Malformed)
      case Child(h, rest) => if |rest| < |path| then Walk(c, store, h, rest) else Err(Malformed)
  }

  // The nodes a walk fetches.
  function Visited(c: Codec, store: Store, root: Hash, path: Path): Store
    decreases |path|
  {
    if root !in store then map[]
    else
      match c.hop(store[root], path)
      case Child(h, rest) => if |rest| < |path| then Visited(c, store, h, rest)[root := store[root]] else map[root := store[root]]
      case _ => map[root := store[root]]
  }

  function Lookup(c: Codec, store: Store, root: Hash, path: Path): Result<Option<Bytes>, ReadError> {
    if root == c.emptyRoot then Ok(None) else Walk(c, store, root, path)
  }

  // ----- reading a state --------------------------------------------------------------------------------------

  function DecodeAccount(c: Codec, leaf: Option<Bytes>): Result<Option<StateAccount>, ReadError> {
    match leaf
    case None => Ok(None)
    case Some(raw) =>
      match c.accountOf(raw)
      case None => Err(Malformed)
      case Some(a) => Ok(Some(a))
  }

  function ReadAccount(c: Codec, store: Store, root: Hash, a: Address): Result<Option<StateAccount>, ReadError> {
    var leaf :- Lookup(c, store, root, c.addressPath(a));
    DecodeAccount(c, leaf)
  }

  function StorageRoot(c: Codec, account: Option<StateAccount>): Hash {
    if account.Some? then account.value.storageRoot else c.emptyRoot
  }

  function DecodeSlot(c: Codec, leaf: Option<Bytes>): Result<nat, ReadError> {
    match leaf
    case None => Ok(0)
    case Some(raw) =>
      match c.slotOf(raw)
      case None => Err(Malformed)
      case Some(n) => Ok(n)
  }

  function ReadStorage(c: Codec, store: Store, root: Hash, a: Address, k: Slot): Result<nat, ReadError> {
    var account :- ReadAccount(c, store, root, a);
    var leaf :- Lookup(c, store, StorageRoot(c, account), c.slotPath(k));
    DecodeSlot(c, leaf)
  }

  // ----- agreement --------------------------------------------------------------------------------------------

  lemma SameNode(c: Codec, a: Store, b: Store, h: Hash)
    requires c.Injective() && ContentAddressed(c, a) && ContentAddressed(c, b) && h in a && h in b
    ensures a[h] == b[h]
  {
    assert c.hash(a[h]) == h && c.hash(b[h]) == h;
  }

  // Two content-addressed stores cannot disagree on a walk that misses in neither.
  lemma {:induction false} WalksAgree(c: Codec, a: Store, b: Store, root: Hash, path: Path)
    requires c.Injective() && ContentAddressed(c, a) && ContentAddressed(c, b)
    requires Walk(c, a, root, path) != Err(MissingNode) && Walk(c, b, root, path) != Err(MissingNode)
    ensures Walk(c, a, root, path) == Walk(c, b, root, path)
    decreases |path|
  {
    SameNode(c, a, b, root);
    match c.hop(a[root], path) {
      case Child(h, rest) =>
        if |rest| < |path| {
          WalksAgree(c, a, b, h, rest);
        }
      case _ =>
    }
  }

  lemma LookupsAgree(c: Codec, a: Store, b: Store, root: Hash, path: Path)
    requires c.Injective() && ContentAddressed(c, a) && ContentAddressed(c, b)
    requires Lookup(c, a, root, path).Ok? && Lookup(c, b, root, path).Ok?
    ensures Lookup(c, a, root, path) == Lookup(c, b, root, path)
  {
    if root != c.emptyRoot {
      WalksAgree(c, a, b, root, path);
    }
  }

  lemma AccountsAgree(c: Codec, a: Store, b: Store, root: Hash, addr: Address)
    requires c.Injective() && ContentAddressed(c, a) && ContentAddressed(c, b)
    requires ReadAccount(c, a, root, addr).Ok? && ReadAccount(c, b, root, addr).Ok?
    ensures ReadAccount(c, a, root, addr) == ReadAccount(c, b, root, addr)
  {
    LookupsAgree(c, a, b, root, c.addressPath(addr));
  }

  lemma SlotsAgree(c: Codec, a: Store, b: Store, root: Hash, addr: Address, k: Slot)
    requires c.Injective() && ContentAddressed(c, a) && ContentAddressed(c, b)
    requires ReadStorage(c, a, root, addr, k).Ok? && ReadStorage(c, b, root, addr, k).Ok?
    ensures ReadStorage(c, a, root, addr, k) == ReadStorage(c, b, root, addr, k)
  {
    AccountsAgree(c, a, b, root, addr);
    LookupsAgree(c, a, b, StorageRoot(c, ReadAccount(c, a, root, addr).value), c.slotPath(k));
  }

  // A walk while the store changes: the i-th fetch sees the i-th store.
  function WalkThrough(c: Codec, stores: nat -> Store, i: nat, root: Hash, path: Path): Result<Option<Bytes>, ReadError>
    decreases |path|
  {
    if root !in stores(i) then Err(MissingNode)
    else
      match c.hop(stores(i)[root], path)
      case Leaf(value) => Ok(Some(value))
      case Nothing => Ok(None)
      case NotANode => Err(Malformed)
      case Child(h, rest) => if |rest| < |path| then WalkThrough(c, stores, i + 1, h, rest) else Err(Malformed)
  }

  // Whatever is hydrated between its fetches, such a walk agrees with the complete state too.
  lemma {:induction false} InterleavedWalkAgrees(c: Codec, stores: nat -> Store, i: nat, full: Store, root: Hash, path: Path)
    requires c.Injective() && ContentAddressed(c, full) && forall j :: ContentAddressed(c, stores(j))
    requires WalkThrough(c, stores, i, root, path) != Err(MissingNode) && Walk(c, full, root, path) != Err(MissingNode)
    ensures WalkThrough(c, stores, i, root, path) == Walk(c, full, root, path)
    decreases |path|
  {
    SameNode(c, stores(i), full, root);
    match c.hop(full[root], path) {
      case Child(h, rest) =>
        if |rest| < |path| {
          InterleavedWalkAgrees(c, stores, i + 1, full, h, rest);
        }
      case _ =>
    }
  }

  // ----- proofs -----------------------------------------------------------------------------------------------

  datatype StorageProof = StorageProof(key: Slot, value: Option<nat>, proof: seq<Bytes>)

  datatype RpcProof = RpcProof(
    address: Address, accountProof: seq<Bytes>, balance: Option<nat>, nonce: nat, codeHash: Hash, storageHash: Hash,
    storageProof: seq<StorageProof>)

  const MAX_BALANCE: nat := 0x1_0000_0000_0000_0000_0000_0000_0000_0000_0000_0000_0000_0000_0000_0000_0000_0000

  function ProofStore(c: Codec, nodes: seq<Bytes>): Store {
    if nodes == [] then map[] else ProofStore(c, nodes[..|nodes| - 1])[c.hash(nodes[|nodes| - 1]) := nodes[|nodes| - 1]]
  }

  lemma {:induction false} ProofStoreAddressed(c: Codec, nodes: seq<Bytes>)
    ensures ContentAddressed(c, ProofStore(c, nodes))
  {
    if nodes != [] {
      ProofStoreAddressed(c, nodes[..|nodes| - 1]);
    }
  }

  lemma {:induction false} VisitedIsPart(c: Codec, store: Store, root: Hash, path: Path)
    ensures forall h :: h in Visited(c, store, root, path) ==> h in store && Visited(c, store, root, path)[h] == store[h]
    decreases |path|
  {
    if root in store {
      match c.hop(store[root], path) {
        case Child(h, rest) =>
          if |rest| < |path| {
            VisitedIsPart(c, store, h, rest);
          }
        case _ =>
      }
    }
  }

  ghost predicate Includes(big: Store, small: Store) {
    forall h :: h in small ==> h in big && big[h] == small[h]
  }

  // Any store that includes the visited nodes gives the same walk.
  lemma {:induction false} VisitedSuffices(c: Codec, store: Store, root: Hash, path: Path, other: Store)
    requires Walk(c, store, root, path) != Err(MissingNode) && Includes(other, Visited(c, store, root, path))
    ensures Walk(c, other, root, path) == Walk(c, store, root, path)
    decreases |path|
  {
    assert root in Visited(c, store, root, path) && other[root] == store[root];
    match c.hop(store[root], path) {
      case Child(h, rest) =>
        if |rest| < |path| {
          VisitedIsPart(c, store, h, rest);
          VisitedSuffices(c, store, h, rest, other);
        }
      case _ =>
    }
  }

  function EmptyAccount(c: Codec): StateAccount {
    StateAccount(0, 0, c.emptyRoot, c.emptyCode)
  }

  predicate MetadataMatches(p: RpcProof, account: StateAccount) {
    p.nonce == account.nonce && p.balance == Some(account.balance) && p.storageHash == account.storageRoot
    && p.codeHash == account.codeHash
  }

  // One storage subject against the proved storage root: the nodes used, or nothing.
  function VerifySlot(c: Codec, storageRoot: Hash, sp: StorageProof): Option<Store> {
    var db := ProofStore(c, sp.proof);
    if sp.value.None? then None
    else if storageRoot == c.emptyRoot then
      if sp.value == Some(0) then Some(map[]) else None
    else
      var leaf := Walk(c, db, storageRoot, c.slotPath(sp.key));
      if leaf.Err? then None
      else if DecodeSlot(c, leaf.value) != Ok(sp.value.value) then None
      else Some(Visited(c, db, storageRoot, c.slotPath(sp.key)))
  }

  // The storage proofs cover exactly the expected slots, each once.
  function VerifySlots(c: Codec, storageRoot: Hash, expected: set<Slot>, sps: seq<StorageProof>, used: Store): Option<Store> {
    if sps == [] then Some(used)
    else if sps[0].key !in expected then None
    else
      match VerifySlot(c, storageRoot, sps[0])
      case None => None
      case Some(nodes) => VerifySlots(c, storageRoot, expected - {sps[0].key}, sps[1..], used + nodes)
  }

  function Members(slots: seq<Slot>): set<Slot> {
    set k | k in slots
  }

  predicate Unique(slots: seq<Slot>) {
    forall i, j :: 0 <= i < j < |slots| ==> slots[i] != slots[j]
  }

  function VerifyProof(c: Codec, root: Hash, a: Address, slots: seq<Slot>, p: RpcProof): Option<Store> {
    if !(p.address == a && p.balance.Some? && p.balance.value < MAX_BALANCE) then None
    else
      var db := ProofStore(c, p.accountProof);
      var leaf := Walk(c, db, root, c.addressPath(a));
      if leaf.Err? then None
      else
        var proved := DecodeAccount(c, leaf.value);
        if proved.Err? then None
        else
          var account := if proved.value.Some? then proved.value.value else EmptyAccount(c);
          if !MetadataMatches(p, account) then None
          else if |slots| != |p.storageProof| then None
          else if !Unique(slots) then None
          else VerifySlots(c, account.storageRoot, Members(slots), p.storageProof, Visited(c, db, root, c.addressPath(a)))
  }

  // ----- what a verified proof gives --------------------------------------------------------------------------

  lemma SumIncludes(c: Codec, a: Store, b: Store)
    requires c.Injective() && ContentAddressed(c, a) && ContentAddressed(c, b)
    ensures ContentAddressed(c, a + b) && Includes(a + b, a) && Includes(a + b, b)
  {
    forall h | h in a && h in b
      ensures a[h] == b[h]
    {
      SameNode(c, a, b, h);
    }
  }

  lemma VisitedAddressed(c: Codec, nodes: seq<Bytes>, root: Hash, path: Path)
    ensures ContentAddressed(c, Visited(c, ProofStore(c, nodes), root, path))
  {
    ProofStoreAddressed(c, nodes);
    VisitedIsPart(c, ProofStore(c, nodes), root, path);
  }

  lemma SlotProofAddressed(c: Codec, storageRoot: Hash, sp: StorageProof)
    requires VerifySlot(c, storageRoot, sp).Some?
    ensures ContentAddressed(c, VerifySlot(c, storageRoot, sp).value)
  {
    VisitedAddressed(c, sp.proof, storageRoot, c.slotPath(sp.key));
  }

  // With the nodes of its proof at hand a slot reads as the proof says.
  lemma SlotProofReads(c: Codec, storageRoot: Hash, sp: StorageProof, store: Store)
    requires VerifySlot(c, storageRoot, sp).Some? && Includes(store, VerifySlot(c, storageRoot, sp).value)
    ensures Lookup(c, store, storageRoot, c.slotPath(sp.key)).Ok?
    ensures sp.value.Some? && DecodeSlot(c, Lookup(c, store, storageRoot, c.slotPath(sp.key)).value) == Ok(sp.value.value)
  {
    if storageRoot != c.emptyRoot {
      VisitedSuffices(c, ProofStore(c, sp.proof), storageRoot, c.slotPath(sp.key), store);
    }
  }

  lemma {:induction false} SlotsAddressed(c: Codec, storageRoot: Hash, expected: set<Slot>, sps: seq<StorageProof>, used: Store)
    requires c.Injective() && ContentAddressed(c, used) && VerifySlots(c, storageRoot, expected, sps, used).Some?
    ensures ContentAddressed(c, VerifySlots(c, storageRoot, expected, sps, used).value)
    ensures Includes(VerifySlots(c, storageRoot, expected, sps, used).value, used)
    ensures forall i :: 0 <= i < |sps| ==>
              && VerifySlot(c, storageRoot, sps[i]).Some?
              && Includes(VerifySlots(c, storageRoot, expected, sps, used).value, VerifySlot(c, storageRoot, sps[i]).value)
    decreases |sps|
  {
    if sps != [] {
      var nodes := VerifySlot(c, storageRoot, sps[0]).value;
      SlotProofAddressed(c, storageRoot, sps[0]);
      SumIncludes(c, used, nodes);
      SlotsAddressed(c, storageRoot, expected - {sps[0].key}, sps[1..], used + nodes);
      forall i | 0 <= i < |sps|
        ensures VerifySlot(c, storageRoot, sps[i]).Some?
        ensures Includes(VerifySlots(c, storageRoot, expected, sps, used).value, VerifySlot(c, storageRoot, sps[i]).value)
      {
        if i > 0 {
          assert sps[i] == sps[1..][i - 1];
        }
      }
    }
  }

  lemma {:induction false} EverySlotProved(c: Codec, storageRoot: Hash, expected: set<Slot>, sps: seq<StorageProof>, used: Store, k: Slot)
    requires VerifySlots(c, storageRoot, expected, sps, used).Some? && |expected| == |sps| && k in expected
    ensures exists i :: 0 <= i < |sps| && sps[i].key == k
    decreases |sps|
  {
    assert sps != [];
    if sps[0].key != k {
      var nodes := VerifySlot(c, storageRoot, sps[0]).value;
      EverySlotProved(c, storageRoot, expected - {sps[0].key}, sps[1..], used + nodes, k);
      var i :| 0 <= i < |sps[1..]| && sps[1..][i].key == k;
      assert sps[i + 1].key == k;
    }
  }

  lemma {:induction false} UniqueCount(slots: seq<Slot>)
    requires Unique(slots)
    ensures |Members(slots)| == |slots|
  {
    if slots != [] {
      var rest := slots[1..];
      UniqueCount(rest);
      assert slots[0] !in rest;
      assert Members(slots) == Members(rest) + {slots[0]};
    }
  }

  lemma ProofAddressed(c: Codec, root: Hash, a: Address, slots: seq<Slot>, p: RpcProof)
    requires c.Injective() && VerifyProof(c, root, a, slots, p).Some?
    ensures ContentAddressed(c, VerifyProof(c, root, a, slots, p).value)
  {
    var db := ProofStore(c, p.accountProof);
    var proved := DecodeAccount(c, Walk(c, db, root, c.addressPath(a)).value).value;
    var account := if proved.Some? then proved.value else EmptyAccount(c);
    VisitedAddressed(c, p.accountProof, root, c.addressPath(a));
    SlotsAddressed(c, account.storageRoot, Members(slots), p.storageProof, Visited(c, db, root, c.addressPath(a)));
  }

  // The account part: with the proof's nodes at hand the account reads, and the metadata are its fields.
  lemma ProvedAccount(c: Codec, root: Hash, a: Address, slots: seq<Slot>, p: RpcProof, store: Store)
    requires c.Injective() && root != c.emptyRoot
    requires VerifyProof(c, root, a, slots, p).Some? && Includes(store, VerifyProof(c, root, a, slots, p).value)
    ensures ReadAccount(c, store, root, a).Ok?
    ensures
      var account := ReadAccount(c, store, root, a).value;
      MetadataMatches(p, if account.Some? then account.value else EmptyAccount(c))
  {
    var db := ProofStore(c, p.accountProof);
    var proved := DecodeAccount(c, Walk(c, db, root, c.addressPath(a)).value).value;
    var account := if proved.Some? then proved.value else EmptyAccount(c);
    VisitedAddressed(c, p.accountProof, root, c.addressPath(a));
    SlotsAddressed(c, account.storageRoot, Members(slots), p.storageProof, Visited(c, db, root, c.addressPath(a)));
    VisitedSuffices(c, db, root, c.addressPath(a), store);
  }

  // The storage part: every requested slot reads.
  lemma ProvedSlot(c: Codec, root: Hash, a: Address, slots: seq<Slot>, p: RpcProof, store: Store, k: Slot)
    requires c.Injective() && root != c.emptyRoot && k in slots
    requires VerifyProof(c, root, a, slots, p).Some? && Includes(store, VerifyProof(c, root, a, slots, p).value)
    ensures ReadStorage(c, store, root, a, k).Ok?
    ensures exists i :: 0 <= i < |p.storageProof| && p.storageProof[i].key == k && p.storageProof[i].value == Some(ReadStorage(c, store, root, a, k).value)
  {
    ProvedAccount(c, root, a, slots, p, store);
    var db := ProofStore(c, p.accountProof);
    var proved := DecodeAccount(c, Walk(c, db, root, c.addressPath(a)).value).value;
    var account := if proved.Some? then proved.value else EmptyAccount(c);
    var used := Visited(c, db, root, c.addressPath(a));
    VisitedAddressed(c, p.accountProof, root, c.addressPath(a));
    SlotsAddressed(c, account.storageRoot, Members(slots), p.storageProof, used);
    VisitedSuffices(c, db, root, c.addressPath(a), store);
    UniqueCount(slots);
    EverySlotProved(c, account.storageRoot, Members(slots), p.storageProof, used, k);
    var i :| 0 <= i < |p.storageProof| && p.storageProof[i].key == k;
    SlotProofReads(c, account.storageRoot, p.storageProof[i], store);
  }
}
