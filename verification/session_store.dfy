// The append-only session store under concurrent creators and registrars. A session or variant is staged in a private
// directory and appears by one rename; a process may crash after any filesystem step.
module SessionStore {
  import opened Wrappers
  import opened SessionIdentity

  type Pid = nat
  type Token = nat

  datatype FileState<T> = Missing | Partial | Complete(value: T)

  datatype VariantDir = VariantDir(record: FileState<Record>)

  datatype SessionDir = SessionDir(
    source: FileState<Raw>,
    variantsMade: bool,
    manifest: FileState<Header>,
    variants: map<Hash, VariantDir>,
    staging: map<Token, VariantDir>)

  // Where a process stands. Stages of a creation: directory made, source created, source written, variants made,
  // manifest created, manifest written. Stages of a registration: directory made, record created, record written.
  datatype Proc =
    | Idle
    | Creating(header: Header, raw: Raw, token: Token, stage: nat)
    | Opening(header: Header)
    | Opened(header: Header)
    | Checked(header: Header, record: Record, token: Token)
    | Registering(header: Header, record: Record, token: Token, stage: nat)
    | Loading(header: Header, record: Record)
    | Registered(header: Header, record: Record)
    | Failed

  datatype World = World(sessions: map<Hash, SessionDir>, staging: map<Token, SessionDir>, procs: map<Pid, Proc>)

  const EMPTY: World := World(map[], map[], map[])

  datatype Step =
    | Create(pid: Pid, raw: Raw, pin: Hash, declared: Checkpoint, token: Token)
    | Stage(pid: Pid)
    | Rename(pid: Pid)
    | Open(pid: Pid)
    | Register(pid: Pid, id: Hash, settings: Settings, token: Token)
    | StageVariant(pid: Pid)
    | RenameVariant(pid: Pid)
    | LoadRecord(pid: Pid)
    | Abort(pid: Pid)  // an error: the staging directory is removed
    | Crash(pid: Pid)  // nothing is cleaned up

  const NEW_DIR: SessionDir := SessionDir(Missing, false, Missing, map[], map[])
  const CREATION_STAGES: nat := 5
  const REGISTRATION_STAGES: nat := 2

  function At(w: World, pid: Pid): Proc {
    if pid in w.procs then w.procs[pid] else Idle
  }

  function Goto(w: World, pid: Pid, p: Proc): World {
    w.(procs := w.procs[pid := p])
  }

  // The staging directory of a creation after a stage.
  function Staged(header: Header, raw: Raw, stage: nat): SessionDir {
    if stage == 0 then NEW_DIR
    else if stage == 1 then NEW_DIR.(source := Partial)
    else if stage == 2 then NEW_DIR.(source := Complete(raw))
    else if stage == 3 then NEW_DIR.(source := Complete(raw), variantsMade := true)
    else if stage == 4 then NEW_DIR.(source := Complete(raw), variantsMade := true, manifest := Partial)
    else NEW_DIR.(source := Complete(raw), variantsMade := true, manifest := Complete(header))
  }

  function StagedVariant(record: Record, stage: nat): VariantDir {
    VariantDir(if stage == 0 then Missing else if stage == 1 then Partial else Complete(record))
  }

  // ----- reading ----------------------------------------------------------------------------------------------

  // Opening re-derives the header from the retained source.
  function OpenSession(a: Adapter, w: World, id: Hash): Option<Header> {
    if id !in w.sessions then None
    else
      var dir := w.sessions[id];
      if !dir.manifest.Complete? || dir.manifest.value.sessionId != id || !dir.source.Complete? then None
      else
        var stored, raw := dir.manifest.value, dir.source.value;
        var info := LoadSource(a, raw, stored.identity.sha);
        if info.None? || HeaderOf(a, raw, info.value) != stored then None else Some(stored)
  }

  function LoadVariant(a: Adapter, w: World, h: Header, id: Hash): Option<Record> {
    if h.sessionId !in w.sessions || id !in w.sessions[h.sessionId].variants then None
    else
      var file := w.sessions[h.sessionId].variants[id].record;
      if file.Complete? && file.value.variantId == id && IsRecordOf(a, h, file.value) then Some(file.value) else None
  }

  // ----- steps ------------------------------------------------------------------------------------------------

  function RemoveStaging(w: World, p: Proc): World {
    match p
    case Creating(_, _, token, _) => w.(staging := w.staging - {token})
    case Registering(header, _, token, _) =>
      if header.sessionId in w.sessions then
        var dir := w.sessions[header.sessionId];
        w.(sessions := w.sessions[header.sessionId := dir.(staging := dir.staging - {token})])
      else w
    case _ => w
  }

  function CreateStep(a: Adapter, w: World, pid: Pid, raw: Raw, pin: Hash, declared: Checkpoint, token: Token): World {
    var info := LoadSource(a, raw, pin);
    if info.None? || info.value.checkpoint != declared then Goto(w, pid, Failed)
    else
      var header := HeaderOf(a, raw, info.value);
      if header.sessionId in w.sessions then Goto(w, pid, Opening(header))
      else if token in w.staging then Goto(w, pid, Failed)
      else Goto(w.(staging := w.staging[token := NEW_DIR]), pid, Creating(header, raw, token, 0))
  }

  // The rename of a staged session: it fails when the target exists, and then the other creator's session is opened.
  function RenameStep(w: World, pid: Pid, p: Proc): World
    requires p.Creating?
  {
    var id := p.header.sessionId;
    var cleared := w.(staging := w.staging - {p.token});
    if id in w.sessions then Goto(cleared, pid, if w.sessions[id].manifest.Missing? then Failed else Opening(p.header))
    else if p.token !in w.staging then Goto(w, pid, Failed)
    else Goto(cleared.(sessions := w.sessions[id := w.staging[p.token]]), pid, Opening(p.header))
  }

  // Where a registration of this variant in this open session goes: to the existing record, or past the count.
  function AfterCount(a: Adapter, w: World, header: Header, v: Result<Variant, VariantCode>, token: Token): Proc
    requires header.sessionId in w.sessions
  {
    if v.Err? then Failed
    else
      var record := RecordOf(a, header, v.value);
      var variants := w.sessions[header.sessionId].variants;
      if record.variantId in variants then Loading(header, record)
      else if |variants| >= MAX_VARIANTS then Failed
      else Checked(header, record, token)
  }

  function RegisterStep(a: Adapter, w: World, pid: Pid, id: Hash, settings: Settings, token: Token): World {
    var header := OpenSession(a, w, id);
    if header.None? then Goto(w, pid, Failed)
    else Goto(w, pid, AfterCount(a, w, header.value, VariantUnder(header.value, settings), token))
  }

  function StageVariantStep(w: World, pid: Pid, p: Proc): World {
    if p.Checked? && p.header.sessionId in w.sessions then
      var dir := w.sessions[p.header.sessionId];
      if p.token in dir.staging then Goto(w, pid, Failed)
      else
        Goto(w.(sessions := w.sessions[p.header.sessionId := dir.(staging := dir.staging[p.token := StagedVariant(p.record, 0)])]), pid,
             Registering(p.header, p.record, p.token, 0))
    else if p.Registering? && p.stage < REGISTRATION_STAGES && p.header.sessionId in w.sessions then
      var dir := w.sessions[p.header.sessionId];
      Goto(w.(sessions := w.sessions[p.header.sessionId := dir.(staging := dir.staging[p.token := StagedVariant(p.record, p.stage + 1)])]), pid,
           Registering(p.header, p.record, p.token, p.stage + 1))
    else w
  }

  function RenameVariantStep(w: World, pid: Pid, p: Proc): World {
    if p.Registering? && p.stage == REGISTRATION_STAGES && p.header.sessionId in w.sessions then
      var dir := w.sessions[p.header.sessionId];
      var cleared := dir.(staging := dir.staging - {p.token});
      if p.record.variantId in dir.variants then
        Goto(w.(sessions := w.sessions[p.header.sessionId := cleared]), pid,
             if dir.variants[p.record.variantId].record.Missing? then Failed else Loading(p.header, p.record))
      else if p.token !in dir.staging then Goto(w, pid, Failed)
      else
        Goto(w.(sessions := w.sessions[p.header.sessionId := cleared.(variants := dir.variants[p.record.variantId := dir.staging[p.token]])]),
             pid, Registered(p.header, p.record))
    else w
  }

  function Apply(a: Adapter, w: World, s: Step): World {
    var p := At(w, s.pid);
    match s
    case Create(pid, raw, pin, declared, token) => if p.Idle? then CreateStep(a, w, pid, raw, pin, declared, token) else w
    case Stage(pid) =>
      if p.Creating? && p.stage < CREATION_STAGES
      then Goto(w.(staging := w.staging[p.token := Staged(p.header, p.raw, p.stage + 1)]), pid,
                Creating(p.header, p.raw, p.token, p.stage + 1))
      else w
    case Rename(pid) => if p.Creating? && p.stage == CREATION_STAGES then RenameStep(w, pid, p) else w
    case Open(pid) =>
      if p.Opening? then Goto(w, pid, if OpenSession(a, w, p.header.sessionId) == Some(p.header) then Opened(p.header) else Failed) else w
    case Register(pid, id, settings, token) => if p.Idle? then RegisterStep(a, w, pid, id, settings, token) else w
    case StageVariant(pid) => StageVariantStep(w, pid, p)
    case RenameVariant(pid) => RenameVariantStep(w, pid, p)
    case LoadRecord(pid) =>
      if p.Loading? then
        Goto(w, pid, if LoadVariant(a, w, p.header, p.record.variantId) == Some(p.record) then Registered(p.header, p.record) else Failed)
      else w
    case Abort(pid) => Goto(RemoveStaging(w, p), pid, Failed)
    case Crash(pid) => Goto(w, pid, Failed)
  }

  // Any interleaving of the steps of any number of processes.
  function Run(a: Adapter, steps: seq<Step>): World {
    if steps == [] then EMPTY else Apply(a, Run(a, steps[..|steps| - 1]), steps[|steps| - 1])
  }

  // ----- invariant --------------------------------------------------------------------------------------------

  predicate SoundVariant(a: Adapter, h: Header, id: Hash, dir: VariantDir) {
    dir.record.Complete? && dir.record.value.variantId == id && IsRecordOf(a, h, dir.record.value)
  }

  // A directory with a session id holds a complete session that re-derives that id, and complete variants.
  ghost predicate SoundSession(a: Adapter, id: Hash, dir: SessionDir) {
    && dir.source.Complete? && dir.variantsMade && dir.manifest.Complete?
    && IsHeaderOf(a, dir.manifest.value, dir.source.value) && dir.manifest.value.sessionId == id
    && forall v :: v in dir.variants ==> SoundVariant(a, dir.manifest.value, v, dir.variants[v])
  }

  ghost predicate SoundSessions(a: Adapter, w: World) {
    forall id :: id in w.sessions ==> SoundSession(a, id, w.sessions[id])
  }

  // A process holds its own staging directory in the state of its stage.
  ghost predicate Held(a: Adapter, w: World, p: Proc) {
    match p
    case Creating(header, raw, token, stage) =>
      && IsHeaderOf(a, header, raw) && stage <= CREATION_STAGES
      && token in w.staging && w.staging[token] == Staged(header, raw, stage)
    case Opening(header) => Existing(a, w, header)
    case Opened(header) => Existing(a, w, header)
    case Checked(header, record, token) => Existing(a, w, header) && IsRecordOf(a, header, record)
    case Registering(header, record, token, stage) =>
      && Existing(a, w, header) && IsRecordOf(a, header, record) && stage <= REGISTRATION_STAGES
      && token in w.sessions[header.sessionId].staging && w.sessions[header.sessionId].staging[token] == StagedVariant(record, stage)
    case Loading(header, record) => ExistingVariant(a, w, header, record)
    case Registered(header, record) => ExistingVariant(a, w, header, record)
    case _ => true
  }

  ghost predicate Existing(a: Adapter, w: World, h: Header) {
    h.sessionId in w.sessions && w.sessions[h.sessionId].manifest == Complete(h)
  }

  ghost predicate ExistingVariant(a: Adapter, w: World, h: Header, r: Record) {
    && Existing(a, w, h) && IsRecordOf(a, h, r)
    && r.variantId in w.sessions[h.sessionId].variants && w.sessions[h.sessionId].variants[r.variantId] == VariantDir(Complete(r))
  }

  ghost predicate AllHeld(a: Adapter, w: World) {
    forall pid :: pid in w.procs ==> Held(a, w, w.procs[pid])
  }

  predicate SameStaging(p: Proc, q: Proc) {
    || (p.Creating? && q.Creating? && p.token == q.token)
    || (p.Registering? && q.Registering? && p.header.sessionId == q.header.sessionId && p.token == q.token)
  }

  ghost predicate PrivateStaging(w: World) {
    forall x, y :: x in w.procs && y in w.procs && SameStaging(w.procs[x], w.procs[y]) ==> x == y
  }

  ghost predicate Inv(a: Adapter, w: World) {
    SoundSessions(a, w) && AllHeld(a, w) && PrivateStaging(w)
  }

  // Later worlds keep every session's source, manifest and variants.
  ghost predicate Extends(w: World, t: World) {
    forall id :: id in w.sessions ==>
      && id in t.sessions && t.sessions[id].source == w.sessions[id].source && t.sessions[id].manifest == w.sessions[id].manifest
      && forall v :: v in w.sessions[id].variants ==> v in t.sessions[id].variants && t.sessions[id].variants[v] == w.sessions[id].variants[v]
  }
}
