// Consent and dispatch across processes: every step is one atomic filesystem action of one process, taken in any order,
// and any process may crash between two of its steps. Directories and files are created exclusively; a file is partial
// from its creation until its content is written. The keyed hash of a grant is idealised: it names its key.
module Consent {
  import opened Wrappers

  type Pid = nat

  datatype Binding = Binding(plan: nat, operation: nat, output: nat)

  datatype Path =
    | ConsentDir(plan: nat)
    | GrantFile(plan: nat)
    | ConsumedFile(plan: nat)
    | OutDir(output: nat)
    | DispatchFile(output: nat)
    | ManifestFile(output: nat)
    | ResultFile(output: nat)
    | AttemptFile(operation: nat)

  datatype Content =
    | Grant(binding: Binding, key: nat, begin: int, end: int)
    | Consumption(binding: Binding, owner: Pid, at: int)
    | Intent(binding: Binding, owner: Pid)
    | Inventory(owner: Pid)
    | Outcome(owner: Pid, completed: bool)
    | Attempt(owner: Pid)

  datatype File = Partial | Complete(content: Content)

  // What the protocol has durably done, in order.
  datatype Event =
    | Saved(path: Path, content: Content)
    | Launched(binding: Binding, owner: Pid)
    | ChildLaunched(operation: nat, owner: Pid)

  // Where a process stands. Writing: it created the file and has still to write it.
  datatype Proc =
    | Idle
    | IssueReady(b: Binding, key: nat, begin: int, end: int)
    | Admitted(b: Binding, at: int)
    | Consumed(b: Binding)
    | OutputMade(b: Binding)
    | Dispatched(b: Binding)
    | Supervised(b: Binding)
    | Inventoried(b: Binding, completed: bool)
    | Marked(operation: nat)
    | Writing(path: Path, content: Content, next: Proc)
    | Ended

  datatype World = World(dirs: set<Path>, files: map<Path, File>, procs: map<Pid, Proc>, log: seq<Event>)

  const EMPTY: World := World({}, map[], map[], [])

  const GRANT_SECONDS: int := 600
  const REMAINING_SECONDS: int := 180

  datatype Step =
    | Issue(pid: Pid, b: Binding, key: nat, now: int, notAfter: Option<int>)
    | CreateGrant(pid: Pid)
    | Load(pid: Pid, b: Binding, key: nat, now: int)
    | CreateConsumed(pid: Pid)
    | MakeOutput(pid: Pid)
    | CreateIntent(pid: Pid)
    | Launch(pid: Pid)
    | CreateInventory(pid: Pid, completed: bool)
    | CreateResult(pid: Pid)
    | CreateStopResult(pid: Pid)
    | CreateAttempt(pid: Pid, operation: nat)
    | LaunchChild(pid: Pid)
    | Write(pid: Pid)
    | Stop(pid: Pid)  // a crash or a failure

  function At(w: World, pid: Pid): Proc {
    if pid in w.procs then w.procs[pid] else Idle
  }

  function Goto(w: World, pid: Pid, p: Proc): World {
    w.(procs := w.procs[pid := p])
  }

  // Exclusive creation: the file must not exist; otherwise the process ends with an error.
  function Create(w: World, pid: Pid, path: Path, content: Content, next: Proc): World {
    if path in w.files then Goto(w, pid, Ended)
    else Goto(w.(files := w.files[path := Partial]), pid, Writing(path, content, next))
  }

  function MakeDir(w: World, pid: Pid, path: Path, next: Proc): World {
    if path in w.dirs then Goto(w, pid, Ended) else Goto(w.(dirs := w.dirs + {path}), pid, next)
  }

  function Expiry(now: int, notAfter: Option<int>): int {
    if notAfter.Some? && notAfter.value < now + GRANT_SECONDS then notAfter.value else now + GRANT_SECONDS
  }

  // A grant of this binding under this key, whose window admits a consumption now.
  predicate Admits(w: World, b: Binding, key: nat, now: int) {
    && GrantFile(b.plan) in w.files && w.files[GrantFile(b.plan)].Complete?
    && w.files[GrantFile(b.plan)].content.Grant?
    && var g := w.files[GrantFile(b.plan)].content;
       && g.key == key && g.binding == b
       && g.begin <= now < g.end && 0 < g.end - g.begin <= GRANT_SECONDS && g.end - now >= REMAINING_SECONDS
  }

  function Apply(w: World, s: Step): World {
    var p := At(w, s.pid);
    match s
    case Issue(pid, b, key, now, notAfter) =>
      if !p.Idle? then w
      else if notAfter.Some? && notAfter.value - now < REMAINING_SECONDS then Goto(w, pid, Ended)
      else MakeDir(w, pid, ConsentDir(b.plan), IssueReady(b, key, now, Expiry(now, notAfter)))
    case CreateGrant(pid) =>
      if !p.IssueReady? then w else Create(w, pid, GrantFile(p.b.plan), Grant(p.b, p.key, p.begin, p.end), Ended)
    case Load(pid, b, key, now) =>
      if !p.Idle? then w else if Admits(w, b, key, now) then Goto(w, pid, Admitted(b, now)) else Goto(w, pid, Ended)
    case CreateConsumed(pid) =>
      if !p.Admitted? then w else Create(w, pid, ConsumedFile(p.b.plan), Consumption(p.b, pid, p.at), Consumed(p.b))
    case MakeOutput(pid) =>
      if !p.Consumed? then w else MakeDir(w, pid, OutDir(p.b.output), OutputMade(p.b))
    case CreateIntent(pid) =>
      if !p.OutputMade? then w else Create(w, pid, DispatchFile(p.b.output), Intent(p.b, pid), Dispatched(p.b))
    case Launch(pid) =>
      if !p.Dispatched? then w else Goto(w.(log := w.log + [Launched(p.b, pid)]), pid, Supervised(p.b))
    case CreateInventory(pid, completed) =>
      if p.Supervised? then Create(w, pid, ManifestFile(p.b.output), Inventory(pid), Inventoried(p.b, completed))
      else if p.OutputMade? || p.Dispatched? then Create(w, pid, ManifestFile(p.b.output), Inventory(pid), Inventoried(p.b, false))
      else w
    case CreateResult(pid) =>
      if !p.Inventoried? then w else Create(w, pid, ResultFile(p.b.output), Outcome(pid, p.completed), Ended)
    case CreateStopResult(pid) =>
      if (p.Consumed? || p.OutputMade? || p.Dispatched? || p.Supervised? || p.Inventoried?) && OutDir(p.b.output) in w.dirs
      then Create(w, pid, ResultFile(p.b.output), Outcome(pid, false), Ended)
      else w
    case CreateAttempt(pid, operation) =>
      if !p.Idle? then w else Create(w, pid, AttemptFile(operation), Attempt(pid), Marked(operation))
    case LaunchChild(pid) =>
      if !p.Marked? then w else Goto(w.(log := w.log + [ChildLaunched(p.operation, pid)]), pid, Ended)
    case Write(pid) =>
      if !p.Writing? then w
      else Goto(w.(files := w.files[p.path := Complete(p.content)], log := w.log + [Saved(p.path, p.content)]), pid, p.next)
    case Stop(pid) => Goto(w, pid, Ended)
  }

  // Any interleaving of the steps of any number of processes.
  function Run(steps: seq<Step>): World {
    if steps == [] then EMPTY else Apply(Run(steps[..|steps| - 1]), steps[|steps| - 1])
  }

  // ----- exclusive files --------------------------------------------------------------------------------------

  predicate OneSaveEach(log: seq<Event>) {
    forall i, j :: 0 <= i < |log| && 0 <= j < |log| && log[i].Saved? && log[j].Saved? && log[i].path == log[j].path ==> i == j
  }

  ghost predicate FilesFromLog(w: World) {
    && (forall e :: e in w.log && e.Saved? ==> e.path in w.files && w.files[e.path] == Complete(e.content))
    && (forall f :: f in w.files && w.files[f].Complete? ==> Saved(f, w.files[f].content) in w.log)
  }

  ghost predicate SoleWriters(w: World) {
    && (forall pid :: pid in w.procs && w.procs[pid].Writing? ==> w.procs[pid].path in w.files && w.files[w.procs[pid].path] == Partial)
    && (forall a, b :: a in w.procs && b in w.procs && w.procs[a].Writing? && w.procs[b].Writing? && w.procs[a].path == w.procs[b].path ==> a == b)
  }

  ghost predicate Exclusive(w: World) {
    OneSaveEach(w.log) && FilesFromLog(w) && SoleWriters(w)
  }

  lemma GotoKeeps(w: World, pid: Pid, p: Proc)
    requires Exclusive(w) && !p.Writing?
    ensures Exclusive(Goto(w, pid, p))
  {
  }

  lemma CreateKeeps(w: World, pid: Pid, path: Path, content: Content, next: Proc)
    requires Exclusive(w)
    ensures Exclusive(Create(w, pid, path, content, next))
  {
    if path !in w.files {
      var t := Create(w, pid, path, content, next);
      assert FilesFromLog(t);
      assert SoleWriters(t);
    }
  }

  // An event that saves nothing.
  lemma NoteKeeps(w: World, e: Event, pid: Pid, p: Proc)
    requires Exclusive(w) && !e.Saved? && !p.Writing?
    ensures Exclusive(Goto(w.(log := w.log + [e]), pid, p))
  {
    var t := Goto(w.(log := w.log + [e]), pid, p);
    assert OneSaveEach(t.log);
    assert FilesFromLog(t);
    assert SoleWriters(t);
  }

  lemma WriteKeeps(w: World, pid: Pid)
    requires Exclusive(w) && At(w, pid).Writing? && !At(w, pid).next.Writing?
    ensures Exclusive(Apply(w, Write(pid)))
  {
    var p := At(w, pid);
    var t := Apply(w, Write(pid));
    forall i | 0 <= i < |w.log| && w.log[i].Saved?
      ensures w.log[i].path != p.path
    {
      assert w.log[i] in w.log;
    }
    assert OneSaveEach(t.log);
    assert FilesFromLog(t);
    assert SoleWriters(t);
  }

  // ----- what each position of a process rests on -------------------------------------------------------------

  predicate HasIntent(log: seq<Event>, pid: Pid) {
    exists i :: 0 <= i < |log| && log[i].Saved? && log[i].content.Intent? && log[i].content.owner == pid
  }

  predicate HasLaunched(log: seq<Event>, pid: Pid) {
    exists i :: 0 <= i < |log| && log[i].Launched? && log[i].owner == pid
  }

  predicate HasChild(log: seq<Event>, pid: Pid) {
    exists i :: 0 <= i < |log| && log[i].ChildLaunched? && log[i].owner == pid
  }

  predicate HasConsumed(log: seq<Event>, b: Binding, pid: Pid) {
    exists i :: 0 <= i < |log| && log[i].Saved? && log[i].path == ConsumedFile(b.plan) && log[i].content.Consumption?
                && log[i].content.binding == b && log[i].content.owner == pid
  }

  predicate HasAdmitting(log: seq<Event>, b: Binding, at: int) {
    exists i :: 0 <= i < |log| && log[i].Saved? && Admitting(log[i], b, at)
  }

  // A grant whose window admits this moment.
  predicate Admitting(e: Event, b: Binding, at: int) {
    && e.Saved? && e.path == GrantFile(b.plan) && e.content.Grant? && e.content.binding == b
    && e.content.begin <= at <= e.content.end - REMAINING_SECONDS
    && e.content.end - e.content.begin <= GRANT_SECONDS
  }

  predicate SavedBy(log: seq<Event>, path: Path, content: Content) {
    Saved(path, content) in log
  }

  predicate Undispatched(log: seq<Event>, pid: Pid) {
    !HasIntent(log, pid) && !HasLaunched(log, pid) && !HasChild(log, pid)
  }

  // The facts behind a position.
  predicate Backed(log: seq<Event>, pid: Pid, p: Proc)
    decreases p
  {
    match p
    case Idle => Undispatched(log, pid)
    case IssueReady(b, key, begin, end) => Undispatched(log, pid) && REMAINING_SECONDS <= end - begin <= GRANT_SECONDS
    case Admitted(b, at) => Undispatched(log, pid) && HasAdmitting(log, b, at)
    case Consumed(b) => Undispatched(log, pid) && HasConsumed(log, b, pid)
    case OutputMade(b) => Undispatched(log, pid) && HasConsumed(log, b, pid)
    case Dispatched(b) => HasConsumed(log, b, pid) && SavedBy(log, DispatchFile(b.output), Intent(b, pid)) && !HasLaunched(log, pid)
    case Supervised(b) => HasConsumed(log, b, pid) && Launched(b, pid) in log && HasIntent(log, pid)
    case Inventoried(b, completed) => SavedBy(log, ManifestFile(b.output), Inventory(pid)) && (completed ==> Launched(b, pid) in log)
    case Marked(operation) => SavedBy(log, AttemptFile(operation), Attempt(pid)) && Undispatched(log, pid)
    case Writing(path, content, next) => !next.Writing? && WritingBacked(log, pid, path, content, next)
    case Ended => true
  }

  predicate WritingBacked(log: seq<Event>, pid: Pid, path: Path, content: Content, next: Proc) {
    match path
    case GrantFile(plan) =>
      && content.Grant? && content.binding.plan == plan && next == Ended
      && REMAINING_SECONDS <= content.end - content.begin <= GRANT_SECONDS
    case ConsumedFile(plan) =>
      && content.Consumption? && content.binding.plan == plan && content.owner == pid && next == Consumed(content.binding)
      && Undispatched(log, pid) && HasAdmitting(log, content.binding, content.at)
    case DispatchFile(output) =>
      && content.Intent? && content.binding.output == output && content.owner == pid && next == Dispatched(content.binding)
      && Undispatched(log, pid) && HasConsumed(log, content.binding, pid)
    case ManifestFile(output) =>
      && content == Inventory(pid) && next.Inventoried? && next.b.output == output && (next.completed ==> Launched(next.b, pid) in log)
    case ResultFile(output) =>
      && content.Outcome? && content.owner == pid && next == Ended
      && (content.completed ==> SavedBy(log, ManifestFile(output), Inventory(pid)) && HasLaunchedTo(log, output, pid))
    case AttemptFile(operation) =>
      && content == Attempt(pid) && next == Marked(operation) && Undispatched(log, pid)
    case _ => false
  }

  predicate HasLaunchedTo(log: seq<Event>, output: nat, pid: Pid) {
    exists i :: 0 <= i < |log| && log[i].Launched? && log[i].owner == pid && log[i].binding.output == output
  }

  // Why an event could happen: what came before it in the log.
  predicate Justified(log: seq<Event>, e: Event) {
    match e
    case Launched(b, owner) => HasConsumed(log, b, owner) && SavedBy(log, DispatchFile(b.output), Intent(b, owner)) && !HasLaunched(log, owner)
    case ChildLaunched(operation, owner) => SavedBy(log, AttemptFile(operation), Attempt(owner)) && !HasChild(log, owner)
    case Saved(path, content) =>
      match path
      case GrantFile(plan) =>
        content.Grant? && content.binding.plan == plan && REMAINING_SECONDS <= content.end - content.begin <= GRANT_SECONDS
      case ConsumedFile(plan) =>
        content.Consumption? && content.binding.plan == plan && HasAdmitting(log, content.binding, content.at)
      case DispatchFile(output) =>
        content.Intent? && content.binding.output == output && HasConsumed(log, content.binding, content.owner) && !HasIntent(log, content.owner)
      case ResultFile(output) =>
        content.Outcome?
        && (content.completed ==> SavedBy(log, ManifestFile(output), Inventory(content.owner)) && HasLaunchedTo(log, output, content.owner))
      case AttemptFile(operation) => content.Attempt?
      case ManifestFile(output) => content.Inventory?
      case _ => false
  }

  ghost predicate Ordered(log: seq<Event>) {
    forall i :: 0 <= i < |log| ==> Justified(log[..i], log[i])
  }

  ghost predicate AllBacked(w: World) {
    forall pid :: pid in w.procs ==> Backed(w.log, pid, w.procs[pid])
  }

  // A process that never took a step has left no trace.
  ghost predicate StrangersAbsent(w: World) {
    forall pid :: pid !in w.procs ==> Undispatched(w.log, pid)
  }

  ghost predicate Inv(w: World) {
    Exclusive(w) && Ordered(w.log) && AllBacked(w) && StrangersAbsent(w)
  }
}
