// What every interleaving of the consent and dispatch steps keeps: at most one of each, in order, inside the window.
module ConsentRuns {
  import opened Wrappers
  import opened Consent

  // ----- one step ---------------------------------------------------------------------------------------------

  // Events that count against a process.
  predicate Concerns(e: Event, pid: Pid) {
    || (e.Launched? && e.owner == pid)
    || (e.ChildLaunched? && e.owner == pid)
    || (e.Saved? && e.content.Intent? && e.content.owner == pid)
  }

  lemma HasGrows(log: seq<Event>, e: Event, b: Binding, pid: Pid, at: int, output: nat)
    ensures HasConsumed(log, b, pid) ==> HasConsumed(log + [e], b, pid)
    ensures HasAdmitting(log, b, at) ==> HasAdmitting(log + [e], b, at)
    ensures HasLaunchedTo(log, output, pid) ==> HasLaunchedTo(log + [e], output, pid)
    ensures HasIntent(log, pid) ==> HasIntent(log + [e], pid)
  {
    var more := log + [e];
    if i :| 0 <= i < |log| && log[i].Saved? && log[i].path == ConsumedFile(b.plan) && log[i].content.Consumption?
            && log[i].content.binding == b && log[i].content.owner == pid {
      assert more[i] == log[i];
    }
    if i :| 0 <= i < |log| && log[i].Saved? && Admitting(log[i], b, at) {
      assert more[i] == log[i];
    }
    if i :| 0 <= i < |log| && log[i].Launched? && log[i].owner == pid && log[i].binding.output == output {
      assert more[i] == log[i];
    }
    if i :| 0 <= i < |log| && log[i].Saved? && log[i].content.Intent? && log[i].content.owner == pid {
      assert more[i] == log[i];
    }
  }

  // Absence survives an event that does not concern the process.
  lemma AbsentStays(log: seq<Event>, e: Event, pid: Pid)
    requires !Concerns(e, pid)
    ensures HasIntent(log + [e], pid) == HasIntent(log, pid)
    ensures HasLaunched(log + [e], pid) == HasLaunched(log, pid)
    ensures HasChild(log + [e], pid) == HasChild(log, pid)
  {
    var more := log + [e];
    assert forall i :: 0 <= i < |log| ==> more[i] == log[i];
    assert more[|log|] == e;
  }

  lemma WritingGrows(log: seq<Event>, e: Event, pid: Pid, path: Path, content: Content, next: Proc)
    requires WritingBacked(log, pid, path, content, next) && !Concerns(e, pid)
    ensures WritingBacked(log + [e], pid, path, content, next)
  {
    AbsentStays(log, e, pid);
    match path {
      case ConsumedFile(plan) => HasGrows(log, e, content.binding, pid, content.at, 0);
      case DispatchFile(output) => HasGrows(log, e, content.binding, pid, 0, 0);
      case ResultFile(output) => HasGrows(log, e, Binding(0, 0, 0), pid, 0, output);
      case _ =>
    }
  }

  lemma BackedGrows(log: seq<Event>, e: Event, pid: Pid, p: Proc)
    requires Backed(log, pid, p) && !Concerns(e, pid)
    ensures Backed(log + [e], pid, p)
  {
    AbsentStays(log, e, pid);
    match p {
      case Admitted(b, at) => HasGrows(log, e, b, pid, at, 0);
      case Consumed(b) => HasGrows(log, e, b, pid, 0, 0);
      case OutputMade(b) => HasGrows(log, e, b, pid, 0, 0);
      case Dispatched(b) => HasGrows(log, e, b, pid, 0, 0);
      case Supervised(b) => HasGrows(log, e, b, pid, 0, 0);
      case Writing(path, content, next) => WritingGrows(log, e, pid, path, content, next);
      case _ =>
    }
  }

  lemma OrderedOneMore(log: seq<Event>, e: Event)
    requires Ordered(log) && Justified(log, e)
    ensures Ordered(log + [e])
  {
    var more := log + [e];
    forall i | 0 <= i < |more|
      ensures Justified(more[..i], more[i])
    {
      if i < |log| {
        assert more[..i] == log[..i] && more[i] == log[i];
      } else {
        assert more[..i] == log;
      }
    }
  }

  // A step without an event moves one process.
  lemma Moved(w: World, t: World, pid: Pid, p: Proc)
    requires Inv(w) && Exclusive(t) && t.log == w.log && t.procs == w.procs[pid := p] && Backed(w.log, pid, p)
    ensures Inv(t)
  {
  }

  // A step with an event of one process moves that process.
  lemma Noted(w: World, t: World, pid: Pid, p: Proc, e: Event)
    requires Inv(w) && Exclusive(t) && t.log == w.log + [e] && t.procs == w.procs[pid := p]
    requires Justified(w.log, e) && (forall q :: q != pid ==> !Concerns(e, q)) && Backed(t.log, pid, p)
    ensures Inv(t)
  {
    OrderedOneMore(w.log, e);
    forall q | q in t.procs
      ensures Backed(t.log, q, t.procs[q])
    {
      if q != pid {
        BackedGrows(w.log, e, q, w.procs[q]);
      }
    }
    forall q | q !in t.procs
      ensures Undispatched(t.log, q)
    {
      AbsentStays(w.log, e, q);
    }
  }

  lemma Positioned(w: World, pid: Pid)
    requires Inv(w)
    ensures Backed(w.log, pid, At(w, pid))
  {
  }

  lemma StopInv(w: World, pid: Pid)
    requires Inv(w)
    ensures Inv(Goto(w, pid, Ended))
  {
    GotoKeeps(w, pid, Ended);
    Moved(w, Goto(w, pid, Ended), pid, Ended);
  }

  lemma CreateInv(w: World, pid: Pid, path: Path, content: Content, next: Proc)
    requires Inv(w) && Backed(w.log, pid, Writing(path, content, next))
    ensures Inv(Create(w, pid, path, content, next))
  {
    CreateKeeps(w, pid, path, content, next);
    if path in w.files {
      StopInv(w, pid);
    } else {
      Moved(w, Create(w, pid, path, content, next), pid, Writing(path, content, next));
    }
  }

  lemma MakeDirInv(w: World, pid: Pid, path: Path, next: Proc)
    requires Inv(w) && !next.Writing? && Backed(w.log, pid, next)
    ensures Inv(MakeDir(w, pid, path, next))
  {
    var made := w.(dirs := w.dirs + {path});
    GotoKeeps(made, pid, next);
    if path in w.dirs {
      StopInv(w, pid);
    } else {
      Moved(w, MakeDir(w, pid, path, next), pid, next);
    }
  }

  lemma LoadInv(w: World, pid: Pid, b: Binding, key: nat, now: int)
    requires Inv(w)
    ensures Inv(Apply(w, Load(pid, b, key, now)))
  {
    Positioned(w, pid);
    if At(w, pid).Idle? && Admits(w, b, key, now) {
      var g := w.files[GrantFile(b.plan)].content;
      var e := Saved(GrantFile(b.plan), g);
      assert e in w.log;
      var i :| 0 <= i < |w.log| && w.log[i] == e;
      assert Admitting(w.log[i], b, now);
      GotoKeeps(w, pid, Admitted(b, now));
      Moved(w, Goto(w, pid, Admitted(b, now)), pid, Admitted(b, now));
    } else {
      StopInv(w, pid);
    }
  }

  lemma LaunchInv(w: World, pid: Pid)
    requires Inv(w)
    ensures Inv(Apply(w, Launch(pid)))
  {
    Positioned(w, pid);
    var p := At(w, pid);
    if p.Dispatched? {
      var e := Launched(p.b, pid);
      NoteKeeps(w, e, pid, Supervised(p.b));
      HasGrows(w.log, e, p.b, pid, 0, 0);
      var i :| 0 <= i < |w.log| && w.log[i] == Saved(DispatchFile(p.b.output), Intent(p.b, pid));
      assert HasIntent(w.log, pid);
      Noted(w, Apply(w, Launch(pid)), pid, Supervised(p.b), e);
    }
  }

  lemma LaunchChildInv(w: World, pid: Pid)
    requires Inv(w)
    ensures Inv(Apply(w, LaunchChild(pid)))
  {
    Positioned(w, pid);
    var p := At(w, pid);
    if p.Marked? {
      var e := ChildLaunched(p.operation, pid);
      NoteKeeps(w, e, pid, Ended);
      Noted(w, Apply(w, LaunchChild(pid)), pid, Ended, e);
    }
  }

  // What a written file lets its process do next.
  lemma NextBacked(log: seq<Event>, pid: Pid, path: Path, content: Content, next: Proc)
    requires WritingBacked(log, pid, path, content, next) && !next.Writing?
    ensures Backed(log + [Saved(path, content)], pid, next)
  {
    var e := Saved(path, content);
    var more := log + [e];
    assert more[|log|] == e;
    match path {
      case ConsumedFile(plan) =>
        AbsentStays(log, e, pid);
        assert HasConsumed(more, content.binding, pid);
      case DispatchFile(output) =>
        HasGrows(log, e, content.binding, pid, 0, 0);
        assert e in more;
        forall i | 0 <= i < |more|
          ensures !(more[i].Launched? && more[i].owner == pid)
        {
          assert i < |log| ==> more[i] == log[i];
        }
      case ManifestFile(output) =>
        assert e in more;
      case AttemptFile(operation) =>
        AbsentStays(log, e, pid);
        assert e in more;
      case _ =>
    }
  }

  lemma WriteInv(w: World, pid: Pid)
    requires Inv(w)
    ensures Inv(Apply(w, Write(pid)))
  {
    Positioned(w, pid);
    var p := At(w, pid);
    if p.Writing? {
      var e := Saved(p.path, p.content);
      WriteKeeps(w, pid);
      NextBacked(w.log, pid, p.path, p.content, p.next);
      Noted(w, Apply(w, Write(pid)), pid, p.next, e);
    }
  }

  lemma IssueInv(w: World, pid: Pid, b: Binding, key: nat, now: int, notAfter: Option<int>)
    requires Inv(w)
    ensures Inv(Apply(w, Issue(pid, b, key, now, notAfter)))
  {
    Positioned(w, pid);
    StopInv(w, pid);
    if At(w, pid).Idle? && (notAfter.Some? ==> notAfter.value - now >= REMAINING_SECONDS) {
      MakeDirInv(w, pid, ConsentDir(b.plan), IssueReady(b, key, now, Expiry(now, notAfter)));
    }
  }

  lemma HasSupervised(log: seq<Event>, b: Binding, pid: Pid)
    requires Launched(b, pid) in log
    ensures HasLaunchedTo(log, b.output, pid)
  {
    var i :| 0 <= i < |log| && log[i] == Launched(b, pid);
  }

  lemma ResultInv(w: World, pid: Pid)
    requires Inv(w)
    ensures Inv(Apply(w, CreateResult(pid)))
  {
    Positioned(w, pid);
    var p := At(w, pid);
    if p.Inventoried? {
      if p.completed {
        HasSupervised(w.log, p.b, pid);
      }
      CreateInv(w, pid, ResultFile(p.b.output), Outcome(pid, p.completed), Ended);
    }
  }

  // A stop result claims nothing, so any process may write it.
  lemma StopResultBacked(log: seq<Event>, pid: Pid, output: nat)
    ensures Backed(log, pid, Writing(ResultFile(output), Outcome(pid, false), Ended))
  {
  }

  lemma StopResultInv(w: World, pid: Pid)
    requires Inv(w)
    ensures Inv(Apply(w, CreateStopResult(pid)))
  {
    var p := At(w, pid);
    if p.Consumed? || p.OutputMade? || p.Dispatched? || p.Supervised? || p.Inventoried? {
      StopResultBacked(w.log, pid, p.b.output);
      CreateInv(w, pid, ResultFile(p.b.output), Outcome(pid, false), Ended);
    }
  }

  lemma InventoryInv(w: World, pid: Pid, completed: bool)
    requires Inv(w)
    ensures Inv(Apply(w, CreateInventory(pid, completed)))
  {
    Positioned(w, pid);
    var p := At(w, pid);
    if p.Supervised? {
      CreateInv(w, pid, ManifestFile(p.b.output), Inventory(pid), Inventoried(p.b, completed));
    } else if p.OutputMade? || p.Dispatched? {
      CreateInv(w, pid, ManifestFile(p.b.output), Inventory(pid), Inventoried(p.b, false));
    }
  }

  lemma StepInv(w: World, s: Step)
    requires Inv(w)
    ensures Inv(Apply(w, s))
  {
    Positioned(w, s.pid);
    var p := At(w, s.pid);
    match s {
      case Issue(pid, b, key, now, notAfter) => IssueInv(w, pid, b, key, now, notAfter);
      case CreateGrant(pid) =>
        if p.IssueReady? {
          CreateInv(w, pid, GrantFile(p.b.plan), Grant(p.b, p.key, p.begin, p.end), Ended);
        }
      case Load(pid, b, key, now) => LoadInv(w, pid, b, key, now);
      case CreateConsumed(pid) =>
        if p.Admitted? {
          CreateInv(w, pid, ConsumedFile(p.b.plan), Consumption(p.b, pid, p.at), Consumed(p.b));
        }
      case MakeOutput(pid) =>
        if p.Consumed? {
          MakeDirInv(w, pid, OutDir(p.b.output), OutputMade(p.b));
        }
      case CreateIntent(pid) =>
        if p.OutputMade? {
          CreateInv(w, pid, DispatchFile(p.b.output), Intent(p.b, pid), Dispatched(p.b));
        }
      case Launch(pid) => LaunchInv(w, pid);
      case CreateInventory(pid, completed) => InventoryInv(w, pid, completed);
      case CreateResult(pid) => ResultInv(w, pid);
      case CreateStopResult(pid) => StopResultInv(w, pid);
      case CreateAttempt(pid, operation) =>
        if p.Idle? {
          CreateInv(w, pid, AttemptFile(operation), Attempt(pid), Marked(operation));
        }
      case LaunchChild(pid) => LaunchChildInv(w, pid);
      case Write(pid) => WriteInv(w, pid);
      case Stop(pid) => StopInv(w, pid);
    }
  }

  lemma {:induction false} RunInv(steps: seq<Step>)
    ensures Inv(Run(steps))
  {
    if steps != [] {
      RunInv(steps[..|steps| - 1]);
      StepInv(Run(steps[..|steps| - 1]), steps[|steps| - 1]);
    }
  }

  // ----- at most one of each ----------------------------------------------------------------------------------

  predicate GrantOf(e: Event, plan: nat) {
    e.Saved? && e.path == GrantFile(plan)
  }

  predicate ConsumptionOf(e: Event, plan: nat) {
    e.Saved? && e.path == ConsumedFile(plan)
  }

  predicate IntentOf(e: Event, plan: nat) {
    e.Saved? && e.content.Intent? && e.content.binding.plan == plan
  }

  predicate LaunchOf(e: Event, plan: nat) {
    e.Launched? && e.binding.plan == plan
  }

  predicate ChildOf(e: Event, operation: nat) {
    e.ChildLaunched? && e.operation == operation
  }

  // The process that consumed a plan's grant.
  lemma ConsumerIsOne(log: seq<Event>, a: Binding, p: Pid, b: Binding, q: Pid)
    requires OneSaveEach(log) && HasConsumed(log, a, p) && HasConsumed(log, b, q) && a.plan == b.plan
    ensures p == q && a == b
  {
    var i :| 0 <= i < |log| && log[i].Saved? && log[i].path == ConsumedFile(a.plan) && log[i].content.Consumption?
             && log[i].content.binding == a && log[i].content.owner == p;
    var j :| 0 <= j < |log| && log[j].Saved? && log[j].path == ConsumedFile(b.plan) && log[j].content.Consumption?
             && log[j].content.binding == b && log[j].content.owner == q;
    assert i == j;
  }

  lemma {:induction false} PrefixHas(log: seq<Event>, i: nat, b: Binding, pid: Pid)
    requires i <= |log| && HasConsumed(log[..i], b, pid)
    ensures HasConsumed(log, b, pid)
  {
    var k :| 0 <= k < i && log[..i][k].Saved? && log[..i][k].path == ConsumedFile(b.plan) && log[..i][k].content.Consumption?
             && log[..i][k].content.binding == b && log[..i][k].content.owner == pid;
    assert log[k] == log[..i][k];
  }

  lemma IntentConsumed(log: seq<Event>, i: nat, plan: nat) returns (b: Binding, pid: Pid)
    requires Ordered(log) && i < |log| && IntentOf(log[i], plan)
    ensures b == log[i].content.binding && pid == log[i].content.owner && b.plan == plan
    ensures HasConsumed(log, b, pid) && !HasIntent(log[..i], pid)
  {
    assert Justified(log[..i], log[i]);
    b, pid := log[i].content.binding, log[i].content.owner;
    PrefixHas(log, i, b, pid);
  }

  // A plan gets at most one grant, one consumption, one dispatch intent and one launch, in any interleaving.
  lemma AtMostOneDispatch(steps: seq<Step>, plan: nat, i: nat, j: nat)
    requires i < j < |Run(steps).log|
    ensures
      var log := Run(steps).log;
      && !(GrantOf(log[i], plan) && GrantOf(log[j], plan))
      && !(ConsumptionOf(log[i], plan) && ConsumptionOf(log[j], plan))
      && !(IntentOf(log[i], plan) && IntentOf(log[j], plan))
      && !(LaunchOf(log[i], plan) && LaunchOf(log[j], plan))
  {
    var log := Run(steps).log;
    RunInv(steps);
    if IntentOf(log[i], plan) && IntentOf(log[j], plan) {
      OneIntent(log, plan, i, j);
    }
    if LaunchOf(log[i], plan) && LaunchOf(log[j], plan) {
      OneLaunch(log, plan, i, j);
    }
  }

  lemma IntentSeen(log: seq<Event>, i: nat, j: nat)
    requires i < j <= |log| && log[i].Saved? && log[i].content.Intent?
    ensures HasIntent(log[..j], log[i].content.owner)
  {
    assert log[..j][i] == log[i];
  }

  lemma LaunchSeen(log: seq<Event>, i: nat, j: nat)
    requires i < j <= |log| && log[i].Launched?
    ensures HasLaunched(log[..j], log[i].owner)
  {
    assert log[..j][i] == log[i];
  }

  lemma LaunchConsumed(log: seq<Event>, i: nat)
    requires Ordered(log) && i < |log| && log[i].Launched?
    ensures HasConsumed(log, log[i].binding, log[i].owner) && !HasLaunched(log[..i], log[i].owner)
  {
    assert Justified(log[..i], log[i]);
    PrefixHas(log, i, log[i].binding, log[i].owner);
  }

  lemma OneIntent(log: seq<Event>, plan: nat, i: nat, j: nat)
    requires Ordered(log) && OneSaveEach(log) && i < j < |log| && IntentOf(log[i], plan)
    ensures !IntentOf(log[j], plan)
  {
    if IntentOf(log[j], plan) {
      var a, p := IntentConsumed(log, i, plan);
      var b, q := IntentConsumed(log, j, plan);
      ConsumerIsOne(log, a, p, b, q);
      IntentSeen(log, i, j);
    }
  }

  lemma OneLaunch(log: seq<Event>, plan: nat, i: nat, j: nat)
    requires Ordered(log) && OneSaveEach(log) && i < j < |log| && LaunchOf(log[i], plan)
    ensures !LaunchOf(log[j], plan)
  {
    if LaunchOf(log[j], plan) {
      LaunchConsumed(log, i);
      LaunchConsumed(log, j);
      ConsumerIsOne(log, log[i].binding, log[i].owner, log[j].binding, log[j].owner);
      LaunchSeen(log, i, j);
    }
  }

  lemma ChildMarked(log: seq<Event>, operation: nat, i: nat)
    requires Ordered(log) && i < |log| && ChildOf(log[i], operation)
    ensures SavedBy(log, AttemptFile(operation), Attempt(log[i].owner)) && !HasChild(log[..i], log[i].owner)
  {
    assert Justified(log[..i], log[i]);
    var k :| 0 <= k < i && log[..i][k] == Saved(AttemptFile(operation), Attempt(log[i].owner));
    assert log[k] == log[..i][k];
  }

  lemma MarkerIsOne(log: seq<Event>, path: Path, a: Content, b: Content)
    requires OneSaveEach(log) && SavedBy(log, path, a) && SavedBy(log, path, b)
    ensures a == b
  {
    var k :| 0 <= k < |log| && log[k] == Saved(path, a);
    var l :| 0 <= l < |log| && log[l] == Saved(path, b);
    assert log[k].path == log[l].path;
  }

  lemma ChildSeen(log: seq<Event>, i: nat, j: nat)
    requires i < j <= |log| && log[i].ChildLaunched?
    ensures HasChild(log[..j], log[i].owner)
  {
    assert log[..j][i] == log[i];
  }

  // An attempt marker lets at most one child be launched for its operation.
  lemma AtMostOneChild(steps: seq<Step>, operation: nat, i: nat, j: nat)
    requires i < j < |Run(steps).log|
    ensures !(ChildOf(Run(steps).log[i], operation) && ChildOf(Run(steps).log[j], operation))
  {
    var log := Run(steps).log;
    RunInv(steps);
    if ChildOf(log[i], operation) && ChildOf(log[j], operation) {
      ChildMarked(log, operation, i);
      ChildMarked(log, operation, j);
      MarkerIsOne(log, AttemptFile(operation), Attempt(log[i].owner), Attempt(log[j].owner));
      ChildSeen(log, i, j);
    }
  }

  // ----- order and window -------------------------------------------------------------------------------------

  // A consumption follows a grant of the same binding and falls inside its window less the reserved 180 seconds.
  lemma ConsumptionInWindow(steps: seq<Step>, plan: nat, i: nat) returns (j: nat)
    requires i < |Run(steps).log| && ConsumptionOf(Run(steps).log[i], plan)
    ensures j < i && GrantOf(Run(steps).log[j], plan)
    ensures
      var g, c := Run(steps).log[j].content, Run(steps).log[i].content;
      && g.Grant? && c.Consumption? && g.binding == c.binding
      && g.begin <= c.at <= g.end - REMAINING_SECONDS
      && REMAINING_SECONDS <= g.end - g.begin <= GRANT_SECONDS
  {
    var log := Run(steps).log;
    RunInv(steps);
    assert Justified(log[..i], log[i]);
    j :| 0 <= j < i && log[..i][j].Saved? && Admitting(log[..i][j], log[i].content.binding, log[i].content.at);
    assert log[j] == log[..i][j];
    assert Justified(log[..j], log[j]);
  }

  // A dispatch intent follows the consumption of the same binding by the same process; a launch follows the intent.
  lemma DispatchAfterConsumption(steps: seq<Step>, plan: nat, i: nat) returns (j: nat)
    requires i < |Run(steps).log| && IntentOf(Run(steps).log[i], plan)
    ensures j < i && ConsumptionOf(Run(steps).log[j], plan)
    ensures
      var c, d := Run(steps).log[j].content, Run(steps).log[i].content;
      c.Consumption? && c.binding == d.binding && c.owner == d.owner
  {
    var log := Run(steps).log;
    RunInv(steps);
    assert Justified(log[..i], log[i]);
    var b, pid := log[i].content.binding, log[i].content.owner;
    j :| 0 <= j < i && log[..i][j].Saved? && log[..i][j].path == ConsumedFile(b.plan) && log[..i][j].content.Consumption?
         && log[..i][j].content.binding == b && log[..i][j].content.owner == pid;
    assert log[j] == log[..i][j];
  }

  lemma LaunchAfterDispatch(steps: seq<Step>, plan: nat, i: nat) returns (j: nat)
    requires i < |Run(steps).log| && LaunchOf(Run(steps).log[i], plan)
    ensures j < i && IntentOf(Run(steps).log[j], plan)
    ensures Run(steps).log[j].content == Intent(Run(steps).log[i].binding, Run(steps).log[i].owner)
  {
    var log := Run(steps).log;
    RunInv(steps);
    assert Justified(log[..i], log[i]);
    j :| 0 <= j < i && log[..i][j] == Saved(DispatchFile(log[i].binding.output), Intent(log[i].binding, log[i].owner));
    assert log[j] == log[..i][j];
  }

  // A completed result is published only after its inventory is durable and after its launch.
  lemma CompletedResultIsSealed(steps: seq<Step>, output: nat, i: nat) returns (j: nat, k: nat)
    requires i < |Run(steps).log| && Run(steps).log[i].Saved? && Run(steps).log[i].path == ResultFile(output)
    requires Run(steps).log[i].content.Outcome? && Run(steps).log[i].content.completed
    ensures j < i && Run(steps).log[j] == Saved(ManifestFile(output), Inventory(Run(steps).log[i].content.owner))
    ensures k < i && Run(steps).log[k].Launched? && Run(steps).log[k].binding.output == output
    ensures Run(steps).log[k].owner == Run(steps).log[i].content.owner
  {
    var log := Run(steps).log;
    RunInv(steps);
    assert Justified(log[..i], log[i]);
    var pid := log[i].content.owner;
    j :| 0 <= j < i && log[..i][j] == Saved(ManifestFile(output), Inventory(pid));
    k :| 0 <= k < i && log[..i][k].Launched? && log[..i][k].owner == pid && log[..i][k].binding.output == output;
    assert log[j] == log[..i][j] && log[k] == log[..i][k];
  }

  lemma RunOneMore(steps: seq<Step>, more: seq<Step>)
    requires more != []
    ensures Run(steps + more) == Apply(Run(steps + more[..|more| - 1]), more[|more| - 1])
  {
    assert (steps + more)[..|steps + more| - 1] == steps + more[..|more| - 1];
  }

  ghost predicate Holds(w: World, path: Path, content: Content) {
    path in w.files && w.files[path] == Complete(content)
  }

  // What was saved is never changed: a file keeps the content it was completed with.
  lemma {:induction false} SavedStays(steps: seq<Step>, more: seq<Step>, path: Path, content: Content)
    requires Holds(Run(steps), path, content)
    ensures Holds(Run(steps + more), path, content)
    decreases |more|
  {
    if more == [] {
      assert steps + more == steps;
    } else {
      var shorter := more[..|more| - 1];
      SavedStays(steps, shorter, path, content);
      RunOneMore(steps, more);
      RunInv(steps + shorter);
      OneStepKeepsFile(Run(steps + shorter), more[|more| - 1], path);
    }
  }

  lemma OneStepKeepsFile(w: World, s: Step, path: Path)
    requires SoleWriters(w) && path in w.files && w.files[path].Complete?
    ensures path in Apply(w, s).files && Apply(w, s).files[path] == w.files[path]
  {
  }
}
