// Where the sessions and variants of the store come from.
module SessionStoreOrigins {
  import opened Wrappers
  import opened SessionIdentity
  import opened SessionStore
  import opened SessionStoreRuns

  // The k-th step asks for the session of this source, by its digest and at the checkpoint it declares.
  predicate CreatesAt(a: Adapter, steps: seq<Step>, pid: Pid, h: Header, raw: Raw, k: nat) {
    && k < |steps| && steps[k].Create? && steps[k].pid == pid && steps[k].raw == raw && steps[k].pin == a.digest(raw)
    && IsHeaderOf(a, h, raw) && steps[k].declared == h.identity.checkpoint
  }

  ghost predicate Creates(a: Adapter, steps: seq<Step>, pid: Pid, h: Header, raw: Raw) {
    exists k: nat :: CreatesAt(a, steps, pid, h, raw, k)
  }

  // The k-th step asks this session for the variant of its settings.
  predicate AsksAt(a: Adapter, steps: seq<Step>, pid: Pid, h: Header, r: Record, k: nat) {
    && k < |steps| && steps[k].Register? && steps[k].pid == pid && steps[k].id == h.sessionId
    && VariantUnder(h, steps[k].settings) == Ok(r.variant) && r == RecordOf(a, h, r.variant)
  }

  ghost predicate Asks(a: Adapter, steps: seq<Step>, pid: Pid, h: Header, r: Record) {
    exists k: nat :: AsksAt(a, steps, pid, h, r, k)
  }

  ghost predicate CreatesSome(a: Adapter, steps: seq<Step>, pid: Pid, h: Header) {
    exists raw :: Creates(a, steps, pid, h, raw)
  }

  ghost predicate ProcOrigin(a: Adapter, steps: seq<Step>, pid: Pid, p: Proc) {
    match p
    case Creating(h, raw, _, _) => Creates(a, steps, pid, h, raw)
    case Opening(h) => CreatesSome(a, steps, pid, h)
    case Opened(h) => CreatesSome(a, steps, pid, h)
    case Checked(h, r, _) => Asks(a, steps, pid, h, r)
    case Registering(h, r, _, _) => Asks(a, steps, pid, h, r)
    case Loading(h, r) => Asks(a, steps, pid, h, r)
    case Registered(h, r) => Asks(a, steps, pid, h, r)
    case _ => true
  }

  ghost predicate CreatedBySome(a: Adapter, steps: seq<Step>, h: Header, raw: Raw) {
    exists pid: Pid :: Creates(a, steps, pid, h, raw)
  }

  ghost predicate AskedBySome(a: Adapter, steps: seq<Step>, h: Header, r: Record) {
    exists pid: Pid :: Asks(a, steps, pid, h, r)
  }

  ghost predicate SessionOrigin(a: Adapter, steps: seq<Step>, dir: SessionDir) {
    && dir.manifest.Complete? && dir.source.Complete? && CreatedBySome(a, steps, dir.manifest.value, dir.source.value)
    && forall v :: v in dir.variants ==> VariantOrigin(a, steps, dir.manifest.value, dir.variants[v])
  }

  ghost predicate VariantOrigin(a: Adapter, steps: seq<Step>, h: Header, dir: VariantDir) {
    dir.record.Complete? && AskedBySome(a, steps, h, dir.record.value)
  }

  ghost predicate Origins(a: Adapter, steps: seq<Step>, w: World) {
    && (forall pid :: pid in w.procs ==> ProcOrigin(a, steps, pid, w.procs[pid]))
    && (forall id :: id in w.sessions ==> SessionOrigin(a, steps, w.sessions[id]))
  }

  // ----- what stays with a longer run -------------------------------------------------------------------------

  lemma CreatesGrows(a: Adapter, steps: seq<Step>, s: Step, pid: Pid, h: Header, raw: Raw)
    requires Creates(a, steps, pid, h, raw)
    ensures Creates(a, steps + [s], pid, h, raw)
  {
    var k: nat :| CreatesAt(a, steps, pid, h, raw, k);
    assert (steps + [s])[k] == steps[k];
    assert CreatesAt(a, steps + [s], pid, h, raw, k);
  }

  lemma AsksGrows(a: Adapter, steps: seq<Step>, s: Step, pid: Pid, h: Header, r: Record)
    requires Asks(a, steps, pid, h, r)
    ensures Asks(a, steps + [s], pid, h, r)
  {
    var k: nat :| AsksAt(a, steps, pid, h, r, k);
    assert (steps + [s])[k] == steps[k];
    assert AsksAt(a, steps + [s], pid, h, r, k);
  }

  lemma SomeGrows(a: Adapter, steps: seq<Step>, s: Step, pid: Pid, h: Header)
    requires CreatesSome(a, steps, pid, h)
    ensures CreatesSome(a, steps + [s], pid, h)
  {
    var raw :| Creates(a, steps, pid, h, raw);
    CreatesGrows(a, steps, s, pid, h, raw);
  }

  lemma ProcGrows(a: Adapter, steps: seq<Step>, s: Step, pid: Pid, p: Proc)
    requires ProcOrigin(a, steps, pid, p)
    ensures ProcOrigin(a, steps + [s], pid, p)
  {
    match p {
      case Creating(h, raw, _, _) => CreatesGrows(a, steps, s, pid, h, raw);
      case Opening(h) => SomeGrows(a, steps, s, pid, h);
      case Opened(h) => SomeGrows(a, steps, s, pid, h);
      case Checked(h, r, _) => AsksGrows(a, steps, s, pid, h, r);
      case Registering(h, r, _, _) => AsksGrows(a, steps, s, pid, h, r);
      case Loading(h, r) => AsksGrows(a, steps, s, pid, h, r);
      case Registered(h, r) => AsksGrows(a, steps, s, pid, h, r);
      case _ =>
    }
  }

  lemma VariantGrows(a: Adapter, steps: seq<Step>, s: Step, h: Header, dir: VariantDir)
    requires VariantOrigin(a, steps, h, dir)
    ensures VariantOrigin(a, steps + [s], h, dir)
  {
    var pid: Pid :| Asks(a, steps, pid, h, dir.record.value);
    AsksGrows(a, steps, s, pid, h, dir.record.value);
  }

  lemma SessionGrows(a: Adapter, steps: seq<Step>, s: Step, dir: SessionDir)
    requires SessionOrigin(a, steps, dir)
    ensures SessionOrigin(a, steps + [s], dir)
  {
    var pid: Pid :| Creates(a, steps, pid, dir.manifest.value, dir.source.value);
    CreatesGrows(a, steps, s, pid, dir.manifest.value, dir.source.value);
    forall v | v in dir.variants
      ensures VariantOrigin(a, steps + [s], dir.manifest.value, dir.variants[v])
    {
      VariantGrows(a, steps, s, dir.manifest.value, dir.variants[v]);
    }
  }

  // ----- one step ---------------------------------------------------------------------------------------------

  // Where a step leaves its process, and the one session it may have changed.
  lemma Stays(a: Adapter, steps: seq<Step>, s: Step, w: World, t: World, p: Proc)
    requires Origins(a, steps, w) && t.sessions == w.sessions && t.procs == w.procs[s.pid := p]
    requires ProcOrigin(a, steps + [s], s.pid, p)
    ensures Origins(a, steps + [s], t)
  {
    forall pid | pid in t.procs
      ensures ProcOrigin(a, steps + [s], pid, t.procs[pid])
    {
      if pid != s.pid {
        ProcGrows(a, steps, s, pid, w.procs[pid]);
      }
    }
    forall id | id in t.sessions
      ensures SessionOrigin(a, steps + [s], t.sessions[id])
    {
      SessionGrows(a, steps, s, w.sessions[id]);
    }
  }

  lemma Puts(a: Adapter, steps: seq<Step>, s: Step, w: World, t: World, p: Proc, id: Hash, dir: SessionDir)
    requires Origins(a, steps, w) && t.sessions == w.sessions[id := dir] && t.procs == w.procs[s.pid := p]
    requires ProcOrigin(a, steps + [s], s.pid, p) && SessionOrigin(a, steps + [s], dir)
    ensures Origins(a, steps + [s], t)
  {
    var u := t.(sessions := w.sessions);
    Stays(a, steps, s, w, u, p);
  }

  lemma Unmoved(a: Adapter, steps: seq<Step>, s: Step, w: World)
    requires Origins(a, steps, w)
    ensures Origins(a, steps + [s], w)
  {
    forall pid | pid in w.procs
      ensures ProcOrigin(a, steps + [s], pid, w.procs[pid])
    {
      ProcGrows(a, steps, s, pid, w.procs[pid]);
    }
    forall id | id in w.sessions
      ensures SessionOrigin(a, steps + [s], w.sessions[id])
    {
      SessionGrows(a, steps, s, w.sessions[id]);
    }
  }

  lemma CreateOrigin(a: Adapter, steps: seq<Step>, s: Step)
    requires s.Create? && Origins(a, steps, Run(a, steps))
    ensures Origins(a, steps + [s], Apply(a, Run(a, steps), s))
  {
    var w, t := Run(a, steps), Apply(a, Run(a, steps), s);
    if At(w, s.pid).Idle? {
      var info := LoadSource(a, s.raw, s.pin);
      if info.Some? && info.value.checkpoint == s.declared {
        var h := HeaderOf(a, s.raw, info.value);
        assert (steps + [s])[|steps|] == s;
        assert CreatesAt(a, steps + [s], s.pid, h, s.raw, |steps|);
        assert Creates(a, steps + [s], s.pid, h, s.raw);
      }
      Stays(a, steps, s, w, t, t.procs[s.pid]);
    } else {
      Unmoved(a, steps, s, w);
    }
  }

  lemma PlacedSession(a: Adapter, steps: seq<Step>, pid: Pid, h: Header, raw: Raw)
    requires Creates(a, steps, pid, h, raw)
    ensures SessionOrigin(a, steps, Staged(h, raw, CREATION_STAGES)) && CreatesSome(a, steps, pid, h)
  {
  }

  lemma RenameOrigin(a: Adapter, steps: seq<Step>, s: Step)
    requires s.Rename? && Origins(a, steps, Run(a, steps)) && Inv(a, Run(a, steps))
    ensures Origins(a, steps + [s], Apply(a, Run(a, steps), s))
  {
    var w, t := Run(a, steps), Apply(a, Run(a, steps), s);
    var p := At(w, s.pid);
    if p.Creating? && p.stage == CREATION_STAGES {
      ProcGrows(a, steps, s, s.pid, p);
      PlacedSession(a, steps + [s], s.pid, p.header, p.raw);
      if t.sessions == w.sessions {
        Stays(a, steps, s, w, t, t.procs[s.pid]);
      } else {
        Puts(a, steps, s, w, t, t.procs[s.pid], p.header.sessionId, w.staging[p.token]);
      }
    } else {
      Unmoved(a, steps, s, w);
    }
  }

  // Steps that change no session: reading, staging a session, ending.
  lemma QuietOrigin(a: Adapter, steps: seq<Step>, s: Step)
    requires s.Stage? || s.Open? || s.LoadRecord? || s.Crash?
    requires Origins(a, steps, Run(a, steps))
    ensures Origins(a, steps + [s], Apply(a, Run(a, steps), s))
  {
    var w, t := Run(a, steps), Apply(a, Run(a, steps), s);
    var p := At(w, s.pid);
    if t == w {
      Unmoved(a, steps, s, w);
    } else {
      if s.pid in w.procs {
        ProcGrows(a, steps, s, s.pid, p);
      }
      Stays(a, steps, s, w, t, t.procs[s.pid]);
    }
  }

  lemma AskedLast(a: Adapter, steps: seq<Step>, s: Step, h: Header)
    requires s.Register? && s.id == h.sessionId && VariantUnder(h, s.settings).Ok?
    ensures Asks(a, steps + [s], s.pid, h, RecordOf(a, h, VariantUnder(h, s.settings).value))
  {
    assert (steps + [s])[|steps|] == s;
    assert AsksAt(a, steps + [s], s.pid, h, RecordOf(a, h, VariantUnder(h, s.settings).value), |steps|);
  }

  lemma AfterAsking(a: Adapter, steps: seq<Step>, s: Step, w: World, h: Header)
    requires s.Register? && s.id == h.sessionId && h.sessionId in w.sessions
    ensures ProcOrigin(a, steps + [s], s.pid, AfterCount(a, w, h, VariantUnder(h, s.settings), s.token))
  {
    if VariantUnder(h, s.settings).Ok? {
      AskedLast(a, steps, s, h);
    }
  }

  lemma RegisterOrigin(a: Adapter, steps: seq<Step>, s: Step)
    requires s.Register? && Origins(a, steps, Run(a, steps))
    ensures Origins(a, steps + [s], Apply(a, Run(a, steps), s))
  {
    var w, t := Run(a, steps), Apply(a, Run(a, steps), s);
    if At(w, s.pid).Idle? {
      var header := OpenSession(a, w, s.id);
      if header.Some? {
        AfterAsking(a, steps, s, w, header.value);
      }
      Stays(a, steps, s, w, t, t.procs[s.pid]);
    } else {
      Unmoved(a, steps, s, w);
    }
  }

  // A session whose staging names alone change keeps its origin.
  lemma Restaged(a: Adapter, steps: seq<Step>, dir: SessionDir, staging: map<Token, VariantDir>)
    requires SessionOrigin(a, steps, dir)
    ensures SessionOrigin(a, steps, dir.(staging := staging))
  {
  }

  lemma StageVariantOrigin(a: Adapter, steps: seq<Step>, s: Step)
    requires s.StageVariant? && Origins(a, steps, Run(a, steps))
    ensures Origins(a, steps + [s], Apply(a, Run(a, steps), s))
  {
    var w, t := Run(a, steps), Apply(a, Run(a, steps), s);
    var p := At(w, s.pid);
    if t == w {
      Unmoved(a, steps, s, w);
    } else {
      ProcGrows(a, steps, s, s.pid, p);
      if t.sessions == w.sessions {
        Stays(a, steps, s, w, t, t.procs[s.pid]);
      } else {
        var id := p.header.sessionId;
        SessionGrows(a, steps, s, w.sessions[id]);
        Restaged(a, steps + [s], w.sessions[id], t.sessions[id].staging);
        Puts(a, steps, s, w, t, t.procs[s.pid], id, t.sessions[id]);
      }
    }
  }

  lemma PlacedVariant(a: Adapter, steps: seq<Step>, pid: Pid, dir: SessionDir, r: Record)
    requires SessionOrigin(a, steps, dir) && Asks(a, steps, pid, dir.manifest.value, r)
    ensures SessionOrigin(a, steps, dir.(variants := dir.variants[r.variantId := VariantDir(Complete(r))]))
  {
  }

  lemma RenameVariantOrigin(a: Adapter, steps: seq<Step>, s: Step)
    requires s.RenameVariant? && Origins(a, steps, Run(a, steps)) && Inv(a, Run(a, steps))
    ensures Origins(a, steps + [s], Apply(a, Run(a, steps), s))
  {
    var w, t := Run(a, steps), Apply(a, Run(a, steps), s);
    var p := At(w, s.pid);
    if t == w {
      Unmoved(a, steps, s, w);
    } else {
      ProcGrows(a, steps, s, s.pid, p);
      var id := p.header.sessionId;
      var dir := w.sessions[id];
      SessionGrows(a, steps, s, dir);
      Restaged(a, steps + [s], dir, dir.staging - {p.token});
      if p.record.variantId !in dir.variants {
        PlacedVariant(a, steps + [s], s.pid, dir.(staging := dir.staging - {p.token}), p.record);
      }
      Puts(a, steps, s, w, t, t.procs[s.pid], id, t.sessions[id]);
    }
  }

  lemma AbortOrigin(a: Adapter, steps: seq<Step>, s: Step)
    requires s.Abort? && Origins(a, steps, Run(a, steps))
    ensures Origins(a, steps + [s], Apply(a, Run(a, steps), s))
  {
    var w, t := Run(a, steps), Apply(a, Run(a, steps), s);
    var p := At(w, s.pid);
    if p.Registering? && p.header.sessionId in w.sessions {
      var id := p.header.sessionId;
      SessionGrows(a, steps, s, w.sessions[id]);
      Restaged(a, steps + [s], w.sessions[id], t.sessions[id].staging);
      Puts(a, steps, s, w, t, Failed, id, t.sessions[id]);
    } else {
      Stays(a, steps, s, w, t, Failed);
    }
  }

  lemma StepOrigins(a: Adapter, steps: seq<Step>, s: Step)
    requires Origins(a, steps, Run(a, steps)) && Inv(a, Run(a, steps))
    ensures Origins(a, steps + [s], Apply(a, Run(a, steps), s))
  {
    match s {
      case Create(_, _, _, _, _) => CreateOrigin(a, steps, s);
      case Rename(_) => RenameOrigin(a, steps, s);
      case Register(_, _, _, _) => RegisterOrigin(a, steps, s);
      case StageVariant(_) => StageVariantOrigin(a, steps, s);
      case RenameVariant(_) => RenameVariantOrigin(a, steps, s);
      case Abort(_) => AbortOrigin(a, steps, s);
      case _ => QuietOrigin(a, steps, s);
    }
  }

  lemma {:induction false} RunOrigins(a: Adapter, steps: seq<Step>)
    requires a.Injective()
    ensures Origins(a, steps, Run(a, steps))
  {
    if steps != [] {
      var shorter := steps[..|steps| - 1];
      RunOrigins(a, shorter);
      RunInv(a, shorter);
      StepOrigins(a, shorter, steps[|steps| - 1]);
      assert shorter + [steps[|steps| - 1]] == steps;
    }
  }

  // ----- every run --------------------------------------------------------------------------------------------

  // Every session was created by a step that named its source by digest and declared its checkpoint.
  lemma SessionIsCreated(a: Adapter, steps: seq<Step>, id: Hash) returns (k: nat)
    requires a.Injective() && id in Run(a, steps).sessions
    ensures k < |steps| && steps[k].Create?
    ensures
      var dir := Run(a, steps).sessions[id];
      && dir.source == Complete(steps[k].raw) && steps[k].pin == a.digest(steps[k].raw)
      && dir.manifest.Complete? && IsHeaderOf(a, dir.manifest.value, steps[k].raw)
      && steps[k].declared == dir.manifest.value.identity.checkpoint && dir.manifest.value.sessionId == id
  {
    RunOrigins(a, steps);
    RunInv(a, steps);
    var dir := Run(a, steps).sessions[id];
    assert SessionOrigin(a, steps, dir) && SoundSession(a, id, dir);
    var pid: Pid :| Creates(a, steps, pid, dir.manifest.value, dir.source.value);
    k :| CreatesAt(a, steps, pid, dir.manifest.value, dir.source.value, k);
  }

  // Every variant was asked for, of its session, by settings that derive it.
  lemma VariantIsAskedFor(a: Adapter, steps: seq<Step>, id: Hash, v: Hash) returns (k: nat)
    requires a.Injective() && id in Run(a, steps).sessions && v in Run(a, steps).sessions[id].variants
    ensures k < |steps| && steps[k].Register? && steps[k].id == id
    ensures
      var dir := Run(a, steps).sessions[id];
      && dir.manifest.Complete? && VariantUnder(dir.manifest.value, steps[k].settings).Ok?
      && dir.variants[v].record == Complete(RecordOf(a, dir.manifest.value, VariantUnder(dir.manifest.value, steps[k].settings).value))
  {
    RunOrigins(a, steps);
    RunInv(a, steps);
    var dir := Run(a, steps).sessions[id];
    assert SessionOrigin(a, steps, dir) && SoundSession(a, id, dir) && VariantOrigin(a, steps, dir.manifest.value, dir.variants[v]);
    var pid: Pid :| Asks(a, steps, pid, dir.manifest.value, dir.variants[v].record.value);
    k :| AsksAt(a, steps, pid, dir.manifest.value, dir.variants[v].record.value, k);
  }

  // What a process is given answers what it asked: the session of its source, the variant of its settings.
  lemma AnswersAreAskedFor(a: Adapter, steps: seq<Step>, pid: Pid)
    requires a.Injective()
    ensures
      var p := At(Run(a, steps), pid);
      && (p.Opened? ==> CreatesSome(a, steps, pid, p.header))
      && (p.Registered? ==> Asks(a, steps, pid, p.header, p.record))
  {
    RunOrigins(a, steps);
  }
}
