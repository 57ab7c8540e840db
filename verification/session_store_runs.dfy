// Runs of the session store: what every interleaving keeps.
// One step moves one process. A staging directory belongs to one process and holds what its stage says; a directory with
// a session or variant id is complete, since only finished staging directories are renamed. Later worlds keep every source,
// manifest and variant. The last part is the variant limit when registrations do not overlap.
module SessionStoreRuns {
  import opened Wrappers
  import opened SessionIdentity
  import opened SessionStore

  // ----- growing worlds ---------------------------------------------------------------------------------------

  lemma ExtendsRefl(w: World)
    ensures Extends(w, w)
  {
  }

  lemma ExtendsTrans(w: World, t: World, u: World)
    requires Extends(w, t) && Extends(t, u)
    ensures Extends(w, u)
  {
    forall id | id in w.sessions
      ensures id in u.sessions && u.sessions[id].source == w.sessions[id].source && u.sessions[id].manifest == w.sessions[id].manifest
      ensures forall v :: v in w.sessions[id].variants ==> v in u.sessions[id].variants && u.sessions[id].variants[v] == w.sessions[id].variants[v]
    {
      assert id in t.sessions;
    }
  }

  // The private directory a process holds, if it holds one.
  ghost predicate KeepsStaging(w: World, t: World, p: Proc) {
    && (p.Creating? && p.token in w.staging ==> p.token in t.staging && t.staging[p.token] == w.staging[p.token])
    && (p.Registering? && p.header.sessionId in w.sessions && p.token in w.sessions[p.header.sessionId].staging ==>
          && p.header.sessionId in t.sessions && p.token in t.sessions[p.header.sessionId].staging
          && t.sessions[p.header.sessionId].staging[p.token] == w.sessions[p.header.sessionId].staging[p.token])
  }

  lemma HeldStays(a: Adapter, w: World, t: World, p: Proc)
    requires Held(a, w, p) && Extends(w, t) && KeepsStaging(w, t, p)
    ensures Held(a, t, p)
  {
  }

  // One process moves; everything else it may not touch stays.
  ghost predicate Quiet(w: World, t: World, pid: Pid) {
    forall q :: q in w.procs && q != pid ==> KeepsStaging(w, t, w.procs[q])
  }

  ghost predicate FreshStaging(w: World, pid: Pid, p: Proc) {
    forall q :: q in w.procs && q != pid ==> !SameStaging(w.procs[q], p) && !SameStaging(p, w.procs[q])
  }

  lemma Moved(a: Adapter, w: World, t: World, pid: Pid, p: Proc)
    requires Inv(a, w) && SoundSessions(a, t) && Extends(w, t) && t.procs == w.procs[pid := p]
    requires Quiet(w, t, pid) && Held(a, t, p) && FreshStaging(w, pid, p)
    ensures Inv(a, t)
  {
    forall q | q in t.procs
      ensures Held(a, t, t.procs[q])
    {
      if q != pid {
        HeldStays(a, w, t, w.procs[q]);
      }
    }
  }

  // The filesystem stays as it is.
  lemma MovedOnly(a: Adapter, w: World, pid: Pid, p: Proc)
    requires Inv(a, w) && !p.Creating? && !p.Registering? && Held(a, w, p)
    ensures Inv(a, Goto(w, pid, p)) && Extends(w, Goto(w, pid, p))
  {
    var t := Goto(w, pid, p);
    assert SoundSessions(a, t);
    HeldStays(a, w, t, p);
    Moved(a, w, t, pid, p);
  }

  lemma Positioned(a: Adapter, w: World, pid: Pid)
    requires Inv(a, w)
    ensures Held(a, w, At(w, pid))
  {
  }

  // ----- sessions ---------------------------------------------------------------------------------------------

  lemma StagingPut(a: Adapter, w: World, pid: Pid, token: Token, dir: SessionDir, p: Proc)
    requires Inv(a, w) && p.Creating? && p.token == token && FreshStaging(w, pid, p)
    requires Held(a, w.(staging := w.staging[token := dir]), p)
    ensures
      var t := Goto(w.(staging := w.staging[token := dir]), pid, p);
      Inv(a, t) && Extends(w, t)
  {
    var t := Goto(w.(staging := w.staging[token := dir]), pid, p);
    assert SoundSessions(a, t);
    forall q | q in w.procs && q != pid
      ensures KeepsStaging(w, t, w.procs[q])
    {
      assert !SameStaging(w.procs[q], p);
    }
    Moved(a, w, t, pid, p);
  }

  // A session's files re-derive its header, so opening an existing session always succeeds.
  lemma OpenSucceeds(a: Adapter, w: World, id: Hash)
    requires SoundSessions(a, w) && id in w.sessions
    ensures OpenSession(a, w, id) == Some(w.sessions[id].manifest.value)
  {
    assert SoundSession(a, id, w.sessions[id]);
  }

  // Two sound headers of one id are one header.
  lemma ExistingIsHeader(a: Adapter, w: World, h: Header, raw: Raw)
    requires a.Injective() && SoundSessions(a, w) && h.sessionId in w.sessions && IsHeaderOf(a, h, raw)
    ensures Existing(a, w, h)
  {
    var dir := w.sessions[h.sessionId];
    assert SoundSession(a, h.sessionId, dir);
    SameIdSameHeader(a, h, raw, dir.manifest.value, dir.source.value);
  }

  lemma CreateInv(a: Adapter, w: World, pid: Pid, raw: Raw, pin: Hash, declared: Checkpoint, token: Token)
    requires Inv(a, w) && a.Injective() && At(w, pid).Idle?
    ensures
      var t := CreateStep(a, w, pid, raw, pin, declared, token);
      Inv(a, t) && Extends(w, t)
  {
    var info := LoadSource(a, raw, pin);
    MovedOnly(a, w, pid, Failed);
    if info.Some? && info.value.checkpoint == declared {
      var header := HeaderOf(a, raw, info.value);
      if header.sessionId in w.sessions {
        ExistingIsHeader(a, w, header, raw);
        MovedOnly(a, w, pid, Opening(header));
      } else if token !in w.staging {
        var p := Creating(header, raw, token, 0);
        forall q | q in w.procs && q != pid
          ensures !SameStaging(w.procs[q], p)
        {
          assert Held(a, w, w.procs[q]);
        }
        StagingPut(a, w, pid, token, NEW_DIR, p);
      }
    }
  }

  lemma StageInv(a: Adapter, w: World, pid: Pid)
    requires Inv(a, w)
    ensures Inv(a, Apply(a, w, Stage(pid))) && Extends(w, Apply(a, w, Stage(pid)))
  {
    Positioned(a, w, pid);
    var p := At(w, pid);
    if p.Creating? && p.stage < CREATION_STAGES {
      var next := Creating(p.header, p.raw, p.token, p.stage + 1);
      assert FreshStaging(w, pid, next);
      StagingPut(a, w, pid, p.token, Staged(p.header, p.raw, p.stage + 1), next);
    }
  }

  // Removing one's own staging directory disturbs nobody.
  lemma ClearedQuiet(a: Adapter, w: World, t: World, pid: Pid)
    requires Inv(a, w) && pid in w.procs && w.procs[pid].Creating?
    requires t.staging == w.staging - {w.procs[pid].token} && Extends(w, t)
    requires forall id :: id in w.sessions ==> id in t.sessions && t.sessions[id].staging == w.sessions[id].staging
    ensures Quiet(w, t, pid)
  {
    forall q | q in w.procs && q != pid
      ensures KeepsStaging(w, t, w.procs[q])
    {
      assert !SameStaging(w.procs[q], w.procs[pid]);
    }
  }

  lemma FinishedIsSound(a: Adapter, h: Header, raw: Raw)
    requires IsHeaderOf(a, h, raw)
    ensures SoundSession(a, h.sessionId, Staged(h, raw, CREATION_STAGES))
  {
  }

  lemma RenameInv(a: Adapter, w: World, pid: Pid)
    requires Inv(a, w) && a.Injective()
    ensures Inv(a, Apply(a, w, Rename(pid))) && Extends(w, Apply(a, w, Rename(pid)))
  {
    Positioned(a, w, pid);
    var p := At(w, pid);
    if p.Creating? && p.stage == CREATION_STAGES {
      var id := p.header.sessionId;
      var t := RenameStep(w, pid, p);
      if id in w.sessions {
        ExistingIsHeader(a, w, p.header, p.raw);
      } else {
        FinishedIsSound(a, p.header, p.raw);
      }
      assert SoundSessions(a, t);
      ClearedQuiet(a, w, t, pid);
      Moved(a, w, t, pid, At(t, pid));
    }
  }

  lemma OpenInv(a: Adapter, w: World, pid: Pid)
    requires Inv(a, w)
    ensures Inv(a, Apply(a, w, Open(pid))) && Extends(w, Apply(a, w, Open(pid)))
  {
    Positioned(a, w, pid);
    var p := At(w, pid);
    MovedOnly(a, w, pid, Failed);
    if p.Opening? {
      MovedOnly(a, w, pid, Opened(p.header));
    }
  }

  // ----- variants ---------------------------------------------------------------------------------------------

  lemma RecordExists(a: Adapter, w: World, h: Header, r: Record)
    requires a.Injective() && SoundSessions(a, w) && Existing(a, w, h) && IsRecordOf(a, h, r)
    requires r.variantId in w.sessions[h.sessionId].variants
    ensures ExistingVariant(a, w, h, r)
  {
    var dir := w.sessions[h.sessionId];
    assert SoundSession(a, h.sessionId, dir);
    assert SoundVariant(a, h, r.variantId, dir.variants[r.variantId]);
    SameVariantSameRecord(a, h, r, dir.variants[r.variantId].record.value);
  }

  lemma RegisterInv(a: Adapter, w: World, pid: Pid, id: Hash, settings: Settings, token: Token)
    requires Inv(a, w) && a.Injective() && At(w, pid).Idle?
    ensures
      var t := RegisterStep(a, w, pid, id, settings, token);
      Inv(a, t) && Extends(w, t)
  {
    MovedOnly(a, w, pid, Failed);
    var header := OpenSession(a, w, id);
    if header.Some? {
      var h := header.value;
      var v := VariantUnder(h, settings);
      if v.Ok? {
        RegisteredRecord(a, h, settings);
        var record := RecordOf(a, h, v.value);
        if record.variantId in w.sessions[id].variants {
          RecordExists(a, w, h, record);
          MovedOnly(a, w, pid, Loading(h, record));
        } else if |w.sessions[id].variants| < MAX_VARIANTS {
          MovedOnly(a, w, pid, Checked(h, record, token));
        }
      }
    }
  }

  // A change inside one session that keeps its source, manifest and variants, or adds a sound variant.
  lemma SessionPut(a: Adapter, w: World, t: World, pid: Pid, id: Hash, dir: SessionDir, p: Proc)
    requires Inv(a, w) && id in w.sessions && t == Goto(w.(sessions := w.sessions[id := dir]), pid, p)
    requires dir.source == w.sessions[id].source && dir.manifest == w.sessions[id].manifest && dir.variantsMade == w.sessions[id].variantsMade
    requires forall v :: v in w.sessions[id].variants ==> v in dir.variants && dir.variants[v] == w.sessions[id].variants[v]
    requires SoundSession(a, id, dir) && Held(a, t, p) && FreshStaging(w, pid, p)
    requires forall q :: q in w.procs && q != pid ==> KeepsStaging(w, t, w.procs[q])
    ensures Inv(a, t) && Extends(w, t)
  {
    assert SoundSessions(a, t);
    assert Extends(w, t);
    Moved(a, w, t, pid, p);
  }

  lemma SameVariantsSound(a: Adapter, id: Hash, dir: SessionDir, staging: map<Token, VariantDir>)
    requires SoundSession(a, id, dir)
    ensures SoundSession(a, id, dir.(staging := staging))
  {
  }

  lemma VariantStagePut(a: Adapter, w: World, pid: Pid, p: Proc, stage: nat)
    requires Inv(a, w) && p.Registering? && Existing(a, w, p.header) && p.stage == stage <= REGISTRATION_STAGES
    requires IsRecordOf(a, p.header, p.record) && FreshStaging(w, pid, p)
    ensures
      var dir := w.sessions[p.header.sessionId];
      var t := Goto(w.(sessions := w.sessions[p.header.sessionId := dir.(staging := dir.staging[p.token := StagedVariant(p.record, stage)])]), pid, p);
      Inv(a, t) && Extends(w, t)
  {
    var id := p.header.sessionId;
    var dir := w.sessions[id];
    var staging := dir.staging[p.token := StagedVariant(p.record, stage)];
    var t := Goto(w.(sessions := w.sessions[id := dir.(staging := staging)]), pid, p);
    SameVariantsSound(a, id, dir, staging);
    forall q | q in w.procs && q != pid
      ensures KeepsStaging(w, t, w.procs[q])
    {
      assert !SameStaging(w.procs[q], p);
    }
    SessionPut(a, w, t, pid, id, dir.(staging := staging), p);
  }

  lemma StageVariantInv(a: Adapter, w: World, pid: Pid)
    requires Inv(a, w)
    ensures Inv(a, Apply(a, w, StageVariant(pid))) && Extends(w, Apply(a, w, StageVariant(pid)))
  {
    Positioned(a, w, pid);
    var p := At(w, pid);
    MovedOnly(a, w, pid, Failed);
    if p.Checked? && p.token !in w.sessions[p.header.sessionId].staging {
      var next := Registering(p.header, p.record, p.token, 0);
      forall q | q in w.procs && q != pid
        ensures !SameStaging(w.procs[q], next)
      {
        assert Held(a, w, w.procs[q]);
      }
      VariantStagePut(a, w, pid, next, 0);
    }
    if p.Registering? && p.stage < REGISTRATION_STAGES {
      var next := Registering(p.header, p.record, p.token, p.stage + 1);
      assert FreshStaging(w, pid, next);
      VariantStagePut(a, w, pid, next, p.stage + 1);
    }
  }

  lemma OwnCleared(a: Adapter, w: World, t: World, pid: Pid, dir: SessionDir)
    requires Inv(a, w) && pid in w.procs && w.procs[pid].Registering?
    requires
      var p := w.procs[pid];
      && p.header.sessionId in w.sessions && t.staging == w.staging
      && t.sessions == w.sessions[p.header.sessionId := dir] && dir.staging == w.sessions[p.header.sessionId].staging - {p.token}
    ensures forall q :: q in w.procs && q != pid ==> KeepsStaging(w, t, w.procs[q])
  {
    forall q | q in w.procs && q != pid
      ensures KeepsStaging(w, t, w.procs[q])
    {
      assert !SameStaging(w.procs[q], w.procs[pid]);
    }
  }

  lemma RenameVariantInv(a: Adapter, w: World, pid: Pid)
    requires Inv(a, w) && a.Injective()
    ensures Inv(a, Apply(a, w, RenameVariant(pid))) && Extends(w, Apply(a, w, RenameVariant(pid)))
  {
    Positioned(a, w, pid);
    var p := At(w, pid);
    if p.Registering? && p.stage == REGISTRATION_STAGES {
      var id := p.header.sessionId;
      var dir := w.sessions[id];
      var cleared := dir.(staging := dir.staging - {p.token});
      var t := Apply(a, w, RenameVariant(pid));
      SameVariantsSound(a, id, dir, dir.staging - {p.token});
      if p.record.variantId in dir.variants {
        RecordExists(a, w, p.header, p.record);
        OwnCleared(a, w, t, pid, cleared);
        SessionPut(a, w, t, pid, id, cleared, At(t, pid));
      } else {
        var placed := cleared.(variants := dir.variants[p.record.variantId := dir.staging[p.token]]);
        assert SoundVariant(a, p.header, p.record.variantId, dir.staging[p.token]);
        OwnCleared(a, w, t, pid, placed);
        SessionPut(a, w, t, pid, id, placed, At(t, pid));
      }
    }
  }

  lemma LoadInv(a: Adapter, w: World, pid: Pid)
    requires Inv(a, w)
    ensures Inv(a, Apply(a, w, LoadRecord(pid))) && Extends(w, Apply(a, w, LoadRecord(pid)))
  {
    Positioned(a, w, pid);
    var p := At(w, pid);
    MovedOnly(a, w, pid, Failed);
    if p.Loading? {
      MovedOnly(a, w, pid, Registered(p.header, p.record));
    }
  }

  lemma AbortInv(a: Adapter, w: World, pid: Pid)
    requires Inv(a, w)
    ensures Inv(a, Apply(a, w, Abort(pid))) && Extends(w, Apply(a, w, Abort(pid)))
  {
    Positioned(a, w, pid);
    var p := At(w, pid);
    var t := Apply(a, w, Abort(pid));
    MovedOnly(a, w, pid, Failed);
    if p.Creating? {
      assert SoundSessions(a, t);
      ClearedQuiet(a, w, t, pid);
      Moved(a, w, t, pid, Failed);
    } else if p.Registering? {
      var dir := w.sessions[p.header.sessionId];
      SameVariantsSound(a, p.header.sessionId, dir, dir.staging - {p.token});
      OwnCleared(a, w, t, pid, dir.(staging := dir.staging - {p.token}));
      SessionPut(a, w, t, pid, p.header.sessionId, dir.(staging := dir.staging - {p.token}), Failed);
    }
  }

  lemma StepInv(a: Adapter, w: World, s: Step)
    requires Inv(a, w) && a.Injective()
    ensures Inv(a, Apply(a, w, s)) && Extends(w, Apply(a, w, s))
  {
    ExtendsRefl(w);
    match s {
      case Create(pid, raw, pin, declared, token) =>
        if At(w, pid).Idle? {
          CreateInv(a, w, pid, raw, pin, declared, token);
        }
      case Stage(pid) => StageInv(a, w, pid);
      case Rename(pid) => RenameInv(a, w, pid);
      case Open(pid) => OpenInv(a, w, pid);
      case Register(pid, id, settings, token) =>
        if At(w, pid).Idle? {
          RegisterInv(a, w, pid, id, settings, token);
        }
      case StageVariant(pid) => StageVariantInv(a, w, pid);
      case RenameVariant(pid) => RenameVariantInv(a, w, pid);
      case LoadRecord(pid) => LoadInv(a, w, pid);
      case Abort(pid) => AbortInv(a, w, pid);
      case Crash(pid) => MovedOnly(a, w, pid, Failed);
    }
  }

  // ----- runs -------------------------------------------------------------------------------------------------

  // In every run a directory with a session or variant id holds a complete record that re-derives that id.
  lemma {:induction false} RunInv(a: Adapter, steps: seq<Step>)
    requires a.Injective()
    ensures Inv(a, Run(a, steps))
  {
    if steps != [] {
      RunInv(a, steps[..|steps| - 1]);
      StepInv(a, Run(a, steps[..|steps| - 1]), steps[|steps| - 1]);
    }
  }

  lemma RunOneMore(a: Adapter, steps: seq<Step>, more: seq<Step>)
    requires more != []
    ensures Run(a, steps + more) == Apply(a, Run(a, steps + more[..|more| - 1]), more[|more| - 1])
  {
    assert (steps + more)[..|steps + more| - 1] == steps + more[..|more| - 1];
  }

  // Nothing recorded changes afterwards: sources, manifests and variants stay.
  lemma {:induction false} RecordsStay(a: Adapter, steps: seq<Step>, more: seq<Step>)
    requires a.Injective()
    ensures Extends(Run(a, steps), Run(a, steps + more))
    decreases |more|
  {
    if more == [] {
      assert steps + more == steps;
      ExtendsRefl(Run(a, steps));
    } else {
      var shorter := more[..|more| - 1];
      RecordsStay(a, steps, shorter);
      RunOneMore(a, steps, more);
      RunInv(a, steps + shorter);
      StepInv(a, Run(a, steps + shorter), more[|more| - 1]);
      ExtendsTrans(Run(a, steps), Run(a, steps + shorter), Run(a, steps + more));
    }
  }

  // All processes that opened or created one session id hold the same header, and its source derives it.
  lemma SameHeaderForAll(a: Adapter, steps: seq<Step>, x: Pid, y: Pid)
    requires a.Injective() && At(Run(a, steps), x).Opened? && At(Run(a, steps), y).Opened?
    requires At(Run(a, steps), x).header.sessionId == At(Run(a, steps), y).header.sessionId
    ensures At(Run(a, steps), x).header == At(Run(a, steps), y).header
    ensures
      var w, h := Run(a, steps), At(Run(a, steps), x).header;
      h.sessionId in w.sessions && w.sessions[h.sessionId].source.Complete? && IsHeaderOf(a, h, w.sessions[h.sessionId].source.value)
  {
    var w := Run(a, steps);
    RunInv(a, steps);
    Positioned(a, w, x);
    Positioned(a, w, y);
    assert SoundSession(a, w.procs[x].header.sessionId, w.sessions[w.procs[x].header.sessionId]);
  }

  // Reading back never fails in a run: every listed session opens, every listed variant loads.
  lemma NothingDrifts(a: Adapter, steps: seq<Step>, id: Hash, v: Hash)
    requires a.Injective() && id in Run(a, steps).sessions
    ensures OpenSession(a, Run(a, steps), id).Some?
    ensures
      var w := Run(a, steps);
      v in w.sessions[id].variants ==>
        var loaded := LoadVariant(a, w, OpenSession(a, w, id).value, v);
        loaded.Some? && w.sessions[id].variants[v].record == Complete(loaded.value)
  {
    var w := Run(a, steps);
    RunInv(a, steps);
    OpenSucceeds(a, w, id);
    assert SoundSession(a, id, w.sessions[id]);
    if v in w.sessions[id].variants {
      assert SoundVariant(a, w.sessions[id].manifest.value, v, w.sessions[id].variants[v]);
    }
  }

  // ----- the variant limit ------------------------------------------------------------------------------------

  predicate Registers(p: Proc) {
    p.Checked? || p.Registering?
  }

  // At most one process is between its count and its rename.
  ghost predicate Serial(w: World) {
    forall x, y :: x in w.procs && y in w.procs && Registers(w.procs[x]) && Registers(w.procs[y]) ==> x == y
  }

  predicate LeavesRoom(w: World, p: Proc) {
    Registers(p) ==>
      && p.header.sessionId in w.sessions
      && (p.record.variantId in w.sessions[p.header.sessionId].variants || |w.sessions[p.header.sessionId].variants| < MAX_VARIANTS)
  }

  ghost predicate Limited(w: World) {
    && (forall id :: id in w.sessions ==> |w.sessions[id].variants| <= MAX_VARIANTS)
    && (forall pid :: pid in w.procs ==> LeavesRoom(w, w.procs[pid]))
  }

  // Old sessions keep their variants; a new one has none.
  ghost predicate SameVariants(w: World, t: World) {
    && (forall id :: id in w.sessions ==> id in t.sessions && t.sessions[id].variants == w.sessions[id].variants)
    && (forall id :: id in t.sessions && id !in w.sessions ==> t.sessions[id].variants == map[])
  }

  lemma SameVariantsLimited(w: World, t: World, pid: Pid, p: Proc)
    requires Limited(w) && t.procs == w.procs[pid := p] && LeavesRoom(t, p) && SameVariants(w, t)
    ensures Limited(t)
  {
  }

  // One process that no longer registers adds one variant to one session.
  lemma OneMoreVariant(w: World, t: World, pid: Pid, p: Proc, id: Hash, v: Hash, dir: SessionDir)
    requires Limited(w) && id in w.sessions && v !in w.sessions[id].variants && |w.sessions[id].variants| < MAX_VARIANTS
    requires dir.variants.Keys == w.sessions[id].variants.Keys + {v} && t.sessions == w.sessions[id := dir]
    requires t.procs == w.procs[pid := p] && !Registers(p)
    requires forall q :: q in w.procs && q != pid ==> !Registers(w.procs[q])
    ensures Limited(t)
  {
    assert |dir.variants.Keys| == |w.sessions[id].variants.Keys| + 1;
    assert |dir.variants| == |dir.variants.Keys| && |w.sessions[id].variants| == |w.sessions[id].variants.Keys|;
  }

  lemma PlacedShape(a: Adapter, w: World, pid: Pid)
    requires At(w, pid).Registering? && At(w, pid).stage == REGISTRATION_STAGES && At(w, pid).header.sessionId in w.sessions
    requires
      var p := At(w, pid);
      p.record.variantId !in w.sessions[p.header.sessionId].variants && p.token in w.sessions[p.header.sessionId].staging
    ensures
      var p, t := At(w, pid), Apply(a, w, RenameVariant(pid));
      && p.header.sessionId in t.sessions && t.sessions == w.sessions[p.header.sessionId := t.sessions[p.header.sessionId]]
      && t.sessions[p.header.sessionId].variants.Keys == w.sessions[p.header.sessionId].variants.Keys + {p.record.variantId}
      && t.procs == w.procs[pid := Registered(p.header, p.record)]
  {
  }

  lemma LostShape(a: Adapter, w: World, pid: Pid)
    requires At(w, pid).Registering? && At(w, pid).stage == REGISTRATION_STAGES && At(w, pid).header.sessionId in w.sessions
    requires At(w, pid).record.variantId in w.sessions[At(w, pid).header.sessionId].variants
    ensures SameVariants(w, Apply(a, w, RenameVariant(pid)))
    ensures Apply(a, w, RenameVariant(pid)).procs == w.procs[pid := At(Apply(a, w, RenameVariant(pid)), pid)]
    ensures !Registers(At(Apply(a, w, RenameVariant(pid)), pid))
  {
  }

  lemma RenameVariantLimited(a: Adapter, w: World, pid: Pid)
    requires Held(a, w, At(w, pid)) && Serial(w) && Limited(w)
    ensures Limited(Apply(a, w, RenameVariant(pid)))
  {
    var p := At(w, pid);
    if p.Registering? && p.stage == REGISTRATION_STAGES {
      var id, t := p.header.sessionId, Apply(a, w, RenameVariant(pid));
      if p.record.variantId in w.sessions[id].variants {
        LostShape(a, w, pid);
        SameVariantsLimited(w, t, pid, At(t, pid));
      } else {
        assert LeavesRoom(w, w.procs[pid]);
        PlacedShape(a, w, pid);
        OneMoreVariant(w, t, pid, At(t, pid), id, p.record.variantId, t.sessions[id]);
      }
    }
  }

  // The other steps leave every session's variants as they are.
  lemma CreateShape(a: Adapter, w: World, pid: Pid, raw: Raw, pin: Hash, declared: Checkpoint, token: Token)
    ensures
      var t := CreateStep(a, w, pid, raw, pin, declared, token);
      SameVariants(w, t) && t.procs == w.procs[pid := At(t, pid)] && !Registers(At(t, pid))
  {
  }

  lemma StageShape(a: Adapter, w: World, pid: Pid)
    ensures
      var t := Apply(a, w, Stage(pid));
      SameVariants(w, t) && (t == w || (t.procs == w.procs[pid := At(t, pid)] && !Registers(At(t, pid))))
  {
  }

  lemma RenameShape(a: Adapter, w: World, pid: Pid)
    requires Held(a, w, At(w, pid))
    ensures
      var t := Apply(a, w, Rename(pid));
      SameVariants(w, t) && (t == w || (t.procs == w.procs[pid := At(t, pid)] && !Registers(At(t, pid))))
  {
  }

  lemma ReadShape(a: Adapter, w: World, pid: Pid)
    ensures
      var t := Apply(a, w, Open(pid));
      SameVariants(w, t) && (t == w || (t.procs == w.procs[pid := At(t, pid)] && !Registers(At(t, pid))))
    ensures
      var t := Apply(a, w, LoadRecord(pid));
      SameVariants(w, t) && (t == w || (t.procs == w.procs[pid := At(t, pid)] && !Registers(At(t, pid))))
  {
  }

  lemma EndShape(a: Adapter, w: World, pid: Pid)
    ensures
      var t := Apply(a, w, Abort(pid));
      SameVariants(w, t) && t.procs == w.procs[pid := Failed]
    ensures
      var t := Apply(a, w, Crash(pid));
      SameVariants(w, t) && t.procs == w.procs[pid := Failed]
  {
  }

  lemma CountedShape(a: Adapter, w: World, header: Header, v: Result<Variant, VariantCode>, token: Token)
    requires header.sessionId in w.sessions
    ensures LeavesRoom(w, AfterCount(a, w, header, v, token))
  {
  }

  // A registration is checked only where there is room.
  lemma RegisterShape(a: Adapter, w: World, pid: Pid, id: Hash, settings: Settings, token: Token)
    ensures
      var t := RegisterStep(a, w, pid, id, settings, token);
      SameVariants(w, t) && t.procs == w.procs[pid := At(t, pid)] && LeavesRoom(t, At(t, pid))
  {
    var header := OpenSession(a, w, id);
    if header.Some? {
      CountedShape(a, w, header.value, VariantUnder(header.value, settings), token);
    }
  }

  lemma StageVariantShape(a: Adapter, w: World, pid: Pid)
    requires pid in w.procs ==> LeavesRoom(w, w.procs[pid])
    ensures
      var t := Apply(a, w, StageVariant(pid));
      SameVariants(w, t) && (t == w || (t.procs == w.procs[pid := At(t, pid)] && LeavesRoom(t, At(t, pid))))
  {
  }

  lemma StepLimited(a: Adapter, w: World, s: Step)
    requires Held(a, w, At(w, s.pid)) && Serial(w) && Limited(w)
    ensures Limited(Apply(a, w, s))
  {
    var t := Apply(a, w, s);
    match s {
      case Create(pid, raw, pin, declared, token) => CreateShape(a, w, pid, raw, pin, declared, token);
      case Stage(pid) => StageShape(a, w, pid);
      case Rename(pid) => RenameShape(a, w, pid);
      case Open(pid) => ReadShape(a, w, pid);
      case Register(pid, id, settings, token) => RegisterShape(a, w, pid, id, settings, token);
      case StageVariant(pid) => StageVariantShape(a, w, pid);
      case RenameVariant(pid) => RenameVariantLimited(a, w, pid);
      case LoadRecord(pid) => ReadShape(a, w, pid);
      case Abort(pid) => EndShape(a, w, pid);
      case Crash(pid) => EndShape(a, w, pid);
    }
    if t != w && !s.RenameVariant? {
      SameVariantsLimited(w, t, s.pid, At(t, s.pid));
    }
  }

  // When registrations do not overlap, no session ever holds more than the limit.
  lemma {:induction false} SerialRunsLimited(a: Adapter, steps: seq<Step>)
    requires a.Injective() && forall k :: 0 <= k <= |steps| ==> Serial(Run(a, steps[..k]))
    ensures Limited(Run(a, steps))
  {
    if steps != [] {
      var shorter := steps[..|steps| - 1];
      forall k | 0 <= k <= |shorter|
        ensures Serial(Run(a, shorter[..k]))
      {
        assert shorter[..k] == steps[..k];
      }
      SerialRunsLimited(a, shorter);
      assert shorter == shorter[..|shorter|];
      RunInv(a, shorter);
      Positioned(a, Run(a, shorter), steps[|steps| - 1].pid);
      StepLimited(a, Run(a, shorter), steps[|steps| - 1]);
    }
  }
}
