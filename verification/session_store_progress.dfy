// What the store lets through when nothing interferes.
module SessionStoreProgress {
  import opened Wrappers
  import opened SessionIdentity
  import opened SessionStore
  import opened SessionStoreRuns
  import opened SessionStoreLimit

  lemma {:induction false} ApplyAllInv(a: Adapter, w: World, steps: seq<Step>)
    requires Inv(a, w) && a.Injective()
    ensures Inv(a, ApplyAll(a, w, steps))
    decreases |steps|
  {
    if steps != [] {
      StepInv(a, w, steps[0]);
      ApplyAllInv(a, Apply(a, w, steps[0]), steps[1..]);
    }
  }

  lemma OneStep(a: Adapter, w: World, s: Step)
    ensures ApplyAll(a, w, [s]) == Apply(a, w, s)
  {
    assert [s] + [] == [s];
    ApplyFirst(a, w, s, []);
  }

  function Times(s: Step, n: nat): seq<Step> {
    if n == 0 then [] else [s] + Times(s, n - 1)
  }

  lemma {:induction false} NothingMoves(a: Adapter, w: World, s: Step, n: nat)
    requires Apply(a, w, s) == w
    ensures ApplyAll(a, w, Times(s, n)) == w
  {
    if n > 0 {
      ApplyFirst(a, w, s, Times(s, n - 1));
      NothingMoves(a, w, s, n - 1);
    }
  }

  // ----- creation ---------------------------------------------------------------------------------------------

  function Creation(pid: Pid, raw: Raw, pin: Hash, declared: Checkpoint, token: Token): seq<Step> {
    [Create(pid, raw, pin, declared, token)] + (Times(Stage(pid), CREATION_STAGES) + ([Rename(pid)] + [Open(pid)]))
  }

  // The source is the one named, and declares this checkpoint.
  predicate Pinned(a: Adapter, raw: Raw, pin: Hash, declared: Checkpoint) {
    a.digest(raw) == pin && a.load(raw).Some? && a.load(raw).value.checkpoint == declared
  }

  lemma {:induction false} StagesOn(a: Adapter, w: World, pid: Pid, h: Header, raw: Raw, token: Token, stage: nat)
    requires stage <= CREATION_STAGES && At(w, pid) == Creating(h, raw, token, stage)
    ensures
      var t := ApplyAll(a, w, Times(Stage(pid), CREATION_STAGES - stage));
      At(t, pid) == Creating(h, raw, token, CREATION_STAGES) && t.sessions == w.sessions
    decreases CREATION_STAGES - stage
  {
    if stage < CREATION_STAGES {
      ApplyFirst(a, w, Stage(pid), Times(Stage(pid), CREATION_STAGES - stage - 1));
      StagesOn(a, Apply(a, w, Stage(pid)), pid, h, raw, token, stage + 1);
    }
  }

  // From its last stage a creation reaches its session: by placing it, or because it is there.
  lemma Reaches(a: Adapter, w: World, pid: Pid, h: Header, raw: Raw)
    requires Inv(a, w) && a.Injective() && IsHeaderOf(a, h, raw)
    requires
      var p := At(w, pid);
      (p.Creating? && p.stage == CREATION_STAGES && p.header == h && p.raw == raw) || (p.Opening? && p.header == h)
    ensures
      var t := Apply(a, Apply(a, w, Rename(pid)), Open(pid));
      At(t, pid) == Opened(h) && Existing(a, t, h)
  {
    var t := Apply(a, w, Rename(pid));
    Positioned(a, w, pid);
    StepInv(a, w, Rename(pid));
    if h.sessionId in w.sessions {
      assert SoundSession(a, h.sessionId, w.sessions[h.sessionId]);
    }
    assert At(t, pid) == Opening(h);
    Positioned(a, t, pid);
    OpenSucceeds(a, t, h.sessionId);
  }

  lemma CreatePart(a: Adapter, w: World, pid: Pid, raw: Raw, pin: Hash, declared: Checkpoint, token: Token)
    requires At(w, pid).Idle? && token !in w.staging
    ensures
      var p := At(Apply(a, w, Create(pid, raw, pin, declared, token)), pid);
      if !Pinned(a, raw, pin, declared) then p == Failed
      else
        var h := HeaderOf(a, raw, a.load(raw).value);
        p == if h.sessionId in w.sessions then Opening(h) else Creating(h, raw, token, 0)
  {
  }

  lemma StagesPart(a: Adapter, w: World, pid: Pid, h: Header, raw: Raw, token: Token)
    requires At(w, pid) == Opening(h) || At(w, pid) == Creating(h, raw, token, 0)
    ensures
      var p := At(ApplyAll(a, w, Times(Stage(pid), CREATION_STAGES)), pid);
      p == Opening(h) || p == Creating(h, raw, token, CREATION_STAGES)
  {
    if At(w, pid).Creating? {
      StagesOn(a, w, pid, h, raw, token, 0);
    } else {
      NothingMoves(a, w, Stage(pid), CREATION_STAGES);
    }
  }

  // From any reachable world a new process with a fresh staging name, undisturbed, opens the session of a source if and
  // only if the source is the one named and declares the checkpoint.
  lemma CreationOpens(a: Adapter, steps: seq<Step>, pid: Pid, raw: Raw, pin: Hash, declared: Checkpoint, token: Token)
    requires a.Injective() && At(Run(a, steps), pid).Idle? && token !in Run(a, steps).staging
    ensures
      var t := Run(a, steps + Creation(pid, raw, pin, declared, token));
      if Pinned(a, raw, pin, declared)
      then At(t, pid) == Opened(HeaderOf(a, raw, a.load(raw).value)) && Existing(a, t, HeaderOf(a, raw, a.load(raw).value))
      else At(t, pid) == Failed
  {
    var w := Run(a, steps);
    var create, stages := Create(pid, raw, pin, declared, token), Times(Stage(pid), CREATION_STAGES);
    var w1 := Apply(a, w, create);
    var w2 := ApplyAll(a, w1, stages);
    RunInv(a, steps);
    RunIsApplied(a, steps, Creation(pid, raw, pin, declared, token));
    ApplyFirst(a, w, create, stages + ([Rename(pid)] + [Open(pid)]));
    ApplyConcat(a, w1, stages, [Rename(pid)] + [Open(pid)]);
    ApplyFirst(a, w2, Rename(pid), [Open(pid)]);
    OneStep(a, Apply(a, w2, Rename(pid)), Open(pid));
    CreatePart(a, w, pid, raw, pin, declared, token);
    StepInv(a, w, create);
    ApplyAllInv(a, w1, stages);
    if Pinned(a, raw, pin, declared) {
      var h := HeaderOf(a, raw, a.load(raw).value);
      StagesPart(a, w1, pid, h, raw, token);
      Reaches(a, w2, pid, h, raw);
    } else {
      NothingMoves(a, w1, Stage(pid), CREATION_STAGES);
    }
  }

  // ----- registration -----------------------------------------------------------------------------------------

  function Registration(pid: Pid, id: Hash, settings: Settings, token: Token): seq<Step> {
    [Register(pid, id, settings, token)] + (Times(StageVariant(pid), REGISTRATION_STAGES + 1) + ([RenameVariant(pid)] + [LoadRecord(pid)]))
  }

  // The session is there, the settings derive a variant, and it is registered or there is room for it.
  predicate Admissible(w: World, a: Adapter, id: Hash, settings: Settings) {
    && id in w.sessions && w.sessions[id].manifest.Complete?
    && var h := w.sessions[id].manifest.value;
       && VariantUnder(h, settings).Ok?
       && (RecordOf(a, h, VariantUnder(h, settings).value).variantId in w.sessions[id].variants || |w.sessions[id].variants| < MAX_VARIANTS)
  }

  lemma {:induction false} VariantStagesOn(a: Adapter, w: World, pid: Pid, h: Header, r: Record, token: Token, stage: nat)
    requires stage <= REGISTRATION_STAGES && At(w, pid) == Registering(h, r, token, stage) && h.sessionId in w.sessions
    ensures
      var t := ApplyAll(a, w, Times(StageVariant(pid), REGISTRATION_STAGES - stage));
      At(t, pid) == Registering(h, r, token, REGISTRATION_STAGES) && h.sessionId in t.sessions
    decreases REGISTRATION_STAGES - stage
  {
    if stage < REGISTRATION_STAGES {
      ApplyFirst(a, w, StageVariant(pid), Times(StageVariant(pid), REGISTRATION_STAGES - stage - 1));
      VariantStagesOn(a, Apply(a, w, StageVariant(pid)), pid, h, r, token, stage + 1);
    }
  }

  lemma VariantStagesPart(a: Adapter, w: World, pid: Pid, h: Header, r: Record, token: Token)
    requires h.sessionId in w.sessions && token !in w.sessions[h.sessionId].staging
    requires At(w, pid) == Loading(h, r) || At(w, pid) == Checked(h, r, token)
    ensures
      var t := ApplyAll(a, w, Times(StageVariant(pid), REGISTRATION_STAGES + 1));
      At(t, pid) == Loading(h, r) || At(t, pid) == Registering(h, r, token, REGISTRATION_STAGES)
  {
    if At(w, pid).Checked? {
      ApplyFirst(a, w, StageVariant(pid), Times(StageVariant(pid), REGISTRATION_STAGES));
      VariantStagesOn(a, Apply(a, w, StageVariant(pid)), pid, h, r, token, 0);
    } else {
      NothingMoves(a, w, StageVariant(pid), REGISTRATION_STAGES + 1);
    }
  }

  lemma LoadsExisting(a: Adapter, w: World, h: Header, r: Record)
    requires SoundSessions(a, w) && ExistingVariant(a, w, h, r)
    ensures LoadVariant(a, w, h, r.variantId) == Some(r)
  {
    assert SoundSession(a, h.sessionId, w.sessions[h.sessionId]);
  }

  lemma Loads(a: Adapter, w: World, pid: Pid, h: Header, r: Record)
    requires Inv(a, w) && (At(w, pid) == Loading(h, r) || At(w, pid) == Registered(h, r))
    ensures
      var t := Apply(a, w, LoadRecord(pid));
      At(t, pid) == Registered(h, r) && ExistingVariant(a, t, h, r)
  {
    Positioned(a, w, pid);
    LoadsExisting(a, w, h, r);
  }

  lemma Places(a: Adapter, w: World, pid: Pid, h: Header, r: Record, token: Token)
    requires Inv(a, w) && a.Injective()
    requires At(w, pid) == Loading(h, r) || At(w, pid) == Registering(h, r, token, REGISTRATION_STAGES)
    ensures
      var t := Apply(a, w, RenameVariant(pid));
      Inv(a, t) && (At(t, pid) == Loading(h, r) || At(t, pid) == Registered(h, r))
  {
    Positioned(a, w, pid);
    StepInv(a, w, RenameVariant(pid));
    if At(w, pid).Registering? {
      var dir := w.sessions[h.sessionId];
      assert SoundSession(a, h.sessionId, dir);
      if r.variantId in dir.variants {
        assert SoundVariant(a, dir.manifest.value, r.variantId, dir.variants[r.variantId]);
      }
    }
  }

  lemma RegisterPart(a: Adapter, w: World, pid: Pid, id: Hash, settings: Settings, token: Token)
    requires SoundSessions(a, w) && At(w, pid).Idle?
    ensures
      var t := Apply(a, w, Register(pid, id, settings, token));
      && t.sessions == w.sessions
      && if !Admissible(w, a, id, settings) then At(t, pid) == Failed
         else
           var h := w.sessions[id].manifest.value;
           var r := RecordOf(a, h, VariantUnder(h, settings).value);
           h.sessionId == id && (At(t, pid) == Loading(h, r) || At(t, pid) == Checked(h, r, token))
  {
    if id in w.sessions {
      OpenSucceeds(a, w, id);
      assert SoundSession(a, id, w.sessions[id]);
    }
  }

  lemma RegistrationPhases(a: Adapter, steps: seq<Step>, pid: Pid, id: Hash, settings: Settings, token: Token)
    ensures
      var w1 := Apply(a, Run(a, steps), Register(pid, id, settings, token));
      var w2 := ApplyAll(a, w1, Times(StageVariant(pid), REGISTRATION_STAGES + 1));
      Run(a, steps + Registration(pid, id, settings, token)) == Apply(a, Apply(a, w2, RenameVariant(pid)), LoadRecord(pid))
  {
    var register, stages := Register(pid, id, settings, token), Times(StageVariant(pid), REGISTRATION_STAGES + 1);
    var w1 := Apply(a, Run(a, steps), register);
    var w2 := ApplyAll(a, w1, stages);
    RunIsApplied(a, steps, Registration(pid, id, settings, token));
    ApplyFirst(a, Run(a, steps), register, stages + ([RenameVariant(pid)] + [LoadRecord(pid)]));
    ApplyConcat(a, w1, stages, [RenameVariant(pid)] + [LoadRecord(pid)]);
    ApplyFirst(a, w2, RenameVariant(pid), [LoadRecord(pid)]);
    OneStep(a, Apply(a, w2, RenameVariant(pid)), LoadRecord(pid));
  }

  // An admitted registration, from its count on.
  lemma AdmittedEnds(a: Adapter, w: World, pid: Pid, h: Header, r: Record, token: Token)
    requires Inv(a, w) && a.Injective() && h.sessionId in w.sessions && token !in w.sessions[h.sessionId].staging
    requires At(w, pid) == Loading(h, r) || At(w, pid) == Checked(h, r, token)
    ensures
      var w2 := ApplyAll(a, w, Times(StageVariant(pid), REGISTRATION_STAGES + 1));
      var t := Apply(a, Apply(a, w2, RenameVariant(pid)), LoadRecord(pid));
      At(t, pid) == Registered(h, r) && ExistingVariant(a, t, h, r)
  {
    var w2 := ApplyAll(a, w, Times(StageVariant(pid), REGISTRATION_STAGES + 1));
    ApplyAllInv(a, w, Times(StageVariant(pid), REGISTRATION_STAGES + 1));
    VariantStagesPart(a, w, pid, h, r, token);
    Places(a, w2, pid, h, r, token);
    Loads(a, Apply(a, w2, RenameVariant(pid)), pid, h, r);
  }

  // From any reachable world a new process with a fresh staging name, undisturbed, registers settings if and only if they
  // are admissible; then it holds the record they derive, and the session lists it.
  lemma RegistrationEnds(a: Adapter, steps: seq<Step>, pid: Pid, id: Hash, settings: Settings, token: Token)
    requires a.Injective() && At(Run(a, steps), pid).Idle?
    requires id in Run(a, steps).sessions ==> token !in Run(a, steps).sessions[id].staging
    ensures
      var w, t := Run(a, steps), Run(a, steps + Registration(pid, id, settings, token));
      if Admissible(w, a, id, settings)
      then
        var h := w.sessions[id].manifest.value;
        var r := RecordOf(a, h, VariantUnder(h, settings).value);
        At(t, pid) == Registered(h, r) && ExistingVariant(a, t, h, r)
      else At(t, pid) == Failed
  {
    var w := Run(a, steps);
    var w1 := Apply(a, w, Register(pid, id, settings, token));
    RunInv(a, steps);
    RegistrationPhases(a, steps, pid, id, settings, token);
    RegisterPart(a, w, pid, id, settings, token);
    StepInv(a, w, Register(pid, id, settings, token));
    if Admissible(w, a, id, settings) {
      var h := w.sessions[id].manifest.value;
      AdmittedEnds(a, w1, pid, h, RecordOf(a, h, VariantUnder(h, settings).value), token);
    } else {
      NothingMoves(a, w1, StageVariant(pid), REGISTRATION_STAGES + 1);
    }
  }
}
