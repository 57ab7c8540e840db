// The variant limit, exactly: a session keeps it whatever happens next, short of a new count, if and only if the records
// it lists and the ones still to be placed are at most eight together. One half follows the claims of every step, which
// never grow; the other half places every claim in turn. The last part runs nine registrars into one session.
module SessionStoreLimit {
  import opened Wrappers
  import opened JsonValues
  import Orders
  import opened SessionIdentity
  import opened SessionStore
  import opened SessionStoreRuns

  // ----- claims -----------------------------------------------------------------------------------------------

  predicate RegistersIn(p: Proc, id: Hash) {
    Registers(p) && p.header.sessionId == id
  }

  ghost predicate NameHeld(w: World, id: Hash, token: Token) {
    exists q :: q in w.procs && w.procs[q].Registering? && w.procs[q].header.sessionId == id && w.procs[q].token == token
  }

  // A staging name that a registrar may still make its own: nobody has it, or a live registrar has and will give it up.
  // What a crashed registrar left is never given up.
  ghost predicate Available(w: World, id: Hash, token: Token) {
    id in w.sessions && (token !in w.sessions[id].staging || NameHeld(w, id, token))
  }

  // A registrar past its count that can still place its record.
  ghost predicate CanPlace(w: World, pid: Pid, id: Hash) {
    && pid in w.procs && RegistersIn(w.procs[pid], id) && id in w.sessions
    && (w.procs[pid].Checked? ==> Available(w, id, w.procs[pid].token))
  }

  function VariantIds(w: World, id: Hash): set<Hash> {
    if id in w.sessions then w.sessions[id].variants.Keys else {}
  }

  ghost function Claimed(w: World, id: Hash): set<Hash> {
    VariantIds(w, id) + set pid | pid in w.procs && CanPlace(w, pid, id) :: w.procs[pid].record.variantId
  }

  ghost predicate WithinLimit(w: World) {
    forall id :: id in w.sessions ==> |VariantIds(w, id)| <= MAX_VARIANTS
  }

  ghost predicate ClaimsWithinLimit(w: World) {
    forall id :: id in w.sessions ==> |Claimed(w, id)| <= MAX_VARIANTS
  }

  // Steps that count nothing anew.
  ghost predicate NoCount(steps: seq<Step>) {
    forall s :: s in steps ==> !s.Register?
  }

  // ----- claims never grow ------------------------------------------------------------------------------------

  // One process moved, and it placed only what it claimed.
  ghost predicate OnlyOwnClaim(w: World, t: World, pid: Pid, id: Hash) {
    && id in t.sessions
    && (t.procs == w.procs || t.procs == w.procs[pid := At(t, pid)])
    && (forall token :: Available(t, id, token) ==> Available(w, id, token))
    && (forall v :: v in VariantIds(t, id) ==> v in Claimed(w, id))
    && (CanPlace(t, pid, id) ==> CanPlace(w, pid, id) && w.procs[pid].record == t.procs[pid].record)
  }

  lemma ClaimsShrink(w: World, t: World, pid: Pid, id: Hash)
    requires OnlyOwnClaim(w, t, pid, id) && id in w.sessions
    ensures Claimed(t, id) <= Claimed(w, id)
  {
    forall v | v in Claimed(t, id)
      ensures v in Claimed(w, id)
    {
      if v !in VariantIds(t, id) {
        var q :| q in t.procs && CanPlace(t, q, id) && t.procs[q].record.variantId == v;
        assert CanPlace(w, q, id);
      }
    }
  }

  // A name that was held is held, or was given up.
  lemma NamesStay(w: World, t: World, pid: Pid, id: Hash, token: Token)
    requires t.procs == w.procs || t.procs == w.procs[pid := At(t, pid)]
    requires Available(t, id, token) && id in w.sessions && !(At(t, pid).Registering? && At(t, pid).header.sessionId == id && At(t, pid).token == token)
    requires token in w.sessions[id].staging && token !in t.sessions[id].staging ==> NameHeld(w, id, token)
    ensures Available(w, id, token)
  {
    if token in w.sessions[id].staging && token in t.sessions[id].staging {
      var q :| q in t.procs && t.procs[q].Registering? && t.procs[q].header.sessionId == id && t.procs[q].token == token;
      assert q in w.procs && w.procs[q] == t.procs[q];
    }
  }

  // The steps that touch no session that exists and no registration.
  lemma OtherStep(w: World, t: World, pid: Pid, id: Hash)
    requires t.procs == w.procs || (t.procs == w.procs[pid := At(t, pid)] && !Registers(At(t, pid)))
    requires id in w.sessions && id in t.sessions && t.sessions[id] == w.sessions[id]
    ensures OnlyOwnClaim(w, t, pid, id)
  {
    forall token | Available(t, id, token)
      ensures Available(w, id, token)
    {
      if t.procs != w.procs {
        NamesStay(w, t, pid, id, token);
      }
    }
    if t.procs == w.procs && CanPlace(t, pid, id) {
      assert CanPlace(w, pid, id);
    }
  }

  // A registrar that ends, with its staging directory removed or left behind.
  lemma EndStep(w: World, t: World, pid: Pid, id: Hash)
    requires t.procs == w.procs[pid := At(t, pid)] && !Registers(At(t, pid))
    requires id in w.sessions && id in t.sessions && t.sessions[id].variants == w.sessions[id].variants
    requires
      var p := At(w, pid);
      forall token :: token in w.sessions[id].staging && token !in t.sessions[id].staging ==>
        pid in w.procs && p.Registering? && p.header.sessionId == id && p.token == token
    ensures OnlyOwnClaim(w, t, pid, id)
  {
    forall token | Available(t, id, token)
      ensures Available(w, id, token)
    {
      NamesStay(w, t, pid, id, token);
    }
  }

  lemma StageVariantShrinks(a: Adapter, w: World, pid: Pid, id: Hash)
    requires id in w.sessions
    ensures OnlyOwnClaim(w, Apply(a, w, StageVariant(pid)), pid, id)
  {
    var p, t := At(w, pid), Apply(a, w, StageVariant(pid));
    if t != w {
      if At(t, pid).Registering? && p.header.sessionId == id {
        assert CanPlace(w, pid, id);
        forall token | Available(t, id, token)
          ensures Available(w, id, token)
        {
          if token != p.token {
            NamesStay(w, t, pid, id, token);
          }
        }
      } else {
        EndOrElsewhere(w, t, pid, id);
      }
    }
  }

  // A registrar that fails, or registers in another session.
  lemma EndOrElsewhere(w: World, t: World, pid: Pid, id: Hash)
    requires t.procs == w.procs[pid := At(t, pid)] && !RegistersIn(At(t, pid), id)
    requires id in w.sessions && id in t.sessions && t.sessions[id] == w.sessions[id]
    ensures OnlyOwnClaim(w, t, pid, id)
  {
    forall token | Available(t, id, token)
      ensures Available(w, id, token)
    {
      NamesStay(w, t, pid, id, token);
    }
  }

  lemma RenameVariantShrinks(a: Adapter, w: World, pid: Pid, id: Hash)
    requires id in w.sessions && Held(a, w, At(w, pid))
    ensures OnlyOwnClaim(w, Apply(a, w, RenameVariant(pid)), pid, id)
  {
    var p, t := At(w, pid), Apply(a, w, RenameVariant(pid));
    if p.Registering? && p.stage == REGISTRATION_STAGES {
      if p.header.sessionId == id {
        assert CanPlace(w, pid, id);
        forall token | Available(t, id, token)
          ensures Available(w, id, token)
        {
          NamesStay(w, t, pid, id, token);
        }
        forall v | v in VariantIds(t, id)
          ensures v in Claimed(w, id)
        {
        }
      } else {
        EndOrElsewhere(w, t, pid, id);
      }
    }
  }

  lemma CreationShrinks(a: Adapter, w: World, s: Step, id: Hash)
    requires (s.Create? || s.Stage? || s.Rename?) && Held(a, w, At(w, s.pid)) && id in w.sessions
    ensures OnlyOwnClaim(w, Apply(a, w, s), s.pid, id)
  {
    OtherStep(w, Apply(a, w, s), s.pid, id);
  }

  lemma ReadShrinks(a: Adapter, w: World, s: Step, id: Hash)
    requires (s.Open? || s.LoadRecord?) && id in w.sessions
    ensures OnlyOwnClaim(w, Apply(a, w, s), s.pid, id)
  {
    OtherStep(w, Apply(a, w, s), s.pid, id);
  }

  lemma EndShrinks(a: Adapter, w: World, s: Step, id: Hash)
    requires (s.Abort? || s.Crash?) && id in w.sessions
    ensures OnlyOwnClaim(w, Apply(a, w, s), s.pid, id)
  {
    EndStep(w, Apply(a, w, s), s.pid, id);
  }

  lemma StepShrinks(a: Adapter, w: World, s: Step, id: Hash)
    requires Inv(a, w) && !s.Register? && id in w.sessions
    ensures id in Apply(a, w, s).sessions && Claimed(Apply(a, w, s), id) <= Claimed(w, id)
  {
    Positioned(a, w, s.pid);
    OneStepShrinks(a, w, s, id);
    ClaimsShrink(w, Apply(a, w, s), s.pid, id);
  }

  lemma OneStepShrinks(a: Adapter, w: World, s: Step, id: Hash)
    requires Held(a, w, At(w, s.pid)) && !s.Register? && id in w.sessions
    ensures OnlyOwnClaim(w, Apply(a, w, s), s.pid, id)
  {
    match s {
      case Create(_, _, _, _, _) => CreationShrinks(a, w, s, id);
      case Stage(_) => CreationShrinks(a, w, s, id);
      case Rename(_) => CreationShrinks(a, w, s, id);
      case Open(_) => ReadShrinks(a, w, s, id);
      case LoadRecord(_) => ReadShrinks(a, w, s, id);
      case StageVariant(pid) => StageVariantShrinks(a, w, pid, id);
      case RenameVariant(pid) => RenameVariantShrinks(a, w, pid, id);
      case Abort(_) => EndShrinks(a, w, s, id);
      case Crash(_) => EndShrinks(a, w, s, id);
    }
  }

  // A session that appears claims nothing.
  lemma NewSessionUnclaimed(a: Adapter, w: World, s: Step, id: Hash)
    requires Inv(a, w) && a.Injective() && !s.Register? && id !in w.sessions && id in Apply(a, w, s).sessions
    ensures Claimed(Apply(a, w, s), id) == {}
  {
    var t := Apply(a, w, s);
    Positioned(a, w, s.pid);
    assert s.Rename? && t.sessions[id].variants == map[];
    forall q | q in t.procs
      ensures !RegistersIn(t.procs[q], id)
    {
      if q != s.pid {
        assert Held(a, w, w.procs[q]);
      }
    }
  }

  ghost predicate NothingNew(w: World, t: World) {
    && (forall id :: id in w.sessions ==> id in t.sessions && Claimed(t, id) <= Claimed(w, id))
    && (forall id :: id in t.sessions && id !in w.sessions ==> Claimed(t, id) == {})
  }

  lemma StepClaimsNothing(a: Adapter, w: World, s: Step)
    requires Inv(a, w) && a.Injective() && !s.Register?
    ensures NothingNew(w, Apply(a, w, s))
  {
    forall id | id in w.sessions
      ensures id in Apply(a, w, s).sessions && Claimed(Apply(a, w, s), id) <= Claimed(w, id)
    {
      StepShrinks(a, w, s, id);
    }
    forall id | id in Apply(a, w, s).sessions && id !in w.sessions
      ensures Claimed(Apply(a, w, s), id) == {}
    {
      NewSessionUnclaimed(a, w, s, id);
    }
  }

  lemma {:induction false} RunClaimsNothing(a: Adapter, steps: seq<Step>, more: seq<Step>)
    requires a.Injective() && NoCount(more)
    ensures NothingNew(Run(a, steps), Run(a, steps + more))
    decreases |more|
  {
    if more == [] {
      assert steps + more == steps;
    } else {
      var shorter := more[..|more| - 1];
      RunClaimsNothing(a, steps, shorter);
      RunOneMore(a, steps, more);
      RunInv(a, steps + shorter);
      assert !more[|more| - 1].Register? by {
        assert more[|more| - 1] in more;
      }
      StepClaimsNothing(a, Run(a, steps + shorter), more[|more| - 1]);
    }
  }

  // ----- every claim can be placed ----------------------------------------------------------------------------

  // One process moved and nobody's claim is lost.
  ghost predicate ClaimsStay(w: World, t: World, pid: Pid, id: Hash) {
    && id in w.sessions && id in t.sessions && t.procs == w.procs[pid := At(t, pid)]
    && (forall token :: Available(w, id, token) ==> Available(t, id, token))
    && VariantIds(w, id) <= VariantIds(t, id)
    && (CanPlace(w, pid, id) ==> w.procs[pid].record.variantId in Claimed(t, id))
  }

  lemma ClaimsKept(w: World, t: World, pid: Pid, id: Hash)
    requires ClaimsStay(w, t, pid, id)
    ensures Claimed(w, id) <= Claimed(t, id)
  {
    forall v | v in Claimed(w, id)
      ensures v in Claimed(t, id)
    {
      if v !in VariantIds(w, id) {
        var q :| q in w.procs && CanPlace(w, q, id) && w.procs[q].record.variantId == v;
        if q != pid {
          assert CanPlace(t, q, id);
        }
      }
    }
  }

  lemma NamesKept(w: World, t: World, pid: Pid, id: Hash, token: Token)
    requires t.procs == w.procs[pid := At(t, pid)] && Available(w, id, token) && id in t.sessions
    requires token !in w.sessions[id].staging && token in t.sessions[id].staging ==> NameHeld(t, id, token)
    requires
      var p := At(w, pid);
      p.Registering? && p.header.sessionId == id && p.token == token ==> Available(t, id, token)
    ensures Available(t, id, token)
  {
    if token in w.sessions[id].staging {
      var q :| q in w.procs && w.procs[q].Registering? && w.procs[q].header.sessionId == id && w.procs[q].token == token;
      if q != pid {
        assert q in t.procs && t.procs[q] == w.procs[q];
      }
    }
  }

  // A registrar with its own directory, or with a free name, moves on: every claim stays.
  lemma StageKeeps(a: Adapter, w: World, pid: Pid, id: Hash)
    requires pid in w.procs && RegistersIn(w.procs[pid], id) && id in w.sessions
    requires
      var p := w.procs[pid];
      if p.Checked? then p.token !in w.sessions[id].staging else p.stage < REGISTRATION_STAGES
    ensures
      var p, t := w.procs[pid], Apply(a, w, StageVariant(pid));
      && pid in t.procs && id in t.sessions && t.procs == w.procs[pid := t.procs[pid]]
      && t.procs[pid] == Registering(p.header, p.record, p.token, if p.Checked? then 0 else p.stage + 1)
      && t.sessions[id].staging.Keys == w.sessions[id].staging.Keys + {p.token}
      && VariantIds(t, id) == VariantIds(w, id) && Claimed(w, id) <= Claimed(t, id)
  {
    var p, t := w.procs[pid], Apply(a, w, StageVariant(pid));
    assert pid in t.procs && t.procs[pid] == Registering(p.header, p.record, p.token, if p.Checked? then 0 else p.stage + 1);
    assert NameHeld(t, id, p.token);
    assert CanPlace(t, pid, id);
    forall token | Available(w, id, token)
      ensures Available(t, id, token)
    {
      NamesKept(w, t, pid, id, token);
    }
    ClaimsKept(w, t, pid, id);
  }

  lemma RenameKeeps(a: Adapter, w: World, pid: Pid, id: Hash)
    requires Inv(a, w) && pid in w.procs && w.procs[pid].Registering? && w.procs[pid].header.sessionId == id
    requires w.procs[pid].stage == REGISTRATION_STAGES
    ensures
      var p, t := w.procs[pid], Apply(a, w, RenameVariant(pid));
      && id in t.sessions && t.procs == w.procs[pid := At(t, pid)]
      && t.sessions[id].staging.Keys == w.sessions[id].staging.Keys - {p.token}
      && p.record.variantId in VariantIds(t, id) && Claimed(w, id) <= Claimed(t, id)
  {
    var p, t := w.procs[pid], Apply(a, w, RenameVariant(pid));
    Positioned(a, w, pid);
    forall token | Available(w, id, token)
      ensures Available(t, id, token)
    {
      NamesKept(w, t, pid, id, token);
    }
    ClaimsKept(w, t, pid, id);
  }

  function ApplyAll(a: Adapter, w: World, steps: seq<Step>): World
    decreases |steps|
  {
    if steps == [] then w else ApplyAll(a, Apply(a, w, steps[0]), steps[1..])
  }

  lemma {:induction false} ApplyConcat(a: Adapter, w: World, x: seq<Step>, y: seq<Step>)
    ensures ApplyAll(a, w, x + y) == ApplyAll(a, ApplyAll(a, w, x), y)
    decreases |x|
  {
    if x == [] {
      assert x + y == y;
    } else {
      assert (x + y)[1..] == x[1..] + y;
      ApplyConcat(a, Apply(a, w, x[0]), x[1..], y);
    }
  }

  lemma {:induction false} RunIsApplied(a: Adapter, steps: seq<Step>, more: seq<Step>)
    ensures Run(a, steps + more) == ApplyAll(a, Run(a, steps), more)
    decreases |more|
  {
    if more == [] {
      assert steps + more == steps;
    } else {
      var first := steps + [more[0]];
      assert first[..|first| - 1] == steps;
      assert steps + more == first + more[1..];
      RunIsApplied(a, first, more[1..]);
    }
  }

  // What placing one record has done.
  ghost predicate Placed(a: Adapter, w: World, t: World, pid: Pid, id: Hash, v: Hash) {
    && Inv(a, t) && id in t.sessions && v in VariantIds(t, id) && Claimed(w, id) <= Claimed(t, id)
    && forall q :: q != pid && q in w.procs ==> q in t.procs && t.procs[q] == w.procs[q]
  }

  lemma ApplyFirst(a: Adapter, w: World, s: Step, rest: seq<Step>)
    ensures ApplyAll(a, w, [s] + rest) == ApplyAll(a, Apply(a, w, s), rest)
  {
    assert ([s] + rest)[1..] == rest;
  }

  // One step of a registrar towards its record.
  ghost predicate Advances(w: World, t: World, pid: Pid, id: Hash) {
    && id in t.sessions && Claimed(w, id) <= Claimed(t, id)
    && forall q :: q != pid && q in w.procs ==> q in t.procs && t.procs[q] == w.procs[q]
  }

  lemma AdvancesPlaced(a: Adapter, w: World, t: World, u: World, pid: Pid, id: Hash, v: Hash)
    requires Advances(w, t, pid, id) && Placed(a, t, u, pid, id, v)
    ensures Placed(a, w, u, pid, id, v)
  {
  }

  lemma StageAdvances(a: Adapter, w: World, pid: Pid, id: Hash)
    requires pid in w.procs && RegistersIn(w.procs[pid], id) && id in w.sessions
    requires
      var p := w.procs[pid];
      if p.Checked? then p.token !in w.sessions[id].staging else p.stage < REGISTRATION_STAGES
    ensures
      var p, t := w.procs[pid], Apply(a, w, StageVariant(pid));
      && Advances(w, t, pid, id) && pid in t.procs
      && t.procs[pid] == Registering(p.header, p.record, p.token, if p.Checked? then 0 else p.stage + 1)
  {
    StageKeeps(a, w, pid, id);
  }

  lemma RenamePlaces(a: Adapter, w: World, pid: Pid, id: Hash)
    requires Inv(a, w) && a.Injective() && pid in w.procs && w.procs[pid].Registering? && w.procs[pid].header.sessionId == id
    requires w.procs[pid].stage == REGISTRATION_STAGES
    ensures
      var p, t := w.procs[pid], Apply(a, w, RenameVariant(pid));
      Placed(a, w, t, pid, id, p.record.variantId) && p.token !in t.sessions[id].staging
  {
    RenameKeeps(a, w, pid, id);
    StepInv(a, w, RenameVariant(pid));
  }

  // A registrar with a staging directory of its own finishes and gives up its name.
  lemma {:induction false} PlaceStaged(a: Adapter, w: World, pid: Pid, id: Hash) returns (steps: seq<Step>)
    requires Inv(a, w) && a.Injective() && pid in w.procs && w.procs[pid].Registering? && w.procs[pid].header.sessionId == id
    requires w.procs[pid].stage <= REGISTRATION_STAGES && id in w.sessions
    ensures NoCount(steps) && Placed(a, w, ApplyAll(a, w, steps), pid, id, w.procs[pid].record.variantId)
    ensures w.procs[pid].token !in ApplyAll(a, w, steps).sessions[id].staging
    decreases REGISTRATION_STAGES - w.procs[pid].stage
  {
    if w.procs[pid].stage == REGISTRATION_STAGES {
      RenamePlaces(a, w, pid, id);
      ApplyFirst(a, w, RenameVariant(pid), []);
      steps := [RenameVariant(pid)] + [];
    } else {
      var t := Apply(a, w, StageVariant(pid));
      StageAdvances(a, w, pid, id);
      StepInv(a, w, StageVariant(pid));
      var rest := PlaceStaged(a, t, pid, id);
      AdvancesPlaced(a, w, t, ApplyAll(a, t, rest), pid, id, w.procs[pid].record.variantId);
      ApplyFirst(a, w, StageVariant(pid), rest);
      steps := [StageVariant(pid)] + rest;
    }
  }

  lemma PlaceFree(a: Adapter, w: World, pid: Pid, id: Hash) returns (steps: seq<Step>)
    requires Inv(a, w) && a.Injective() && pid in w.procs && w.procs[pid].Checked? && w.procs[pid].header.sessionId == id
    requires id in w.sessions && w.procs[pid].token !in w.sessions[id].staging
    ensures NoCount(steps) && Placed(a, w, ApplyAll(a, w, steps), pid, id, w.procs[pid].record.variantId)
  {
    var t := Apply(a, w, StageVariant(pid));
    StageAdvances(a, w, pid, id);
    StepInv(a, w, StageVariant(pid));
    var rest := PlaceStaged(a, t, pid, id);
    AdvancesPlaced(a, w, t, ApplyAll(a, t, rest), pid, id, w.procs[pid].record.variantId);
    ApplyFirst(a, w, StageVariant(pid), rest);
    steps := [StageVariant(pid)] + rest;
  }

  lemma StagesBounded(a: Adapter, w: World)
    requires Inv(a, w)
    ensures forall pid :: pid in w.procs && w.procs[pid].Registering? ==> w.procs[pid].stage <= REGISTRATION_STAGES
  {
    forall pid | pid in w.procs && w.procs[pid].Registering?
      ensures w.procs[pid].stage <= REGISTRATION_STAGES
    {
      Positioned(a, w, pid);
    }
  }

  // Any claim can be placed, after the registrar that holds its name.
  lemma PlaceClaim(a: Adapter, w: World, pid: Pid, id: Hash) returns (steps: seq<Step>)
    requires Inv(a, w) && a.Injective() && CanPlace(w, pid, id)
    ensures NoCount(steps) && Inv(a, ApplyAll(a, w, steps)) && id in ApplyAll(a, w, steps).sessions
    ensures w.procs[pid].record.variantId in VariantIds(ApplyAll(a, w, steps), id)
    ensures Claimed(w, id) <= Claimed(ApplyAll(a, w, steps), id)
  {
    var p := w.procs[pid];
    StagesBounded(a, w);
    if p.Registering? {
      steps := PlaceStaged(a, w, pid, id);
    } else if p.token !in w.sessions[id].staging {
      steps := PlaceFree(a, w, pid, id);
    } else {
      var q :| q in w.procs && w.procs[q].Registering? && w.procs[q].header.sessionId == id && w.procs[q].token == p.token;
      var first := PlaceStaged(a, w, q, id);
      var t := ApplyAll(a, w, first);
      var rest := PlaceFree(a, t, pid, id);
      ApplyConcat(a, w, first, rest);
      steps := first + rest;
    }
  }

  lemma {:induction false} ClaimsAfter(a: Adapter, w: World, steps: seq<Step>, id: Hash)
    requires Inv(a, w) && a.Injective() && NoCount(steps) && id in w.sessions
    ensures id in ApplyAll(a, w, steps).sessions && Claimed(ApplyAll(a, w, steps), id) <= Claimed(w, id)
    ensures Extends(w, ApplyAll(a, w, steps)) && VariantIds(w, id) <= VariantIds(ApplyAll(a, w, steps), id)
    decreases |steps|
  {
    ExtendsRefl(w);
    if steps != [] {
      var t := Apply(a, w, steps[0]);
      StepShrinks(a, w, steps[0], id);
      StepInv(a, w, steps[0]);
      assert NoCount(steps[1..]);
      ClaimsAfter(a, t, steps[1..], id);
      ExtendsTrans(w, t, ApplyAll(a, w, steps));
    }
  }

  lemma SomeClaim(w: World, id: Hash) returns (pid: Pid)
    requires Claimed(w, id) != VariantIds(w, id)
    ensures CanPlace(w, pid, id) && w.procs[pid].record.variantId in Claimed(w, id) && w.procs[pid].record.variantId !in VariantIds(w, id)
  {
    var v :| v in Claimed(w, id) && v !in VariantIds(w, id);
    pid :| pid in w.procs && CanPlace(w, pid, id) && w.procs[pid].record.variantId == v;
  }

  lemma PlaceOneClaim(a: Adapter, w: World, pid: Pid, id: Hash) returns (steps: seq<Step>)
    requires Inv(a, w) && a.Injective() && CanPlace(w, pid, id)
    ensures NoCount(steps) && Inv(a, ApplyAll(a, w, steps)) && id in ApplyAll(a, w, steps).sessions
    ensures Claimed(ApplyAll(a, w, steps), id) == Claimed(w, id)
    ensures VariantIds(w, id) <= VariantIds(ApplyAll(a, w, steps), id)
    ensures w.procs[pid].record.variantId in VariantIds(ApplyAll(a, w, steps), id)
  {
    steps := PlaceClaim(a, w, pid, id);
    ClaimsAfter(a, w, steps, id);
  }

  // One more claim placed, and none lost or made.
  lemma PlaceNext(a: Adapter, w: World, id: Hash) returns (steps: seq<Step>)
    requires Inv(a, w) && a.Injective() && id in w.sessions && Claimed(w, id) != VariantIds(w, id)
    ensures NoCount(steps) && Inv(a, ApplyAll(a, w, steps)) && id in ApplyAll(a, w, steps).sessions
    ensures Claimed(ApplyAll(a, w, steps), id) == Claimed(w, id)
    ensures |Claimed(w, id) - VariantIds(ApplyAll(a, w, steps), id)| < |Claimed(w, id) - VariantIds(w, id)|
  {
    var pid := SomeClaim(w, id);
    steps := PlaceOneClaim(a, w, pid, id);
    FewerLeft(Claimed(w, id), VariantIds(w, id), VariantIds(ApplyAll(a, w, steps), id), w.procs[pid].record.variantId);
  }

  // All claims of a session can be placed, one after the other, and then the session lists exactly them.
  lemma {:induction false} PlaceAll(a: Adapter, w: World, id: Hash) returns (steps: seq<Step>)
    requires Inv(a, w) && a.Injective() && id in w.sessions
    ensures NoCount(steps) && id in ApplyAll(a, w, steps).sessions && VariantIds(ApplyAll(a, w, steps), id) == Claimed(w, id)
    decreases |Claimed(w, id) - VariantIds(w, id)|
  {
    steps := [];
    if Claimed(w, id) != VariantIds(w, id) {
      var first := PlaceNext(a, w, id);
      var rest := PlaceAll(a, ApplyAll(a, w, first), id);
      ApplyConcat(a, w, first, rest);
      steps := first + rest;
    }
  }

  lemma FewerLeft(claimed: set<Hash>, before: set<Hash>, after: set<Hash>, v: Hash)
    requires before <= after && v in claimed && v !in before && v in after
    ensures |claimed - after| < |claimed - before|
  {
    assert claimed - after <= claimed - before - {v};
    Orders.SubsetSize(claimed - after, claimed - before - {v});
    assert |claimed - before - {v}| == |claimed - before| - 1;
  }

  // ----- the limit --------------------------------------------------------------------------------------------

  // From any reachable world, every continuation that counts nothing anew keeps the limit if and only if no session
  // claims more than it allows.
  lemma LimitExactly(a: Adapter, steps: seq<Step>)
    requires a.Injective()
    ensures (forall more :: NoCount(more) ==> WithinLimit(Run(a, steps + more))) <==> ClaimsWithinLimit(Run(a, steps))
  {
    var w := Run(a, steps);
    RunInv(a, steps);
    if ClaimsWithinLimit(w) {
      forall more | NoCount(more)
        ensures WithinLimit(Run(a, steps + more))
      {
        ClaimsBound(a, steps, more);
      }
    } else {
      var id :| id in w.sessions && |Claimed(w, id)| > MAX_VARIANTS;
      var more := PlaceAll(a, w, id);
      RunIsApplied(a, steps, more);
      assert !WithinLimit(Run(a, steps + more));
    }
  }

  lemma ClaimsBound(a: Adapter, steps: seq<Step>, more: seq<Step>)
    requires a.Injective() && NoCount(more) && ClaimsWithinLimit(Run(a, steps))
    ensures WithinLimit(Run(a, steps + more))
  {
    var w, t := Run(a, steps), Run(a, steps + more);
    RunClaimsNothing(a, steps, more);
    forall id | id in t.sessions
      ensures |VariantIds(t, id)| <= MAX_VARIANTS
    {
      if id in w.sessions {
        Orders.SubsetSize(VariantIds(t, id), Claimed(w, id));
      } else {
        assert VariantIds(t, id) <= Claimed(t, id);
      }
    }
  }

  // ----- nine variants ----------------------------------------------------------------------------------------

  function LpOnly(k: nat): Settings {
    map[LP_KEY := JInt(k)]
  }

  function LpRecord(a: Adapter, h: Header, k: nat): Record {
    RecordOf(a, h, LpVariant(h.identity.poolId, BASELINE_LP, k))
  }

  // A session founded by process 0, and the next k processes past their counts.
  ghost predicate Counted(a: Adapter, w: World, h: Header, raw: Raw, k: nat) {
    && w.sessions == map[h.sessionId := SessionDir(Complete(raw), true, Complete(h), map[], map[])]
    && 0 in w.procs && w.procs[0] == Opening(h)
    && (forall pid :: pid in w.procs ==> pid <= k)
    && (forall pid: nat :: 1 <= pid <= k ==> pid in w.procs && w.procs[pid] == Checked(h, LpRecord(a, h, pid - 1), pid - 1))
  }

  lemma Founded(a: Adapter, raw: Raw) returns (steps: seq<Step>, h: Header)
    requires a.load(raw).Some?
    ensures IsHeaderOf(a, h, raw) && Counted(a, Run(a, steps), h, raw, 0)
  {
    var info := a.load(raw).value;
    h := HeaderOf(a, raw, info);
    steps := [Create(0, raw, a.digest(raw), info.checkpoint, 0)];
    assert steps[..0] == [];
    var w := Run(a, steps);
    assert Run(a, []) == EMPTY;
    assert w == World(map[], map[0 := Staged(h, raw, 0)], map[0 := Creating(h, raw, 0, 0)]);
    var i: nat := 0;
    while i < CREATION_STAGES
      invariant i <= CREATION_STAGES
      invariant Run(a, steps) == World(map[], map[0 := Staged(h, raw, i)], map[0 := Creating(h, raw, 0, i)])
    {
      var more := steps + [Stage(0)];
      assert more[..|more| - 1] == steps;
      steps := more;
      i := i + 1;
    }
    var more := steps + [Rename(0)];
    assert more[..|more| - 1] == steps;
    steps := more;
  }

  lemma CountOne(a: Adapter, w: World, h: Header, raw: Raw, k: nat)
    requires IsHeaderOf(a, h, raw) && Counted(a, w, h, raw, k) && k <= 99
    ensures Counted(a, Apply(a, w, Register(k + 1, h.sessionId, LpOnly(k), k)), h, raw, k + 1)
  {
    KeysDiffer();
    assert VariantUnder(h, LpOnly(k)) == Ok(LpVariant(h.identity.poolId, BASELINE_LP, k));
    assert OpenSession(a, w, h.sessionId) == Some(h);
    var t := Apply(a, w, Register(k + 1, h.sessionId, LpOnly(k), k));
    assert At(w, k + 1).Idle?;
    assert AfterCount(a, w, h, VariantUnder(h, LpOnly(k)), k) == Checked(h, LpRecord(a, h, k), k);
    assert t == Goto(w, k + 1, Checked(h, LpRecord(a, h, k), k));
  }

  lemma {:induction false} CountMany(a: Adapter, steps: seq<Step>, h: Header, raw: Raw, k: nat) returns (more: seq<Step>)
    requires IsHeaderOf(a, h, raw) && Counted(a, Run(a, steps), h, raw, 0) && k <= 100
    ensures Counted(a, Run(a, more), h, raw, k)
  {
    if k == 0 {
      more := steps;
    } else {
      var shorter := CountMany(a, steps, h, raw, k - 1);
      CountOne(a, Run(a, shorter), h, raw, k - 1);
      more := shorter + [Register(k, h.sessionId, LpOnly(k - 1), k - 1)];
      assert more[..|more| - 1] == shorter;
    }
  }

  ghost function LpIds(a: Adapter, h: Header, k: nat): set<Hash> {
    set j | 0 <= j < k :: LpRecord(a, h, j).variantId
  }

  lemma {:induction false} LpIdsSize(a: Adapter, h: Header, k: nat)
    requires a.Injective()
    ensures |LpIds(a, h, k)| == k
  {
    if k > 0 {
      LpIdsSize(a, h, k - 1);
      assert LpIds(a, h, k) == LpIds(a, h, k - 1) + {LpRecord(a, h, k - 1).variantId};
      forall j: nat | j < k - 1
        ensures LpRecord(a, h, j).variantId != LpRecord(a, h, k - 1).variantId
      {
        assert LpVariant(h.identity.poolId, BASELINE_LP, j) != LpVariant(h.identity.poolId, BASELINE_LP, k - 1);
      }
    }
  }

  lemma CountedClaims(a: Adapter, w: World, h: Header, raw: Raw, k: nat)
    requires Counted(a, w, h, raw, k)
    ensures Claimed(w, h.sessionId) == LpIds(a, h, k)
  {
    var id := h.sessionId;
    forall v | v in Claimed(w, id)
      ensures v in LpIds(a, h, k)
    {
      var pid :| pid in w.procs && CanPlace(w, pid, id) && w.procs[pid].record.variantId == v;
      assert pid != 0 && v == LpRecord(a, h, pid - 1).variantId;
    }
    forall j | 0 <= j < k
      ensures LpRecord(a, h, j).variantId in Claimed(w, id)
    {
      var pid: nat := j + 1;
      assert pid in w.procs && w.procs[pid] == Checked(h, LpRecord(a, h, j), j);
      assert CanPlace(w, pid, id);
    }
  }

  // For every source that loads there is a run that leaves a session with nine variants: nine registrars count before
  // any of them renames.
  lemma NineVariants(a: Adapter, raw: Raw) returns (steps: seq<Step>, id: Hash)
    requires a.Injective() && a.load(raw).Some?
    ensures id in Run(a, steps).sessions && |Run(a, steps).sessions[id].variants| == MAX_VARIANTS + 1
  {
    var founding, h := Founded(a, raw);
    var counted := CountMany(a, founding, h, raw, MAX_VARIANTS + 1);
    id := h.sessionId;
    RunInv(a, counted);
    var more := PlaceAll(a, Run(a, counted), id);
    RunIsApplied(a, counted, more);
    steps := counted + more;
    CountedClaims(a, Run(a, counted), h, raw, MAX_VARIANTS + 1);
    LpIdsSize(a, h, MAX_VARIANTS + 1);
    assert |Run(a, steps).sessions[id].variants| == |Run(a, steps).sessions[id].variants.Keys|;
  }
}
