// The count and the rename of a registration are separate steps: two overlapping registrations can exceed the limit.
// Both can pass the count in a session with room; from there their own remaining steps, one after the other, place
// both records, whatever else the session holds. session_store_limit.dfy has the exact condition and a run to nine.
module SessionStoreRace {
  import opened Wrappers
  import opened SessionIdentity
  import opened SessionStore
  import opened SessionStoreLimit

  // The remaining steps of a process that has passed the count.
  function Rest(pid: Pid): seq<Step> {
    [StageVariant(pid), StageVariant(pid), StageVariant(pid), RenameVariant(pid)]
  }

  // The process has passed the count of this session and its staging name is free.
  ghost predicate Ready(w: World, pid: Pid, h: Header, r: Record, token: Token) {
    && pid in w.procs && w.procs[pid] == Checked(h, r, token) && h.sessionId in w.sessions
    && token !in w.sessions[h.sessionId].staging && r.variantId !in w.sessions[h.sessionId].variants
  }

  lemma AtStage(a: Adapter, w: World, pid: Pid, h: Header, r: Record, token: Token, stage: nat)
    requires pid in w.procs && w.procs[pid] == Registering(h, r, token, stage) && stage < REGISTRATION_STAGES && h.sessionId in w.sessions
    ensures
      var dir := w.sessions[h.sessionId];
      Apply(a, w, StageVariant(pid)) ==
      w.(sessions := w.sessions[h.sessionId := dir.(staging := dir.staging[token := StagedVariant(r, stage + 1)])],
         procs := w.procs[pid := Registering(h, r, token, stage + 1)])
  {
  }

  // Finishing a counted registration adds its variant, whatever the count has become.
  lemma Finishes(a: Adapter, w: World, pid: Pid, h: Header, r: Record, token: Token)
    requires Ready(w, pid, h, r, token)
    ensures
      var t := ApplyAll(a, w, Rest(pid));
      var dir := w.sessions[h.sessionId];
      && h.sessionId in t.sessions && t.sessions[h.sessionId].variants == dir.variants[r.variantId := VariantDir(Complete(r))]
      && t.sessions[h.sessionId].staging == dir.staging - {token}
      && (forall q :: q != pid && q in w.procs ==> q in t.procs && t.procs[q] == w.procs[q])
  {
    var steps := Rest(pid);
    var w1 := Apply(a, w, StageVariant(pid));
    assert w1.procs[pid] == Registering(h, r, token, 0);
    AtStage(a, w1, pid, h, r, token, 0);
    var w2 := Apply(a, w1, StageVariant(pid));
    AtStage(a, w2, pid, h, r, token, 1);
    var w3 := Apply(a, w2, StageVariant(pid));
    var w4 := Apply(a, w3, RenameVariant(pid));
    assert steps[1..][1..][1..][1..] == [];
    assert ApplyAll(a, w, steps) == ApplyAll(a, w1, steps[1..]);
    assert ApplyAll(a, w1, steps[1..]) == ApplyAll(a, w2, steps[1..][1..]);
    assert ApplyAll(a, w2, steps[1..][1..]) == ApplyAll(a, w3, steps[1..][1..][1..]);
    assert ApplyAll(a, w3, steps[1..][1..][1..]) == ApplyAll(a, w4, []);
    assert w4.sessions[h.sessionId].staging == w.sessions[h.sessionId].staging - {token};
  }

  // From any world with one place left, two processes that both passed the count leave one variant too many.
  lemma OverlapExceedsLimit(a: Adapter, w: World, p: Pid, q: Pid, h: Header, r: Record, u: Record, s: Token, t: Token)
    requires p != q && r.variantId != u.variantId && s != t && Ready(w, p, h, r, s) && Ready(w, q, h, u, t)
    requires |w.sessions[h.sessionId].variants| == MAX_VARIANTS - 1
    ensures
      var late := ApplyAll(a, w, Rest(p) + Rest(q));
      h.sessionId in late.sessions && |late.sessions[h.sessionId].variants| == MAX_VARIANTS + 1
  {
    ApplyConcat(a, w, Rest(p), Rest(q));
    Finishes(a, w, p, h, r, s);
    var middle := ApplyAll(a, w, Rest(p));
    Finishes(a, middle, q, h, u, t);
    var before := w.sessions[h.sessionId].variants;
    var after := ApplyAll(a, middle, Rest(q)).sessions[h.sessionId].variants;
    assert after.Keys == before.Keys + {r.variantId} + {u.variantId};
    assert |after.Keys| == |before.Keys| + 2;
    assert |after| == |after.Keys| && |before| == |before.Keys|;
  }

  // Two idle processes can both pass that count.
  lemma BothPassTheCount(a: Adapter, w: World, p: Pid, q: Pid, h: Header, v: Settings, x: Settings, s: Token, t: Token)
    requires p != q && At(w, p).Idle? && At(w, q).Idle? && OpenSession(a, w, h.sessionId) == Some(h)
    requires VariantUnder(h, v).Ok? && VariantUnder(h, x).Ok?
    requires
      var r, u := RecordOf(a, h, VariantUnder(h, v).value), RecordOf(a, h, VariantUnder(h, x).value);
      && r.variantId !in w.sessions[h.sessionId].variants && u.variantId !in w.sessions[h.sessionId].variants
    requires |w.sessions[h.sessionId].variants| < MAX_VARIANTS
    requires s !in w.sessions[h.sessionId].staging && t !in w.sessions[h.sessionId].staging
    ensures
      var r, u := RecordOf(a, h, VariantUnder(h, v).value), RecordOf(a, h, VariantUnder(h, x).value);
      var both := Apply(a, Apply(a, w, Register(p, h.sessionId, v, s)), Register(q, h.sessionId, x, t));
      Ready(both, p, h, r, s) && Ready(both, q, h, u, t) && both.sessions == w.sessions
  {
    var one := Apply(a, w, Register(p, h.sessionId, v, s));
    assert one == Goto(w, p, AfterCount(a, w, h, VariantUnder(h, v), s));
    assert OpenSession(a, one, h.sessionId) == OpenSession(a, w, h.sessionId);
    assert At(one, q) == At(w, q);
  }
}
