// Where grants and consumptions come from.
module ConsentOrigins {
  import opened Wrappers
  import opened Consent
  import opened ConsentRuns

  // The end of a grant: 600 seconds on or the given bound, whichever comes first.
  predicate EndsWithin(now: int, notAfter: Option<int>, end: int) {
    && end <= now + GRANT_SECONDS && (notAfter.Some? ==> end <= notAfter.value)
    && (end == now + GRANT_SECONDS || notAfter == Some(end))
  }

  // The k-th step issued this grant.
  predicate IssuedAt(steps: seq<Step>, g: Content, k: nat) {
    && k < |steps| && g.Grant? && steps[k].Issue? && steps[k].b == g.binding && steps[k].key == g.key && steps[k].now == g.begin
    && EndsWithin(steps[k].now, steps[k].notAfter, g.end) && g.end - g.begin >= REMAINING_SECONDS
  }

  // At the k-th step this process loaded the grant of this binding, at this time.
  ghost predicate LoadedAt(steps: seq<Step>, pid: Pid, b: Binding, at: int, k: nat) {
    && k < |steps| && steps[k].Load? && steps[k].pid == pid && steps[k].b == b && steps[k].now == at
    && Admits(Run(steps[..k]), b, steps[k].key, at)
  }

  ghost predicate ContentOrigin(steps: seq<Step>, content: Content) {
    && (content.Grant? ==> exists k: nat :: IssuedAt(steps, content, k))
    && (content.Consumption? ==> exists k: nat :: LoadedAt(steps, content.owner, content.binding, content.at, k))
  }

  ghost predicate ProcOrigin(steps: seq<Step>, pid: Pid, p: Proc) {
    match p
    case IssueReady(b, key, begin, end) => ContentOrigin(steps, Grant(b, key, begin, end))
    case Admitted(b, at) => ContentOrigin(steps, Consumption(b, pid, at))
    case Writing(path, content, next) => ContentOrigin(steps, content) && !next.IssueReady? && !next.Admitted? && !next.Writing?
    case _ => true
  }

  ghost predicate Origins(steps: seq<Step>, w: World) {
    && (forall pid :: pid in w.procs ==> ProcOrigin(steps, pid, w.procs[pid]))
    && (forall e :: e in w.log && e.Saved? ==> ContentOrigin(steps, e.content))
  }

  // ----- one step ---------------------------------------------------------------------------------------------

  lemma ContentGrows(steps: seq<Step>, s: Step, content: Content)
    requires ContentOrigin(steps, content)
    ensures ContentOrigin(steps + [s], content)
  {
    var more := steps + [s];
    if content.Grant? {
      var k: nat :| IssuedAt(steps, content, k);
      assert more[k] == steps[k];
      assert IssuedAt(more, content, k);
    }
    if content.Consumption? {
      var k: nat :| LoadedAt(steps, content.owner, content.binding, content.at, k);
      assert more[k] == steps[k] && more[..k] == steps[..k];
      assert LoadedAt(more, content.owner, content.binding, content.at, k);
    }
  }

  lemma ProcGrows(steps: seq<Step>, s: Step, pid: Pid, p: Proc)
    requires ProcOrigin(steps, pid, p)
    ensures ProcOrigin(steps + [s], pid, p)
  {
    match p {
      case IssueReady(b, key, begin, end) => ContentGrows(steps, s, Grant(b, key, begin, end));
      case Admitted(b, at) => ContentGrows(steps, s, Consumption(b, pid, at));
      case Writing(path, content, next) => ContentGrows(steps, s, content);
      case _ =>
    }
  }

  // A step moves its own process and notes at most one event.
  lemma Moves(w: World, s: Step)
    ensures
      var t := Apply(w, s);
      && (t.procs == w.procs || t.procs == w.procs[s.pid := At(t, s.pid)])
      && (t.log == w.log || (|t.log| == |w.log| + 1 && t.log[..|w.log|] == w.log))
  {
  }

  lemma IssueOrigin(steps: seq<Step>, s: Step)
    requires s.Issue? && (s.notAfter.Some? ==> s.notAfter.value - s.now >= REMAINING_SECONDS)
    ensures ContentOrigin(steps + [s], Grant(s.b, s.key, s.now, Expiry(s.now, s.notAfter)))
  {
    assert (steps + [s])[|steps|] == s;
    assert IssuedAt(steps + [s], Grant(s.b, s.key, s.now, Expiry(s.now, s.notAfter)), |steps|);
  }

  lemma LoadOrigin(steps: seq<Step>, s: Step)
    requires s.Load? && Admits(Run(steps), s.b, s.key, s.now)
    ensures ContentOrigin(steps + [s], Consumption(s.b, s.pid, s.now))
  {
    assert (steps + [s])[|steps|] == s && (steps + [s])[..|steps|] == steps;
    assert LoadedAt(steps + [s], s.pid, s.b, s.now, |steps|);
  }

  // Where a step leaves its process.
  lemma ProcAfter(steps: seq<Step>, s: Step, p: Proc)
    requires p == At(Run(steps), s.pid) && ProcOrigin(steps, s.pid, p)
    ensures ProcOrigin(steps + [s], s.pid, At(Apply(Run(steps), s), s.pid))
  {
    ProcGrows(steps, s, s.pid, p);
    match s {
      case Issue(pid, b, key, now, notAfter) =>
        if notAfter.Some? ==> notAfter.value - now >= REMAINING_SECONDS {
          IssueOrigin(steps, s);
        }
      case Load(pid, b, key, now) =>
        if Admits(Run(steps), b, key, now) {
          LoadOrigin(steps, s);
        }
      case _ =>
    }
  }

  // What a step saves.
  lemma EventAfter(steps: seq<Step>, s: Step)
    requires ProcOrigin(steps, s.pid, At(Run(steps), s.pid))
    ensures
      var w, t := Run(steps), Apply(Run(steps), s);
      |t.log| == |w.log| + 1 && t.log[|w.log|].Saved? ==> ContentOrigin(steps + [s], t.log[|w.log|].content)
  {
    ProcGrows(steps, s, s.pid, At(Run(steps), s.pid));
  }

  lemma StepOrigins(steps: seq<Step>, s: Step)
    requires Origins(steps, Run(steps))
    ensures Origins(steps + [s], Apply(Run(steps), s))
  {
    var w, t := Run(steps), Apply(Run(steps), s);
    Moves(w, s);
    ProcAfter(steps, s, At(w, s.pid));
    EventAfter(steps, s);
    forall pid | pid in t.procs
      ensures ProcOrigin(steps + [s], pid, t.procs[pid])
    {
      if pid != s.pid {
        ProcGrows(steps, s, pid, w.procs[pid]);
      }
    }
    forall e | e in t.log && e.Saved?
      ensures ContentOrigin(steps + [s], e.content)
    {
      var i :| 0 <= i < |t.log| && t.log[i] == e;
      if i < |w.log| {
        assert t.log[..|w.log|][i] == e;
        assert e in w.log;
        ContentGrows(steps, s, e.content);
      }
    }
  }

  lemma {:induction false} RunOrigins(steps: seq<Step>)
    ensures Origins(steps, Run(steps))
  {
    if steps != [] {
      var shorter := steps[..|steps| - 1];
      RunOrigins(shorter);
      StepOrigins(shorter, steps[|steps| - 1]);
      assert shorter + [steps[|steps| - 1]] == steps;
    }
  }

  // ----- every run --------------------------------------------------------------------------------------------

  // Every grant was issued by a step of the run with its binding and key. It begins at that step's time and ends 600
  // seconds on or at the bound the step was given, whichever comes first.
  lemma GrantIsIssued(steps: seq<Step>, plan: nat, i: nat) returns (k: nat)
    requires i < |Run(steps).log| && GrantOf(Run(steps).log[i], plan)
    ensures IssuedAt(steps, Run(steps).log[i].content, k) && steps[k].b.plan == plan
  {
    RunOrigins(steps);
    RunInv(steps);
    var e := Run(steps).log[i];
    assert e in Run(steps).log;
    assert Justified(Run(steps).log[..i], e);
    k :| IssuedAt(steps, e.content, k);
  }

  // Every consumption was loaded by its process, at its time, under the key with which its grant was issued before, and
  // at least 180 seconds before the end that issue allows.
  lemma ConsumptionIsAuthorized(steps: seq<Step>, plan: nat, i: nat) returns (k: nat, l: nat)
    requires i < |Run(steps).log| && ConsumptionOf(Run(steps).log[i], plan)
    ensures l < k < |steps| && steps[l].Issue? && steps[k].Load?
    ensures
      var c := Run(steps).log[i].content;
      && c.Consumption? && steps[k].pid == c.owner && steps[k].now == c.at
      && steps[k].b == steps[l].b == c.binding && steps[k].key == steps[l].key
      && steps[l].now <= c.at <= steps[l].now + GRANT_SECONDS - REMAINING_SECONDS
      && (steps[l].notAfter.Some? ==> c.at <= steps[l].notAfter.value - REMAINING_SECONDS)
  {
    RunOrigins(steps);
    RunInv(steps);
    var e := Run(steps).log[i];
    assert e in Run(steps).log;
    assert Justified(Run(steps).log[..i], e);
    var c := e.content;
    k :| LoadedAt(steps, c.owner, c.binding, c.at, k);
    var w := Run(steps[..k]);
    RunInv(steps[..k]);
    RunOrigins(steps[..k]);
    var g := w.files[GrantFile(plan)].content;
    assert Saved(GrantFile(plan), g) in w.log;
    l :| IssuedAt(steps[..k], g, l);
    assert steps[..k][l] == steps[l];
  }
}
