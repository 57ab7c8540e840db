// What consent lets through: a dispatch nobody interferes with completes exactly when its times are in order.
module ConsentProgress {
  import opened Wrappers
  import opened Consent

  function ApplyAll(w: World, steps: seq<Step>): World
    decreases |steps|
  {
    if steps == [] then w else ApplyAll(Apply(w, steps[0]), steps[1..])
  }

  lemma {:induction false} ApplyConcat(w: World, a: seq<Step>, b: seq<Step>)
    ensures ApplyAll(w, a + b) == ApplyAll(ApplyAll(w, a), b)
    decreases |a|
  {
    if a == [] {
      assert a + b == b;
    } else {
      assert (a + b)[0] == a[0] && (a + b)[1..] == a[1..] + b;
      ApplyConcat(Apply(w, a[0]), a[1..], b);
    }
  }

  lemma {:induction false} RunIsApplied(steps: seq<Step>, more: seq<Step>)
    ensures Run(steps + more) == ApplyAll(Run(steps), more)
    decreases |more|
  {
    if more == [] {
      assert steps + more == steps;
    } else {
      var longer := steps + [more[0]];
      assert longer[..|longer| - 1] == steps;
      RunIsApplied(longer, more[1..]);
      assert steps + more == longer + more[1..];
    }
  }

  lemma Three(w: World, a: Step, b: Step, c: Step)
    ensures ApplyAll(w, [a, b, c]) == Apply(Apply(Apply(w, a), b), c)
  {
    var w1 := Apply(w, a);
    var w2 := Apply(w1, b);
    assert [a, b, c][1..] == [b, c] && [b, c][1..] == [c] && [c][1..] == [];
    assert ApplyAll(Apply(w2, c), []) == Apply(w2, c);
    assert ApplyAll(w2, [c]) == Apply(w2, c);
    assert ApplyAll(w1, [b, c]) == ApplyAll(w2, [c]);
  }

  // ----- the phases of one dispatch ---------------------------------------------------------------------------

  function Issuing(pid: Pid, b: Binding, key: nat, now: int, notAfter: Option<int>): seq<Step> {
    [Issue(pid, b, key, now, notAfter), CreateGrant(pid), Write(pid)]
  }

  function Consuming(pid: Pid, b: Binding, key: nat, at: int): seq<Step> {
    [Load(pid, b, key, at), CreateConsumed(pid), Write(pid)]
  }

  function Intending(pid: Pid): seq<Step> {
    [MakeOutput(pid), CreateIntent(pid), Write(pid)]
  }

  function Supervising(pid: Pid): seq<Step> {
    [Launch(pid), CreateInventory(pid, true), Write(pid)]
  }

  function Finishing(pid: Pid): seq<Step> {
    [CreateResult(pid), Write(pid), Stop(pid)]
  }

  // The plan and the output directory are new, and so are the two processes.
  predicate Clear(w: World, p: Pid, q: Pid, b: Binding) {
    && p != q && At(w, p).Idle? && At(w, q).Idle? && ConsentDir(b.plan) !in w.dirs && OutDir(b.output) !in w.dirs
    && GrantFile(b.plan) !in w.files && ConsumedFile(b.plan) !in w.files
    && DispatchFile(b.output) !in w.files && ManifestFile(b.output) !in w.files && ResultFile(b.output) !in w.files
  }

  predicate Issuable(now: int, notAfter: Option<int>) {
    notAfter.Some? ==> now + REMAINING_SECONDS <= notAfter.value
  }

  // The files of a world but for one path.
  predicate SameBut(w: World, t: World, path: Path, content: Content) {
    t.files == w.files[path := Complete(content)]
  }

  lemma Issues(w: World, p: Pid, q: Pid, b: Binding, key: nat, now: int, notAfter: Option<int>)
    requires Clear(w, p, q, b)
    ensures
      var t := ApplyAll(w, Issuing(p, b, key, now, notAfter));
      && t.procs == w.procs[p := Ended] && OutDir(b.output) !in t.dirs
      && (if Issuable(now, notAfter) then SameBut(w, t, GrantFile(b.plan), Grant(b, key, now, Expiry(now, notAfter))) else t.files == w.files)
  {
    var w1 := Apply(w, Issue(p, b, key, now, notAfter));
    var w2 := Apply(w1, CreateGrant(p));
    Three(w, Issue(p, b, key, now, notAfter), CreateGrant(p), Write(p));
    if !Issuable(now, notAfter) {
      assert w1 == Goto(w, p, Ended) && w2 == w1;
    } else {
      var g := Grant(b, key, now, Expiry(now, notAfter));
      assert At(w1, p) == IssueReady(b, key, now, Expiry(now, notAfter)) && w1.files == w.files;
      assert At(w2, p) == Writing(GrantFile(b.plan), g, Ended) && w2.files == w.files[GrantFile(b.plan) := Partial];
    }
  }

  lemma Consumes(w: World, q: Pid, b: Binding, key: nat, at: int)
    requires At(w, q).Idle? && ConsumedFile(b.plan) !in w.files
    ensures
      var t := ApplyAll(w, Consuming(q, b, key, at));
      && t.dirs == w.dirs
      && (Admits(w, b, key, at) ==> At(t, q) == Consumed(b) && SameBut(w, t, ConsumedFile(b.plan), Consumption(b, q, at)))
      && (!Admits(w, b, key, at) ==> At(t, q) == Ended && t.files == w.files)
  {
    var w1 := Apply(w, Load(q, b, key, at));
    var w2 := Apply(w1, CreateConsumed(q));
    Three(w, Load(q, b, key, at), CreateConsumed(q), Write(q));
    if Admits(w, b, key, at) {
      assert At(w1, q) == Admitted(b, at) && w1.files == w.files;
      assert At(w2, q) == Writing(ConsumedFile(b.plan), Consumption(b, q, at), Consumed(b));
    } else {
      assert At(w1, q) == Ended && w2 == w1;
    }
  }

  lemma Intends(w: World, q: Pid, b: Binding)
    requires At(w, q) == Consumed(b) && OutDir(b.output) !in w.dirs && DispatchFile(b.output) !in w.files
    ensures
      var t := ApplyAll(w, Intending(q));
      At(t, q) == Dispatched(b) && SameBut(w, t, DispatchFile(b.output), Intent(b, q))
  {
    var w1 := Apply(w, MakeOutput(q));
    var w2 := Apply(w1, CreateIntent(q));
    Three(w, MakeOutput(q), CreateIntent(q), Write(q));
    assert At(w1, q) == OutputMade(b) && w1.files == w.files;
    assert At(w2, q) == Writing(DispatchFile(b.output), Intent(b, q), Dispatched(b));
  }

  lemma Supervises(w: World, q: Pid, b: Binding)
    requires At(w, q) == Dispatched(b) && ManifestFile(b.output) !in w.files
    ensures
      var t := ApplyAll(w, Supervising(q));
      At(t, q) == Inventoried(b, true) && SameBut(w, t, ManifestFile(b.output), Inventory(q)) && Launched(b, q) in t.log
  {
    var w1 := Apply(w, Launch(q));
    var w2 := Apply(w1, CreateInventory(q, true));
    Three(w, Launch(q), CreateInventory(q, true), Write(q));
    assert At(w1, q) == Supervised(b) && w1.files == w.files && w1.log == w.log + [Launched(b, q)];
    assert At(w2, q) == Writing(ManifestFile(b.output), Inventory(q), Inventoried(b, true)) && w2.log == w1.log;
    assert w1.log[|w.log|] == Launched(b, q);
  }

  lemma Finishes(w: World, q: Pid, b: Binding)
    requires At(w, q) == Inventoried(b, true) && ResultFile(b.output) !in w.files
    ensures ApplyAll(w, Finishing(q)).files == w.files[ResultFile(b.output) := Complete(Outcome(q, true))]
  {
    var w1 := Apply(w, CreateResult(q));
    var w2 := Apply(w1, Write(q));
    Three(w, CreateResult(q), Write(q), Stop(q));
    assert At(w1, q) == Writing(ResultFile(b.output), Outcome(q, true), Ended);
  }

  lemma Idles(w: World, q: Pid)
    requires At(w, q) == Ended
    ensures
      var t := ApplyAll(w, Intending(q));
      t == w && ApplyAll(t, Supervising(q)) == w && ApplyAll(w, Finishing(q)).files == w.files
  {
    Three(w, MakeOutput(q), CreateIntent(q), Write(q));
    Three(w, Launch(q), CreateInventory(q, true), Write(q));
    Three(w, CreateResult(q), Write(q), Stop(q));
  }

  // ----- the whole dispatch -----------------------------------------------------------------------------------

  function Dispatch(p: Pid, q: Pid, b: Binding, key: nat, now: int, notAfter: Option<int>, loadKey: nat, at: int): seq<Step> {
    Issuing(p, b, key, now, notAfter) + (Consuming(q, b, loadKey, at) + (Intending(q) + (Supervising(q) + Finishing(q))))
  }

  // The key is that of the grant, and the load falls into its window with 180 seconds to spare.
  predicate InTime(key: nat, now: int, notAfter: Option<int>, loadKey: nat, at: int) {
    && loadKey == key && now <= at && at + REMAINING_SECONDS <= now + GRANT_SECONDS
    && (notAfter.Some? ==> at + REMAINING_SECONDS <= notAfter.value)
  }

  lemma AdmitsInTime(w: World, t: World, p: Pid, q: Pid, b: Binding, key: nat, now: int, notAfter: Option<int>, loadKey: nat, at: int)
    requires Clear(w, p, q, b) && t == ApplyAll(w, Issuing(p, b, key, now, notAfter))
    ensures Admits(t, b, loadKey, at) <==> InTime(key, now, notAfter, loadKey, at)
  {
    Issues(w, p, q, b, key, now, notAfter);
  }

  lemma Phases(w: World, a: seq<Step>, b: seq<Step>, c: seq<Step>, d: seq<Step>, e: seq<Step>)
    ensures ApplyAll(w, a + (b + (c + (d + e)))) == ApplyAll(ApplyAll(ApplyAll(ApplyAll(ApplyAll(w, a), b), c), d), e)
  {
    ApplyConcat(w, a, b + (c + (d + e)));
    ApplyConcat(ApplyAll(w, a), b, c + (d + e));
    ApplyConcat(ApplyAll(ApplyAll(w, a), b), c, d + e);
    ApplyConcat(ApplyAll(ApplyAll(ApplyAll(w, a), b), c), d, e);
  }

  // What an admitted process makes of its way.
  lemma Proceeds(w: World, q: Pid, b: Binding)
    requires At(w, q) == Consumed(b) && OutDir(b.output) !in w.dirs
    requires DispatchFile(b.output) !in w.files && ManifestFile(b.output) !in w.files && ResultFile(b.output) !in w.files
    ensures
      var t := ApplyAll(ApplyAll(ApplyAll(w, Intending(q)), Supervising(q)), Finishing(q));
      ResultFile(b.output) in t.files && t.files[ResultFile(b.output)] == Complete(Outcome(q, true))
  {
    Intends(w, q, b);
    var w1 := ApplyAll(w, Intending(q));
    Supervises(w1, q, b);
    Finishes(ApplyAll(w1, Supervising(q)), q, b);
  }

  // From any reachable world, a dispatch of a new plan into a new directory by two new processes, uninterrupted, completes
  // if and only if it is in time.
  lemma DispatchCompletes(steps: seq<Step>, p: Pid, q: Pid, b: Binding, key: nat, now: int, notAfter: Option<int>, loadKey: nat, at: int)
    requires Clear(Run(steps), p, q, b)
    ensures
      var t := Run(steps + Dispatch(p, q, b, key, now, notAfter, loadKey, at));
      if InTime(key, now, notAfter, loadKey, at)
      then ResultFile(b.output) in t.files && t.files[ResultFile(b.output)] == Complete(Outcome(q, true))
      else ConsumedFile(b.plan) !in t.files && ResultFile(b.output) !in t.files
  {
    var w := Run(steps);
    RunIsApplied(steps, Dispatch(p, q, b, key, now, notAfter, loadKey, at));
    Phases(w, Issuing(p, b, key, now, notAfter), Consuming(q, b, loadKey, at), Intending(q), Supervising(q), Finishing(q));
    UndisturbedCompletes(w, p, q, b, key, now, notAfter, loadKey, at);
  }

  lemma UndisturbedCompletes(w: World, p: Pid, q: Pid, b: Binding, key: nat, now: int, notAfter: Option<int>, loadKey: nat, at: int)
    requires Clear(w, p, q, b)
    ensures
      var w2 := ApplyAll(ApplyAll(w, Issuing(p, b, key, now, notAfter)), Consuming(q, b, loadKey, at));
      var t := ApplyAll(ApplyAll(ApplyAll(w2, Intending(q)), Supervising(q)), Finishing(q));
      if InTime(key, now, notAfter, loadKey, at)
      then ResultFile(b.output) in t.files && t.files[ResultFile(b.output)] == Complete(Outcome(q, true))
      else ConsumedFile(b.plan) !in t.files && ResultFile(b.output) !in t.files
  {
    var w1 := ApplyAll(w, Issuing(p, b, key, now, notAfter));
    Issues(w, p, q, b, key, now, notAfter);
    AdmitsInTime(w, w1, p, q, b, key, now, notAfter, loadKey, at);
    Consumes(w1, q, b, loadKey, at);
    if Admits(w1, b, loadKey, at) {
      Proceeds(ApplyAll(w1, Consuming(q, b, loadKey, at)), q, b);
    } else {
      Idles(ApplyAll(w1, Consuming(q, b, loadKey, at)), q);
    }
  }
}
