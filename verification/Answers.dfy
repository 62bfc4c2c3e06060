/** When a run reports success: exactly when its calls were answered and it found what it needed. */
module Answers {
  import opened Wrappers
  import opened Types
  import opened Services
  import opened StatusStore
  import opened HealthRuns
  import opened StatusRuns
  import opened MainPass
  import opened Stages
  import opened PassFacts

  // ---------- Counting failed calls ----------

  function Faults(events: seq<Event>): nat {
    if events == [] then 0 else (if events[0].fault.Some? then 1 else 0) + Faults(events[1..])
  }

  lemma {:induction false} FaultsAppend(x: seq<Event>, y: seq<Event>)
    ensures Faults(x + y) == Faults(x) + Faults(y)
  {
    if x == [] {
      assert x + y == y;
    } else {
      assert (x + y)[0] == x[0] && (x + y)[1..] == x[1..] + y;
      FaultsAppend(x[1..], y);
    }
  }

  lemma {:induction false} NoFaults(events: seq<Event>)
    ensures Faults(events) == 0 <==> FaultFree(events)
  {
    if events != [] {
      NoFaults(events[1..]);
      assert forall e :: e in events <==> e == events[0] || e in events[1..];
    }
  }

  /** Between `a` and `b` exactly `n` calls failed. */
  ghost predicate Lost(a: Api, b: Api, n: nat) {
    Rest(a.script, b.script) && Faults(Met(a, b)) == n
  }

  lemma LostAdds(a: Api, b: Api, c: Api, n: nat, k: nat)
    requires Lost(a, b, n) && Lost(b, c, k)
    ensures Lost(a, c, n + k)
  {
    MetAppend(a, b, c);
    FaultsAppend(Met(a, b), Met(b, c));
  }

  lemma LostNothing(a: Api)
    ensures Lost(a, a, 0)
  {
    assert Met(a, a) == [];
  }

  lemma CallLost(a: Api)
    ensures Lost(a, Call(a).api, if Call(a).fault.Some? then 1 else 0)
  {
    CallShape(a);
    if a.script == [] {
      assert Met(a, Call(a).api) == [];
    } else {
      assert Met(a, Call(a).api) == [a.script[0]] && [a.script[0]][1..] == [];
    }
  }

  // ---------- One status write ----------

  lemma {:induction false} RetryLost(a: Api, c: Copy, retry: bool)
    ensures var r := UpdateWithRetry(a, c, retry);
            if r.ok then Lost(a, r.api, 0) && (retry || c.version == Call(a).api.version)
            else Lost(a, r.api, 1) || (Lost(a, r.api, 0) && !retry && c.version != Call(a).api.version)
    decreases |a.script|, if c.version == a.version then 0 else 1
  {
    var u := UpdateStatus(a, c);
    CallShape(a);
    CallLost(a);
    if u.reply.Conflict? && retry {
      var g := Call(u.api);
      CallShape(u.api);
      CallLost(u.api);
      LostAdds(a, u.api, g.api, 0, if g.fault.Some? then 1 else 0);
      if g.fault.None? {
        var again := Copy(g.api.version, g.api.status);
        RetryLost(g.api, again, retry);
        var r := UpdateWithRetry(g.api, again, retry);
        LostAdds(a, g.api, r.api, 0, if r.ok then 0 else 1);
      }
    }
  }

  /** A status write reports success if and only if none of its calls failed, re-reads after conflicts included, and,
      when it may not retry, its version was current on arrival. */
  lemma RetrySucceedsIff(a: Api, c: Copy, retry: bool)
    ensures var r := UpdateWithRetry(a, c, retry);
            && Rest(a.script, r.api.script)
            && (r.ok <==> (forall e :: e in Met(a, r.api) ==> e.fault.None?) &&
                          (retry || c.version == Call(a).api.version))
  {
    RetryLost(a, c, retry);
    NoFaults(Met(a, UpdateWithRetry(a, c, retry).api));
  }

  // ---------- The two smaller reconcilers ----------

  /** A run of the health checker fails if and only if a call of it failed or the object is gone; it asks to run again
      on a failed call and otherwise unless the deployment it read is complete and the check was passed. */
  lemma HealthResult(a: Api, healthy: bool)
    ensures var read, r := Call(a).api, HealthReconcile(a, healthy);
            && Rest(a.script, r.api.script)
            && var lost := exists e :: e in Met(a, r.api) && e.fault.Some?;
               && (r.failed <==> lost || read.life == Gone)
               && (r.requeue <==>
                     (lost || (read.life != Gone && !(read.status.status == Completed && healthy))))
  {
    var read, r := Call(a).api, HealthReconcile(a, healthy);
    CallLost(a);
    if Call(a).fault.None? && !read.life.Gone? {
      var c1 := Copy(read.version, read.status.(healthStatus := Unknown));
      var w1 := UpdateWithRetry(read, c1, true);
      RetryLost(read, c1, true);
      LostAdds(a, read, w1.api, 0, if w1.ok then 0 else 1);
      if w1.ok && read.status.status == Completed {
        var c2 := Copy(read.version, read.status.(healthStatus := CheckResult(healthy)));
        var w2 := UpdateWithRetry(w1.api, c2, true);
        RetryLost(w1.api, c2, true);
        LostAdds(a, w1.api, w2.api, 0, if w2.ok then 0 else 1);
      }
    }
    NoFaults(Met(a, r.api));
  }

  lemma {:induction false} ListLost(a: Api, n: nat)
    ensures var l := ListCalls(a, n); Lost(a, l.api, if l.ok then 0 else 1)
    decreases n
  {
    if n == 0 {
      LostNothing(a);
    } else {
      CallLost(a);
      if Call(a).fault.None? {
        ListLost(Call(a).api, n - 1);
        var l := ListCalls(Call(a).api, n - 1);
        LostAdds(a, Call(a).api, l.api, 0, if l.ok then 0 else 1);
      }
    }
  }

  lemma StatusLost(a: Api, pvcs: seq<PVCStatus>, service: ServiceAddr, listing: Listing)
    requires Call(a).fault.None? && !Call(a).api.life.Gone?
    ensures var r := StatusReconcile(a, pvcs, service, listing); Lost(a, r.api, if r.failed then 1 else 0)
  {
    var read := Call(a).api;
    var l := ListCalls(read, 2 + |read.spec.pools|);
    CallLost(a);
    ListLost(read, 2 + |read.spec.pools|);
    LostAdds(a, read, l.api, 0, if l.ok then 0 else 1);
    if l.ok {
      var c := Copy(read.version, Observed(read.status, read.spec.pools, pvcs, service, listing));
      var w := UpdateWithRetry(l.api, c, true);
      RetryLost(l.api, c, true);
      LostAdds(a, l.api, w.api, 0, if w.ok then 0 else 1);
    }
  }

  /** Some pool lists pods, and not a running one last. */
  predicate Unfinished(pools: seq<Pool>, listing: Listing) {
    exists k :: 0 <= k < |pools| && !Fine(Listed(listing, pools[k].name))
  }

  /** A run of the status controller fails if and only if a call of it failed or the object is gone; it asks to run
      again on a failed call and otherwise while some pool is unfinished. */
  lemma StatusResult(a: Api, pvcs: seq<PVCStatus>, service: ServiceAddr, listing: Listing)
    ensures var read, r := Call(a).api, StatusReconcile(a, pvcs, service, listing);
            && Rest(a.script, r.api.script)
            && var lost := exists e :: e in Met(a, r.api) && e.fault.Some?;
               && (r.failed <==> lost || read.life == Gone)
               && (r.requeue <==> (lost || (read.life != Gone && Unfinished(read.spec.pools, listing))))
  {
    var read, r := Call(a).api, StatusReconcile(a, pvcs, service, listing);
    CallLost(a);
    DeployCompletedIff(read.spec.pools, listing);
    if Call(a).fault.None? && !read.life.Gone? {
      StatusLost(a, pvcs, service, listing);
    }
    NoFaults(Met(a, r.api));
  }

  // ---------- The stages of a pass ----------

  /** A stage that goes through exactly when none of its calls fails. */
  ghost predicate Exact(a: Api, s: Step) {
    Rest(a.script, s.w.api.script) && (s.ok <==> Faults(Met(a, s.w.api)) == 0)
  }

  lemma ExactThen(a: Api, s: Step, t: Step)
    requires Exact(a, s) && s.ok && Exact(s.w.api, t)
    ensures Exact(a, t)
  {
    LostAdds(a, s.w.api, t.w.api, 0, Faults(Met(s.w.api, t.w.api)));
  }

  lemma ExactNothing(s: Step)
    requires s.ok
    ensures Exact(s.w.api, s)
  {
    LostNothing(s.w.api);
  }

  lemma ExactCall(a: Api, s: Step)
    requires s.w.api == Call(a).api && (s.ok <==> Call(a).fault.None?)
    ensures Exact(a, s)
  {
    CallLost(a);
  }

  lemma ExactWrite(w: World, m: Minio)
    ensures Exact(w.api, WriteStatus(w, m))
  {
    RetryLost(w.api, Copy(m.version, m.status), true);
  }

  lemma ExactAnnounce(w: World, m: Minio)
    ensures Exact(w.api, Announce(w, m))
  {
    ExactWrite(w, m.(status := m.status.(status := Running)));
  }

  /** After a failed call whatever is reported, the stage has lost a call. */
  lemma ExactReport(w: World, m: Minio, message: string)
    requires Call(w.api).fault.Some?
    ensures Exact(w.api, Report(w.(api := Call(w.api).api), m, message))
  {
    var w1 := w.(api := Call(w.api).api);
    CallLost(w.api);
    var m1 := m.(status := m.status.(status := Failed, message := message));
    RetryLost(w1.api, Copy(m1.version, m1.status), true);
    var r := WriteStatus(w1, m1);
    LostAdds(w.api, w1.api, r.w.api, 1, Faults(Met(w1.api, r.w.api)));
  }

  lemma ExactRevision(w: World, m: Minio)
    ensures Exact(w.api, RecordRevision(w, m))
  {
    var w1 := w.(api := Call(w.api).api);
    ExactCall(w.api, Step(w1, m, Call(w.api).fault.None?));
    if Call(w.api).fault.None? {
      if w.rev.None? {
        ExactCall(w1.api, CreateRevision(w1, m));
        ExactThen(w.api, Step(w1, m, true), CreateRevision(w1, m));
      } else if w.rev.value != m.spec {
        var w2 := w1.(api := Call(w1.api).api, rev := None);
        ExactCall(w1.api, Step(w2, m, Call(w1.api).fault.None?));
        ExactThen(w.api, Step(w1, m, true), Step(w2, m, Call(w1.api).fault.None?));
        if Call(w1.api).fault.None? {
          ExactCall(w2.api, CreateRevision(w2, m));
          ExactThen(w.api, Step(w2, m, true), CreateRevision(w2, m));
        }
      }
    }
  }

  lemma ExactCreateService(w: World, k: Kind, m: Minio)
    requires ServiceName(w.name, k) !in w.svcs
    ensures Exact(w.api, CreateService(w, k, m))
  {
    ExactAnnounce(w, m);
    var a := Announce(w, m);
    if a.ok {
      ExactSubmit(a.w, k, a.m);
      ExactThen(w.api, a, SubmitService(a.w, k, a.m));
    }
  }

  lemma ExactSubmit(w: World, k: Kind, m: Minio)
    requires ServiceName(w.name, k) !in w.svcs
    ensures Exact(w.api, SubmitService(w, k, m))
  {
    assert Built(w.name, k, m.spec).name == ServiceName(w.name, k);
    if Call(w.api).fault.Some? {
      ExactReport(w, m, CreateFailure(k));
    } else {
      ExactCall(w.api, SubmitService(w, k, m));
    }
  }

  lemma ExactConverge(w: World, k: Kind, m: Minio)
    requires ServiceName(w.name, k) in w.svcs
    ensures Exact(w.api, ConvergeService(w, k, m))
  {
    if Matches(w.svcs[ServiceName(w.name, k)], Expected(w.name, k, m.spec)) {
      ExactNothing(ConvergeService(w, k, m));
    } else if Call(w.api).fault.Some? {
      ExactReport(w, m, UpdateFailure(k));
    } else {
      ExactCall(w.api, ConvergeService(w, k, m));
    }
  }

  lemma ExactService(w: World, k: Kind, m: Minio)
    ensures Exact(w.api, CheckService(w, k, m))
  {
    var w1 := w.(api := Call(w.api).api);
    ExactCall(w.api, Step(w1, m, Call(w.api).fault.None?));
    if Call(w.api).fault.None? {
      if ServiceName(w.name, k) in w.svcs {
        ExactConverge(w1, k, m);
      } else {
        ExactMissingService(w1, k, m);
      }
      ExactThen(w.api, Step(w1, m, true), CheckService(w, k, m));
    }
  }

  lemma ExactMissingService(w: World, k: Kind, m: Minio)
    requires ServiceName(w.name, k) !in w.svcs
    ensures var c := CreateService(w, k, m);
            && (c.ok ==> ServiceName(c.w.name, k) in c.w.svcs && c.w.name == w.name)
            && Exact(w.api, if c.ok then ConvergeService(c.w, k, c.m) else c)
  {
    CreateServiceStore(w, k, m);
    ExactCreateService(w, k, m);
    var c := CreateService(w, k, m);
    if c.ok {
      ExactConverge(c.w, k, c.m);
      ExactThen(w.api, c, ConvergeService(c.w, k, c.m));
    }
  }

  lemma ExactServices(w: World, m: Minio)
    ensures Exact(w.api, CheckServices(w, m))
  {
    var s1 := CheckService(w, MinIOSvc, m);
    ExactService(w, MinIOSvc, m);
    if s1.ok {
      var s2 := CheckService(s1.w, ConsoleSvc, s1.m);
      ExactService(s1.w, ConsoleSvc, s1.m);
      ExactThen(w.api, s1, s2);
      if s2.ok {
        ExactService(s2.w, HeadlessSvc, s2.m);
        ExactThen(w.api, s2, CheckServices(w, m));
      }
    }
  }

  // ---------- Claims ----------

  lemma {:induction false} ClaimsLost(w: World, claims: seq<Claim>)
    ensures var t := CreateClaims(w, claims); Rest(w.api.script, t.api.script) && Faults(Met(w.api, t.api)) <= |claims|
    decreases |claims|
  {
    if claims == [] {
      LostNothing(w.api);
    } else {
      var c := Call(w.api);
      var w1 := w.(api := c.api);
      var w2 := if c.fault.Some? || claims[0].name in w1.pvcs then w1
                else w1.(pvcs := w1.pvcs[claims[0].name := claims[0]]);
      CallLost(w.api);
      ClaimsLost(w2, claims[1..]);
      var t := CreateClaims(w2, claims[1..]);
      LostAdds(w.api, c.api, t.api, if c.fault.Some? then 1 else 0, Faults(Met(c.api, t.api)));
    }
  }

  /** The number of calls whose failure a pass passes over: one for each claim it has to create. */
  function Forgiven(w: World, spec: Spec): nat {
    if HasClaims(w) then 0 else |AllClaims(w.name, spec, spec.pools)|
  }

  /** A stage that goes through only if no more than `n` of its calls fail, and stops only if some do. */
  ghost predicate Nearly(a: Api, s: Step, n: nat) {
    && Rest(a.script, s.w.api.script)
    && if s.ok then Faults(Met(a, s.w.api)) <= n else Faults(Met(a, s.w.api)) > 0
  }

  lemma NearlyThen(a: Api, s: Step, t: Step, n: nat)
    requires Exact(a, s) && s.ok && Nearly(s.w.api, t, n)
    ensures Nearly(a, t, n)
  {
    LostAdds(a, s.w.api, t.w.api, 0, Faults(Met(s.w.api, t.w.api)));
  }

  lemma NearlyClaims(w: World, m: Minio)
    ensures Nearly(w.api, CheckPVC(w, m), Forgiven(w, m.spec))
  {
    var w1 := w.(api := Call(w.api).api);
    assert HasClaims(w1) == HasClaims(w);
    ExactCall(w.api, Step(w1, m, Call(w.api).fault.None?));
    if Call(w.api).fault.None? && !HasClaims(w) {
      ExactAnnounce(w1, m);
      var a := Announce(w1, m);
      ExactThen(w.api, Step(w1, m, true), a);
      if a.ok {
        ClaimsLost(a.w, AllClaims(w.name, m.spec, m.spec.pools));
        NearlyThen(w.api, a, CheckPVC(w, m), Forgiven(w, m.spec));
      }
    }
  }

  lemma NearlyPrepare(w: World, m: Minio)
    ensures Nearly(w.api, Prepare(w, m), Forgiven(w, m.spec))
  {
    var s1 := RecordRevision(w, m);
    ExactRevision(w, m);
    RevisionStore(w, m);
    if s1.ok {
      SameForgiven(w, s1.w, m.spec);
      NearlyObjects(s1.w, m);
      NearlyThen(w.api, s1, Prepare(w, m), Forgiven(w, m.spec));
    }
  }

  lemma NearlyObjects(w: World, m: Minio)
    ensures var s2 := CheckServices(w, m);
            Nearly(w.api, if s2.ok then CheckPVC(s2.w, s2.m) else s2, Forgiven(w, m.spec))
  {
    var s2 := CheckServices(w, m);
    ExactServices(w, m);
    if s2.ok {
      ServicesStore(w, m);
      NearlyClaims(s2.w, s2.m);
      SameForgiven(w, s2.w, m.spec);
      NearlyThen(w.api, s2, CheckPVC(s2.w, s2.m), Forgiven(w, m.spec));
    }
  }

  lemma SameForgiven(w: World, v: World, spec: Spec)
    requires v.name == w.name && v.pvcs == w.pvcs
    ensures Forgiven(v, spec) == Forgiven(w, spec)
  {
    assert HasClaims(v) == HasClaims(w);
  }

  // ---------- Pods ----------

  /** A stage over pods goes through exactly when no call fails and each pod is found as it has to be. */
  ghost predicate ExactPods(a: Api, s: Step, stored: Stored) {
    && Rest(a.script, s.w.api.script)
    && (s.ok ==> Faults(Met(a, s.w.api)) == 0 && stored.ok && s.w.pods == stored.pods)
    && (!s.ok ==> Faults(Met(a, s.w.api)) > 0 || !stored.ok)
  }

  lemma PodsReport(w: World, m: Minio, message: string)
    ensures var s := Report(w.(api := Call(w.api).api), m, message);
            && !s.ok && Rest(w.api.script, s.w.api.script)
            && (Call(w.api).fault.Some? ==> Faults(Met(w.api, s.w.api)) > 0)
  {
    if Call(w.api).fault.Some? {
      ExactReport(w, m, message);
    } else {
      CallLost(w.api);
      var w1 := w.(api := Call(w.api).api);
      var m1 := m.(status := m.status.(status := Failed, message := message));
      RetryLost(w1.api, Copy(m1.version, m1.status), true);
      MetAppend(w.api, w1.api, WriteStatus(w1, m1).w.api);
    }
  }

  lemma {:induction false} ExactCreation(w: World, m: Minio, pods: seq<Pod>)
    ensures ExactPods(w.api, CreatePods(w, m, pods), PutNew(w.pods, pods))
    decreases |pods|
  {
    if pods == [] {
      LostNothing(w.api);
    } else {
      var fault := Call(w.api).fault;
      var w1 := w.(api := Call(w.api).api);
      if fault.Some? || pods[0].name in w1.pods {
        PodsReport(w, m, "MinIO Pod Create Failed, " + ErrorText(fault, "already exists"));
      } else {
        var w2 := w1.(pods := w1.pods[pods[0].name := pods[0]]);
        CallLost(w.api);
        ExactCreation(w2, m, pods[1..]);
        var t := CreatePods(w2, m, pods[1..]);
        LostAdds(w.api, w2.api, t.w.api, 0, Faults(Met(w2.api, t.w.api)));
      }
    }
  }

  lemma {:induction false} ExactUpdate(w: World, m: Minio, pods: seq<Pod>)
    ensures ExactPods(w.api, UpdatePods(w, m, pods), PutOver(w.pods, pods))
    decreases |pods|
  {
    if pods == [] {
      LostNothing(w.api);
    } else {
      var fault := Call(w.api).fault;
      var w1 := w.(api := Call(w.api).api);
      if fault.Some? || pods[0].name !in w1.pods {
        PodsReport(w, m, "MinIO Pod Update Failed, " + ErrorText(fault, "not found"));
      } else {
        var w2 := w1.(pods := w1.pods[pods[0].name := pods[0]]);
        CallLost(w.api);
        ExactUpdate(w2, m, pods[1..]);
        var t := UpdatePods(w2, m, pods[1..]);
        LostAdds(w.api, w2.api, t.w.api, 0, Faults(Met(w2.api, t.w.api)));
      }
    }
  }

  lemma ExactReconcilePods(w: World, m: Minio, prev: Option<Spec>)
    ensures ExactPods(w.api, ReconcilePods(w, m, prev), PodStage(w.pods, w.name, prev, m.spec))
  {
    var create, update := PodsToCreate(w.name, prev, m.spec), PodsToUpdate(w.name, prev, m.spec);
    ExactCreation(w, m, create);
    var c := CreatePods(w, m, create);
    if c.ok {
      ExactUpdate(c.w, c.m, update);
      var u := UpdatePods(c.w, c.m, update);
      LostAdds(w.api, c.w.api, u.w.api, 0, Faults(Met(c.w.api, u.w.api)));
      if u.ok {
        ExactAnnounce(u.w, u.m);
        var s := Announce(u.w, u.m);
        LostAdds(w.api, u.w.api, s.w.api, 0, Faults(Met(u.w.api, s.w.api)));
      }
    }
  }

  // ---------- The pass ----------

  /** A pass over an object that is live when it reads it, under any interference and any faults: if it reports
      success, the pods were found as they had to be and no call failed but at most the creations of claims; if it
      does not, a call failed or the pods were not so found. With claims in place the two are exact. */
  lemma PassSucceedsExactly(w: World)
    requires Call(w.api).fault.None? && Call(w.api).api.life == Live
    ensures var spec, r := Call(w.api).api.spec, Reconcile(w);
            && Rest(w.api.script, r.w.api.script)
            && var lost, stage := Faults(Met(w.api, r.w.api)), PodStage(w.pods, w.name, w.rev, spec);
               && (r.ok ==> lost <= Forgiven(w, spec) && stage.ok && r.w.pods == stage.pods)
               && (!r.ok ==> lost > 0 || !stage.ok)
  {
    FetchStarts(w);
    var a0 := Call(w.api).api;
    CallLost(w.api);
    var w0, m := w.(api := a0), Fetched(a0);
    var s0 := FirstStatus(w0, m);
    FirstStatusProceeds(a0, w0, m);
    ExactFirst(w0, m);
    ExactThen(w.api, Step(w0, m, true), s0);
    if s0.ok {
      SameForgiven(w, s0.w, m.spec);
      NearlyAfterFirst(a0, s0.w, s0.m, w.rev);
      var r := AfterFirst(s0.w, s0.m, w.rev);
      LostAdds(w.api, s0.w.api, r.w.api, 0, Faults(Met(s0.w.api, r.w.api)));
    }
  }

  lemma ExactFirst(w: World, m: Minio)
    ensures Exact(w.api, FirstStatus(w, m))
  {
    ExactNothing(Step(w, m, true));
    ExactWrite(w, m.(status := m.status.(status := Initial)));
  }

  lemma NearlyAfterFirst(a0: Api, w: World, m: Minio, prev: Option<Spec>)
    requires InRun(a0, w, m)
    ensures var r, stage := AfterFirst(w, m, prev), PodStage(w.pods, w.name, prev, m.spec);
            && Rest(w.api.script, r.w.api.script)
            && (r.ok ==> Faults(Met(w.api, r.w.api)) <= Forgiven(w, m.spec) && stage.ok && r.w.pods == stage.pods)
            && (!r.ok ==> Faults(Met(w.api, r.w.api)) > 0 || !stage.ok)
  {
    var p := Prepare(w, m);
    NearlyPrepare(w, m);
    PrepareStore(a0, w, m);
    PrepareProceeds(a0, w, m);
    if p.ok {
      ExactReconcilePods(p.w, p.m, prev);
      var r := ReconcilePods(p.w, p.m, prev);
      LostAdds(w.api, p.w.api, r.w.api, Faults(Met(w.api, p.w.api)), Faults(Met(p.w.api, r.w.api)));
    }
  }
}
