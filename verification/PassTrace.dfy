/** Every pass of the main reconciler is a run of the protocol. */
module PassTrace {
  import opened Wrappers
  import opened Types
  import opened Services
  import opened StatusStore
  import opened Protocol
  import opened MainPass
  import opened Traces

  /** The stage from `(w, m)` to `s` is a stretch of a run of the protocol. */
  ghost predicate StageTraced(w: World, m: Minio, s: Step) {
    Traced(MainReconciler, w.api, Copy(m.version, m.status), s.w.api, Copy(s.m.version, s.m.status))
  }

  lemma NoStage(w: World, m: Minio, s: Step)
    requires s.w.api == w.api && s.m == m
    ensures StageTraced(w, m, s)
  {
    TracedNothing(MainReconciler, w.api, Copy(m.version, m.status));
  }

  lemma CallStage(w: World, m: Minio, s: Step)
    requires s.w.api == Call(w.api).api && s.m == m
    ensures StageTraced(w, m, s)
  {
    TracedCall(MainReconciler, w.api, Copy(m.version, m.status));
  }

  lemma ThenStage(w: World, m: Minio, s: Step, t: Step)
    requires StageTraced(w, m, s) && StageTraced(s.w, s.m, t)
    ensures StageTraced(w, m, t)
  {
    TracedThen(MainReconciler, w.api, Copy(m.version, m.status), s.w.api, Copy(s.m.version, s.m.status),
               t.w.api, Copy(t.m.version, t.m.status));
  }

  lemma WriteStage(w: World, m: Minio, st: Status)
    requires AgreeOutside(MainReconciler, st, m.status)
    ensures StageTraced(w, m, WriteStatus(w, m.(status := st)))
  {
    TracedWrite(MainReconciler, w.api, Copy(m.version, m.status), st);
  }

  lemma AnnounceStage(w: World, m: Minio)
    ensures StageTraced(w, m, Announce(w, m))
  {
    WriteStage(w, m, m.status.(status := Running));
  }

  lemma ReportStage(w: World, m: Minio, message: string)
    ensures StageTraced(w, m, Report(w, m, message))
  {
    WriteStage(w, m, m.status.(status := Failed, message := message));
  }

  /** One call, and what follows it. */
  lemma CallThenStage(w: World, m: Minio, s: Step, t: Step)
    requires s.w.api == Call(w.api).api && s.m == m && StageTraced(s.w, s.m, t)
    ensures StageTraced(w, m, t)
  {
    CallStage(w, m, s);
    ThenStage(w, m, s, t);
  }

  lemma RevisionStage(w: World, m: Minio)
    ensures StageTraced(w, m, RecordRevision(w, m))
  {
    var w1 := w.(api := Call(w.api).api);
    CallStage(w, m, Step(w1, m, true));
    if Call(w.api).fault.None? {
      if w.rev.None? {
        CallStage(w1, m, CreateRevision(w1, m));
        ThenStage(w, m, Step(w1, m, true), CreateRevision(w1, m));
      } else if w.rev.value != m.spec {
        var w2 := w1.(api := Call(w1.api).api, rev := None);
        CallStage(w1, m, Step(w2, m, true));
        ThenStage(w, m, Step(w1, m, true), Step(w2, m, true));
        CallStage(w2, m, CreateRevision(w2, m));
        ThenStage(w, m, Step(w2, m, true), CreateRevision(w2, m));
      }
    }
  }

  lemma CreateServiceStage(w: World, k: Kind, m: Minio)
    ensures StageTraced(w, m, CreateService(w, k, m))
  {
    AnnounceStage(w, m);
    var a := Announce(w, m);
    if a.ok {
      var w1 := a.w.(api := Call(a.w.api).api);
      CallStage(a.w, a.m, Step(w1, a.m, true));
      ThenStage(w, m, a, Step(w1, a.m, true));
      ReportStage(w1, a.m, CreateFailure(k));
      ThenStage(w, m, Step(w1, a.m, true), Report(w1, a.m, CreateFailure(k)));
    }
  }

  lemma ConvergeStage(w: World, k: Kind, m: Minio)
    requires ServiceName(w.name, k) in w.svcs
    ensures StageTraced(w, m, ConvergeService(w, k, m))
  {
    if Matches(w.svcs[ServiceName(w.name, k)], Expected(w.name, k, m.spec)) {
      NoStage(w, m, ConvergeService(w, k, m));
    } else if Call(w.api).fault.None? {
      CallStage(w, m, ConvergeService(w, k, m));
    } else {
      var w1 := w.(api := Call(w.api).api);
      ReportStage(w1, m, UpdateFailure(k));
      CallThenStage(w, m, Step(w1, m, true), ConvergeService(w, k, m));
    }
  }

  lemma ServiceStage(w: World, k: Kind, m: Minio)
    ensures StageTraced(w, m, CheckService(w, k, m))
  {
    var w1 := w.(api := Call(w.api).api);
    CallStage(w, m, Step(w1, m, true));
    if Call(w.api).fault.None? {
      if ServiceName(w.name, k) in w1.svcs {
        ConvergeStage(w1, k, m);
      } else {
        CreateServiceStage(w1, k, m);
        var c := CreateService(w1, k, m);
        if c.ok {
          ConvergeStage(c.w, k, c.m);
          ThenStage(w1, m, c, ConvergeService(c.w, k, c.m));
        }
      }
      CallThenStage(w, m, Step(w1, m, true), CheckService(w, k, m));
    }
  }

  lemma ServicesStage(w: World, m: Minio)
    ensures StageTraced(w, m, CheckServices(w, m))
  {
    var s1 := CheckService(w, MinIOSvc, m);
    ServiceStage(w, MinIOSvc, m);
    if s1.ok {
      ServiceStage(s1.w, ConsoleSvc, s1.m);
      var s2 := CheckService(s1.w, ConsoleSvc, s1.m);
      ThenStage(w, m, s1, s2);
      if s2.ok {
        ServiceStage(s2.w, HeadlessSvc, s2.m);
        ThenStage(w, m, s2, CheckServices(w, m));
      }
    }
  }

  lemma {:induction false} ClaimCreationStage(w: World, m: Minio, claims: seq<Claim>)
    ensures StageTraced(w, m, Step(CreateClaims(w, claims), m, true))
    decreases |claims|
  {
    if claims == [] {
      NoStage(w, m, Step(w, m, true));
    } else {
      var c := Call(w.api);
      var w1 := w.(api := c.api);
      var w2 := if c.fault.Some? || claims[0].name in w1.pvcs then w1
                else w1.(pvcs := w1.pvcs[claims[0].name := claims[0]]);
      ClaimCreationStage(w2, m, claims[1..]);
      CallThenStage(w, m, Step(w2, m, true), Step(CreateClaims(w, claims), m, true));
    }
  }

  lemma ClaimsStage(w: World, m: Minio)
    ensures StageTraced(w, m, CheckPVC(w, m))
  {
    var w1 := w.(api := Call(w.api).api);
    CallStage(w, m, Step(w1, m, true));
    if Call(w.api).fault.None? && !HasClaims(w1) {
      AnnounceStage(w1, m);
      var a := Announce(w1, m);
      if a.ok {
        ClaimCreationStage(a.w, a.m, AllClaims(w.name, m.spec, m.spec.pools));
        ThenStage(w1, m, a, CheckPVC(w, m));
      }
      CallThenStage(w, m, Step(w1, m, true), CheckPVC(w, m));
    }
  }

  lemma {:induction false} CreationStage(w: World, m: Minio, pods: seq<Pod>)
    ensures StageTraced(w, m, CreatePods(w, m, pods))
    decreases |pods|
  {
    if pods == [] {
      NoStage(w, m, Step(w, m, true));
    } else {
      var fault := Call(w.api).fault;
      var w1 := w.(api := Call(w.api).api);
      if fault.Some? || pods[0].name in w1.pods {
        ReportStage(w1, m, "MinIO Pod Create Failed, " + ErrorText(fault, "already exists"));
        CallThenStage(w, m, Step(w1, m, true), CreatePods(w, m, pods));
      } else {
        var w2 := w1.(pods := w1.pods[pods[0].name := pods[0]]);
        CreationStage(w2, m, pods[1..]);
        CallThenStage(w, m, Step(w2, m, true), CreatePods(w, m, pods));
      }
    }
  }

  lemma {:induction false} UpdateStage(w: World, m: Minio, pods: seq<Pod>)
    ensures StageTraced(w, m, UpdatePods(w, m, pods))
    decreases |pods|
  {
    if pods == [] {
      NoStage(w, m, Step(w, m, true));
    } else {
      var fault := Call(w.api).fault;
      var w1 := w.(api := Call(w.api).api);
      if fault.Some? || pods[0].name !in w1.pods {
        ReportStage(w1, m, "MinIO Pod Update Failed, " + ErrorText(fault, "not found"));
        CallThenStage(w, m, Step(w1, m, true), UpdatePods(w, m, pods));
      } else {
        var w2 := w1.(pods := w1.pods[pods[0].name := pods[0]]);
        UpdateStage(w2, m, pods[1..]);
        CallThenStage(w, m, Step(w2, m, true), UpdatePods(w, m, pods));
      }
    }
  }

  lemma PodsStage(w: World, m: Minio, prev: Option<Spec>)
    ensures StageTraced(w, m, ReconcilePods(w, m, prev))
  {
    var create := AllPods(w.name, m.spec, AddPools(OldPools(prev), m.spec.pools));
    CreationStage(w, m, create);
    var c := CreatePods(w, m, create);
    if c.ok {
      var update := AllPods(w.name, m.spec, PoolsToUpdate(prev, m.spec));
      UpdateStage(c.w, c.m, update);
      var u := UpdatePods(c.w, c.m, update);
      ThenStage(w, m, c, u);
      if u.ok {
        AnnounceStage(u.w, u.m);
        ThenStage(w, m, u, Announce(u.w, u.m));
      }
    }
  }

  lemma PrepareStage(w: World, m: Minio)
    ensures StageTraced(w, m, Prepare(w, m))
  {
    var s1 := RecordRevision(w, m);
    RevisionStage(w, m);
    if s1.ok {
      ServicesStage(s1.w, s1.m);
      var s2 := CheckServices(s1.w, s1.m);
      ThenStage(w, m, s1, s2);
      if s2.ok {
        ClaimsStage(s2.w, s2.m);
        ThenStage(w, m, s2, Prepare(w, m));
      }
    }
  }

  lemma AfterFirstStage(w: World, m: Minio, prev: Option<Spec>)
    ensures StageTraced(w, m, AfterFirst(w, m, prev))
  {
    var p := Prepare(w, m);
    PrepareStage(w, m);
    if p.ok {
      PodsStage(p.w, p.m, prev);
      ThenStage(w, m, p, AfterFirst(w, m, prev));
    }
  }

  lemma FirstStage(w: World, m: Minio)
    ensures StageTraced(w, m, FirstStatus(w, m))
  {
    NoStage(w, m, Step(w, m, true));
    WriteStage(w, m, m.status.(status := Initial));
  }

  /** Every pass, under any interference and any faults, is one run of the protocol whose outside writes are, in order,
      those the pass has met. */
  lemma PassIsTrace(s: Sys, w: World) returns (acts: seq<Action>)
    requires Mirrors(s, w.api) && MainReconciler in s.procs && s.procs[MainReconciler].flight == Resting
    ensures WholeRun(MainReconciler, s, acts, w.api, Reconcile(w).w.api)
  {
    var a0 := Call(w.api).api;
    if Call(w.api).fault.Some? || !a0.life.Live? {
      acts := NoRun(MainReconciler, s, w.api);
    } else {
      var w0, m := w.(api := a0), Fetched(a0);
      var s0 := FirstStatus(w0, m);
      FirstStage(w0, m);
      if s0.ok {
        AfterFirstStage(s0.w, s0.m, w.rev);
        ThenStage(w0, m, s0, AfterFirst(s0.w, s0.m, w.rev));
        var r := AfterFirst(s0.w, s0.m, w.rev);
        acts := RunFrom(MainReconciler, s, w.api, r.w.api, Copy(r.m.version, r.m.status));
      } else {
        acts := RunFrom(MainReconciler, s, w.api, s0.w.api, Copy(s0.m.version, s0.m.status));
      }
    }
  }
}
