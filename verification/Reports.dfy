/** When a failure becomes visible: what the stored status says after a pass with no other writer. */
module Reports {
  import opened Wrappers
  import opened Types
  import opened Services
  import opened StatusStore
  import opened MainPass
  import opened Stages
  import opened PassFacts

  const POD_EXISTS := "MinIO Pod Create Failed, " + "already exists"
  const POD_MISSING := "MinIO Pod Update Failed, " + "not found"

  // ---------- When the version of a pass is used up ----------

  /** The pass still holds the version the server is at, and the status it read. */
  ghost predicate Current(st: Status, a: Api, m: Minio) {
    Undisturbed(a.script) && m.version == a.version && m.status == st && a.status == st
  }

  /** The pass has announced Running and its version is behind: nothing it writes from now on will be stored. */
  ghost predicate Spent(st: Status, a: Api, m: Minio) {
    Undisturbed(a.script) && m.version < a.version && a.status == st.(status := Running)
  }

  /** An announcement uses up the version, unless it changes nothing on a server that takes no notice of that. */
  ghost predicate UsesUp(st: Status, a: Api) {
    st.status != Running || a.noopBumps
  }

  /** Where the pass stands if it has announced Running, or not. */
  ghost predicate Standing(st: Status, announced: bool, a: Api, m: Minio) {
    if announced && UsesUp(st, a) then Spent(st, a, m) else Current(st, a, m)
  }

  /** The status read, or that with a failure and its message. */
  ghost predicate Plain(st: Status, s: Status) {
    s == st || s == st.(status := Failed, message := s.message)
  }

  /** What the store says when the pass has stopped early: Running, if it may have announced that, and anything else
      only if it has not used up its version for certain. */
  ghost predicate Stopped(st: Status, must: bool, may: bool, a: Api) {
    (may && a.status == st.(status := Running)) || (!(must && UsesUp(st, a)) && Plain(st, a.status))
  }

  /** Still nobody else writes, and calls that would not fail still will not. */
  ghost predicate Calmer(a: Api, b: Api) {
    b.noopBumps == a.noopBumps && Undisturbed(b.script) && (FaultFree(a.script) ==> FaultFree(b.script))
  }

  /** Calls change nothing that matters here. */
  lemma CallStanding(st: Status, announced: bool, a: Api, m: Minio)
    requires Standing(st, announced, a, m)
    ensures Standing(st, announced, Call(a).api, m) && Calmer(a, Call(a).api)
    ensures FaultFree(a.script) ==> Call(a).fault.None?
    ensures Stopped(st, announced, announced, Call(a).api)
  {
    UndisturbedCall(a);
    CallFollows(a);
    if a.script != [] {
      assert a.script[0] in a.script;
    }
  }

  /** A status write of the pass, with the version it has read. */
  lemma WriteStanding(st: Status, announced: bool, a: Api, m: Minio, status: Status)
    requires Standing(st, announced, a, m)
    ensures var r := UpdateWithRetry(a, Copy(m.version, status), true);
            && Calmer(a, r.api) && (FaultFree(a.script) ==> r.ok)
            && (if announced && UsesUp(st, a)
                then r.api.status == st.(status := Running) && r.api.version > m.version
                else if r.ok then r.api == StoreOwn(a, status).(script := r.api.script)
                else r.api.status == st)
  {
    var c := Copy(m.version, status);
    RetryFollows(a, c, true);
    UndisturbedCall(a);
    if announced && UsesUp(st, a) {
      StaleChangesNothing(a, c, true);
      UndisturbedOthers(a, UpdateWithRetry(a, c, true).api);
    } else if UpdateWithRetry(a, c, true).ok {
      UndisturbedWrite(a, c);
    } else {
      UndisturbedRefusal(a, c);
    }
  }

  lemma AnnounceStanding(st: Status, announced: bool, w: World, m: Minio)
    requires Standing(st, announced, w.api, m)
    ensures var s := Announce(w, m);
            && s.w == w.(api := s.w.api) && s.m.spec == m.spec && Calmer(w.api, s.w.api)
            && (FaultFree(w.api.script) ==> s.ok)
            && (if s.ok then Standing(st, true, s.w.api, s.m) else Stopped(st, announced, announced, s.w.api))
  {
    WriteStanding(st, announced, w.api, m, m.status.(status := Running));
  }

  /** A report gets through only if the version is not used up. */
  lemma ReportStanding(st: Status, announced: bool, w: World, m: Minio, message: string)
    requires Standing(st, announced, w.api, m)
    ensures var a := Report(w, m, message).w.api;
            && Calmer(w.api, a) && Stopped(st, announced, announced, a)
            && (FaultFree(w.api.script) && !(announced && UsesUp(st, w.api)) ==>
                  a.status == st.(status := Failed, message := message))
  {
    WriteStanding(st, announced, w.api, m, m.status.(status := Failed, message := message));
  }

  // ---------- The stages before the pods ----------

  lemma RevisionStanding(st: Status, w: World, m: Minio)
    requires Standing(st, false, w.api, m)
    ensures var s := RecordRevision(w, m);
            && s.m == m && Calmer(w.api, s.w.api) && (FaultFree(w.api.script) ==> s.ok)
            && Standing(st, false, s.w.api, s.m)
  {
    CallStanding(st, false, w.api, m);
    var w1 := w.(api := Call(w.api).api);
    if Call(w.api).fault.None? {
      if w.rev.None? {
        CreateRevisionStanding(st, w1, m);
      } else if w.rev.value != m.spec {
        CallStanding(st, false, w1.api, m);
        CreateRevisionStanding(st, w1.(api := Call(w1.api).api, rev := None), m);
      }
    }
  }

  lemma CreateRevisionStanding(st: Status, w: World, m: Minio)
    requires Standing(st, false, w.api, m) && w.rev.None?
    ensures var s := CreateRevision(w, m);
            && s.m == m && Calmer(w.api, s.w.api) && (FaultFree(w.api.script) ==> s.ok)
            && Standing(st, false, s.w.api, s.m)
  {
    CallStanding(st, false, w.api, m);
  }

  /** A check announces Running exactly when its service is missing; overwriting one announces nothing. */
  lemma ServiceStanding(st: Status, announced: bool, w: World, k: Kind, m: Minio)
    requires Standing(st, announced, w.api, m)
    ensures var s, n := CheckService(w, k, m), ServiceName(w.name, k);
            && s.m.spec == m.spec && Calmer(w.api, s.w.api) && (FaultFree(w.api.script) ==> s.ok)
            && (if s.ok then n in s.w.svcs && Standing(st, announced || n !in w.svcs, s.w.api, s.m)
                else Stopped(st, announced || (n in s.w.svcs && n !in w.svcs), announced || n !in w.svcs, s.w.api))
  {
    ServiceStore(w, k, m);
    CallStanding(st, announced, w.api, m);
    var w1 := w.(api := Call(w.api).api);
    if Call(w.api).fault.None? {
      if ServiceName(w.name, k) in w.svcs {
        ConvergeStanding(st, announced, w1, k, m);
      } else {
        MissingServiceStanding(st, announced, w1, k, m);
      }
    }
  }

  lemma MissingServiceStanding(st: Status, announced: bool, w: World, k: Kind, m: Minio)
    requires ServiceName(w.name, k) !in w.svcs && Standing(st, announced, w.api, m)
    ensures var c, n := CreateService(w, k, m), ServiceName(w.name, k);
            && (c.ok ==> n in c.w.svcs)
            && var s := if c.ok then ConvergeService(c.w, k, c.m) else c;
               && Calmer(w.api, s.w.api) && (FaultFree(w.api.script) ==> s.ok)
               && (if s.ok then Standing(st, true, s.w.api, s.m)
                   else Stopped(st, announced || n in s.w.svcs, true, s.w.api))
  {
    CreateServiceStore(w, k, m);
    CreateServiceStanding(st, announced, w, k, m);
    var c := CreateService(w, k, m);
    if c.ok {
      ConvergeStanding(st, true, c.w, k, c.m);
    }
  }

  lemma ConvergeStanding(st: Status, announced: bool, w: World, k: Kind, m: Minio)
    requires ServiceName(w.name, k) in w.svcs && Standing(st, announced, w.api, m)
    ensures var s := ConvergeService(w, k, m);
            && Calmer(w.api, s.w.api) && (FaultFree(w.api.script) ==> s.ok)
            && (if s.ok then Standing(st, announced, s.w.api, s.m) else Stopped(st, announced, announced, s.w.api))
  {
    if !Matches(w.svcs[ServiceName(w.name, k)], Expected(w.name, k, m.spec)) {
      CallStanding(st, announced, w.api, m);
      var w1 := w.(api := Call(w.api).api);
      if Call(w.api).fault.Some? {
        ReportStanding(st, announced, w1, m, UpdateFailure(k));
      }
    }
  }

  lemma CreateServiceStanding(st: Status, announced: bool, w: World, k: Kind, m: Minio)
    requires ServiceName(w.name, k) !in w.svcs && Standing(st, announced, w.api, m)
    ensures var s := CreateService(w, k, m);
            && Calmer(w.api, s.w.api) && (FaultFree(w.api.script) ==> s.ok)
            && (if s.ok then Standing(st, true, s.w.api, s.m) else Stopped(st, announced, true, s.w.api))
  {
    AnnounceStanding(st, announced, w, m);
    var a := Announce(w, m);
    if a.ok {
      SubmitStanding(st, a.w, k, a.m);
    }
  }

  lemma SubmitStanding(st: Status, w: World, k: Kind, m: Minio)
    requires ServiceName(w.name, k) !in w.svcs && Standing(st, true, w.api, m)
    ensures var s := SubmitService(w, k, m);
            && Calmer(w.api, s.w.api) && (FaultFree(w.api.script) ==> s.ok)
            && (if s.ok then Standing(st, true, s.w.api, s.m) else Stopped(st, true, true, s.w.api))
  {
    assert Built(w.name, k, m.spec).name == ServiceName(w.name, k);
    CallStanding(st, true, w.api, m);
    if Call(w.api).fault.Some? {
      ReportStanding(st, true, w.(api := Call(w.api).api), m, CreateFailure(k));
    }
  }

  ghost predicate AllServices(w: World) {
    ServiceNames(w.name) <= w.svcs.Keys
  }

  /** A check creates no service but its own. */
  lemma OtherServices(w: World, k: Kind, m: Minio)
    ensures var s := CheckService(w, k, m);
            && s.w.name == w.name && s.w.pvcs == w.pvcs
            && w.svcs.Keys <= s.w.svcs.Keys <= w.svcs.Keys + {ServiceName(w.name, k)}
  {
    ServiceStore(w, k, m);
  }

  /** The checks announce Running exactly when some service is missing, and for certain when one was created. */
  lemma ServicesStanding(st: Status, w: World, m: Minio)
    requires Standing(st, false, w.api, m)
    ensures var s := CheckServices(w, m);
            && s.m.spec == m.spec && Calmer(w.api, s.w.api) && (FaultFree(w.api.script) ==> s.ok)
            && (if s.ok then Standing(st, !AllServices(w), s.w.api, s.m)
                else Stopped(st, s.w.svcs.Keys != w.svcs.Keys, !AllServices(w), s.w.api))
  {
    ServiceNamesDiffer(w.name);
    var s1 := CheckService(w, MinIOSvc, m);
    ServiceStanding(st, false, w, MinIOSvc, m);
    OtherServices(w, MinIOSvc, m);
    if s1.ok {
      SecondServiceStanding(st, w, s1, m);
      OtherServices(s1.w, ConsoleSvc, s1.m);
      var s2 := CheckService(s1.w, ConsoleSvc, s1.m);
      if s2.ok {
        LastServiceStanding(st, w, s1, s2, m);
      }
    }
  }

  /** The MinIO and the console service are both there. */
  ghost predicate FirstTwo(w: World) {
    {ServiceName(w.name, MinIOSvc), ServiceName(w.name, ConsoleSvc)} <= w.svcs.Keys
  }

  lemma SecondServiceStanding(st: Status, w: World, s1: Step, m: Minio)
    requires ServiceName(w.name, MinIOSvc) in s1.w.svcs && s1.w.name == w.name && s1.m.spec == m.spec
    requires w.svcs.Keys <= s1.w.svcs.Keys <= w.svcs.Keys + {ServiceName(w.name, MinIOSvc)}
    requires Standing(st, ServiceName(w.name, MinIOSvc) !in w.svcs, s1.w.api, s1.m)
    ensures var s := CheckService(s1.w, ConsoleSvc, s1.m);
            && s.m.spec == m.spec && Calmer(s1.w.api, s.w.api) && (FaultFree(s1.w.api.script) ==> s.ok)
            && (if s.ok then ServiceName(w.name, ConsoleSvc) in s.w.svcs && Standing(st, !FirstTwo(w), s.w.api, s.m)
                else Stopped(st, s.w.svcs.Keys != w.svcs.Keys, !FirstTwo(w), s.w.api))
  {
    ServiceNamesDiffer(w.name);
    ServiceStanding(st, ServiceName(w.name, MinIOSvc) !in w.svcs, s1.w, ConsoleSvc, s1.m);
    OtherServices(s1.w, ConsoleSvc, s1.m);
  }

  lemma LastServiceStanding(st: Status, w: World, s1: Step, s2: Step, m: Minio)
    requires ServiceName(w.name, MinIOSvc) in s1.w.svcs && ServiceName(w.name, ConsoleSvc) in s2.w.svcs
    requires w.svcs.Keys <= s1.w.svcs.Keys <= w.svcs.Keys + {ServiceName(w.name, MinIOSvc)}
    requires s1.w.svcs.Keys <= s2.w.svcs.Keys <= s1.w.svcs.Keys + {ServiceName(w.name, ConsoleSvc)}
    requires s2.w.name == w.name && s2.m.spec == m.spec
    requires Standing(st, !FirstTwo(w), s2.w.api, s2.m)
    ensures var s := CheckService(s2.w, HeadlessSvc, s2.m);
            && s.m.spec == m.spec && Calmer(s2.w.api, s.w.api) && (FaultFree(s2.w.api.script) ==> s.ok)
            && (if s.ok then Standing(st, !AllServices(w), s.w.api, s.m)
                else Stopped(st, s.w.svcs.Keys != w.svcs.Keys, !AllServices(w), s.w.api))
  {
    ServiceNamesDiffer(w.name);
    ServiceStanding(st, !FirstTwo(w), s2.w, HeadlessSvc, s2.m);
    OtherServices(s2.w, HeadlessSvc, s2.m);
  }

  /** Listing announces Running exactly when there are no claims. */
  lemma ClaimsStanding(st: Status, announced: bool, w: World, m: Minio)
    requires Standing(st, announced, w.api, m)
    ensures var s := CheckPVC(w, m);
            && s.m.spec == m.spec && Calmer(w.api, s.w.api) && (FaultFree(w.api.script) ==> s.ok)
            && s.w.svcs == w.svcs
            && (if s.ok then Standing(st, announced || !HasClaims(w), s.w.api, s.m)
                else s.w.pvcs == w.pvcs && Stopped(st, announced, announced, s.w.api))
  {
    CallStanding(st, announced, w.api, m);
    var w1 := w.(api := Call(w.api).api);
    assert HasClaims(w1) == HasClaims(w);
    if Call(w.api).fault.None? && !HasClaims(w) {
      AnnounceStanding(st, announced, w1, m);
      var a := Announce(w1, m);
      if a.ok {
        ClaimCreationStanding(st, a.w, a.m, AllClaims(w.name, m.spec, m.spec.pools));
      }
    }
  }

  lemma {:induction false} ClaimCreationStanding(st: Status, w: World, m: Minio, claims: seq<Claim>)
    requires Standing(st, true, w.api, m)
    ensures var t := CreateClaims(w, claims); Standing(st, true, t.api, m) && Calmer(w.api, t.api) && t.svcs == w.svcs
    decreases |claims|
  {
    if claims != [] {
      CallStanding(st, true, w.api, m);
      var w1 := w.(api := Call(w.api).api);
      ClaimCreationStanding(st, if Call(w.api).fault.Some? || claims[0].name in w1.pvcs then w1
                                else w1.(pvcs := w1.pvcs[claims[0].name := claims[0]]), m, claims[1..]);
    }
  }

  /** Some service, or every claim, is still to be created. */
  ghost predicate Missing(w: World) {
    !AllServices(w) || !HasClaims(w)
  }

  lemma PrepareStanding(st: Status, w: World, m: Minio)
    requires Standing(st, false, w.api, m)
    ensures var s := Prepare(w, m);
            && s.m.spec == m.spec && Calmer(w.api, s.w.api) && (FaultFree(w.api.script) ==> s.ok)
            && (if s.ok then Standing(st, Missing(w), s.w.api, s.m)
                else s.w.pvcs == w.pvcs && Stopped(st, s.w.svcs.Keys != w.svcs.Keys, !AllServices(w), s.w.api))
  {
    RevisionStanding(st, w, m);
    RevisionStore(w, m);
    var s1 := RecordRevision(w, m);
    if s1.ok {
      assert HasClaims(s1.w) == HasClaims(w);
      ObjectsStanding(st, s1.w, m);
    }
  }

  lemma ObjectsStanding(st: Status, w: World, m: Minio)
    requires Standing(st, false, w.api, m)
    ensures var s2 := CheckServices(w, m);
            var s := if s2.ok then CheckPVC(s2.w, s2.m) else s2;
            && s.m.spec == m.spec && Calmer(w.api, s.w.api) && (FaultFree(w.api.script) ==> s.ok)
            && (if s.ok then Standing(st, Missing(w), s.w.api, s.m)
                else s.w.pvcs == w.pvcs && Stopped(st, s.w.svcs.Keys != w.svcs.Keys, !AllServices(w), s.w.api))
  {
    ServicesStanding(st, w, m);
    ServicesStore(w, m);
    var s2 := CheckServices(w, m);
    if s2.ok {
      assert HasClaims(s2.w) == HasClaims(w);
      ClaimsStanding(st, !AllServices(w), s2.w, s2.m);
    }
  }

  // ---------- The pods ----------

  lemma {:induction false} CreationStanding(st: Status, announced: bool, w: World, m: Minio, pods: seq<Pod>)
    requires Standing(st, announced, w.api, m)
    ensures var s := CreatePods(w, m, pods);
            && Calmer(w.api, s.w.api)
            && (if s.ok then Standing(st, announced, s.w.api, s.m) else Stopped(st, announced, announced, s.w.api))
            && (FaultFree(w.api.script) ==> s.ok == PutNew(w.pods, pods).ok)
            && (FaultFree(w.api.script) && !(announced && UsesUp(st, w.api)) && !s.ok ==>
                  s.w.api.status == st.(status := Failed, message := POD_EXISTS))
    decreases |pods|
  {
    if pods != [] {
      CallStanding(st, announced, w.api, m);
      var fault := Call(w.api).fault;
      var w1 := w.(api := Call(w.api).api);
      if fault.Some? || pods[0].name in w1.pods {
        ReportStanding(st, announced, w1, m, "MinIO Pod Create Failed, " + ErrorText(fault, "already exists"));
      } else {
        CreationStanding(st, announced, w1.(pods := w1.pods[pods[0].name := pods[0]]), m, pods[1..]);
      }
    }
  }

  lemma {:induction false} UpdateStanding(st: Status, announced: bool, w: World, m: Minio, pods: seq<Pod>)
    requires Standing(st, announced, w.api, m)
    ensures var s := UpdatePods(w, m, pods);
            && Calmer(w.api, s.w.api)
            && (if s.ok then Standing(st, announced, s.w.api, s.m) else Stopped(st, announced, announced, s.w.api))
            && (FaultFree(w.api.script) ==> s.ok == PutOver(w.pods, pods).ok)
            && (FaultFree(w.api.script) && !(announced && UsesUp(st, w.api)) && !s.ok ==>
                  s.w.api.status == st.(status := Failed, message := POD_MISSING))
    decreases |pods|
  {
    if pods != [] {
      CallStanding(st, announced, w.api, m);
      var fault := Call(w.api).fault;
      var w1 := w.(api := Call(w.api).api);
      if fault.Some? || pods[0].name !in w1.pods {
        ReportStanding(st, announced, w1, m, "MinIO Pod Update Failed, " + ErrorText(fault, "not found"));
      } else {
        UpdateStanding(st, announced, w1.(pods := w1.pods[pods[0].name := pods[0]]), m, pods[1..]);
      }
    }
  }

  lemma PodsStanding(st: Status, announced: bool, w: World, m: Minio, prev: Option<Spec>)
    requires Standing(st, announced, w.api, m)
    ensures var s := ReconcilePods(w, m, prev);
            && Calmer(w.api, s.w.api)
            && (if s.ok then s.w.api.status == st.(status := Running)
                else Stopped(st, announced, announced, s.w.api))
  {
    var create := AllPods(w.name, m.spec, AddPools(OldPools(prev), m.spec.pools));
    CreationStanding(st, announced, w, m, create);
    var c := CreatePods(w, m, create);
    if c.ok {
      var update := AllPods(w.name, m.spec, PoolsToUpdate(prev, m.spec));
      UpdateStanding(st, announced, c.w, c.m, update);
      var u := UpdatePods(c.w, c.m, update);
      if u.ok {
        AnnounceStanding(st, announced, u.w, u.m);
      }
    }
  }

  /** A failed creation or update leaves exactly this status when the pass can still store one. */
  function Told(w: World, spec: Spec, st: Status): Status {
    if !PutNew(w.pods, PodsToCreate(w.name, w.rev, spec)).ok
    then st.(status := Failed, message := POD_EXISTS)
    else st.(status := Failed, message := POD_MISSING)
  }

  lemma PodsReported(st: Status, announced: bool, w: World, m: Minio, prev: Option<Spec>)
    requires Standing(st, announced, w.api, m) && Calm(w.api)
    ensures var s := ReconcilePods(w, m, prev);
            s.w.api.status ==
              if s.ok || (announced && UsesUp(st, w.api)) then st.(status := Running)
              else Told(w.(rev := prev), m.spec, st)
  {
    PodsStanding(st, announced, w, m, prev);
    CreationStanding(st, announced, w, m, PodsToCreate(w.name, prev, m.spec));
    var c := CreatePods(w, m, PodsToCreate(w.name, prev, m.spec));
    if c.ok {
      UpdateStanding(st, announced, c.w, c.m, PodsToUpdate(w.name, prev, m.spec));
      var u := UpdatePods(c.w, c.m, PodsToUpdate(w.name, prev, m.spec));
      if u.ok {
        AnnounceStanding(st, announced, u.w, u.m);
      }
    }
  }

  /** What the store says after a pass with nobody else writing in which every call succeeds. Over a fresh object:
      None, and nothing else. Otherwise: Running if the pass succeeded, but also if it failed after it had to
      create a service or the claims, since announcing that used up its version, unless Running was what the
      store said and the server takes no notice of writes that change nothing; and in all other cases the failure
      and its message. No other field changes. */
  lemma PassReported(w: World)
    requires Calm(w.api) && w.api.life.Live?
    ensures var r, st := Reconcile(w), w.api.status;
            r.w.api.status ==
              if st.status == Unset then st.(status := Initial)
              else if r.ok || (Missing(w) && UsesUp(st, w.api)) then st.(status := Running)
              else Told(w, w.api.spec, st)
  {
    if w.api.status.status == Unset {
      FreshStatusFrozen(w);
    } else {
      UndisturbedCall(w.api);
      CallFollows(w.api);
      if w.api.script != [] {
        assert w.api.script[0] in w.api.script;
      }
      var w0 := w.(api := Call(w.api).api);
      assert HasClaims(w0) == HasClaims(w);
      AfterFirstReported(w0, Fetched(w0.api), w.rev);
    }
  }

  lemma AfterFirstReported(w: World, m: Minio, prev: Option<Spec>)
    requires Calm(w.api) && m == Fetched(w.api)
    ensures var r, st := AfterFirst(w, m, prev), m.status;
            r.w.api.status ==
              if r.ok || (Missing(w) && UsesUp(st, w.api)) then st.(status := Running)
              else Told(w.(rev := prev), m.spec, st)
  {
    PrepareStanding(m.status, w, m);
    PreparePods(w, m);
    PodsReported(m.status, Missing(w), Prepare(w, m).w, Prepare(w, m).m, prev);
  }

  lemma PreparePods(w: World, m: Minio)
    requires m == Fetched(w.api)
    ensures var p := Prepare(w, m); p.w.pods == w.pods && p.w.name == w.name && p.w.api.noopBumps == w.api.noopBumps
  {
    RunStarts(MainReconciler, w.api);
    PrepareStore(w.api, w, m);
    PrepareProceeds(w.api, w, m);
  }

  // ---------- When calls fail ----------

  /** What the store says after a pass that starts with the status `st` and with something missing or not, and
      creates something or not. */
  ghost predicate Shown(st: Status, missing: bool, created: bool, ok: bool, a: Api) {
    if ok then a.status == st.(status := Running) else Stopped(st, created, missing, a)
  }

  ghost predicate Created(w: World, r: World) {
    r.svcs.Keys != w.svcs.Keys || r.pvcs != w.pvcs
  }

  /** What the store says after a pass with nobody else writing, whatever fails in it, over an object that is not
      fresh. A pass that succeeds leaves Running. One that fails leaves Running only if something was missing, and
      otherwise the status as it was or a failure and its message; and it leaves a failure only if it has created
      neither a service nor a claim, or if announcing changed nothing on a server that takes no notice of that.
      No other field changes. */
  lemma FaultyPassReported(w: World)
    requires Undisturbed(w.api.script) && w.api.life.Live? && w.api.status.status != Unset
    ensures var r := Reconcile(w); Shown(w.api.status, Missing(w), Created(w, r.w), r.ok, r.w.api)
  {
    UndisturbedCall(w.api);
    var w0 := w.(api := Call(w.api).api);
    if Call(w.api).fault.None? {
      assert HasClaims(w0) == HasClaims(w);
      FaultyAfterFirst(w0, Fetched(w0.api), w.rev);
    }
  }

  lemma FaultyAfterFirst(w: World, m: Minio, prev: Option<Spec>)
    requires Undisturbed(w.api.script) && m == Fetched(w.api)
    ensures var r := AfterFirst(w, m, prev); Shown(m.status, Missing(w), Created(w, r.w), r.ok, r.w.api)
  {
    var p := Prepare(w, m);
    PrepareStanding(m.status, w, m);
    if p.ok {
      PodsStanding(m.status, Missing(w), p.w, p.m, prev);
      if !Missing(w) {
        CompleteCreatesNothing(w, m, prev);
      }
    }
  }

  /** Where nothing is missing nothing but pods is created. */
  lemma CompleteCreatesNothing(w: World, m: Minio, prev: Option<Spec>)
    requires m == Fetched(w.api) && !Missing(w)
    ensures !Created(w, AfterFirst(w, m, prev).w)
  {
    RunStarts(MainReconciler, w.api);
    AfterFirstEffect(w.api, w, m, prev);
  }
}
