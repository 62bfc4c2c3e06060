/** What one whole pass keeps, does, and leaves in the status. */
module PassFacts {
  import opened Wrappers
  import opened Types
  import opened Services
  import opened StatusStore
  import opened MainPass
  import opened Stages

  // ---------- Services together ----------

  ghost predicate ServiceMatches(svcs: map<string, Service>, name: string, k: Kind, spec: Spec) {
    ServiceName(name, k) in svcs && Matches(svcs[ServiceName(name, k)], Expected(name, k, spec))
  }

  /** All three services are stored and match what they are compared with. */
  ghost predicate ServicesMatch(svcs: map<string, Service>, name: string, spec: Spec) {
    && ServiceMatches(svcs, name, MinIOSvc, spec)
    && ServiceMatches(svcs, name, ConsoleSvc, spec)
    && ServiceMatches(svcs, name, HeadlessSvc, spec)
  }

  function ServiceNames(name: string): set<string> {
    {ServiceName(name, MinIOSvc), ServiceName(name, ConsoleSvc), ServiceName(name, HeadlessSvc)}
  }

  lemma ServiceNamesDiffer(name: string)
    ensures ServiceName(name, MinIOSvc) != ServiceName(name, ConsoleSvc)
    ensures ServiceName(name, ConsoleSvc) != ServiceName(name, HeadlessSvc)
    ensures ServiceName(name, HeadlessSvc) != ServiceName(name, MinIOSvc)
    ensures |ServiceNames(name)| == 3
  {
    assert |ServiceName(name, MinIOSvc)| == |name| && |ServiceName(name, ConsoleSvc)| == |name| + 7;
    assert |ServiceName(name, HeadlessSvc)| == |name| + 2;
  }

  /** The stored headless service, once checked, carries the console port: as built it never passes the check. */
  lemma HeadlessCarriesConsolePort(svcs: map<string, Service>, name: string, spec: Spec)
    requires ServicesMatch(svcs, name, spec)
    ensures var hl := svcs[ServiceName(name, HeadlessSvc)];
            && |hl.spec.ports| == 1 && hl.spec.ports[0].port == CONSOLE_PORT && hl.spec.ports[0].name == "http-console"
            && forall ad :: hl.spec.ports != Admit(ad, NewHeadlessServiceForMinIO(name, spec)).spec.ports
  {
    var hl, e := svcs[ServiceName(name, HeadlessSvc)], NewConsoleServiceForMinIO(name, spec);
    assert ServiceMatches(svcs, name, HeadlessSvc, spec) && Matches(hl, e);
    assert SamePort(hl.spec.ports[0], e.spec.ports[0]);
    forall ad ensures hl.spec.ports != Admit(ad, NewHeadlessServiceForMinIO(name, spec)).spec.ports {
      assert Admit(ad, NewHeadlessServiceForMinIO(name, spec)).spec.ports[0].port == MINIO_PORT;
    }
  }

  lemma ServicesProceed(a0: Api, w: World, m: Minio)
    requires InRun(a0, w, m)
    ensures Proceeds(a0, w, m, CheckServices(w, m))
    ensures FaultFree(w.api.script) ==> CheckServices(w, m).ok
  {
    ServiceProceeds(a0, w, MinIOSvc, m);
    var s1 := CheckService(w, MinIOSvc, m);
    if s1.ok {
      ServiceProceeds(a0, s1.w, ConsoleSvc, s1.m);
      var s2 := CheckService(s1.w, ConsoleSvc, s1.m);
      ProceedsTransitive(a0, w, m, s1, s2);
      if s2.ok {
        ServiceProceeds(a0, s2.w, HeadlessSvc, s2.m);
        ProceedsTransitive(a0, w, m, s2, CheckServices(w, m));
      }
    }
  }

  /** The services a successful pass leaves. */
  function SettledServices(svcs: map<string, Service>, ad: Admission, name: string, spec: Spec): map<string, Service> {
    svcs[ServiceName(name, MinIOSvc) := Settle(svcs, ad, name, MinIOSvc, spec)]
        [ServiceName(name, ConsoleSvc) := Settle(svcs, ad, name, ConsoleSvc, spec)]
        [ServiceName(name, HeadlessSvc) := Settle(svcs, ad, name, HeadlessSvc, spec)]
  }

  ghost predicate MatchingStays(name: string, k: Kind, spec: Spec,
                                before: map<string, Service>, after: map<string, Service>) {
    var n := ServiceName(name, k);
    ServiceMatches(before, name, k, spec) ==> n in after && after[n] == before[n]
  }

  /** Services are never removed, none but the three is touched, each one that matches is left as it is, and
      success leaves exactly what each check settles on. */
  ghost predicate ServicesEffect(ad: Admission, name: string, spec: Spec,
                                 before: map<string, Service>, after: map<string, Service>, ok: bool) {
    && before.Keys <= after.Keys <= before.Keys + ServiceNames(name)
    && (forall x :: x in before && x !in ServiceNames(name) ==> after[x] == before[x])
    && MatchingStays(name, MinIOSvc, spec, before, after)
    && MatchingStays(name, ConsoleSvc, spec, before, after)
    && MatchingStays(name, HeadlessSvc, spec, before, after)
    && (ok ==> ServicesMatch(after, name, spec) && after == SettledServices(before, ad, name, spec))
  }

  lemma MatchingServicesStay(ad: Admission, name: string, spec: Spec,
                             before: map<string, Service>, after: map<string, Service>, ok: bool)
    requires ServicesEffect(ad, name, spec, before, after, ok) && ServicesMatch(before, name, spec)
    ensures after == before
  {
    assert forall x :: x in ServiceNames(name) ==> x in before;
    assert after.Keys == before.Keys;
  }

  /** `Checked` for one of the three, settled as from `start`. */
  ghost predicate CheckedFor(ad: Admission, name: string, k: Kind, spec: Spec, start: map<string, Service>,
                             before: map<string, Service>, after: map<string, Service>, ok: bool) {
    Checked(before, after, ServiceName(name, k), Expected(name, k, spec), Settle(start, ad, name, k, spec), ok)
  }

  /** Three checks of different services in a row interfere with one another nowhere. */
  lemma CheckedChain(b0: map<string, Service>, b1: map<string, Service>, b2: map<string, Service>,
                     b3: map<string, Service>, n1: string, n2: string, n3: string,
                     e1: Service, e2: Service, e3: Service, s1: Service, s2: Service, s3: Service, ok: bool)
    requires n1 != n2 && n2 != n3 && n3 != n1
    requires Checked(b0, b1, n1, e1, s1, true) && Checked(b1, b2, n2, e2, s2, true) && Checked(b2, b3, n3, e3, s3, ok)
    ensures b0.Keys <= b3.Keys <= b0.Keys + {n1, n2, n3}
    ensures forall x :: x in b0 && x !in {n1, n2, n3} ==> b3[x] == b0[x]
    ensures n1 in b0 && Matches(b0[n1], e1) ==> b3[n1] == b0[n1]
    ensures n2 in b0 && Matches(b0[n2], e2) ==> b3[n2] == b0[n2]
    ensures n3 in b0 && Matches(b0[n3], e3) ==> b3[n3] == b0[n3]
  {
  }

  lemma ServicesChain(ad: Admission, name: string, spec: Spec, b0: map<string, Service>, b1: map<string, Service>,
                      b2: map<string, Service>, b3: map<string, Service>, ok: bool)
    requires CheckedFor(ad, name, MinIOSvc, spec, b0, b0, b1, true)
    requires CheckedFor(ad, name, ConsoleSvc, spec, b0, b1, b2, true)
    requires CheckedFor(ad, name, HeadlessSvc, spec, b0, b2, b3, ok)
    ensures ServicesEffect(ad, name, spec, b0, b3, ok)
  {
    ServicesKept(ad, name, spec, b0, b1, b2, b3, ok);
    if ok {
      ServicesSettle(ad, name, spec, b0, b1, b2, b3);
    }
  }

  lemma ServicesKept(ad: Admission, name: string, spec: Spec, b0: map<string, Service>, b1: map<string, Service>,
                     b2: map<string, Service>, b3: map<string, Service>, ok: bool)
    requires CheckedFor(ad, name, MinIOSvc, spec, b0, b0, b1, true)
    requires CheckedFor(ad, name, ConsoleSvc, spec, b0, b1, b2, true)
    requires CheckedFor(ad, name, HeadlessSvc, spec, b0, b2, b3, ok)
    ensures ServicesEffect(ad, name, spec, b0, b3, false)
  {
    ServiceNamesDiffer(name);
    CheckedChain(b0, b1, b2, b3,
                 ServiceName(name, MinIOSvc), ServiceName(name, ConsoleSvc), ServiceName(name, HeadlessSvc),
                 Expected(name, MinIOSvc, spec), Expected(name, ConsoleSvc, spec), Expected(name, HeadlessSvc, spec),
                 Settle(b0, ad, name, MinIOSvc, spec), Settle(b0, ad, name, ConsoleSvc, spec),
                 Settle(b0, ad, name, HeadlessSvc, spec), ok);
  }

  lemma ServicesSettle(ad: Admission, name: string, spec: Spec, b0: map<string, Service>, b1: map<string, Service>,
                       b2: map<string, Service>, b3: map<string, Service>)
    requires CheckedFor(ad, name, MinIOSvc, spec, b0, b0, b1, true)
    requires CheckedFor(ad, name, ConsoleSvc, spec, b0, b1, b2, true)
    requires CheckedFor(ad, name, HeadlessSvc, spec, b0, b2, b3, true)
    ensures ServicesMatch(b3, name, spec) && b3 == SettledServices(b0, ad, name, spec)
  {
    ServiceNamesDiffer(name);
    assert b1 == b0[ServiceName(name, MinIOSvc) := Settle(b0, ad, name, MinIOSvc, spec)];
    assert b2 == b1[ServiceName(name, ConsoleSvc) := Settle(b0, ad, name, ConsoleSvc, spec)];
  }

  lemma ServicesCut(ad: Admission, name: string, spec: Spec, b0: map<string, Service>, b1: map<string, Service>,
                    b2: map<string, Service>)
    requires CheckedFor(ad, name, MinIOSvc, spec, b0, b0, b1, true)
    requires CheckedFor(ad, name, ConsoleSvc, spec, b0, b1, b2, false)
    ensures ServicesEffect(ad, name, spec, b0, b2, false)
  {
    ServiceNamesDiffer(name);
    CheckedPair(b0, b1, b2, ServiceName(name, MinIOSvc), ServiceName(name, ConsoleSvc),
                Expected(name, MinIOSvc, spec), Expected(name, ConsoleSvc, spec),
                Settle(b0, ad, name, MinIOSvc, spec), Settle(b0, ad, name, ConsoleSvc, spec));
  }

  lemma CheckedPair(b0: map<string, Service>, b1: map<string, Service>, b2: map<string, Service>,
                    n1: string, n2: string, e1: Service, e2: Service, s1: Service, s2: Service)
    requires n1 != n2
    requires Checked(b0, b1, n1, e1, s1, true) && Checked(b1, b2, n2, e2, s2, false)
    ensures b0.Keys <= b2.Keys <= b0.Keys + {n1, n2}
    ensures forall x :: x in b0 && x != n1 && x != n2 ==> b2[x] == b0[x]
    ensures n1 in b0 && Matches(b0[n1], e1) ==> b2[n1] == b0[n1]
    ensures n2 in b0 && Matches(b0[n2], e2) ==> b2[n2] == b0[n2]
  {
  }

  /** Settling on one service does not look at another. */
  lemma SettleApart(ad: Admission, name: string, k: Kind, j: Kind, spec: Spec,
                    before: map<string, Service>, after: map<string, Service>)
    requires CheckedFor(ad, name, j, spec, before, before, after, true) && k != j
    ensures Settle(after, ad, name, k, spec) == Settle(before, ad, name, k, spec)
  {
    ServiceNamesDiffer(name);
  }

  lemma ServicesStore(w: World, m: Minio)
    ensures var s := CheckServices(w, m);
            && s.w == w.(svcs := s.w.svcs, api := s.w.api)
            && s.m.spec == m.spec
            && ServicesEffect(w.admit, w.name, m.spec, w.svcs, s.w.svcs, s.ok)
  {
    ServiceStore(w, MinIOSvc, m);
    var s1 := CheckService(w, MinIOSvc, m);
    if s1.ok {
      ServiceStore(s1.w, ConsoleSvc, s1.m);
      SettleApart(w.admit, w.name, ConsoleSvc, MinIOSvc, m.spec, w.svcs, s1.w.svcs);
      var s2 := CheckService(s1.w, ConsoleSvc, s1.m);
      if s2.ok {
        LastServiceStore(w, s1, m);
      } else {
        ServicesCut(w.admit, w.name, m.spec, w.svcs, s1.w.svcs, s2.w.svcs);
      }
    }
  }

  lemma LastServiceStore(w: World, s1: Step, m: Minio)
    requires s1.w == w.(svcs := s1.w.svcs, api := s1.w.api) && s1.m.spec == m.spec
    requires CheckedFor(w.admit, w.name, MinIOSvc, m.spec, w.svcs, w.svcs, s1.w.svcs, true)
    requires CheckService(s1.w, ConsoleSvc, s1.m).ok
    ensures var s2 := CheckService(s1.w, ConsoleSvc, s1.m);
            var s := CheckService(s2.w, HeadlessSvc, s2.m);
            && s.w == w.(svcs := s.w.svcs, api := s.w.api)
            && s.m.spec == m.spec
            && ServicesEffect(w.admit, w.name, m.spec, w.svcs, s.w.svcs, s.ok)
  {
    ServiceStore(s1.w, ConsoleSvc, s1.m);
    SettleApart(w.admit, w.name, ConsoleSvc, MinIOSvc, m.spec, w.svcs, s1.w.svcs);
    SettleApart(w.admit, w.name, HeadlessSvc, MinIOSvc, m.spec, w.svcs, s1.w.svcs);
    var s2 := CheckService(s1.w, ConsoleSvc, s1.m);
    SettleApart(w.admit, w.name, HeadlessSvc, ConsoleSvc, m.spec, s1.w.svcs, s2.w.svcs);
    ServiceStore(s2.w, HeadlessSvc, s2.m);
    var s := CheckService(s2.w, HeadlessSvc, s2.m);
    ServicesChain(w.admit, w.name, m.spec, w.svcs, s1.w.svcs, s2.w.svcs, s.w.svcs, s.ok);
  }

  // ---------- Before the pods ----------

  lemma PrepareProceeds(a0: Api, w: World, m: Minio)
    requires InRun(a0, w, m)
    ensures Proceeds(a0, w, m, Prepare(w, m))
    ensures FaultFree(w.api.script) ==> Prepare(w, m).ok
  {
    RevisionProceeds(a0, w, m);
    var s1 := RecordRevision(w, m);
    if s1.ok {
      ServicesProceed(a0, s1.w, s1.m);
      var s2 := CheckServices(s1.w, s1.m);
      ProceedsTransitive(a0, w, m, s1, s2);
      if s2.ok {
        ClaimsProceed(a0, s2.w, s2.m);
        ProceedsTransitive(a0, w, m, s2, Prepare(w, m));
      }
    }
  }

  lemma PrepareStore(a0: Api, w: World, m: Minio)
    requires InRun(a0, w, m)
    ensures var s := Prepare(w, m);
            && s.w == w.(rev := s.w.rev, svcs := s.w.svcs, pvcs := s.w.pvcs, api := s.w.api)
            && ServicesEffect(w.admit, w.name, m.spec, w.svcs, s.w.svcs, s.ok)
            && (s.w.rev == w.rev || s.w.rev == None || s.w.rev == Some(m.spec))
            && (w.rev == Some(m.spec) || s.ok ==> s.w.rev == Some(m.spec))
  {
    RevisionProceeds(a0, w, m);
    var s1 := RecordRevision(w, m);
    if s1.ok {
      ServicesProceed(a0, s1.w, s1.m);
      ServicesStore(s1.w, s1.m);
      var s2 := CheckServices(s1.w, s1.m);
      if s2.ok {
        ClaimsProceed(a0, s2.w, s2.m);
      }
    }
  }

  /** Existing claims never change; without faults they are all there afterwards if there were none before. */
  lemma PrepareClaims(a0: Api, w: World, m: Minio)
    requires InRun(a0, w, m)
    ensures var s := Prepare(w, m);
            && ClaimsAdded(w.pvcs, s.w.pvcs, AllClaims(w.name, m.spec, m.spec.pools))
            && (HasClaims(w) ==> s.w.pvcs == w.pvcs)
            && (FaultFree(w.api.script) && !HasClaims(w) ==>
                  s.w.pvcs == InsertMissing(w.pvcs, AllClaims(w.name, m.spec, m.spec.pools)))
  {
    RevisionProceeds(a0, w, m);
    var s1 := RecordRevision(w, m);
    if s1.ok {
      ServicesProceed(a0, s1.w, s1.m);
      ServicesStore(s1.w, s1.m);
      var s2 := CheckServices(s1.w, s1.m);
      FollowsTransitive(w.api, s1.w.api, s2.w.api);
      if s2.ok {
        assert HasClaims(s2.w) == HasClaims(w);
        ClaimsProceed(a0, s2.w, s2.m);
      }
    }
  }

  // ---------- The pods ----------

  function PodsToCreate(name: string, prev: Option<Spec>, spec: Spec): seq<Pod> {
    AllPods(name, spec, AddPools(OldPools(prev), spec.pools))
  }

  function PodsToUpdate(name: string, prev: Option<Spec>, spec: Spec): seq<Pod> {
    AllPods(name, spec, PoolsToUpdate(prev, spec))
  }

  /** The pods after a pass without faults. */
  function PodStage(store: map<string, Pod>, name: string, prev: Option<Spec>, spec: Spec): Stored {
    var c := PutNew(store, PodsToCreate(name, prev, spec));
    if !c.ok then c else PutOver(c.pods, PodsToUpdate(name, prev, spec))
  }

  ghost predicate HasName(pods: seq<Pod>, n: string) {
    exists k :: 0 <= k < |pods| && pods[k].name == n
  }

  /** From `before` to `after` by creating some of `added` and then overwriting with some of `updated`. */
  ghost predicate PodsWritten(before: map<string, Pod>, after: map<string, Pod>, added: seq<Pod>, updated: seq<Pod>) {
    && before.Keys <= after.Keys
    && (forall n :: n in after && n !in before ==> HasName(added, n))
    && (forall n :: n in after ==>
          || (n in before && after[n] == before[n])
          || (after[n].name == n && n !in before && after[n] in added)
          || (after[n].name == n && after[n] in updated))
  }

  lemma PodsProceed(a0: Api, w: World, m: Minio, prev: Option<Spec>)
    requires InRun(a0, w, m)
    ensures var s := ReconcilePods(w, m, prev);
            && Proceeds(a0, w, m, s)
            && s.w == w.(pods := s.w.pods, api := s.w.api)
            && (Quiet(a0, w) && s.ok ==> s.w.api.status.status == Running)
            && (FaultFree(w.api.script) ==> Stored(s.w.pods, s.ok) == PodStage(w.pods, w.name, prev, m.spec))
  {
    var added, updated := PodsToCreate(w.name, prev, m.spec), PodsToUpdate(w.name, prev, m.spec);
    CreatePodsProceeds(a0, w, m, added);
    CreatePodsStore(w, m, added);
    var c := CreatePods(w, m, added);
    if c.ok {
      UpdatePodsProceeds(a0, c.w, c.m, updated);
      UpdatePodsStore(c.w, c.m, updated);
      var u := UpdatePods(c.w, c.m, updated);
      ProceedsTransitive(a0, w, m, c, u);
      if u.ok {
        AnnounceProceeds(a0, u.w, u.m);
        ProceedsTransitive(a0, w, m, u, Announce(u.w, u.m));
      }
    }
  }

  lemma WrittenTwice(before: map<string, Pod>, mid: map<string, Pod>, after: map<string, Pod>,
                     added: seq<Pod>, updated: seq<Pod>)
    requires Written(before, mid, added) && Written(mid, after, updated) && mid.Keys == after.Keys
    requires forall x :: x in before ==> mid[x] == before[x]
    ensures PodsWritten(before, after, added, updated)
  {
    forall n | n in after
      ensures n !in before ==> HasName(added, n)
      ensures || (n in before && after[n] == before[n])
              || (after[n].name == n && n !in before && after[n] in added)
              || (after[n].name == n && after[n] in updated)
    {
      assert n in mid;
      if !(n in before && mid[n] == before[n]) {
        var k :| 0 <= k < |added| && added[k].name == n && mid[n] == added[k];
        assert mid[n] in added;
      }
    }
  }

  lemma PodsStore(a0: Api, w: World, m: Minio, prev: Option<Spec>)
    requires InRun(a0, w, m)
    ensures PodsWritten(w.pods, ReconcilePods(w, m, prev).w.pods,
                        PodsToCreate(w.name, prev, m.spec), PodsToUpdate(w.name, prev, m.spec))
  {
    var added, updated := PodsToCreate(w.name, prev, m.spec), PodsToUpdate(w.name, prev, m.spec);
    CreatePodsProceeds(a0, w, m, added);
    CreatePodsStore(w, m, added);
    var c := CreatePods(w, m, added);
    if c.ok {
      UpdatePodsStore(c.w, c.m, updated);
      WrittenTwice(w.pods, c.w.pods, UpdatePods(c.w, c.m, updated).w.pods, added, updated);
    } else {
      WrittenTwice(w.pods, c.w.pods, c.w.pods, added, updated);
    }
  }

  // ---------- The pass ----------

  lemma FetchStarts(w: World)
    requires Call(w.api).fault.None?
    ensures var a0 := Call(w.api).api; InRun(a0, w.(api := a0), Fetched(a0))
    ensures FaultFree(w.api.script) ==> FaultFree(Call(w.api).api.script)
  {
    RunStarts(MainReconciler, Call(w.api).api);
    CallFollows(w.api);
  }

  lemma FirstStatusProceeds(a0: Api, w: World, m: Minio)
    requires InRun(a0, w, m)
    ensures var s := FirstStatus(w, m);
            && InRun(a0, s.w, s.m) && Follows(w.api, s.w.api)
            && s.w == w.(api := s.w.api) && s.m.spec == m.spec
            && (FaultFree(w.api.script) ==> s.ok)
  {
    if m.status.status == Unset {
      WriteProceeds(a0, w, m.(status := m.status.(status := Initial)));
    }
  }

  lemma AfterFirstProceeds(a0: Api, w: World, m: Minio, prev: Option<Spec>)
    requires InRun(a0, w, m)
    ensures var s := AfterFirst(w, m, prev);
            && Proceeds(a0, w, m, s)
            && (Quiet(a0, w) && s.ok ==> s.w.api.status.status == Running)
  {
    PrepareProceeds(a0, w, m);
    var p := Prepare(w, m);
    if p.ok {
      PodsProceed(a0, p.w, p.m, prev);
      ProceedsTransitive(a0, w, m, p, ReconcilePods(p.w, p.m, prev));
    }
  }

  /** In every pass, under any interference by other writers and any faults, the status writes change the stored
      object at most once, and nothing but the deploy status and the message. */
  lemma PassStatusWrites(w: World)
    ensures DuringRun(MainReconciler, Call(w.api).api, Reconcile(w).w.api)
    ensures Follows(w.api, Reconcile(w).w.api)
  {
    CallFollows(w.api);
    var a0 := Call(w.api).api;
    RunStarts(MainReconciler, a0);
    if Call(w.api).fault.None? && a0.life.Live? {
      FetchStarts(w);
      var w0, m := w.(api := a0), Fetched(a0);
      FirstStatusProceeds(a0, w0, m);
      var s0 := FirstStatus(w0, m);
      if s0.ok {
        AfterFirstProceeds(a0, s0.w, s0.m, w.rev);
        FollowsTransitive(w0.api, s0.w.api, Reconcile(w).w.api);
      }
      FollowsTransitive(w.api, a0, Reconcile(w).w.api);
    }
  }

  /** An object that is absent or being deleted when the pass reads it is left to itself: the pass makes this one call
      and no other, and reports success unless that one failed. */
  lemma NotLivePass(w: World)
    requires Call(w.api).api.life != Live
    ensures Reconcile(w).w == w.(api := Call(w.api).api)
    ensures Reconcile(w).ok <==> Call(w.api).fault.None?
  {
  }

  /** What a pass does to the objects, under any interference and any faults: `spec` is the specification read. */
  ghost predicate PassEffect(w: World, spec: Spec, r: World) {
    && r.name == w.name && r.admit == w.admit
    && ServicesEffect(w.admit, w.name, spec, w.svcs, r.svcs, false)
    && ClaimsAdded(w.pvcs, r.pvcs, AllClaims(w.name, spec, spec.pools))
    && (HasClaims(w) ==> r.pvcs == w.pvcs)
    && (r.rev == w.rev || r.rev == None || r.rev == Some(spec))
    && (w.rev == Some(spec) ==> r.rev == w.rev)
  }

  lemma PassObjects(w: World)
    ensures PassEffect(w, Call(w.api).api.spec, Reconcile(w).w)
  {
    var a0 := Call(w.api).api;
    if Call(w.api).fault.None? && a0.life.Live? {
      FetchStarts(w);
      var w0, m := w.(api := a0), Fetched(a0);
      FirstStatusProceeds(a0, w0, m);
      var s0 := FirstStatus(w0, m);
      if s0.ok {
        AfterFirstEffect(a0, s0.w, s0.m, w.rev);
        SameObjects(w, s0.w, m.spec, Reconcile(w).w);
      }
    }
  }

  lemma AfterFirstEffect(a0: Api, w: World, m: Minio, prev: Option<Spec>)
    requires InRun(a0, w, m)
    ensures PassEffect(w, m.spec, AfterFirst(w, m, prev).w)
  {
    PrepareEffect(a0, w, m);
    PrepareProceeds(a0, w, m);
    var p := Prepare(w, m);
    if p.ok {
      PodsProceed(a0, p.w, p.m, prev);
    }
  }

  lemma PrepareEffect(a0: Api, w: World, m: Minio)
    requires InRun(a0, w, m)
    ensures PassEffect(w, m.spec, Prepare(w, m).w)
  {
    PrepareStore(a0, w, m);
    PrepareClaims(a0, w, m);
  }

  lemma SameObjects(w: World, v: World, spec: Spec, r: World)
    requires v == w.(api := v.api) && PassEffect(v, spec, r)
    ensures PassEffect(w, spec, r)
  {
    assert HasClaims(v) == HasClaims(w);
  }

  /** Pods are created only for added pools, and only those of updated pools are overwritten, under any
      interference and any faults. */
  lemma PassPods(w: World)
    ensures var spec := Call(w.api).api.spec;
            PodsWritten(w.pods, Reconcile(w).w.pods,
                        PodsToCreate(w.name, w.rev, spec), PodsToUpdate(w.name, w.rev, spec))
  {
    var a0 := Call(w.api).api;
    if Call(w.api).fault.None? && a0.life.Live? {
      FetchStarts(w);
      var w0, m := w.(api := a0), Fetched(a0);
      FirstStatusProceeds(a0, w0, m);
      var s0 := FirstStatus(w0, m);
      if s0.ok {
        PrepareProceeds(a0, s0.w, s0.m);
        PrepareStore(a0, s0.w, s0.m);
        var p := Prepare(s0.w, s0.m);
        if p.ok {
          PodsStore(a0, p.w, p.m, w.rev);
        }
      }
    }
  }

  /** What stands before the pods when no call fails. */
  ghost predicate Prepared(w: World, spec: Spec, p: World) {
    && p.name == w.name && p.admit == w.admit && p.pods == w.pods && p.rev == Some(spec)
    && ServicesMatch(p.svcs, w.name, spec)
    && p.svcs == SettledServices(w.svcs, w.admit, w.name, spec)
    && p.pvcs == (if HasClaims(w) then w.pvcs else InsertMissing(w.pvcs, AllClaims(w.name, spec, spec.pools)))
  }

  lemma FaultFreePrepare(a0: Api, w: World, m: Minio)
    requires InRun(a0, w, m) && FaultFree(w.api.script)
    ensures Prepare(w, m).ok && Prepared(w, m.spec, Prepare(w, m).w)
  {
    PrepareProceeds(a0, w, m);
    PrepareStore(a0, w, m);
    PrepareClaims(a0, w, m);
  }

  lemma PreparedFrom(w: World, v: World, spec: Spec, p: World)
    requires v == w.(api := v.api) && Prepared(v, spec, p)
    ensures Prepared(w, spec, p)
  {
    assert HasClaims(v) == HasClaims(w);
  }

  lemma FaultFreeAfterFirst(a0: Api, w: World, m: Minio, prev: Option<Spec>)
    requires InRun(a0, w, m) && FaultFree(w.api.script)
    ensures var r := AfterFirst(w, m, prev);
            && Prepared(w, m.spec, r.w.(pods := w.pods))
            && Stored(r.w.pods, r.ok) == PodStage(w.pods, w.name, prev, m.spec)
  {
    PrepareProceeds(a0, w, m);
    FaultFreePrepare(a0, w, m);
    var p := Prepare(w, m);
    PodsProceed(a0, p.w, p.m, prev);
  }

  /** The exact effect of a pass without faults, whatever the other status writers do meanwhile. */
  lemma FaultFreePass(w: World)
    requires FaultFree(w.api.script) && w.api.life.Live?
    ensures var spec, r := Call(w.api).api.spec, Reconcile(w);
            && r.w.rev == Some(spec)
            && ServicesMatch(r.w.svcs, w.name, spec)
            && r.w.svcs == SettledServices(w.svcs, w.admit, w.name, spec)
            && r.w.pvcs == (if HasClaims(w) then w.pvcs else InsertMissing(w.pvcs, AllClaims(w.name, spec, spec.pools)))
            && Stored(r.w.pods, r.ok) == PodStage(w.pods, w.name, w.rev, spec)
            && r.w.name == w.name && r.w.api.life.Live?
  {
    CallFollows(w.api);
    if w.api.script != [] {
      assert w.api.script[0] in w.api.script;
    }
    var a0 := Call(w.api).api;
    FetchStarts(w);
    var w0, m := w.(api := a0), Fetched(a0);
    FirstStatusProceeds(a0, w0, m);
    var s0 := FirstStatus(w0, m);
    FaultFreeAfterFirst(a0, s0.w, s0.m, w.rev);
    PreparedFrom(w, s0.w, m.spec, Reconcile(w).w.(pods := w.pods));
    PassStatusWrites(w);
  }

  // ---------- What the status says afterwards ----------

  /** With nobody else writing, a pass that succeeds leaves Running, except the first pass over a fresh object:
      that one leaves its initial None, since every later write of the pass carries the version it read. */
  lemma StatusAfterPass(w: World)
    requires Undisturbed(w.api.script) && w.api.life.Live?
    ensures Reconcile(w).ok ==>
              Reconcile(w).w.api.status.status == if w.api.status.status == Unset then Initial else Running
  {
    var a0 := Call(w.api).api;
    UndisturbedCall(w.api);
    if w.api.status.status == Unset {
      FreshStatusFrozen(w);
    } else if Reconcile(w).ok {
      FetchStarts(w);
      AfterFirstProceeds(a0, w.(api := a0), Fetched(a0), w.rev);
    }
  }

  /** The first pass over a fresh object, whatever fails in it: the store ends with the status it had or, once
      the first write got through, with None; no failure and no message ever shows. */
  lemma FreshStatusFrozen(w: World)
    requires Undisturbed(w.api.script) && w.api.status.status == Unset
    ensures var r := Reconcile(w);
            && (r.w.api.status == w.api.status || r.w.api.status == w.api.status.(status := Initial))
            && ((r.ok || FaultFree(w.api.script)) && w.api.life.Live? ==>
                  r.w.api.status == w.api.status.(status := Initial))
  {
    var a0 := Call(w.api).api;
    UndisturbedCall(w.api);
    if w.api.script != [] {
      assert w.api.script[0] in w.api.script;
    }
    if Call(w.api).fault.None? && a0.life.Live? {
      FetchStarts(w);
      var w0, m := w.(api := a0), Fetched(a0);
      FirstStatusProceeds(a0, w0, m);
      var s0 := FirstStatus(w0, m);
      var c := Copy(a0.version, a0.status.(status := Initial));
      if s0.ok {
        UndisturbedWrite(a0, c);
        AfterFirstProceeds(a0, s0.w, s0.m, w.rev);
        var r := Reconcile(w).w.api;
        assert r.own == s0.w.api.own;
        UndisturbedOthers(s0.w.api, r);
      } else {
        UndisturbedRefusal(a0, c);
      }
    }
  }

  /** A status write that fails with nobody else writing has stored nothing. */
  lemma UndisturbedRefusal(a: Api, c: Copy)
    requires Undisturbed(a.script) && c.version == a.version && !UpdateWithRetry(a, c, true).ok
    ensures UpdateWithRetry(a, c, true).api.status == a.status
  {
    UndisturbedCall(a);
  }
}
