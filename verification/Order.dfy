/** The order of work within a pass, and what is left when it stops half-way. */
module Order {
  import opened Wrappers
  import opened Types
  import opened Services
  import opened StatusStore
  import opened MainPass
  import opened Stages
  import opened PassFacts
  import opened Convergence
  import opened Lifecycle
  import opened Reports

  // ---------- First things first ----------

  predicate Touched(before: map<string, Service>, after: map<string, Service>, x: string) {
    x in after && (x in before ==> after[x] != before[x])
  }

  ghost predicate InLine(svcs: map<string, Service>, n: string, expected: Service) {
    n in svcs && Matches(svcs[n], expected)
  }

  /** No others are created, the second is touched only once the first is in line, the third only once both are. */
  ghost predicate OneAfterAnother(before: map<string, Service>, after: map<string, Service>,
                                  n1: string, n2: string, n3: string, e1: Service, e2: Service) {
    && (forall x :: x in after && x !in before ==> x in {n1, n2, n3})
    && (Touched(before, after, n2) ==> InLine(after, n1, e1))
    && (Touched(before, after, n3) ==> InLine(after, n1, e1) && InLine(after, n2, e2))
  }

  /** Later services are touched only once earlier ones are in line. */
  ghost predicate ServicesInOrder(name: string, spec: Spec, before: map<string, Service>, after: map<string, Service>) {
    OneAfterAnother(before, after, name, name + "console", name + "hl",
                    Expected(name, MinIOSvc, spec), Expected(name, ConsoleSvc, spec))
  }

  lemma OneInOrder(b0: map<string, Service>, b1: map<string, Service>, n1: string, n2: string, n3: string,
                   e1: Service, e2: Service, s1: Service)
    requires n1 != n2 && n2 != n3 && n3 != n1 && Checked(b0, b1, n1, e1, s1, false)
    ensures OneAfterAnother(b0, b1, n1, n2, n3, e1, e2)
  {
  }

  lemma TwoInOrder(b0: map<string, Service>, b1: map<string, Service>, b2: map<string, Service>,
                   n1: string, n2: string, n3: string, e1: Service, e2: Service, s1: Service, s2: Service)
    requires n1 != n2 && n2 != n3 && n3 != n1
    requires Checked(b0, b1, n1, e1, s1, true) && Checked(b1, b2, n2, e2, s2, false)
    ensures OneAfterAnother(b0, b2, n1, n2, n3, e1, e2)
  {
  }

  lemma ThreeInOrder(b0: map<string, Service>, b1: map<string, Service>, b2: map<string, Service>,
                     b3: map<string, Service>, n1: string, n2: string, n3: string,
                     e1: Service, e2: Service, e3: Service, s1: Service, s2: Service, s3: Service, ok: bool)
    requires n1 != n2 && n2 != n3 && n3 != n1
    requires Checked(b0, b1, n1, e1, s1, true) && Checked(b1, b2, n2, e2, s2, true) && Checked(b2, b3, n3, e3, s3, ok)
    ensures OneAfterAnother(b0, b3, n1, n2, n3, e1, e2)
  {
  }

  lemma ChecksInOrder(w: World, m: Minio)
    ensures ServicesInOrder(w.name, m.spec, w.svcs, CheckServices(w, m).w.svcs)
  {
    var s1 := CheckService(w, MinIOSvc, m);
    ServiceNamesDiffer(w.name);
    ServiceStore(w, MinIOSvc, m);
    if !s1.ok {
      OneInOrder(w.svcs, s1.w.svcs, ServiceName(w.name, MinIOSvc), ServiceName(w.name, ConsoleSvc),
                 ServiceName(w.name, HeadlessSvc), Expected(w.name, MinIOSvc, m.spec),
                 Expected(w.name, ConsoleSvc, m.spec), Settle(w.svcs, w.admit, w.name, MinIOSvc, m.spec));
    } else {
      LaterChecksInOrder(w, s1, m.spec, Settle(w.svcs, w.admit, w.name, MinIOSvc, m.spec));
    }
  }

  lemma LaterChecksInOrder(w: World, s1: Step, spec: Spec, settled: Service)
    requires s1.w.name == w.name && s1.w.admit == w.admit && s1.m.spec == spec
    requires Checked(w.svcs, s1.w.svcs, ServiceName(w.name, MinIOSvc), Expected(w.name, MinIOSvc, spec), settled, true)
    ensures var s2 := CheckService(s1.w, ConsoleSvc, s1.m);
            var s := if s2.ok then CheckService(s2.w, HeadlessSvc, s2.m) else s2;
            ServicesInOrder(w.name, spec, w.svcs, s.w.svcs)
  {
    var n1, n2, n3 := ServiceName(w.name, MinIOSvc), ServiceName(w.name, ConsoleSvc), ServiceName(w.name, HeadlessSvc);
    var e1, e2 := Expected(w.name, MinIOSvc, spec), Expected(w.name, ConsoleSvc, spec);
    var settled2 := Settle(s1.w.svcs, w.admit, w.name, ConsoleSvc, spec);
    ServiceNamesDiffer(w.name);
    ServiceStore(s1.w, ConsoleSvc, s1.m);
    var s2 := CheckService(s1.w, ConsoleSvc, s1.m);
    if !s2.ok {
      TwoInOrder(w.svcs, s1.w.svcs, s2.w.svcs, n1, n2, n3, e1, e2, settled, settled2);
    } else {
      ServiceStore(s2.w, HeadlessSvc, s2.m);
      var s3 := CheckService(s2.w, HeadlessSvc, s2.m);
      ThreeInOrder(w.svcs, s1.w.svcs, s2.w.svcs, s3.w.svcs, n1, n2, n3, e1, e2, Expected(w.name, HeadlessSvc, spec),
                   settled, settled2, Settle(s2.w.svcs, w.admit, w.name, HeadlessSvc, spec), s3.ok);
    }
  }

  /** In every pass, whatever fails and whoever interferes: services are touched only once the revision records the
      specification, one after another; claims only once all three services are in line; pods only after that. */
  ghost predicate InOrder(w: World, spec: Spec, r: World) {
    && (r.svcs != w.svcs ==> r.rev == Some(spec))
    && ServicesInOrder(w.name, spec, w.svcs, r.svcs)
    && (r.pvcs != w.pvcs ==> r.rev == Some(spec) && ServicesMatch(r.svcs, w.name, spec))
    && (r.pods != w.pods ==> r.rev == Some(spec) && ServicesMatch(r.svcs, w.name, spec))
  }

  lemma PassInOrder(w: World)
    ensures InOrder(w, Call(w.api).api.spec, Reconcile(w).w)
  {
    var a0 := Call(w.api).api;
    NothingInOrder(w, a0.spec, w.(api := a0));
    if Call(w.api).fault.None? && a0.life.Live? {
      FetchStarts(w);
      var w0, m := w.(api := a0), Fetched(a0);
      FirstStatusProceeds(a0, w0, m);
      var s0 := FirstStatus(w0, m);
      NothingInOrder(w, a0.spec, s0.w);
      if s0.ok {
        AfterFirstInOrder(a0, s0.w, s0.m, w.rev);
        SameOrder(w, s0.w, m.spec, Reconcile(w).w);
      }
    }
  }

  lemma NothingInOrder(w: World, spec: Spec, r: World)
    requires r == w.(api := r.api)
    ensures InOrder(w, spec, r)
  {
  }

  lemma SameOrder(w: World, v: World, spec: Spec, r: World)
    requires v == w.(api := v.api) && InOrder(v, spec, r)
    ensures InOrder(w, spec, r)
  {
  }

  lemma AfterFirstInOrder(a0: Api, w: World, m: Minio, prev: Option<Spec>)
    requires InRun(a0, w, m)
    ensures InOrder(w, m.spec, AfterFirst(w, m, prev).w)
  {
    PrepareInOrder(a0, w, m);
    PrepareStore(a0, w, m);
    PrepareProceeds(a0, w, m);
    var p := Prepare(w, m);
    if p.ok {
      PodsProceed(a0, p.w, p.m, prev);
    }
  }

  lemma PrepareInOrder(a0: Api, w: World, m: Minio)
    requires InRun(a0, w, m)
    ensures InOrder(w, m.spec, Prepare(w, m).w)
  {
    RevisionProceeds(a0, w, m);
    var s1 := RecordRevision(w, m);
    if s1.ok {
      ServicesProceed(a0, s1.w, s1.m);
      ServicesStore(s1.w, s1.m);
      RevisionStore(w, m);
      ChecksInOrder(s1.w, m);
      var s2 := CheckServices(s1.w, s1.m);
      if s2.ok {
        ClaimsProceed(a0, s2.w, s2.m);
      }
    }
  }

  // ---------- The revision lost and found ----------

  /** The revision is replaced in two steps: when the second one fails, there is none. */
  lemma RevisionGap(w: World, m: Minio)
    requires w.rev.Some? && w.rev.value != m.spec
    requires Call(w.api).fault.None? && Call(Call(w.api).api).fault.None?
    requires Call(Call(Call(w.api).api).api).fault.Some?
    ensures !RecordRevision(w, m).ok && RecordRevision(w, m).w.rev == None
  {
  }

  /** A revision lost over a cluster that has its pods costs exactly one pass: the next one takes every pool for a new
      one and fails at the first pod, but records the specification, and the one after it succeeds. */
  lemma LostRevisionCostsOnePass(w: World, first: seq<Event>, second: seq<Event>, spec: Spec)
    requires w.rev == None && w.api.life.Live? && FaultFree(first) && FaultFree(second)
    requires ReadableSpecs(w, [first, second]) == {spec}
    requires AllPods(w.name, spec, spec.pools) != [] && AllIn(AllPods(w.name, spec, spec.pools), w.pods)
    ensures var r := Reconcile(Scripted(w, first));
            !r.ok && r.w.pods == w.pods && Reconcile(Scripted(r.w, second)).ok
  {
    TwoPasses(w, first, second, spec);
    var v := Scripted(w, first);
    var pods := AllPods(w.name, spec, spec.pools);
    FaultFreePass(v);
    AllAdded(spec.pools);
    assert pods[0].name in w.pods;
    UnchangedPoolsConverge(Scripted(Reconcile(v).w, second), spec);
  }

  // ---------- What is said about a failed service ----------

  /** The stage has failed with this message and left the pods alone. */
  predicate Told(w: World, m: Minio, s: Step, message: string) {
    !s.ok && s.w.pods == w.pods && s.w.api.status == m.status.(status := Failed, message := message)
  }

  /** A service that cannot be updated is reported in these words, when nothing was announced before. */
  lemma UpdateFailureTold(w: World, k: Kind, m: Minio)
    requires Undisturbed(w.api.script) && m.version == w.api.version && m.status == w.api.status
    requires ServiceName(w.name, k) in w.svcs
    requires !Matches(w.svcs[ServiceName(w.name, k)], Expected(w.name, k, m.spec))
    requires Call(w.api).fault.Some? && FaultFree(Call(w.api).api.script)
    ensures var text := match k
              case MinIOSvc => "MinIO Service Update Failed"
              case ConsoleSvc => "MinIO Console Service Created Failed"
              case HeadlessSvc => "MinIO Headless Service Created Failed";
            var s := ConvergeService(w, k, m);
            !s.ok && s.w.svcs == w.svcs && s.w.api.status == m.status.(status := Failed, message := text)
  {
    CallStanding(m.status, false, w.api, m);
    ReportStanding(m.status, false, w.(api := Call(w.api).api), m, UpdateFailure(k));
  }

  /** One that cannot be created is reported in these, but only where announcing Running changed nothing. */
  lemma CreationFailureTold(w: World, k: Kind, m: Minio)
    requires Undisturbed(w.api.script) && m.version == w.api.version && m.status == w.api.status
    requires m.status.status == Running && !w.api.noopBumps && ServiceName(w.name, k) !in w.svcs
    requires Announce(w, m).ok && Call(Announce(w, m).w.api).fault.Some?
    requires FaultFree(Call(Announce(w, m).w.api).api.script)
    ensures var text := match k
              case MinIOSvc => "MinIO Service Create Failed"
              case ConsoleSvc => "MinIO Console Service Create Failed"
              case HeadlessSvc => "MinIO Headless Service Created Failed";
            var s := CreateService(w, k, m);
            !s.ok && s.w.svcs == w.svcs && s.w.api.status == m.status.(status := Failed, message := text)
  {
    AnnounceStanding(m.status, false, w, m);
    var a := Announce(w, m);
    CallStanding(m.status, true, a.w.api, a.m);
    ReportStanding(m.status, true, a.w.(api := Call(a.w.api).api), a.m, CreateFailure(k));
  }

  /** A pod that cannot be created, or overwritten, is reported with the error as it came, when nothing was announced
      before; the pods stay as they are. */
  lemma PodFailureTold(w: World, m: Minio, pods: seq<Pod>, e: string)
    requires Undisturbed(w.api.script) && m.version == w.api.version && m.status == w.api.status
    requires pods != [] && FaultFree(Call(w.api).api.script)
    ensures Call(w.api).fault == Some(e) ||
            (Call(w.api).fault == None && pods[0].name in w.pods && e == "already exists") ==>
              Told(w, m, CreatePods(w, m, pods), "MinIO Pod Create Failed, " + e)
    ensures Call(w.api).fault == Some(e) ||
            (Call(w.api).fault == None && pods[0].name !in w.pods && e == "not found") ==>
              Told(w, m, UpdatePods(w, m, pods), "MinIO Pod Update Failed, " + e)
  {
    var w1 := w.(api := Call(w.api).api);
    CallStanding(m.status, false, w.api, m);
    ReportStanding(m.status, false, w1, m, "MinIO Pod Create Failed, " + e);
    ReportStanding(m.status, false, w1, m, "MinIO Pod Update Failed, " + e);
  }
}
