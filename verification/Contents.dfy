/** What the objects of a cluster hold, in the terms of the specification: pods, services and claims field by field. */
module Contents {
  import opened Wrappers
  import opened Types
  import opened Services
  import opened StatusStore
  import opened MainPass
  import opened Stages
  import opened PassFacts
  import opened Convergence
  import opened Lifecycle
  import opened OnePass
  import Layout
  import opened Decimal

  // ---------- Which edits a pass carries out ----------

  /** Set on both sides, and different. */
  predicate Replaced(x: Option<Opaque>, y: Option<Opaque>) {
    match (x, y)
    case (Some(a), Some(b)) => a != b
    case _ => false
  }

  /** The edits of the specification itself that reach pods at once: image, pull policy, pull secret, resources, and a
      probe or an affinity replaced by another one, but not one added or removed. */
  predicate Rollout(prev: Spec, next: Spec) {
    || prev.image != next.image
    || prev.imagePullPolicy != next.imagePullPolicy
    || prev.imagePullSecret != next.imagePullSecret
    || prev.resources != next.resources
    || Replaced(prev.liveness, next.liveness)
    || Replaced(prev.readiness, next.readiness)
    || Replaced(prev.startup, next.startup)
    || Replaced(prev.affinity, next.affinity)
  }

  /** A recorded pool is updated if and only if there is still a pool of its name and the edit is a rollout or left the
      node selector of one such pool alone. */
  lemma AskedIff(prev: Spec, next: Spec, kept: Pool)
    ensures ToUpdate(prev, next, kept) <==>
            exists q :: q in next.pools && q.name == kept.name &&
              (Rollout(prev, next) || q.nodeSelector == kept.nodeSelector)
  {
    if ToUpdate(prev, next, kept) {
      var k :| 0 <= k < |next.pools| && next.pools[k].name == kept.name &&
        MinioServerNeedToUpdate(prev, next, kept, next.pools[k]);
      assert next.pools[k] in next.pools;
    }
    if exists q :: q in next.pools && q.name == kept.name &&
         (Rollout(prev, next) || q.nodeSelector == kept.nodeSelector)
    {
      var q :| q in next.pools && q.name == kept.name &&
        (Rollout(prev, next) || q.nodeSelector == kept.nodeSelector);
      var k :| 0 <= k < |next.pools| && next.pools[k] == q;
      assert MinioServerNeedToUpdate(prev, next, kept, next.pools[k]);
    }
  }

  /** After a successful pass that reads a rollout, or finds the node selector of a pool as it was, the pods of that
      pool as it was recorded run what the specification says. */
  lemma RolloutReachesPods(w: World, prev: Spec, kept: Pool, q: Pool, i: nat)
    requires FaultFree(w.api.script) && w.api.life.Live? && w.rev == Some(prev) && DistinctPools(prev.pools)
    requires kept in prev.pools && i < Count(kept.servers)
    requires q in Call(w.api).api.spec.pools && q.name == kept.name
    requires Rollout(prev, Call(w.api).api.spec) || q.nodeSelector == kept.nodeSelector
    ensures var n, r := kept.name + "-" + Itoa(i), Reconcile(w);
            r.ok ==> n in r.w.pods && Layout.PodAsAsked(r.w.pods[n], w.name, Call(w.api).api.spec, kept, i)
  {
    var spec := Call(w.api).api.spec;
    AskedIff(prev, spec, kept);
    KeptPod(w, prev, kept, i);
    Layout.PodForIff(w.name, spec, kept, i, Layout.PodFor(w.name, spec, kept, i));
  }

  /** Without a rollout, a pool whose node selector was changed keeps its pods as they are, whatever fails and whoever
      interferes: all other edits of the specification pass them by, a probe added or removed among them. */
  lemma NoRolloutNoChange(w: World, prev: Spec, kept: Pool, i: nat)
    requires w.rev == Some(prev) && kept in prev.pools && DistinctPools(prev.pools)
    requires !Rollout(prev, Call(w.api).api.spec)
    requires forall q :: q in Call(w.api).api.spec.pools && q.name == kept.name ==> q.nodeSelector != kept.nodeSelector
    ensures var n, r := kept.name + "-" + Itoa(i), Reconcile(w).w;
            (n in r.pods <==> n in w.pods) && (n in w.pods ==> r.pods[n] == w.pods[n])
  {
    var spec := Call(w.api).api.spec;
    AskedIff(prev, spec, kept);
    NotOverwritten(w.name, prev, spec, kept, i);
    NotCreated(w.name, prev, spec, kept, i);
    PassPods(w);
  }

  /** Adding or removing probes and affinity, one or more at a time, is no rollout. */
  lemma AddedProbeIsNoRollout(prev: Spec, next: Spec)
    requires next == prev.(pools := next.pools, liveness := next.liveness, readiness := next.readiness,
                           startup := next.startup, affinity := next.affinity)
    requires prev.liveness == next.liveness || prev.liveness == None || next.liveness == None
    requires prev.readiness == next.readiness || prev.readiness == None || next.readiness == None
    requires prev.startup == next.startup || prev.startup == None || next.startup == None
    requires prev.affinity == next.affinity || prev.affinity == None || next.affinity == None
    ensures !Rollout(prev, next)
  {
  }

  // ---------- What runs in the end ----------

  /** After the edits an operator is meant to make and two passes, every pod of the specification runs what it says:
      its image, probes and resources, and the name, labels, volumes and mounts of its place. */
  lemma SpecifiedPodsRun(w: World, first: seq<Event>, second: seq<Event>, spec: Spec, p: Pool, i: nat)
    requires w.api.life.Live? && FaultFree(first) && FaultFree(second)
    requires ReadableSpecs(w, [first, second]) == {spec} && DistinctPools(spec.pools)
    requires forall p, i: nat :: p in spec.pools && i < Count(p.servers) ==>
               (Layout.PodName(p.name, i) in w.pods <==> Named(OldPools(w.rev), p.name))
    requires p in spec.pools && i < Count(p.servers)
    ensures var n, pods := p.name + "-" + Itoa(i), Passes(w, [first, second]).pods;
            && n in pods && Layout.PodAsAsked(pods[n], w.name, spec, p, i)
            && pods[n].container.image == spec.image
  {
    UsualEditConverges(w, first, second, spec);
    DesiredIff(Passes(w, [first, second]).pods, w.name, spec);
    Layout.PodForIff(w.name, spec, p, i, Layout.PodFor(w.name, spec, p, i));
  }

  // ---------- The services ----------

  /** One port, of this name and number, forwarded to that one. */
  predicate OnePort(svc: Service, name: string, port: int, target: int) {
    && |svc.spec.ports| == 1
    && svc.spec.ports[0].name == name && svc.spec.ports[0].port == port && svc.spec.ports[0].targetPort == target
  }

  /** The stored MinIO service: on port 443 with a certificate and on 80 without, from outside exactly when exposed. */
  predicate MinIOServiceAsAsked(svc: Service, name: string, spec: Spec) {
    && (spec.enableCert ==> OnePort(svc, "https-minio", 443, 9000))
    && (!spec.enableCert ==> OnePort(svc, "http-minio", 80, 9000))
    && (svc.spec.kind == NodePort <==> spec.exposeMinIO)
    && (svc.spec.kind == ClusterIP <==> !spec.exposeMinIO)
    && "v1alpha1.bob.com/minio" in svc.labels && svc.labels["v1alpha1.bob.com/minio"] == name
    && "v1alpha1.bob.com/minio" in svc.spec.selector
    && (name != "" ==> svc.spec.selector["v1alpha1.bob.com/minio"] == name)
  }

  /** The stored console service: always on port 9090, from outside exactly when exposed. */
  predicate ConsoleServiceAsAsked(svc: Service, name: string, spec: Spec) {
    && OnePort(svc, "http-console", 9090, 9090)
    && (svc.spec.kind == NodePort <==> spec.exposeConsole)
    && (svc.spec.kind == ClusterIP <==> !spec.exposeConsole)
    && "v1alpha1.bob.com/minio" in svc.spec.selector
    && (name != "" ==> svc.spec.selector["v1alpha1.bob.com/minio"] == name)
  }

  /** Services in line are these, no more and no less, and the headless one looks like the console's. */
  lemma CheckedServices(svcs: map<string, Service>, name: string, spec: Spec)
    ensures ServicesMatch(svcs, name, spec) <==>
            && name in svcs && MinIOServiceAsAsked(svcs[name], name, spec)
            && name + "console" in svcs && ConsoleServiceAsAsked(svcs[name + "console"], name, spec)
            && name + "hl" in svcs && ConsoleServiceAsAsked(svcs[name + "hl"], name, spec)
  {
    if ServiceName(name, MinIOSvc) in svcs && ServiceName(name, ConsoleSvc) in svcs &&
       ServiceName(name, HeadlessSvc) in svcs
    {
      CheckedMinIO(svcs[ServiceName(name, MinIOSvc)], name, spec);
      CheckedConsole(svcs[ServiceName(name, ConsoleSvc)], name, spec);
      CheckedConsole(svcs[ServiceName(name, HeadlessSvc)], name, spec);
    }
  }

  lemma CheckedMinIO(svc: Service, name: string, spec: Spec)
    ensures Matches(svc, NewServiceForMinIO(name, spec)) <==> MinIOServiceAsAsked(svc, name, spec)
  {
    var e := NewServiceForMinIO(name, spec);
    assert |svc.spec.ports| == 1 ==> (SamePort(svc.spec.ports[0], e.spec.ports[0]) <==>
      OnePort(svc, e.spec.ports[0].name, e.spec.ports[0].port, e.spec.ports[0].targetPort));
    assert MINIO_LABEL in e.labels && MINIO_LABEL in e.spec.selector;
  }

  lemma CheckedConsole(svc: Service, name: string, spec: Spec)
    ensures Matches(svc, NewConsoleServiceForMinIO(name, spec)) <==> ConsoleServiceAsAsked(svc, name, spec)
  {
    var e := NewConsoleServiceForMinIO(name, spec);
    assert |svc.spec.ports| == 1 ==> (SamePort(svc.spec.ports[0], e.spec.ports[0]) <==>
      OnePort(svc, e.spec.ports[0].name, e.spec.ports[0].port, e.spec.ports[0].targetPort));
    assert MINIO_LABEL in e.spec.selector;
  }

  /** After every pass without failing calls the stored services are as asked, and there are no others but those that
      were there. */
  lemma PassLeavesServices(w: World)
    requires FaultFree(w.api.script) && w.api.life.Live?
    ensures var r, spec := Reconcile(w).w, Call(w.api).api.spec;
            && r.svcs.Keys == w.svcs.Keys + {w.name, w.name + "console", w.name + "hl"}
            && MinIOServiceAsAsked(r.svcs[w.name], w.name, spec)
            && ConsoleServiceAsAsked(r.svcs[w.name + "console"], w.name, spec)
            && ConsoleServiceAsAsked(r.svcs[w.name + "hl"], w.name, spec)
  {
    FaultFreePass(w);
    CheckedServices(Reconcile(w).w.svcs, w.name, Call(w.api).api.spec);
  }

  /** The headless service as it is created has the server port and no cluster address, and also answers for pods that
      are not ready; the check that follows takes all of that away. */
  lemma HeadlessBecomesOrdinary(ad: Admission, name: string, spec: Spec)
    ensures var built := Admit(ad, NewHeadlessServiceForMinIO(name, spec));
            && built.name == name + "hl"
            && OnePort(built, if spec.enableCert then "https-minio" else "http-minio", 9000, 0)
            && built.spec.clusterIP == "None" && built.spec.publishNotReady && built.spec.kind == ClusterIP
    ensures var kept := Settle(map[], ad, name, HeadlessSvc, spec);
            && OnePort(kept, "http-console", 9090, 9090)
            && kept.spec.clusterIP == ad.clusterIP && !kept.spec.publishNotReady
            && (kept.spec.kind == NodePort <==> spec.exposeConsole)
  {
  }

  /** A service as it is created, which is what stays when the check that follows cannot overwrite it. */
  lemma CreatedServices(w: World, k: Kind, m: Minio)
    requires ServiceName(w.name, k) !in w.svcs && CreateService(w, k, m).ok
    ensures var n, svcs := ServiceName(w.name, k), CreateService(w, k, m).w.svcs;
            && svcs.Keys == w.svcs.Keys + {n}
            && match k
               case MinIOSvc => MinIOServiceAsAsked(svcs[n], w.name, m.spec)
               case ConsoleSvc => ConsoleServiceAsAsked(svcs[n], w.name, m.spec)
               case HeadlessSvc =>
                 && OnePort(svcs[n], if m.spec.enableCert then "https-minio" else "http-minio", 9000, 0)
                 && svcs[n].spec.kind == ClusterIP && svcs[n].spec.clusterIP == "None" && svcs[n].spec.publishNotReady
                 && "v1alpha1.bob.com/minio" in svcs[n].labels && svcs[n].labels["v1alpha1.bob.com/minio"] == w.name
                 && "v1alpha1.bob.com/minio" in svcs[n].spec.selector
                 && svcs[n].spec.selector["v1alpha1.bob.com/minio"] == w.name
  {
    CreateServiceStore(w, k, m);
    var built := Built(w.name, k, m.spec);
    assert MINIO_LABEL in PodLabels(w.name);
    AdmissionKeepsMatch(w.admit, built, built);
    match k
    case MinIOSvc => CheckedMinIO(Admit(w.admit, built), w.name, m.spec);
    case ConsoleSvc => CheckedConsole(Admit(w.admit, built), w.name, m.spec);
    case HeadlessSvc =>
  }

  // ---------- The claims ----------

  /** Claims that carry the names of other MinIOs, or none, do not count: the pass creates all its own. */
  lemma ForeignClaimsDoNotCount(w: World)
    requires FaultFree(w.api.script) && w.api.life.Live?
    requires forall n :: n in w.pvcs && "v1alpha1.bob.com/minio" in w.pvcs[n].labels ==>
               w.pvcs[n].labels["v1alpha1.bob.com/minio"] != w.name
    ensures forall c :: c in AllClaims(w.name, Call(w.api).api.spec, Call(w.api).api.spec.pools) ==>
              c.name in Reconcile(w).w.pvcs
  {
    FaultFreePass(w);
    InsertMissingAll(w.pvcs, AllClaims(w.name, Call(w.api).api.spec, Call(w.api).api.spec.pools));
  }

  /** A single claim that carries the name of this MinIO keeps every pass from creating any. */
  lemma OneClaimIsEnough(w: World, n: string)
    requires n in w.pvcs && "v1alpha1.bob.com/minio" in w.pvcs[n].labels
    requires w.pvcs[n].labels["v1alpha1.bob.com/minio"] == w.name
    ensures Reconcile(w).w.pvcs == w.pvcs
  {
    assert OwnsClaim(w.name, w.pvcs[n]);
    PassObjects(w);
  }

  /** One of these claims, its call answered. */
  ghost predicate Answered(script: seq<Event>, claims: seq<Claim>, c: Claim) {
    exists k :: 0 <= k < |claims| && k < |script| && script[k].fault.None? && claims[k] == c
  }

  lemma AnsweredLater(script: seq<Event>, claims: seq<Claim>, c: Claim)
    requires script != [] && claims != [] && Answered(script[1..], claims[1..], c)
    ensures Answered(script, claims, c)
  {
    var k :| 0 <= k < |claims[1..]| && k < |script[1..]| && script[1..][k].fault.None? && claims[1..][k] == c;
    assert claims[k + 1] == c && script[k + 1] == script[1..][k];
  }

  /** Every claim is stored whose own call was answered, existing ones stay, and nothing else is added. */
  ghost predicate OneByOne(w: World, claims: seq<Claim>, t: World)
    requires |claims| <= |w.api.script|
  {
    && (forall k :: 0 <= k < |claims| && w.api.script[k].fault.None? ==> claims[k].name in t.pvcs)
    && (forall x :: x in w.pvcs ==> x in t.pvcs && t.pvcs[x] == w.pvcs[x])
    && (forall x :: x in t.pvcs && x !in w.pvcs ==>
          t.pvcs[x].name == x && Answered(w.api.script, claims, t.pvcs[x]))
  }

  /** Creating claims goes on after a failure. */
  lemma {:induction false} ClaimsOneByOne(w: World, claims: seq<Claim>)
    requires |claims| <= |w.api.script|
    ensures OneByOne(w, claims, CreateClaims(w, claims))
    decreases |claims|
  {
    if claims != [] {
      var c := Call(w.api);
      var w1 := w.(api := c.api);
      var w2 := if c.fault.Some? || claims[0].name in w1.pvcs then w1
                else w1.(pvcs := w1.pvcs[claims[0].name := claims[0]]);
      CallShape(w.api);
      ClaimsOneByOne(w2, claims[1..]);
      FirstClaim(w, w2, CreateClaims(w, claims), claims);
    }
  }

  lemma FirstClaim(w: World, w2: World, t: World, claims: seq<Claim>)
    requires claims != [] && |claims| <= |w.api.script| && w2.api.script == w.api.script[1..]
    requires w2.pvcs == if w.api.script[0].fault.Some? || claims[0].name in w.pvcs then w.pvcs
                        else w.pvcs[claims[0].name := claims[0]]
    requires OneByOne(w2, claims[1..], t)
    ensures OneByOne(w, claims, t)
  {
    assert forall k :: 0 < k < |claims| ==> claims[k] == claims[1..][k - 1] && w.api.script[k] == w2.api.script[k - 1];
    forall x | x in t.pvcs && x !in w.pvcs ensures t.pvcs[x].name == x && Answered(w.api.script, claims, t.pvcs[x]) {
      if x !in w2.pvcs {
        AnsweredLater(w.api.script, claims, t.pvcs[x]);
      } else {
        assert claims[0] == t.pvcs[x];
      }
    }
  }
}
