/** Pods, volumes and claims of one pool: `utils/pod.go` and `utils/pvc.go`. */
module Layout {
  import opened Types
  import opened Decimal

  // ---------- Names ----------

  function PodName(pool: string, i: nat): string {
    pool + "-" + Itoa(i)
  }

  function ClaimName(minio: string, pool: string, i: nat, template: string, j: nat): string {
    minio + "-" + pool + "-" + Itoa(i) + "-" + template + "-" + Itoa(j)
  }

  // ---------- What one pool consists of ----------

  function ClaimFor(minio: string, spec: Spec, pool: Pool, i: nat, j: nat): Claim {
    Claim(ClaimName(minio, pool.name, i, pool.templateName, j),
          PodLabels(minio)[POOL_LABEL := pool.name], spec.resources, pool.storageClass)
  }

  function VolumeFor(minio: string, pool: Pool, i: nat, j: nat): Volume {
    Volume(pool.templateName + Itoa(j), ClaimName(minio, pool.name, i, pool.templateName, j))
  }

  function Volumes(minio: string, pool: Pool, i: nat): seq<Volume> {
    seq(Count(pool.volumesPerServer), j requires 0 <= j => VolumeFor(minio, pool, i, j))
  }

  function TrimRightSlashes(s: string): (t: string)
    ensures t <= s && (t == "" || t[|t| - 1] != '/')
    ensures forall k :: |t| <= k < |s| ==> s[k] == '/'
  {
    if s != "" && s[|s| - 1] == '/' then TrimRightSlashes(s[..|s| - 1]) else s
  }

  /** A single volume is mounted at the path itself, several at the path with the volume index. */
  function MountPath(spec: Spec, pool: Pool, j: nat): string {
    var base := TrimRightSlashes(spec.mountPath);
    if pool.volumesPerServer == 1 then base else base + "-" + Itoa(j)
  }

  function Mounts(spec: Spec, pool: Pool): seq<VolumeMount> {
    seq(Count(pool.volumesPerServer),
        j requires 0 <= j => VolumeMount(pool.templateName + Itoa(j), MountPath(spec, pool, j)))
  }

  function ServerContainer(spec: Spec, pool: Pool, mounts: seq<VolumeMount>): Container {
    Container(spec.image, spec.imagePullPolicy,
              if spec.enableCert then CONSOLE_TLS_PORT else CONSOLE_PORT,
              mounts, spec.resources, spec.liveness, spec.readiness, spec.startup, spec.lifecycle,
              pool.containerSecurityContext)
  }

  function HLServiceName(minio: string): string {
    minio + "hl"
  }

  function PodFor(minio: string, spec: Spec, pool: Pool, i: nat): Pod {
    Pod(PodName(pool.name, i), PodLabels(minio)[POOL_LABEL := pool.name], Volumes(minio, pool, i),
        ServerContainer(spec, pool, Mounts(spec, pool)), pool.nodeSelector, spec.serviceAccount,
        PodName(pool.name, i), HLServiceName(minio), spec.affinity, spec.tolerations)
  }

  function PodsUpTo(minio: string, spec: Spec, pool: Pool, n: nat): seq<Pod> {
    seq(n, i requires 0 <= i => PodFor(minio, spec, pool, i))
  }

  function Pods(minio: string, spec: Spec, pool: Pool): seq<Pod> {
    PodsUpTo(minio, spec, pool, Count(pool.servers))
  }

  function ClaimsOfServer(minio: string, spec: Spec, pool: Pool, i: nat): seq<Claim> {
    seq(Count(pool.volumesPerServer), j requires 0 <= j => ClaimFor(minio, spec, pool, i, j))
  }

  function ClaimsUpTo(minio: string, spec: Spec, pool: Pool, n: nat): seq<Claim> {
    if n == 0 then [] else ClaimsUpTo(minio, spec, pool, n - 1) + ClaimsOfServer(minio, spec, pool, n - 1)
  }

  function Claims(minio: string, spec: Spec, pool: Pool): seq<Claim> {
    ClaimsUpTo(minio, spec, pool, Count(pool.servers))
  }

  // ---------- What a pod and a claim hold, field by field ----------

  /** The console listens on 9443 with a certificate and on 9090 without. */
  predicate ContainerAsAsked(c: Container, spec: Spec, pool: Pool) {
    && c.image == spec.image
    && c.imagePullPolicy == spec.imagePullPolicy
    && c.consolePort == (if spec.enableCert then 9443 else 9090)
    && c.resources == spec.resources
    && c.liveness == spec.liveness && c.readiness == spec.readiness && c.startup == spec.startup
    && c.lifecycle == spec.lifecycle
    && c.securityContext == pool.containerSecurityContext
  }

  /** One volume per claim, named by the template and the volume index. */
  predicate VolumesAsAsked(volumes: seq<Volume>, minio: string, pool: Pool, i: nat) {
    && |volumes| == (if pool.volumesPerServer < 0 then 0 else pool.volumesPerServer)
    && forall j: nat :: j < |volumes| ==>
         && volumes[j].name == pool.templateName + Itoa(j)
         && volumes[j].claim ==
              minio + "-" + pool.name + "-" + Itoa(i) + "-" + pool.templateName + "-" + Itoa(j)
  }

  /** Mounted at the path without its trailing slashes, with a dash and the volume index unless there is just one. */
  predicate MountsAsAsked(mounts: seq<VolumeMount>, spec: Spec, pool: Pool) {
    && |mounts| == (if pool.volumesPerServer < 0 then 0 else pool.volumesPerServer)
    && forall j: nat :: j < |mounts| ==>
         && mounts[j].name == pool.templateName + Itoa(j)
         && mounts[j].path ==
              TrimRightSlashes(spec.mountPath) + if pool.volumesPerServer == 1 then "" else "-" + Itoa(j)
  }

  predicate PodAsAsked(pod: Pod, minio: string, spec: Spec, pool: Pool, i: nat) {
    && pod.name == pool.name + "-" + Itoa(i)
    && pod.hostname == pod.name
    && pod.subdomain == minio + "hl"
    && pod.labels == map["v1alpha1.bob.com/minio" := minio, "v1alphal1.bob.com/pool" := pool.name]
    && pod.nodeSelector == pool.nodeSelector
    && pod.serviceAccount == spec.serviceAccount
    && pod.affinity == spec.affinity
    && pod.tolerations == spec.tolerations
    && ContainerAsAsked(pod.container, spec, pool)
    && VolumesAsAsked(pod.volumes, minio, pool, i)
    && MountsAsAsked(pod.container.mounts, spec, pool)
  }

  /** These fields are all there is to a pod. */
  lemma PodForIff(minio: string, spec: Spec, pool: Pool, i: nat, pod: Pod)
    ensures pod == PodFor(minio, spec, pool, i) <==> PodAsAsked(pod, minio, spec, pool, i)
  {
    var built := PodFor(minio, spec, pool, i);
    assert PodAsAsked(built, minio, spec, pool, i) by {
      forall j: nat | j < |built.container.mounts|
        ensures built.container.mounts[j].path ==
                TrimRightSlashes(spec.mountPath) + if pool.volumesPerServer == 1 then "" else "-" + Itoa(j)
      {
        var base := TrimRightSlashes(spec.mountPath);
        assert base + "" == base && base + ("-" + Itoa(j)) == base + "-" + Itoa(j);
      }
    }
    if PodAsAsked(pod, minio, spec, pool, i) {
      assert pod.volumes == built.volumes;
      assert pod.container.mounts == built.container.mounts;
    }
  }

  predicate ClaimAsAsked(c: Claim, minio: string, spec: Spec, pool: Pool, i: nat, j: nat) {
    && c.name == minio + "-" + pool.name + "-" + Itoa(i) + "-" + pool.templateName + "-" + Itoa(j)
    && c.labels == map["v1alpha1.bob.com/minio" := minio, "v1alphal1.bob.com/pool" := pool.name]
    && c.resources == spec.resources
    && c.storageClass == pool.storageClass
  }

  function Position(pool: Pool, i: nat, j: nat): nat {
    i * Count(pool.volumesPerServer) + j
  }

  /** Server by server, and for each one volume by volume. */
  ghost predicate ClaimsAsAsked(claims: seq<Claim>, minio: string, spec: Spec, pool: Pool) {
    && |claims| == Count(pool.servers) * Count(pool.volumesPerServer)
    && forall i: nat, j: nat :: i < Count(pool.servers) && j < Count(pool.volumesPerServer) ==>
         var at := Position(pool, i, j); at < |claims| && ClaimAsAsked(claims[at], minio, spec, pool, i, j)
  }

  lemma ClaimForIff(minio: string, spec: Spec, pool: Pool, i: nat, j: nat, c: Claim)
    ensures c == ClaimFor(minio, spec, pool, i, j) <==> ClaimAsAsked(c, minio, spec, pool, i, j)
  {
  }

  // ---------- The two nested loops ----------

  method NewPersistentVolumeClaimForMinIOPool(minio: string, spec: Spec, pool: Pool) returns (pvcs: seq<Claim>)
    ensures pvcs == Claims(minio, spec, pool)
    ensures ClaimsAsAsked(pvcs, minio, spec, pool)
  {
    var servers, volumesPerServer := pool.servers, pool.volumesPerServer;
    var labels := PodLabels(minio)[POOL_LABEL := pool.name];
    pvcs := [];
    var i := 0;
    while i < servers
      invariant 0 <= i <= Count(servers)
      invariant pvcs == ClaimsUpTo(minio, spec, pool, i)
    {
      var j := 0;
      while j < volumesPerServer
        invariant 0 <= j <= Count(volumesPerServer)
        invariant pvcs == ClaimsUpTo(minio, spec, pool, i) + ClaimsOfServer(minio, spec, pool, i)[..j]
      {
        var name := minio + "-" + pool.name + "-" + Itoa(i) + "-" + pool.templateName + "-" + Itoa(j);
        var pvc := Claim(name, labels, spec.resources, pool.storageClass);
        pvcs := pvcs + [pvc];
        j := j + 1;
      }
      i := i + 1;
    }
    ClaimsInOrder(minio, spec, pool);
  }

  method NewPodsForMinIOPool(minio: string, spec: Spec, pool: Pool) returns (pods: seq<Pod>)
    ensures pods == Pods(minio, spec, pool)
    ensures |pods| == (if pool.servers < 0 then 0 else pool.servers)
    ensures forall i: nat :: i < |pods| ==> PodAsAsked(pods[i], minio, spec, pool, i)
  {
    var servers, volumesPerServer := pool.servers, pool.volumesPerServer;
    pods := [];
    var i := 0;
    while i < servers
      invariant 0 <= i <= Count(servers)
      invariant pods == PodsUpTo(minio, spec, pool, i)
    {
      var volumes: seq<Volume>, volMounts: seq<VolumeMount> := [], [];
      var j := 0;
      while j < volumesPerServer
        invariant 0 <= j <= Count(volumesPerServer)
        invariant volumes == Volumes(minio, pool, i)[..j]
      {
        var claim := minio + "-" + pool.name + "-" + Itoa(i) + "-" + pool.templateName + "-" + Itoa(j);
        volumes := volumes + [Volume(pool.templateName + Itoa(j), claim)];
        j := j + 1;
      }
      var mountPath := TrimRightSlashes(spec.mountPath);
      if volumesPerServer == 1 {
        volMounts := [VolumeMount(pool.templateName + Itoa(0), mountPath)];
      } else {
        j := 0;
        while j < volumesPerServer
          invariant 0 <= j <= Count(volumesPerServer)
          invariant volMounts == Mounts(spec, pool)[..j]
        {
          volMounts := volMounts + [VolumeMount(pool.templateName + Itoa(j), mountPath + "-" + Itoa(j))];
          j := j + 1;
        }
      }
      var labels := PodLabels(minio)[POOL_LABEL := pool.name];
      var podName := pool.name + "-" + Itoa(i);
      var pod := Pod(podName, labels, volumes, ServerContainer(spec, pool, volMounts), pool.nodeSelector,
                     spec.serviceAccount, podName, HLServiceName(minio), spec.affinity, spec.tolerations);
      assert volumes == Volumes(minio, pool, i) && volMounts == Mounts(spec, pool);
      pods := pods + [pod];
      i := i + 1;
    }
    forall k: nat | k < |pods| ensures PodAsAsked(pods[k], minio, spec, pool, k) {
      PodForIff(minio, spec, pool, k, pods[k]);
    }
  }

  // ---------- The two loops agree ----------

  function ClaimNames(claims: seq<Claim>): seq<string> {
    seq(|claims|, k requires 0 <= k < |claims| => claims[k].name)
  }

  function VolumeClaims(volumes: seq<Volume>): seq<string> {
    seq(|volumes|, k requires 0 <= k < |volumes| => volumes[k].claim)
  }

  /** The claims the pods refer to, concatenated in pod order. */
  function ReferencedClaims(pods: seq<Pod>): seq<string> {
    if pods == [] then []
    else ReferencedClaims(pods[..|pods| - 1]) + VolumeClaims(pods[|pods| - 1].volumes)
  }

  /** What the pods refer to is, in order, exactly what the claim generator creates. */
  lemma PodsReferToGeneratedClaims(minio: string, spec: Spec, pool: Pool)
    ensures ReferencedClaims(Pods(minio, spec, pool)) == ClaimNames(Claims(minio, spec, pool))
  {
    ReferencedUpTo(minio, spec, pool, Count(pool.servers));
  }

  lemma {:induction false} ReferencedUpTo(minio: string, spec: Spec, pool: Pool, n: nat)
    ensures ReferencedClaims(PodsUpTo(minio, spec, pool, n)) == ClaimNames(ClaimsUpTo(minio, spec, pool, n))
  {
    if n > 0 {
      ReferencedUpTo(minio, spec, pool, n - 1);
      var pods := PodsUpTo(minio, spec, pool, n);
      assert pods[..n - 1] == PodsUpTo(minio, spec, pool, n - 1);
      assert VolumeClaims(pods[n - 1].volumes) == ClaimNames(ClaimsOfServer(minio, spec, pool, n - 1));
    }
  }

  /** Element `i * V + j` of the generated claims is the claim of server `i`, volume `j`. */
  lemma ClaimAt(minio: string, spec: Spec, pool: Pool, i: nat, j: nat)
    requires i < Count(pool.servers) && j < Count(pool.volumesPerServer)
    ensures |Claims(minio, spec, pool)| == Count(pool.servers) * Count(pool.volumesPerServer)
    ensures i * Count(pool.volumesPerServer) + j < |Claims(minio, spec, pool)|
    ensures Claims(minio, spec, pool)[i * Count(pool.volumesPerServer) + j] == ClaimFor(minio, spec, pool, i, j)
  {
    ClaimAtUpTo(minio, spec, pool, Count(pool.servers), i, j);
  }

  lemma ClaimsInOrder(minio: string, spec: Spec, pool: Pool)
    ensures ClaimsAsAsked(Claims(minio, spec, pool), minio, spec, pool)
  {
    var claims := Claims(minio, spec, pool);
    ClaimsUpToLength(minio, spec, pool, Count(pool.servers));
    forall i: nat, j: nat | i < Count(pool.servers) && j < Count(pool.volumesPerServer)
      ensures var at := Position(pool, i, j); at < |claims| && ClaimAsAsked(claims[at], minio, spec, pool, i, j)
    {
      ClaimAt(minio, spec, pool, i, j);
      ClaimForIff(minio, spec, pool, i, j, claims[Position(pool, i, j)]);
    }
  }

  lemma {:induction false} ClaimsUpToLength(minio: string, spec: Spec, pool: Pool, n: nat)
    ensures |ClaimsUpTo(minio, spec, pool, n)| == n * Count(pool.volumesPerServer)
  {
    if n > 0 {
      ClaimsUpToLength(minio, spec, pool, n - 1);
      var v := Count(pool.volumesPerServer);
      assert n * v == (n - 1) * v + v;
    }
  }

  lemma {:induction false} ClaimAtUpTo(minio: string, spec: Spec, pool: Pool, n: nat, i: nat, j: nat)
    requires i < n && j < Count(pool.volumesPerServer)
    ensures |ClaimsUpTo(minio, spec, pool, n)| == n * Count(pool.volumesPerServer)
    ensures i * Count(pool.volumesPerServer) + j < |ClaimsUpTo(minio, spec, pool, n)|
    ensures ClaimsUpTo(minio, spec, pool, n)[i * Count(pool.volumesPerServer) + j] == ClaimFor(minio, spec, pool, i, j)
  {
    var v := Count(pool.volumesPerServer);
    ClaimsUpToLength(minio, spec, pool, n);
    ClaimsUpToLength(minio, spec, pool, n - 1);
    assert n * v == (n - 1) * v + v;
    if i < n - 1 {
      ClaimAtUpTo(minio, spec, pool, n - 1, i, j);
    }
  }

  /** Every generated claim is `ClaimFor` of some server and volume; `ClaimAt` is the way back. */
  lemma {:induction false} ClaimOrigin(minio: string, spec: Spec, pool: Pool, n: nat, c: Claim) returns (i: nat, j: nat)
    requires c in ClaimsUpTo(minio, spec, pool, n)
    ensures i < n && j < Count(pool.volumesPerServer) && c == ClaimFor(minio, spec, pool, i, j)
  {
    if c in ClaimsUpTo(minio, spec, pool, n - 1) {
      i, j := ClaimOrigin(minio, spec, pool, n - 1, c);
    } else {
      i := n - 1;
      var row := ClaimsOfServer(minio, spec, pool, n - 1);
      j :| 0 <= j < |row| && row[j] == c;
    }
  }

  /** Inside a pod the mounts name exactly the pod's volumes, in order; no two volumes share a name and no two
      mounts a path. */
  lemma MountsMatchVolumes(minio: string, spec: Spec, pool: Pool, i: nat)
    ensures |Mounts(spec, pool)| == |Volumes(minio, pool, i)|
    ensures forall j :: 0 <= j < |Mounts(spec, pool)| ==> Mounts(spec, pool)[j].name == Volumes(minio, pool, i)[j].name
    ensures forall j, k :: 0 <= j < k < |Mounts(spec, pool)| ==>
              Mounts(spec, pool)[j].name != Mounts(spec, pool)[k].name &&
              Mounts(spec, pool)[j].path != Mounts(spec, pool)[k].path
  {
    var mounts := Mounts(spec, pool);
    forall j: nat, k: nat | j < k < |mounts|
      ensures mounts[j].name != mounts[k].name && mounts[j].path != mounts[k].path
    {
      var t := pool.templateName;
      if t + Itoa(j) == t + Itoa(k) {
        assert Itoa(j) == (t + Itoa(j))[|t|..] == (t + Itoa(k))[|t|..] == Itoa(k);
        ItoaInjective(j, k);
      }
      var base := TrimRightSlashes(spec.mountPath);
      if base + "-" + Itoa(j) == base + "-" + Itoa(k) {
        IndexedNameInjective(base, j, base, k);
      }
    }
  }

  // ---------- When names are unique ----------

  lemma PodNameInjective(pool: string, i: nat, pool': string, i': nat)
    requires PodName(pool, i) == PodName(pool', i')
    ensures pool == pool' && i == i'
  {
    IndexedNameInjective(pool, i, pool', i');
  }

  predicate EndsWith(s: string, t: string) {
    |s| >= |t| && s[|s| - |t|..] == t
  }

  /** Template name `b` can imitate `a`: it ends in an index, a dash and `a`, the index preceded by a dash or
      by nothing. */
  ghost predicate Imitates(b: string, a: string) {
    exists d: nat :: EndsWith("-" + b, "-" + Itoa(d) + "-" + a)
  }

  /** Two claims with these template names never share a name, whatever their pools and indices. */
  ghost predicate Separable(a: string, b: string) {
    !Imitates(a, b) && !Imitates(b, a)
  }

  lemma Regroup(m: string, p: string, d: string, t: string)
    ensures m + "-" + p + "-" + d + "-" + t == (m + "-") + (p + "-" + d + "-" + t)
  {
  }

  lemma SamePrefix(p: string, x: string, y: string)
    requires p + x == p + y
    ensures x == y
  {
    assert x == (p + x)[|p|..] && y == (p + y)[|p|..];
  }

  lemma ClaimNameSplits(minio: string, pool: string, i: nat, t: string, j: nat,
                        pool': string, i': nat, t': string, j': nat)
    requires ClaimName(minio, pool, i, t, j) == ClaimName(minio, pool', i', t', j')
    ensures j == j'
    ensures pool + "-" + Itoa(i) + "-" + t == pool' + "-" + Itoa(i') + "-" + t'
  {
    var d, d' := Itoa(i), Itoa(i');
    IndexedNameInjective(minio + "-" + pool + "-" + d + "-" + t, j, minio + "-" + pool' + "-" + d' + "-" + t', j');
    Regroup(minio, pool, d, t);
    Regroup(minio, pool', d', t');
    SamePrefix(minio + "-", pool + "-" + d + "-" + t, pool' + "-" + d' + "-" + t');
  }

  /** With a longer second template, the dash before it comes no later than the one before the first index. */
  lemma CutBeforeIndex(pool: string, d: string, t: string, rest: string, t': string)
    requires AllDigits(d) && |t| < |t'|
    requires pool + ("-" + d + "-" + t) == rest + ("-" + t')
    ensures |rest| <= |pool|
  {
    var w := pool + ("-" + d + "-" + t);
    assert w[|rest|] == (rest + ("-" + t'))[|rest|] == '-';
    forall k | |pool| < k <= |pool| + |d| ensures w[k] != '-' {
      assert w[k] == ("-" + d + "-" + t)[k - |pool|] == d[k - |pool| - 1];
    }
  }

  /** A shared name with a longer second template exposes the imitation. */
  lemma SharedNameImitates(pool: string, i: nat, t: string, pool': string, i': nat, t': string)
    requires pool + "-" + Itoa(i) + "-" + t == pool' + "-" + Itoa(i') + "-" + t'
    requires |t| < |t'|
    ensures Imitates(t', t)
  {
    var rest, tail := pool' + "-" + Itoa(i'), "-" + Itoa(i) + "-" + t;
    assert pool + "-" + Itoa(i) + "-" + t == pool + tail;
    assert rest + "-" + t' == rest + ("-" + t');
    CutBeforeIndex(pool, Itoa(i), t, rest, t');
    SharedSuffix(pool, tail, rest, "-" + t');
  }

  lemma SharedSuffix(a: string, x: string, b: string, y: string)
    requires a + x == b + y && |b| <= |a|
    ensures EndsWith(y, x)
  {
    assert y == (a + x)[|b|..];
    assert x == (a + x)[|a|..] == (a + x)[|b|..][|a| - |b|..];
  }

  /** Exactly when pool name, server index, template name and volume index are recoverable from a claim name:
      for every pair of template names, some two different claims share a name if and only if one template
      name imitates the other. */
  lemma ClaimNamesUniqueIff(minio: string, t: string, t': string)
    ensures Separable(t, t') <==>
            forall pool, i: nat, j: nat, pool', i': nat, j': nat ::
              ClaimName(minio, pool, i, t, j) == ClaimName(minio, pool', i', t', j') ==>
                pool == pool' && i == i' && t == t' && j == j'
  {
    if Separable(t, t') {
      forall pool, i: nat, j: nat, pool', i': nat, j': nat |
        ClaimName(minio, pool, i, t, j) == ClaimName(minio, pool', i', t', j')
        ensures pool == pool' && i == i' && t == t' && j == j'
      {
        SeparableClaimNames(minio, pool, i, t, j, pool', i', t', j');
      }
    } else if Imitates(t', t) {
      var pool, i := Collision(minio, t, t');
      assert ClaimName(minio, pool, i, t, 0) == ClaimName(minio, "p", 0, t', 0);
      assert pool != "p";
    } else {
      var pool, i := Collision(minio, t', t);
      assert ClaimName(minio, "p", 0, t, 0) == ClaimName(minio, pool, i, t', 0);
      assert pool != "p";
    }
  }

  lemma SeparableClaimNames(minio: string, pool: string, i: nat, t: string, j: nat,
                            pool': string, i': nat, t': string, j': nat)
    requires Separable(t, t')
    requires ClaimName(minio, pool, i, t, j) == ClaimName(minio, pool', i', t', j')
    ensures pool == pool' && i == i' && t == t' && j == j'
  {
    ClaimNameSplits(minio, pool, i, t, j, pool', i', t', j');
    var p, q := pool + "-" + Itoa(i), pool' + "-" + Itoa(i');
    if |t| < |t'| {
      SharedNameImitates(pool, i, t, pool', i', t');
    } else if |t'| < |t| {
      SharedNameImitates(pool', i', t', pool, i, t);
    } else {
      var w := p + "-" + t;
      assert w == q + "-" + t';
      assert t == w[|w| - |t|..] == t';
      assert p == w[..|w| - |t| - 1] == q;
      IndexedNameInjective(pool, i, pool', i');
    }
  }

  /** An imitating template yields two claims with one name. */
  lemma Collision(minio: string, t: string, t': string) returns (pool: string, i: nat)
    requires Imitates(t', t)
    ensures pool != "p"
    ensures ClaimName(minio, pool, i, t, 0) == ClaimName(minio, "p", 0, t', 0)
  {
    i :| EndsWith("-" + t', "-" + Itoa(i) + "-" + t);
    var tail := "-" + Itoa(i) + "-" + t;
    var front := ("-" + t')[..|t'| + 1 - |tail|];
    assert "-" + t' == front + tail;
    var base := PodName("p", 0);
    pool := base + front;
    JoinTail(minio, pool, Itoa(i), t);
    JoinBase(minio, "p", Itoa(0), t');
    JoinFront(minio + "-", base, front, tail);
  }

  lemma JoinTail(m: string, p: string, d: string, t: string)
    ensures m + "-" + p + "-" + d + "-" + t == m + "-" + p + ("-" + d + "-" + t)
  {
  }

  lemma JoinBase(m: string, p: string, d: string, t: string)
    ensures m + "-" + p + "-" + d + "-" + t == m + "-" + (p + "-" + d) + ("-" + t)
  {
  }

  lemma JoinFront(m: string, base: string, front: string, tail: string)
    ensures m + (base + front) + tail == m + base + (front + tail)
  {
  }

  /** Dash-free template names are separable, and so is a name from itself. */
  lemma SeparableWhen(t: string, t': string)
    requires t == t' || (DashFree(t) && DashFree(t'))
    ensures Separable(t, t')
  {
    NotImitating(t, t');
    NotImitating(t', t);
  }

  lemma NotImitating(b: string, a: string)
    requires b == a || DashFree(b)
    ensures !Imitates(b, a)
  {
    forall d: nat ensures !EndsWith("-" + b, "-" + Itoa(d) + "-" + a) {
      var tail := "-" + Itoa(d) + "-" + a;
      assert tail[1 + |Itoa(d)|] == '-';
    }
  }

  /** Dashes in a template name do collide: pool `a` with template `b-1-c` and pool `a-0-b` with template `c`. */
  lemma DashesCollide(minio: string)
    ensures ClaimName(minio, "a", 0, "b-1-c", 0) == ClaimName(minio, "a-0-b", 1, "c", 0)
    ensures !Separable("c", "b-1-c")
  {
    assert Itoa(0) == "0" && Itoa(1) == "1";
    assert ClaimName(minio, "a", 0, "b-1-c", 0) == minio + "-a-0-b-1-c-0";
    assert ClaimName(minio, "a-0-b", 1, "c", 0) == minio + "-a-0-b-1-c-0";
    ClaimNamesUniqueIff(minio, "c", "b-1-c");
  }

  /** Each claim of a pool is referred to by exactly one of its pods, through exactly one volume. */
  lemma ClaimMountedOnce(minio: string, spec: Spec, pool: Pool, c: Claim) returns (i: nat, j: nat)
    requires c in Claims(minio, spec, pool)
    ensures i < |Pods(minio, spec, pool)| && j < |Pods(minio, spec, pool)[i].volumes|
    ensures forall i': nat, j': nat :: i' < |Pods(minio, spec, pool)| && j' < |Pods(minio, spec, pool)[i'].volumes| ==>
              (Pods(minio, spec, pool)[i'].volumes[j'].claim == c.name <==> i' == i && j' == j)
  {
    i, j := ClaimOrigin(minio, spec, pool, Count(pool.servers), c);
    var pods := Pods(minio, spec, pool);
    forall i': nat, j': nat | i' < |pods| && j' < |pods[i'].volumes|
      ensures pods[i'].volumes[j'].claim == c.name <==> i' == i && j' == j
    {
      if pods[i'].volumes[j'].claim == c.name {
        SeparableWhen(pool.templateName, pool.templateName);
        SeparableClaimNames(minio, pool.name, i, pool.templateName, j, pool.name, i', pool.templateName, j');
      }
    }
  }
}
