/** The three reconcilers as they run: objects updated in place, calls that change the cluster, loops that grow
    lists. Each method is proved to do what the functions of the other modules say. */
module Controllers {
  import opened Wrappers
  import opened Types
  import opened Services
  import opened StatusStore
  import opened MainPass
  import Layout
  import HealthRuns
  import StatusRuns

  /** The in-memory MinIO object. */
  class MinIO {
    var version: nat
    var spec: Spec
    var status: Status

    constructor (version: nat, spec: Spec, status: Status)
      ensures Value() == Minio(version, spec, status)
    {
      this.version, this.spec, this.status := version, spec, status;
    }

    function Value(): Minio
      reads this
    {
      Minio(version, spec, status)
    }

    function Sent(): Copy
      reads this
    {
      Copy(version, status)
    }
  }

  /** The API server, called through the two clients a reconciler holds. */
  class Cluster {
    const name: string
    const admit: Admission
    var rev: Option<Spec>
    var svcs: map<string, Service>
    var pvcs: map<string, Claim>
    var pods: map<string, Pod>
    var api: Api

    constructor (w: World)
      ensures Value() == w
    {
      name, admit := w.name, w.admit;
      rev, svcs, pvcs, pods, api := w.rev, w.svcs, w.pvcs, w.pods, w.api;
    }

    function Value(): World
      reads this
    {
      World(name, admit, rev, svcs, pvcs, pods, api)
    }

    /** One call: interference, then an answer or an error. */
    method Serve() returns (fault: Option<string>)
      modifies this`api
      ensures api == Call(old(api)).api && fault == Call(old(api)).fault
    {
      var s := Call(api);
      api, fault := s.api, s.fault;
    }

    method GetMinIO(into: MinIO) returns (fault: Option<string>)
      modifies this`api, into
      ensures api == Call(old(api)).api && fault == Call(old(api)).fault
      ensures into.Value() == if fault.None? then Fetched(api) else old(into.Value())
    {
      fault := Serve();
      if fault.None? {
        into.version, into.spec, into.status := api.version, api.spec, api.status;
      }
    }

    method UpdateMinIOStatus(copy: MinIO) returns (reply: Reply)
      modifies this`api
      ensures Replied(api, reply) == UpdateStatus(old(api), copy.Sent())
    {
      var fault := Serve();
      if fault.Some? {
        return Refused;
      }
      if copy.version != api.version {
        return Conflict;
      }
      api := StoreOwn(api, copy.status);
      return Done;
    }
  }

  /** The conflict-retry status write: a fresh copy is sent and refreshed, the caller's object is left alone. */
  method UpdateStatusWithRetry(client: Cluster, minio: MinIO, retry: bool) returns (ok: bool)
    modifies client`api
    ensures var w := UpdateWithRetry(old(client.api), old(minio.Sent()), retry); client.api == w.api && ok == w.ok
    decreases |client.api.script|, if minio.version == client.api.version then 0 else 1
  {
    CallShape(client.api);
    var minioCopy := new MinIO(minio.version, minio.spec, minio.status);
    var reply := client.UpdateMinIOStatus(minioCopy);
    if reply == Done {
      return true;
    }
    if reply == Conflict && retry {
      CallShape(client.api);
      var fault := client.GetMinIO(minioCopy);
      if fault.Some? {
        return false;
      }
      ok := UpdateStatusWithRetry(client, minioCopy, retry);
      return;
    }
    return false;
  }

  class MinIOReconciler {
    const client: Cluster

    constructor (client: Cluster)
      ensures this.client == client
    {
      this.client := client;
    }

    method Write(minio: MinIO) returns (ok: bool)
      modifies client
      ensures Step(client.Value(), minio.Value(), ok) == MainPass.WriteStatus(old(client.Value()), minio.Value())
    {
      ok := UpdateStatusWithRetry(client, minio, true);
    }

    method Announce(minio: MinIO) returns (ok: bool)
      modifies client, minio
      ensures Step(client.Value(), minio.Value(), ok) == MainPass.Announce(old(client.Value()), old(minio.Value()))
    {
      minio.status := minio.status.(status := Running);
      ok := Write(minio);
    }

    method Report(minio: MinIO, message: string)
      modifies client, minio
      ensures Step(client.Value(), minio.Value(), false) ==
              MainPass.Report(old(client.Value()), old(minio.Value()), message)
    {
      minio.status := minio.status.(status := Failed, message := message);
      var written := Write(minio);
    }

    method CreateControllerRevision(minio: MinIO) returns (ok: bool)
      modifies client
      ensures Step(client.Value(), minio.Value(), ok) == MainPass.CreateRevision(old(client.Value()), minio.Value())
    {
      var fault := client.Serve();
      if fault.Some? || client.rev.Some? {
        return false;
      }
      client.rev := Some(minio.spec);
      return true;
    }

    method RecordRevision(minio: MinIO) returns (ok: bool)
      modifies client
      ensures Step(client.Value(), minio.Value(), ok) == MainPass.RecordRevision(old(client.Value()), minio.Value())
    {
      var fault := client.Serve();
      if fault.Some? {
        return false;
      }
      if client.rev.None? {
        ok := CreateControllerRevision(minio);
        return;
      }
      if client.rev.value != minio.spec {
        fault := client.Serve();
        if fault.Some? {
          return false;
        }
        client.rev := None;
        ok := CreateControllerRevision(minio);
        return;
      }
      return true;
    }

    method CheckService(k: Kind, minio: MinIO) returns (ok: bool)
      modifies client, minio
      ensures Step(client.Value(), minio.Value(), ok) ==
              MainPass.CheckService(old(client.Value()), k, old(minio.Value()))
    {
      var name := ServiceName(client.name, k);
      var fault := client.Serve();
      if fault.Some? {
        return false;
      }
      if name !in client.svcs {
        ok := CreateService(k, minio);
        if !ok {
          return;
        }
      }
      ok := ConvergeService(k, minio);
    }

    method CreateService(k: Kind, minio: MinIO) returns (ok: bool)
      requires ServiceName(client.name, k) !in client.svcs
      modifies client, minio
      ensures Step(client.Value(), minio.Value(), ok) ==
              MainPass.CreateService(old(client.Value()), k, old(minio.Value()))
      ensures ok ==> ServiceName(client.name, k) in client.svcs
    {
      var announced := Announce(minio);
      if !announced {
        return false;
      }
      var svc := Built(client.name, k, minio.spec);
      var fault := client.Serve();
      if fault.Some? || svc.name in client.svcs {
        Report(minio, CreateFailure(k));
        return false;
      }
      client.svcs := client.svcs[svc.name := Admit(client.admit, svc)];
      return true;
    }

    method ConvergeService(k: Kind, minio: MinIO) returns (ok: bool)
      requires ServiceName(client.name, k) in client.svcs
      modifies client, minio
      ensures Step(client.Value(), minio.Value(), ok) ==
              MainPass.ConvergeService(old(client.Value()), k, old(minio.Value()))
    {
      var name := ServiceName(client.name, k);
      var svc := client.svcs[name];
      var expected := Expected(client.name, k, minio.spec);
      var isMatch, err := MinioSvcMatchesSpecification(svc, expected);
      if isMatch {
        return true;
      }
      svc := svc.(annotations := expected.annotations);
      svc := svc.(labels := expected.labels);
      svc := svc.(spec := expected.spec);
      var fault := client.Serve();
      if fault.Some? {
        Report(minio, UpdateFailure(k));
        return false;
      }
      client.svcs := client.svcs[name := Admit(client.admit, svc)];
      return true;
    }

    method CheckPVC(minio: MinIO) returns (ok: bool)
      modifies client, minio
      ensures Step(client.Value(), minio.Value(), ok) == MainPass.CheckPVC(old(client.Value()), old(minio.Value()))
    {
      var fault := client.Serve();
      if fault.Some? {
        return false;
      }
      if HasClaims(client.Value()) {
        return true;
      }
      ok := Announce(minio);
      if !ok {
        return;
      }
      var allPvcs := BuildClaims(minio);
      CreateClaims(allPvcs);
    }

    method BuildClaims(minio: MinIO) returns (allPvcs: seq<Claim>)
      ensures allPvcs == AllClaims(client.name, minio.spec, minio.spec.pools)
    {
      allPvcs := [];
      var pools := minio.spec.pools;
      for i := 0 to |pools|
        invariant allPvcs == AllClaims(client.name, minio.spec, pools[..i])
      {
        assert pools[..i + 1][..i] == pools[..i];
        var pvcs := Layout.NewPersistentVolumeClaimForMinIOPool(client.name, minio.spec, pools[i]);
        allPvcs := allPvcs + pvcs;
      }
      assert pools[..|pools|] == pools;
    }

    method CreateClaims(claims: seq<Claim>)
      modifies client
      ensures client.Value() == MainPass.CreateClaims(old(client.Value()), claims)
    {
      for i := 0 to |claims|
        invariant MainPass.CreateClaims(client.Value(), claims[i..]) ==
                  MainPass.CreateClaims(old(client.Value()), claims)
      {
        assert claims[i..][0] == claims[i] && claims[i..][1..] == claims[i + 1..];
        var fault := client.Serve();
        if fault.None? && claims[i].name !in client.pvcs {
          client.pvcs := client.pvcs[claims[i].name := claims[i]];
        }
      }
    }

    method DiffAdded(prev: seq<Pool>, pools: seq<Pool>) returns (addPools: seq<Pool>)
      ensures addPools == AddPools(prev, pools)
    {
      addPools := [];
      for i := 0 to |pools|
        invariant addPools == AddPools(prev, pools[..i])
      {
        assert pools[..i + 1][..i] == pools[..i];
        var add := true;
        var j := 0;
        while j < |prev|
          invariant 0 <= j <= |prev|
          invariant add && forall q :: 0 <= q < j ==> prev[q].name != pools[i].name
        {
          if pools[i].name == prev[j].name {
            add := false;
            break;
          }
          j := j + 1;
        }
        if add {
          addPools := addPools + [pools[i]];
        }
      }
      assert pools[..|pools|] == pools;
    }

    method DiffUpdated(prev: Option<Spec>, next: Spec) returns (updatePools: seq<Pool>)
      ensures updatePools == PoolsToUpdate(prev, next)
    {
      updatePools := [];
      if prev.None? {
        return;
      }
      var pools := prev.value.pools;
      for i := 0 to |pools|
        invariant updatePools == UpdatePools(prev.value, next, pools[..i])
      {
        assert pools[..i + 1][..i] == pools[..i];
        var update := false;
        for j := 0 to |next.pools|
          invariant update <==> exists q :: 0 <= q < j && next.pools[q].name == pools[i].name &&
                                  MinioServerNeedToUpdate(prev.value, next, pools[i], next.pools[q])
        {
          if next.pools[j].name == pools[i].name {
            if MinioServerNeedToUpdate(prev.value, next, pools[i], next.pools[j]) {
              update := true;
            }
          }
        }
        if update {
          updatePools := updatePools + [pools[i]];
        }
      }
      assert pools[..|pools|] == pools;
    }

    method BuildPods(minio: MinIO, pools: seq<Pool>) returns (pods: seq<Pod>)
      ensures pods == AllPods(client.name, minio.spec, pools)
    {
      pods := [];
      for i := 0 to |pools|
        invariant pods == AllPods(client.name, minio.spec, pools[..i])
      {
        assert pools[..i + 1][..i] == pools[..i];
        var more := Layout.NewPodsForMinIOPool(client.name, minio.spec, pools[i]);
        pods := pods + more;
      }
      assert pools[..|pools|] == pools;
    }

    method CreatePods(minio: MinIO, pods: seq<Pod>) returns (ok: bool)
      modifies client, minio
      ensures Step(client.Value(), minio.Value(), ok) ==
              MainPass.CreatePods(old(client.Value()), old(minio.Value()), pods)
    {
      for i := 0 to |pods|
        invariant minio.Value() == old(minio.Value())
        invariant MainPass.CreatePods(client.Value(), minio.Value(), pods[i..]) ==
                  MainPass.CreatePods(old(client.Value()), old(minio.Value()), pods)
      {
        assert pods[i..][0] == pods[i] && pods[i..][1..] == pods[i + 1..];
        var fault := client.Serve();
        if fault.Some? || pods[i].name in client.pods {
          Report(minio, "MinIO Pod Create Failed, " + ErrorText(fault, "already exists"));
          return false;
        }
        client.pods := client.pods[pods[i].name := pods[i]];
      }
      return true;
    }

    method UpdatePods(minio: MinIO, pods: seq<Pod>) returns (ok: bool)
      modifies client, minio
      ensures Step(client.Value(), minio.Value(), ok) ==
              MainPass.UpdatePods(old(client.Value()), old(minio.Value()), pods)
    {
      for i := 0 to |pods|
        invariant minio.Value() == old(minio.Value())
        invariant MainPass.UpdatePods(client.Value(), minio.Value(), pods[i..]) ==
                  MainPass.UpdatePods(old(client.Value()), old(minio.Value()), pods)
      {
        assert pods[i..][0] == pods[i] && pods[i..][1..] == pods[i + 1..];
        var fault := client.Serve();
        if fault.Some? || pods[i].name !in client.pods {
          Report(minio, "MinIO Pod Update Failed, " + ErrorText(fault, "not found"));
          return false;
        }
        client.pods := client.pods[pods[i].name := pods[i]];
      }
      return true;
    }

    method Prepare(minio: MinIO) returns (ok: bool)
      modifies client, minio
      ensures Step(client.Value(), minio.Value(), ok) == MainPass.Prepare(old(client.Value()), old(minio.Value()))
    {
      ok := RecordRevision(minio);
      if !ok {
        return;
      }
      ok := CheckServices(minio);
      if !ok {
        return;
      }
      ok := CheckPVC(minio);
    }

    method CheckServices(minio: MinIO) returns (ok: bool)
      modifies client, minio
      ensures Step(client.Value(), minio.Value(), ok) == MainPass.CheckServices(old(client.Value()), old(minio.Value()))
    {
      ok := CheckService(MinIOSvc, minio);
      if !ok {
        return;
      }
      ok := CheckService(ConsoleSvc, minio);
      if !ok {
        return;
      }
      ok := CheckService(HeadlessSvc, minio);
    }

    method ReconcilePods(minio: MinIO, prev: Option<Spec>) returns (ok: bool)
      modifies client, minio
      ensures Step(client.Value(), minio.Value(), ok) ==
              MainPass.ReconcilePods(old(client.Value()), old(minio.Value()), prev)
    {
      var addPools := DiffAdded(OldPools(prev), minio.spec.pools);
      var updatePools := DiffUpdated(prev, minio.spec);
      var addPods := BuildPods(minio, addPools);
      ok := CreatePods(minio, addPods);
      if !ok {
        return;
      }
      SpecKept(old(client.Value()), old(minio.Value()), addPods);
      var updatePods := BuildPods(minio, updatePools);
      ok := UpdatePods(minio, updatePods);
      if !ok {
        return;
      }
      ok := Announce(minio);
    }

    method Reconcile() returns (ok: bool)
      modifies client
      ensures Outcome(client.Value(), ok) == MainPass.Reconcile(old(client.Value()))
    {
      var prev := client.rev;
      var minio := new MinIO(0, client.api.spec, client.api.status);
      var fault := client.GetMinIO(minio);
      if fault.Some? {
        return false;
      }
      if !client.api.life.Live? {
        return true;
      }
      if minio.status.status == Unset {
        minio.status := minio.status.(status := Initial);
        ok := Write(minio);
        if !ok {
          return;
        }
      }
      ok := Prepare(minio);
      if !ok {
        return;
      }
      ok := ReconcilePods(minio, prev);
    }
  }

  /** Creating pods leaves the in-memory specification and the cluster's name alone. */
  lemma {:induction false} SpecKept(w: World, m: Minio, pods: seq<Pod>)
    ensures var s := MainPass.CreatePods(w, m, pods); s.m.spec == m.spec && s.w.name == w.name
    decreases |pods|
  {
    if pods != [] {
      var w1 := w.(api := Call(w.api).api);
      if Call(w.api).fault.None? && pods[0].name !in w1.pods {
        SpecKept(w1.(pods := w1.pods[pods[0].name := pods[0]]), m, pods[1..]);
      }
    }
  }

  class MinIOHealthCheckerReconciler {
    const client: Cluster

    constructor (client: Cluster)
      ensures this.client == client
    {
      this.client := client;
    }

    method Reconcile(healthy: bool) returns (requeue: bool, failed: bool)
      modifies client`api
      ensures RunResult(client.api, requeue, failed) == HealthRuns.HealthReconcile(old(client.api), healthy)
    {
      var minio := new MinIO(0, client.api.spec, client.api.status);
      var fault := client.GetMinIO(minio);
      if fault.Some? {
        return true, true;
      }
      if client.api.life.Gone? {
        return false, true;
      }
      minio.status := minio.status.(healthStatus := Unknown);
      var ok := UpdateStatusWithRetry(client, minio, true);
      if !ok {
        return true, true;
      }
      if minio.status.status != Completed {
        return true, false;
      }
      minio.status := minio.status.(healthStatus := HealthRuns.CheckResult(healthy));
      ok := UpdateStatusWithRetry(client, minio, true);
      if !ok {
        return true, true;
      }
      return minio.status.healthStatus != Health, false;
    }
  }

  class MinIOStatusReconciler {
    const client: Cluster

    constructor (client: Cluster)
      ensures this.client == client
    {
      this.client := client;
    }

    method List(n: nat) returns (ok: bool)
      modifies client`api
      ensures Answer(client.api, ok) == StatusRuns.ListCalls(old(client.api), n)
    {
      var i := n;
      while i > 0
        invariant 0 <= i <= n
        invariant StatusRuns.ListCalls(client.api, i) == StatusRuns.ListCalls(old(client.api), n)
      {
        var fault := client.Serve();
        if fault.Some? {
          return false;
        }
        i := i - 1;
      }
      return true;
    }

    method Reconcile(pvcs: seq<PVCStatus>, service: ServiceAddr, listing: StatusRuns.Listing)
      returns (requeue: bool, failed: bool)
      modifies client`api
      ensures RunResult(client.api, requeue, failed) ==
              StatusRuns.StatusReconcile(old(client.api), pvcs, service, listing)
    {
      var minio := new MinIO(0, client.api.spec, client.api.status);
      var fault := client.GetMinIO(minio);
      if fault.Some? {
        return true, true;
      }
      if client.api.life.Gone? {
        return false, true;
      }
      var listed := List(2 + |minio.spec.pools|);
      if !listed {
        return true, true;
      }
      minio.status := minio.status.(pvcStatus := pvcs);
      minio.status := minio.status.(service := service);
      var poolStatus := StatusRuns.AggregatePools(minio.spec.pools, listing);
      minio.status := minio.status.(poolStatus := poolStatus);
      var deployStatus := StatusRuns.AggregateDeploy(minio.status.poolStatus);
      minio.status := minio.status.(status := deployStatus);
      var ok := UpdateStatusWithRetry(client, minio, true);
      if !ok {
        return true, true;
      }
      return minio.status.status != Completed, false;
    }
  }
}
