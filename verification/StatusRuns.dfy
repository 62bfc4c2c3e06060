/** Aggregation of pod phases into pool and deploy status, and one run of the controller that stores it:
    `minio_status_controller.go`. */
module StatusRuns {
  import opened Types
  import opened StatusStore

  /** A pod as listed for a pool. */
  type ListedPod = MinIOServer

  /** The answers to the pod listings, by pool name. */
  type Listing = map<string, seq<ListedPod>>

  function Listed(listing: Listing, pool: string): seq<ListedPod> {
    if pool in listing then listing[pool] else []
  }

  function PhaseStatus(p: Phase): PoolDeployStatus {
    match p
    case PodRunning => PoolCompleted
    case PodPending => PoolRunning
    case PodOther(_) => PoolFailed
  }

  /** Positions of the running pods. */
  function RunningAt(pods: seq<ListedPod>): set<int> {
    set i | 0 <= i < |pods| && pods[i].phase.PodRunning?
  }

  function PoolStatusOf(pool: Pool, pods: seq<ListedPod>): PoolStatus {
    PoolStatus(pool.name,
               if pods == [] then PoolUnset else PhaseStatus(pods[|pods| - 1].phase),
               |RunningAt(pods)|, pool.servers, pods)
  }

  function PoolStatuses(pools: seq<Pool>, listing: Listing): seq<PoolStatus> {
    seq(|pools|, i requires 0 <= i < |pools| => PoolStatusOf(pools[i], Listed(listing, pools[i].name)))
  }

  /** The last pool that is neither complete nor unset decides. */
  function DeployOf(ps: seq<PoolStatus>): DeployStatus {
    if ps == [] then Completed
    else match ps[|ps| - 1].status
      case PoolFailed => Failed
      case PoolRunning => Running
      case _ => DeployOf(ps[..|ps| - 1])
  }

  /** What is stored for a pool, by what was listed: its status is that of the last pod, if any, the count is that of
      the running ones, and the servers are the pods in order. */
  predicate ShowsPods(ps: PoolStatus, pool: Pool, pods: seq<ListedPod>) {
    && ps.name == pool.name
    && ps.replicas == pool.servers
    && ps.servers == pods
    && ps.availableReplicas == |set i | 0 <= i < |pods| && pods[i].phase == PodRunning|
    && (ps.status == PoolUnset <==> |pods| == 0)
    && (ps.status == PoolCompleted <==> |pods| > 0 && pods[|pods| - 1].phase == PodRunning)
    && (ps.status == PoolRunning <==> |pods| > 0 && pods[|pods| - 1].phase == PodPending)
  }

  lemma PoolStatusIff(pool: Pool, pods: seq<ListedPod>, ps: PoolStatus)
    ensures ps == PoolStatusOf(pool, pods) <==> ShowsPods(ps, pool, pods)
  {
    assert RunningAt(pods) == set i | 0 <= i < |pods| && pods[i].phase == PodRunning;
  }

  method AggregatePools(pools: seq<Pool>, listing: Listing) returns (poolStatus: seq<PoolStatus>)
    ensures poolStatus == PoolStatuses(pools, listing)
    ensures |poolStatus| == |pools|
    ensures forall k :: 0 <= k < |pools| ==> ShowsPods(poolStatus[k], pools[k], Listed(listing, pools[k].name))
  {
    poolStatus := [];
    for k := 0 to |pools|
      invariant poolStatus == PoolStatuses(pools, listing)[..k]
    {
      var items := Listed(listing, pools[k].name);
      var servers: seq<MinIOServer>, availableReplicas: nat, poolDeployStatus := [], 0, PoolUnset;
      for i := 0 to |items|
        invariant servers == items[..i]
        invariant availableReplicas == |RunningAt(items[..i])|
        invariant poolDeployStatus == if i == 0 then PoolUnset else PhaseStatus(items[i - 1].phase)
      {
        OneMorePod(items, i);
        var pod := items[i];
        if pod.phase == PodRunning {
          availableReplicas := availableReplicas + 1;
          poolDeployStatus := PoolCompleted;
        } else if pod.phase == PodPending {
          poolDeployStatus := PoolRunning;
        } else {
          poolDeployStatus := PoolFailed;
        }
        servers := servers + [pod];
      }
      assert items[..|items|] == items;
      var ps := PoolStatus(pools[k].name, poolDeployStatus, availableReplicas, pools[k].servers, servers);
      poolStatus := poolStatus + [ps];
    }
    forall k | 0 <= k < |pools| ensures ShowsPods(poolStatus[k], pools[k], Listed(listing, pools[k].name)) {
      PoolStatusIff(pools[k], Listed(listing, pools[k].name), poolStatus[k]);
    }
  }

  lemma OneMorePod(pods: seq<ListedPod>, i: nat)
    requires i < |pods|
    ensures |RunningAt(pods[..i + 1])| == |RunningAt(pods[..i])| + if pods[i].phase.PodRunning? then 1 else 0
  {
    var before, after := RunningAt(pods[..i]), RunningAt(pods[..i + 1]);
    if pods[i].phase.PodRunning? {
      assert after == before + {i};
    } else {
      assert after == before;
    }
  }

  method AggregateDeploy(poolStatus: seq<PoolStatus>) returns (deployStatus: DeployStatus)
    ensures deployStatus == DeployOf(poolStatus)
  {
    deployStatus := Completed;
    for i := 0 to |poolStatus|
      invariant deployStatus == DeployOf(poolStatus[..i])
    {
      assert poolStatus[..i + 1][..i] == poolStatus[..i];
      if poolStatus[i].status == PoolFailed {
        deployStatus := Failed;
      } else if poolStatus[i].status == PoolRunning {
        deployStatus := Running;
      }
    }
    assert poolStatus[..|poolStatus|] == poolStatus;
  }

  // ---------- What the aggregate means ----------

  /** The pool shows nothing against completion: no pods at all, or the last one listed runs. */
  predicate Fine(pods: seq<ListedPod>) {
    pods == [] || pods[|pods| - 1].phase.PodRunning?
  }

  lemma {:induction false} DeployCompletedIff(pools: seq<Pool>, listing: Listing)
    ensures DeployOf(PoolStatuses(pools, listing)) == Completed <==>
            forall k :: 0 <= k < |pools| ==> Fine(Listed(listing, pools[k].name))
  {
    if pools != [] {
      var n := |pools| - 1;
      DeployCompletedIff(pools[..n], listing);
      assert PoolStatuses(pools, listing)[..n] == PoolStatuses(pools[..n], listing);
      assert PoolStatuses(pools, listing)[n] == PoolStatusOf(pools[n], Listed(listing, pools[n].name));
    }
  }

  /** When it is not complete, the last pool that is not fine decides between Running and Failed. */
  lemma {:induction false} DeployOtherwise(pools: seq<Pool>, listing: Listing) returns (k: nat)
    requires DeployOf(PoolStatuses(pools, listing)) != Completed
    ensures k < |pools| && !Fine(Listed(listing, pools[k].name))
    ensures forall i :: k < i < |pools| ==> Fine(Listed(listing, pools[i].name))
    ensures var pods := Listed(listing, pools[k].name);
            DeployOf(PoolStatuses(pools, listing)) ==
              if pods[|pods| - 1].phase.PodPending? then Running else Failed
  {
    var n := |pools| - 1;
    assert PoolStatuses(pools, listing)[n] == PoolStatusOf(pools[n], Listed(listing, pools[n].name));
    if Fine(Listed(listing, pools[n].name)) {
      assert PoolStatuses(pools, listing)[..n] == PoolStatuses(pools[..n], listing);
      k := DeployOtherwise(pools[..n], listing);
    } else {
      k := n;
    }
  }

  ghost predicate AllRunning(pools: seq<Pool>, listing: Listing) {
    forall k, i :: 0 <= k < |pools| && 0 <= i < |Listed(listing, pools[k].name)| ==>
      Listed(listing, pools[k].name)[i].phase.PodRunning?
  }

  /** All pods running implies completion; completion with every pool's count full implies all running; but a
      completed pool may hold a failed pod that is not listed last. */
  lemma CompletedVersusRunning(pools: seq<Pool>, listing: Listing)
    ensures AllRunning(pools, listing) <==>
            forall k :: 0 <= k < |pools| ==>
              PoolStatuses(pools, listing)[k].availableReplicas == |Listed(listing, pools[k].name)|
    ensures AllRunning(pools, listing) ==> DeployOf(PoolStatuses(pools, listing)) == Completed
  {
    forall k | 0 <= k < |pools|
      ensures PoolStatuses(pools, listing)[k].availableReplicas == |Listed(listing, pools[k].name)| <==>
              forall i :: 0 <= i < |Listed(listing, pools[k].name)| ==>
                Listed(listing, pools[k].name)[i].phase.PodRunning?
    {
      AllCounted(Listed(listing, pools[k].name));
    }
    DeployCompletedIff(pools, listing);
  }

  lemma {:induction false} AllCounted(pods: seq<ListedPod>)
    ensures |RunningAt(pods)| <= |pods|
    ensures |RunningAt(pods)| == |pods| <==> forall i :: 0 <= i < |pods| ==> pods[i].phase.PodRunning?
  {
    if pods != [] {
      var n := |pods| - 1;
      AllCounted(pods[..n]);
      OneMorePod(pods, n);
      assert pods[..n + 1] == pods;
    }
  }

  lemma CompletedWithFailedPod(pool: Pool)
    ensures var pods := [MinIOServer("p-0", "", "", PodOther("Failed")), MinIOServer("p-1", "", "", PodRunning)];
            var listing: Listing := map[pool.name := pods];
            DeployOf(PoolStatuses([pool], listing)) == Completed && !AllRunning([pool], listing)
  {
    var pods := [MinIOServer("p-0", "", "", PodOther("Failed")), MinIOServer("p-1", "", "", PodRunning)];
    var listing: Listing := map[pool.name := pods];
    DeployCompletedIff([pool], listing);
    assert Listed(listing, [pool][0].name)[0] == pods[0];
  }

  // ---------- One run ----------

  /** List calls in a row, given up at the first error. */
  function ListCalls(a: Api, n: nat): Answer
    decreases n
  {
    if n == 0 then Answer(a, true)
    else
      var g := Call(a);
      if g.fault.Some? then Answer(g.api, false) else ListCalls(g.api, n - 1)
  }

  function Observed(s: Status, pools: seq<Pool>, pvcs: seq<PVCStatus>, service: ServiceAddr, listing: Listing): Status {
    var ps := PoolStatuses(pools, listing);
    s.(pvcStatus := pvcs, service := service, poolStatus := ps, status := DeployOf(ps))
  }

  function StatusReconcile(a: Api, pvcs: seq<PVCStatus>, service: ServiceAddr, listing: Listing): RunResult {
    var g := Call(a);
    if g.fault.Some? then RunResult(g.api, true, true)
    else if g.api.life.Gone? then RunResult(g.api, false, true)
    else
      var base := Copy(g.api.version, g.api.status);
      var l := ListCalls(g.api, 2 + |g.api.spec.pools|);
      if !l.ok then RunResult(l.api, true, true)
      else
        var st := Observed(base.status, g.api.spec.pools, pvcs, service, listing);
        var w := UpdateWithRetry(l.api, base.(status := st), true);
        if !w.ok then RunResult(w.api, true, true)
        else RunResult(w.api, st.status != Completed, false)
  }

  lemma {:induction false} ListCallsDuringRun(a0: Api, a: Api, n: nat)
    requires DuringRun(StatusController, a0, a)
    ensures DuringRun(StatusController, a0, ListCalls(a, n).api)
    decreases n
  {
    if n > 0 {
      CallDuringRun(StatusController, a0, a);
      if Call(a).fault.None? {
        ListCallsDuringRun(a0, Call(a).api, n - 1);
      }
    }
  }

  /** Under any interference and any faults, a run changes the store at most once and neither the message nor
      the health status. */
  lemma StatusRunOwnsObservation(a: Api, pvcs: seq<PVCStatus>, service: ServiceAddr, listing: Listing)
    ensures DuringRun(StatusController, Call(a).api, StatusReconcile(a, pvcs, service, listing).api)
  {
    var a0 := Call(a).api;
    RunStarts(StatusController, a0);
    ListCallsDuringRun(a0, a0, 2 + |a0.spec.pools|);
    var l := ListCalls(a0, 2 + |a0.spec.pools|).api;
    WriteDuringRun(StatusController, a0, l, Observed(a0.status, a0.spec.pools, pvcs, service, listing), true);
  }

  lemma {:induction false} UndisturbedListCalls(a: Api, n: nat)
    requires Undisturbed(a.script)
    ensures Undisturbed(ListCalls(a, n).api.script)
    ensures ListCalls(a, n).api == a.(script := ListCalls(a, n).api.script)
    decreases n
  {
    if n > 0 {
      UndisturbedCall(a);
      if Call(a).fault.None? {
        UndisturbedListCalls(Call(a).api, n - 1);
      }
    }
  }

  /** With nobody else writing, a run that succeeds stores exactly what it observed, field by field, leaves message and
      health alone, and asks to run again unless the deployment is complete. */
  lemma ObservationStored(a: Api, pvcs: seq<PVCStatus>, service: ServiceAddr, listing: Listing)
    requires Undisturbed(a.script)
    ensures var r, pools := StatusReconcile(a, pvcs, service, listing), a.spec.pools;
            var st := r.api.status;
            !r.failed ==>
              && st.pvcStatus == pvcs && st.service == service
              && st.message == a.status.message && st.healthStatus == a.status.healthStatus
              && |st.poolStatus| == |pools|
              && (forall k :: 0 <= k < |pools| ==>
                    ShowsPods(st.poolStatus[k], pools[k], Listed(listing, pools[k].name)))
              && st.status == DeployOf(st.poolStatus)
              && (r.requeue <==> st.status != Completed)
  {
    UndisturbedCall(a);
    var a0 := Call(a).api;
    UndisturbedListCalls(a0, 2 + |a0.spec.pools|);
    var l := ListCalls(a0, 2 + |a0.spec.pools|).api;
    if !StatusReconcile(a, pvcs, service, listing).failed {
      UndisturbedWrite(l, Copy(a0.version, Observed(a0.status, a0.spec.pools, pvcs, service, listing)));
      forall k | 0 <= k < |a.spec.pools|
        ensures ShowsPods(PoolStatuses(a.spec.pools, listing)[k], a.spec.pools[k],
                          Listed(listing, a.spec.pools[k].name))
      {
        PoolStatusIff(a.spec.pools[k], Listed(listing, a.spec.pools[k].name), PoolStatuses(a.spec.pools, listing)[k]);
      }
    }
  }

  /** How many calls a run makes when all are answered and nobody interferes: one read, one listing of claims, one of
      services, one of pods for each pool, and one write. */
  lemma StatusRunCalls(a: Api, pvcs: seq<PVCStatus>, service: ServiceAddr, listing: Listing)
    requires Calm(a) && a.life != Gone && |a.script| >= 4 + |a.spec.pools|
    ensures |a.script| - |StatusReconcile(a, pvcs, service, listing).api.script| == 4 + |a.spec.pools|
  {
    AnsweredCall(a);
    var a0, n := Call(a).api, 2 + |a.spec.pools|;
    AnsweredListing(a0, n);
    AnsweredCall(ListCalls(a0, n).api);
  }

  lemma AnsweredCall(a: Api)
    requires Calm(a) && a.script != []
    ensures Call(a).api == a.(script := a.script[1..]) && Call(a).fault.None? && Calm(Call(a).api)
  {
    assert a.script[0] in a.script;
  }

  lemma {:induction false} AnsweredListing(a: Api, n: nat)
    requires Calm(a) && n <= |a.script|
    ensures ListCalls(a, n) == Answer(a.(script := a.script[n..]), true) && Calm(ListCalls(a, n).api)
    decreases n
  {
    if n > 0 {
      AnsweredCall(a);
      AnsweredListing(Call(a).api, n - 1);
      assert a.script[1..][n - 1..] == a.script[n..];
    }
  }
}
