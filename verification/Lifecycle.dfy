/** From an empty cluster to a settled one. */
module Lifecycle {
  import opened Wrappers
  import opened Types
  import opened StatusStore
  import opened MainPass
  import opened Stages
  import opened PassFacts
  import opened Convergence
  import Layout

  // ---------- Settled clusters ----------

  /** Everything the specification asks for is recorded and stored as it should be. */
  ghost predicate Settled(w: World, spec: Spec) {
    && w.rev == Some(spec)
    && ServicesMatch(w.svcs, w.name, spec)
    && (HasClaims(w) || AllClaims(w.name, spec, spec.pools) == [])
    && Desired(w.pods, AllPods(w.name, spec, spec.pools))
  }

  ghost predicate SameObjectsAs(w: World, r: World) {
    r.name == w.name && r.rev == w.rev && r.svcs == w.svcs && r.pvcs == w.pvcs && r.pods == w.pods
  }

  /** A settled cluster is a fixpoint: a pass that reads the same specification changes no object, whatever
      fails in it, although it overwrites every pod. */
  lemma SettledPass(w: World, spec: Spec)
    requires Settled(w, spec) && Call(w.api).api.spec == spec
    ensures SameObjectsAs(w, Reconcile(w).w)
  {
    SettledObjects(w, spec);
    PassPods(w);
    NothingAdded(w.name, spec, spec);
    AllUpdated(spec, spec, spec.pools);
    SettledPods(w.pods, Reconcile(w).w.pods, AllPods(w.name, spec, spec.pools));
  }

  lemma SettledObjects(w: World, spec: Spec)
    requires Settled(w, spec) && Call(w.api).api.spec == spec
    ensures var r := Reconcile(w).w; r.name == w.name && r.rev == w.rev && r.svcs == w.svcs && r.pvcs == w.pvcs
  {
    PassObjects(w);
    MatchingServicesStay(w.admit, w.name, spec, w.svcs, Reconcile(w).w.svcs, false);
  }

  lemma SettledPods(before: map<string, Pod>, after: map<string, Pod>, pods: seq<Pod>)
    requires PodsWritten(before, after, [], pods) && Desired(before, pods)
    ensures after == before
  {
    forall n | n in after ensures n in before && after[n] == before[n] {
      if after[n].name == n && after[n] in pods {
        var k :| 0 <= k < |pods| && pods[k] == after[n];
      }
    }
    assert after.Keys == before.Keys;
  }

  /** It stays settled over every run that does not edit the specification. */
  lemma {:induction false} SettledForever(w: World, scripts: seq<seq<Event>>, spec: Spec)
    requires Settled(w, spec) && ReadableSpecs(w, scripts) == {spec}
    ensures SameObjectsAs(w, Passes(w, scripts))
  {
    if scripts != [] {
      var k := |scripts| - 1;
      PassesStep(w, scripts);
      LastRead(w, scripts);
      PassesReadable(w, scripts[..k]);
      SettledForever(w, scripts[..k], spec);
      SettledPass(Scripted(Passes(w, scripts[..k]), scripts[k]), spec);
    }
  }

  // ---------- Claims and their names ----------

  /** The condition under which no two claims of different pools can share a name. */
  ghost predicate SeparableTemplates(pools: seq<Pool>) {
    forall j, k :: 0 <= j < k < |pools| ==> Layout.Separable(pools[j].templateName, pools[k].templateName)
  }

  predicate DistinctClaims(claims: seq<Claim>) {
    forall j, k :: 0 <= j < k < |claims| ==> claims[j].name != claims[k].name
  }

  function TotalClaims(pools: seq<Pool>): nat {
    if pools == [] then 0
    else
      var p := pools[|pools| - 1];
      TotalClaims(pools[..|pools| - 1]) + Count(p.servers) * Count(p.volumesPerServer)
  }

  lemma {:induction false} ClaimOfPools(name: string, spec: Spec, pools: seq<Pool>, c: Claim)
    returns (k: nat, i: nat, j: nat)
    requires c in AllClaims(name, spec, pools)
    ensures k < |pools| && i < Count(pools[k].servers) && j < Count(pools[k].volumesPerServer)
    ensures c == Layout.ClaimFor(name, spec, pools[k], i, j)
  {
    var n := |pools| - 1;
    if c in AllClaims(name, spec, pools[..n]) {
      k, i, j := ClaimOfPools(name, spec, pools[..n], c);
    } else {
      k := n;
      i, j := Layout.ClaimOrigin(name, spec, pools[n], Count(pools[n].servers), c);
    }
  }

  lemma {:induction false} ClaimMember(name: string, spec: Spec, pools: seq<Pool>, k: nat, i: nat, j: nat)
    requires k < |pools| && i < Count(pools[k].servers) && j < Count(pools[k].volumesPerServer)
    ensures Layout.ClaimFor(name, spec, pools[k], i, j) in AllClaims(name, spec, pools)
  {
    var n := |pools| - 1;
    if k < n {
      ClaimMember(name, spec, pools[..n], k, i, j);
    } else {
      Layout.ClaimAt(name, spec, pools[n], i, j);
    }
  }

  lemma {:induction false} PoolClaimsDistinct(name: string, spec: Spec, pool: Pool, n: nat)
    ensures DistinctClaims(Layout.ClaimsUpTo(name, spec, pool, n))
  {
    if n > 0 {
      PoolClaimsDistinct(name, spec, pool, n - 1);
      var front, row := Layout.ClaimsUpTo(name, spec, pool, n - 1), Layout.ClaimsOfServer(name, spec, pool, n - 1);
      var all, t := front + row, pool.templateName;
      Layout.SeparableWhen(t, t);
      forall a, b | 0 <= a < b < |all| ensures all[a].name != all[b].name {
        if all[a].name == all[b].name && b >= |front| {
          var j := b - |front|;
          assert all[b] == row[j];
          if a < |front| {
            assert all[a] in front;
            var i', j' := Layout.ClaimOrigin(name, spec, pool, n - 1, all[a]);
            Layout.SeparableClaimNames(name, pool.name, i', t, j', pool.name, n - 1, t, j);
          } else {
            assert all[a] == row[a - |front|];
            Layout.SeparableClaimNames(name, pool.name, n - 1, t, a - |front|, pool.name, n - 1, t, j);
          }
        }
      }
    }
  }

  lemma {:induction false} AllClaimsDistinct(name: string, spec: Spec, pools: seq<Pool>)
    requires DistinctPools(pools) && SeparableTemplates(pools)
    ensures DistinctClaims(AllClaims(name, spec, pools)) && |AllClaims(name, spec, pools)| == TotalClaims(pools)
  {
    if pools != [] {
      var n := |pools| - 1;
      AllClaimsDistinct(name, spec, pools[..n]);
      PoolClaimsDistinct(name, spec, pools[n], Count(pools[n].servers));
      Layout.ClaimsUpToLength(name, spec, pools[n], Count(pools[n].servers));
      var front, back := AllClaims(name, spec, pools[..n]), Layout.Claims(name, spec, pools[n]);
      forall a, b | 0 <= a < |front| && 0 <= b < |back| ensures front[a].name != back[b].name {
        ClaimsOfOtherPool(name, spec, pools, front[a], back[b]);
      }
    }
  }

  lemma ClaimsOfOtherPool(name: string, spec: Spec, pools: seq<Pool>, c: Claim, d: Claim)
    requires pools != [] && DistinctPools(pools) && SeparableTemplates(pools)
    requires c in AllClaims(name, spec, pools[..|pools| - 1]) && d in Layout.Claims(name, spec, pools[|pools| - 1])
    ensures c.name != d.name
  {
    var n := |pools| - 1;
    var k, i, j := ClaimOfPools(name, spec, pools[..n], c);
    var i', j' := Layout.ClaimOrigin(name, spec, pools[n], Count(pools[n].servers), d);
    if c.name == d.name {
      Layout.SeparableClaimNames(name, pools[k].name, i, pools[k].templateName, j,
                                 pools[n].name, i', pools[n].templateName, j');
    }
  }

  /** Inserting missing claims ends with every one of them stored under its name. */
  lemma {:induction false} InsertMissingAll(store: map<string, Claim>, claims: seq<Claim>)
    ensures var r := InsertMissing(store, claims);
            && (forall x :: x in store ==> x in r && r[x] == store[x])
            && (forall c :: c in claims ==> c.name in r)
    decreases |claims|
  {
    if claims != [] {
      var c := claims[0];
      var next := if c.name in store then store else store[c.name := c];
      InsertMissingAll(next, claims[1..]);
      assert claims == [c] + claims[1..];
    }
  }

  /** With distinct names and an empty store, each claim is stored as it is and there are no others. */
  lemma {:induction false} InsertMissingDistinct(store: map<string, Claim>, claims: seq<Claim>)
    requires DistinctClaims(claims) && forall k :: 0 <= k < |claims| ==> claims[k].name !in store
    ensures var r := InsertMissing(store, claims);
            && |r| == |store| + |claims|
            && (forall x :: x in store ==> x in r && r[x] == store[x])
            && (forall k :: 0 <= k < |claims| ==> claims[k].name in r && r[claims[k].name] == claims[k])
    decreases |claims|
  {
    if claims != [] {
      var c, rest := claims[0], claims[1..];
      assert forall k :: 0 <= k < |rest| ==> rest[k] == claims[k + 1];
      InsertMissingDistinct(store[c.name := c], rest);
      var r := InsertMissing(store, claims);
      forall k | 0 <= k < |claims| ensures claims[k].name in r && r[claims[k].name] == claims[k] {
        if k > 0 {
          assert rest[k - 1] == claims[k];
        }
      }
    }
  }

  // ---------- From nothing ----------

  ghost predicate Empty(w: World) {
    w.rev == None && w.svcs == map[] && w.pvcs == map[] && w.pods == map[]
  }

  /** From an empty cluster, with distinct pool names and separable template names, one pass without faults
      stores exactly the three services, the revision, every pod and every claim, in the right numbers, and
      leaves the cluster settled. */
  lemma FromEmpty(w: World)
    requires Empty(w) && FaultFree(w.api.script) && w.api.life.Live?
    requires var pools := Call(w.api).api.spec.pools; DistinctPools(pools) && SeparableTemplates(pools)
    ensures var spec, r := Call(w.api).api.spec, Reconcile(w);
            && r.ok
            && Settled(r.w, spec)
            && r.w.svcs.Keys == ServiceNames(w.name) && |r.w.svcs.Keys| == 3
            && |r.w.pods| == TotalServers(spec.pools)
            && |r.w.pvcs| == TotalClaims(spec.pools)
            && (forall c :: c in AllClaims(w.name, spec, spec.pools) ==> c.name in r.w.pvcs && r.w.pvcs[c.name] == c)
  {
    FaultFreePass(w);
    PassObjects(w);
    var spec, r := Call(w.api).api.spec, Reconcile(w);
    PodsFromEmpty(w.name, spec);
    ClaimsFromEmpty(w.name, spec);
    ThreeServices(w.name, r.w.svcs, spec);
    ClaimsLabelled(w.name, spec, r.w.pvcs);
  }

  lemma ThreeServices(name: string, svcs: map<string, Service>, spec: Spec)
    requires svcs.Keys <= ServiceNames(name) && ServicesMatch(svcs, name, spec)
    ensures svcs.Keys == ServiceNames(name) && |svcs.Keys| == 3
  {
    ServiceNamesDiffer(name);
    assert forall x :: x in ServiceNames(name) ==> x in svcs;
  }

  lemma ClaimsLabelled(name: string, spec: Spec, pvcs: map<string, Claim>)
    requires forall c :: c in AllClaims(name, spec, spec.pools) ==> c.name in pvcs && pvcs[c.name] == c
    ensures (exists n :: n in pvcs && OwnsClaim(name, pvcs[n])) || AllClaims(name, spec, spec.pools) == []
  {
    var claims := AllClaims(name, spec, spec.pools);
    if claims != [] {
      var k, i, j := ClaimOfPools(name, spec, spec.pools, claims[0]);
      assert claims[0].name in pvcs && OwnsClaim(name, pvcs[claims[0].name]);
    }
  }

  lemma PodsFromEmpty(name: string, spec: Spec)
    requires DistinctPools(spec.pools)
    ensures var s, pods := PodStage(map[], name, None, spec), AllPods(name, spec, spec.pools);
            s.ok && Desired(s.pods, pods) && |s.pods| == TotalServers(spec.pools)
  {
    AllAdded(spec.pools);
    AllPodsDistinct(name, spec, spec.pools);
    PutNewDistinct(map[], AllPods(name, spec, spec.pools));
  }

  lemma {:induction false} AllAdded(pools: seq<Pool>)
    ensures AddPools([], pools) == pools
  {
    if pools != [] {
      AllAdded(pools[..|pools| - 1]);
    }
  }

  lemma ClaimsFromEmpty(name: string, spec: Spec)
    requires DistinctPools(spec.pools) && SeparableTemplates(spec.pools)
    ensures var r, claims := InsertMissing(map[], AllClaims(name, spec, spec.pools)), AllClaims(name, spec, spec.pools);
            && |r| == TotalClaims(spec.pools)
            && (forall c :: c in claims ==> c.name in r && r[c.name] == c)
  {
    AllClaimsDistinct(name, spec, spec.pools);
    InsertMissingDistinct(map[], AllClaims(name, spec, spec.pools));
  }

  // ---------- Pods of added pools ----------

  /** No pod of an added pool exists yet. */
  ghost predicate AddedPodsNew(pods: map<string, Pod>, prev: seq<Pool>, pools: seq<Pool>) {
    forall p, i: nat :: p in pools && !Named(prev, p.name) && i < Count(p.servers) ==>
      Layout.PodName(p.name, i) !in pods
  }

  lemma AddedPodsFresh(w: World, spec: Spec)
    requires AddedPodsNew(w.pods, OldPools(w.rev), spec.pools)
    ensures NoneIn(AllPods(w.name, spec, AddPools(OldPools(w.rev), spec.pools)), w.pods)
  {
    var added := AddPools(OldPools(w.rev), spec.pools);
    var create := AllPods(w.name, spec, added);
    forall k | 0 <= k < |create| ensures create[k].name !in w.pods {
      var q, i := PodOrigin(w.name, spec, added, create[k]);
      AddPoolsMember(OldPools(w.rev), spec.pools, added[q]);
    }
  }

  lemma AddedPodBuilt(name: string, prev: seq<Pool>, spec: Spec, pool: Pool, i: nat)
    requires pool in AddPools(prev, spec.pools) && i < Count(pool.servers)
    ensures var create := AllPods(name, spec, AddPools(prev, spec.pools));
            exists k :: 0 <= k < |create| && create[k] == Layout.PodFor(name, spec, pool, i)
  {
    var added := AddPools(prev, spec.pools);
    var q :| 0 <= q < |added| && added[q] == pool;
    PodMember(name, spec, added, q, i);
  }

  lemma AddedPodKept(name: string, prev: Option<Spec>, spec: Spec, pool: Pool, i: nat)
    requires pool in AddPools(OldPools(prev), spec.pools)
    ensures !HasName(PodsToUpdate(name, prev, spec), Layout.PodName(pool.name, i))
  {
    AddPoolsMember(OldPools(prev), spec.pools, pool);
    PoolDiff(prev, spec, pool.name);
    forall p | p in OldPools(prev) ensures p.name != pool.name {
      NamedMember(OldPools(prev), p);
    }
    UnnamedPod(name, spec, PoolsToUpdate(prev, spec), pool.name, i);
  }

  // ---------- After the first pass ----------

  ghost predicate PairwiseSeparable(pools: seq<Pool>) {
    forall p, q :: p in pools && q in pools ==> Layout.Separable(p.templateName, q.templateName)
  }

  /** A first pass stores no pods of other pools. */
  lemma PodsOfFirstPass(w: World, pool: string, i: nat)
    requires Empty(w) && !Named(Call(w.api).api.spec.pools, pool)
    ensures Layout.PodName(pool, i) !in Reconcile(w).w.pods
  {
    PassPods(w);
    UnnamedPodUntouched(w, Call(w.api).api.spec, Reconcile(w).w.pods, pool, i);
  }

  // ---------- Objects on their way out ----------

  /** The events that passes which make a single call each use up. */
  function FirstEvents(scripts: seq<seq<Event>>): seq<Event> {
    if scripts == [] then []
    else
      var n := |scripts| - 1;
      FirstEvents(scripts[..n]) + if scripts[n] == [] then [] else [scripts[n][0]]
  }

  /** Over every run of passes, with any interference and faults, an object that is absent or being deleted has nothing
      done for it: revision, services, claims and pods stay, and its status is what others write. */
  lemma {:induction false} NotLiveForever(w: World, scripts: seq<seq<Event>>)
    requires w.api.life != Live
    ensures var r := Passes(w, scripts);
            && SameObjectsAs(w, r) && r.api.life == w.api.life
            && r.api.own == w.api.own && r.api.status == Drain(w.api.status, FirstEvents(scripts))
  {
    if scripts != [] {
      var n := |scripts| - 1;
      NotLiveForever(w, scripts[..n]);
      PassesStep(w, scripts);
      var v := Scripted(Passes(w, scripts[..n]), scripts[n]);
      CallShape(v.api);
      CallOthersOnly(v.api);
      NotLivePass(v);
      FirstUsedUp(v.api);
      DrainAppend(w.api.status, FirstEvents(scripts[..n]), Met(v.api, Call(v.api).api));
    }
  }

  lemma FirstUsedUp(a: Api)
    ensures Rest(a.script, Call(a).api.script)
    ensures Met(a, Call(a).api) == if a.script == [] then [] else [a.script[0]]
  {
    CallShape(a);
  }
}
