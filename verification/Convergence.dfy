/** Runs of many passes: what only grows, what stays, and when the pods reach the specification. */
module Convergence {
  import opened Wrappers
  import opened Types
  import opened StatusStore
  import opened MainPass
  import opened Stages
  import opened PassFacts
  import Layout

  // ---------- Which pods and pools ----------

  lemma {:induction false} PodOrigin(name: string, spec: Spec, pools: seq<Pool>, p: Pod) returns (k: nat, i: nat)
    requires p in AllPods(name, spec, pools)
    ensures k < |pools| && i < Count(pools[k].servers) && p == Layout.PodFor(name, spec, pools[k], i)
  {
    var n := |pools| - 1;
    if p in AllPods(name, spec, pools[..n]) {
      k, i := PodOrigin(name, spec, pools[..n], p);
    } else {
      k := n;
      var pods := Layout.Pods(name, spec, pools[n]);
      i :| 0 <= i < |pods| && pods[i] == p;
    }
  }

  lemma {:induction false} PodMember(name: string, spec: Spec, pools: seq<Pool>, k: nat, i: nat)
    requires k < |pools| && i < Count(pools[k].servers)
    ensures Layout.PodFor(name, spec, pools[k], i) in AllPods(name, spec, pools)
  {
    var n := |pools| - 1;
    if k < n {
      PodMember(name, spec, pools[..n], k, i);
    } else {
      var pods := Layout.Pods(name, spec, pools[n]);
      assert pods[i] == Layout.PodFor(name, spec, pools[k], i);
      assert pods[i] in pods;
    }
  }

  lemma {:induction false} AddPoolsMember(prev: seq<Pool>, pools: seq<Pool>, p: Pool)
    ensures p in AddPools(prev, pools) <==> p in pools && !Named(prev, p.name)
  {
    if pools != [] {
      var n := |pools| - 1;
      AddPoolsMember(prev, pools[..n], p);
      assert pools == pools[..n] + [pools[n]];
    }
  }

  lemma {:induction false} UpdatePoolsMember(prev: Spec, next: Spec, pools: seq<Pool>, p: Pool)
    ensures p in UpdatePools(prev, next, pools) <==> p in pools && ToUpdate(prev, next, p)
  {
    if pools != [] {
      var n := |pools| - 1;
      UpdatePoolsMember(prev, next, pools[..n], p);
      assert pools == pools[..n] + [pools[n]];
    }
  }

  /** The diff splits pool names: added ones are exactly the new without the old; updated ones are old and new,
      and exactly those for which some new pool of the name asks for an update. */
  lemma PoolDiff(prev: Option<Spec>, next: Spec, x: string)
    ensures Named(AddPools(OldPools(prev), next.pools), x) <==> Named(next.pools, x) && !Named(OldPools(prev), x)
    ensures Named(PoolsToUpdate(prev, next), x) <==>
            exists p, q :: p in OldPools(prev) && q in next.pools && p.name == x && q.name == x &&
              MinioServerNeedToUpdate(prev.value, next, p, q)
  {
    var added := AddPools(OldPools(prev), next.pools);
    if Named(added, x) {
      var k :| 0 <= k < |added| && added[k].name == x;
      AddPoolsMember(OldPools(prev), next.pools, added[k]);
      NamedMember(next.pools, added[k]);
    }
    if Named(next.pools, x) && !Named(OldPools(prev), x) {
      var k :| 0 <= k < |next.pools| && next.pools[k].name == x;
      AddPoolsMember(OldPools(prev), next.pools, next.pools[k]);
      NamedMember(added, next.pools[k]);
    }
    var updated := PoolsToUpdate(prev, next);
    if Named(updated, x) {
      var k :| 0 <= k < |updated| && updated[k].name == x;
      UpdatePoolsMember(prev.value, next, OldPools(prev), updated[k]);
      var j :| 0 <= j < |next.pools| && next.pools[j].name == x &&
        MinioServerNeedToUpdate(prev.value, next, updated[k], next.pools[j]);
      assert next.pools[j] in next.pools;
    }
    if exists p, q :: p in OldPools(prev) && q in next.pools && p.name == x && q.name == x &&
         MinioServerNeedToUpdate(prev.value, next, p, q)
    {
      var p, q :| p in OldPools(prev) && q in next.pools && p.name == x && q.name == x &&
        MinioServerNeedToUpdate(prev.value, next, p, q);
      var j :| 0 <= j < |next.pools| && next.pools[j] == q;
      UpdatePoolsMember(prev.value, next, OldPools(prev), p);
      NamedMember(updated, p);
    }
  }

  lemma NamedMember(pools: seq<Pool>, p: Pool)
    requires p in pools
    ensures Named(pools, p.name)
  {
  }

  // ---------- Over many passes ----------

  /** The specifications any of these passes can read. */
  ghost function ReadableSpecs(w: World, scripts: seq<seq<Event>>): set<Spec> {
    {w.api.spec} + set s, sp | s in scripts && sp in EditedSpecs(s) :: sp
  }

  function Scripted(w: World, script: seq<Event>): World {
    w.(api := w.api.(script := script))
  }

  /** The cluster with the specification edited. */
  function AfterEdit(w: World, next: Spec): World {
    w.(api := Apply(w.api, SetSpec(next)))
  }

  lemma PassesStep(w: World, scripts: seq<seq<Event>>)
    requires scripts != []
    ensures var n := |scripts| - 1;
            && Passes(w, scripts) == Reconcile(Scripted(Passes(w, scripts[..n]), scripts[n])).w
            && ReadableSpecs(w, scripts[..n]) <= ReadableSpecs(w, scripts)
            && EditedSpecs(scripts[n]) <= ReadableSpecs(w, scripts)
  {
    assert scripts[|scripts| - 1] in scripts;
  }

  lemma TwoInARow(w: World, first: seq<Event>, second: seq<Event>)
    ensures Passes(w, [first, second]) == Reconcile(Scripted(Reconcile(Scripted(w, first)).w, second)).w
  {
    var both, one := [first, second], [first];
    assert both[..1] == one && one[..0] == [];
    PassesStep(w, both);
    PassesStep(w, one);
  }

  /** Whatever a pass reads as its specification, and whatever is stored after it, is readable. */
  lemma {:induction false} PassesReadable(w: World, scripts: seq<seq<Event>>)
    ensures Passes(w, scripts).api.spec in ReadableSpecs(w, scripts)
  {
    if scripts != [] {
      var n := |scripts| - 1;
      PassesReadable(w, scripts[..n]);
      PassesStep(w, scripts);
      PassStatusWrites(Scripted(Passes(w, scripts[..n]), scripts[n]));
    }
  }

  lemma LastRead(w: World, scripts: seq<seq<Event>>)
    requires scripts != []
    ensures var n := |scripts| - 1;
            Call(Scripted(Passes(w, scripts[..n]), scripts[n]).api).api.spec in ReadableSpecs(w, scripts)
  {
    var n := |scripts| - 1;
    PassesReadable(w, scripts[..n]);
    PassesStep(w, scripts);
    CallFollows(Scripted(Passes(w, scripts[..n]), scripts[n]).api);
  }

  /** Over every run of passes, with any faults, interference and specification edits, no service, claim or pod
      is ever removed, existing claims never change, and no service but the three is ever created. */
  lemma {:induction false} ObjectsOnlyGrow(w: World, scripts: seq<seq<Event>>)
    ensures var r := Passes(w, scripts);
            && r.name == w.name
            && w.svcs.Keys <= r.svcs.Keys <= w.svcs.Keys + ServiceNames(w.name)
            && w.pvcs.Keys <= r.pvcs.Keys && (forall x :: x in w.pvcs ==> r.pvcs[x] == w.pvcs[x])
            && w.pods.Keys <= r.pods.Keys
  {
    if scripts != [] {
      var n := |scripts| - 1;
      ObjectsOnlyGrow(w, scripts[..n]);
      var v := Scripted(Passes(w, scripts[..n]), scripts[n]);
      PassObjects(v);
      PassPods(v);
    }
  }

  lemma UnnamedPod(name: string, spec: Spec, pools: seq<Pool>, pool: string, i: nat)
    requires !Named(pools, pool)
    ensures !HasName(AllPods(name, spec, pools), Layout.PodName(pool, i))
  {
    var pods := AllPods(name, spec, pools);
    forall k | 0 <= k < |pods| ensures pods[k].name != Layout.PodName(pool, i) {
      var q, j := PodOrigin(name, spec, pools, pods[k]);
      if pods[k].name == Layout.PodName(pool, i) {
        Layout.PodNameInjective(pool, i, pools[q].name, j);
      }
    }
  }

  /** A pod that belongs to no pool of a specification is not touched by a pass that reads it. */
  lemma UnnamedPodUntouched(w: World, spec: Spec, r: map<string, Pod>, pool: string, i: nat)
    requires !Named(spec.pools, pool)
    requires PodsWritten(w.pods, r, PodsToCreate(w.name, w.rev, spec), PodsToUpdate(w.name, w.rev, spec))
    ensures var n := Layout.PodName(pool, i); (n in r <==> n in w.pods) && (n in w.pods ==> r[n] == w.pods[n])
  {
    PoolDiff(w.rev, spec, pool);
    forall q | q in spec.pools ensures q.name != pool {
      NamedMember(spec.pools, q);
    }
    UnnamedPod(w.name, spec, AddPools(OldPools(w.rev), spec.pools), pool, i);
    UnnamedPod(w.name, spec, PoolsToUpdate(w.rev, spec), pool, i);
  }

  /** A pool is written only if its name is new or some recorded pool of the name asks for an update. A pool
      whose node selector alone was edited asks for none: its pods are left as they are, whatever fails. */
  lemma UnaskedPoolUntouched(w: World, prev: Spec, pool: string, i: nat)
    requires w.rev == Some(prev) && Named(prev.pools, pool)
    requires forall p, q :: p in prev.pools && q in Call(w.api).api.spec.pools && p.name == q.name == pool ==>
               !MinioServerNeedToUpdate(prev, Call(w.api).api.spec, p, q)
    ensures var n, r := Layout.PodName(pool, i), Reconcile(w).w;
            (n in r.pods <==> n in w.pods) && (n in w.pods ==> r.pods[n] == w.pods[n])
  {
    var spec := Call(w.api).api.spec;
    PassPods(w);
    PoolDiff(w.rev, spec, pool);
    UnnamedPod(w.name, spec, AddPools(prev.pools, spec.pools), pool, i);
    UnnamedPod(w.name, spec, PoolsToUpdate(w.rev, spec), pool, i);
  }

  /** Over every run whose specifications no longer name a pool, that pool's pods are never created, overwritten
      or removed, whatever the revision still records. */
  lemma {:induction false} RemovedPoolUntouched(w: World, scripts: seq<seq<Event>>, pool: string, i: nat)
    requires forall sp :: sp in ReadableSpecs(w, scripts) ==> !Named(sp.pools, pool)
    ensures var n, r := Layout.PodName(pool, i), Passes(w, scripts);
            (n in r.pods <==> n in w.pods) && (n in w.pods ==> r.pods[n] == w.pods[n])
  {
    if scripts != [] {
      var k := |scripts| - 1;
      PassesStep(w, scripts);
      LastRead(w, scripts);
      RemovedPoolUntouched(w, scripts[..k], pool, i);
      var v := Scripted(Passes(w, scripts[..k]), scripts[k]);
      PassPods(v);
      UnnamedPodUntouched(v, Call(v.api).api.spec, Reconcile(v).w.pods, pool, i);
    }
  }

  lemma NothingAdded(name: string, prev: Spec, spec: Spec)
    requires spec.pools == prev.pools
    ensures PodsToCreate(name, Some(prev), spec) == []
  {
    if AddPools(prev.pools, spec.pools) != [] {
      AddPoolsMember(prev.pools, spec.pools, AddPools(prev.pools, spec.pools)[0]);
    }
  }

  /** Once the revision records the specification and while that stays, no pass of any run creates a pod: a pod
      that is missing then stays missing. */
  lemma {:induction false} MissingPodsStayMissing(w: World, scripts: seq<seq<Event>>, spec: Spec)
    requires w.rev == Some(spec) && ReadableSpecs(w, scripts) == {spec}
    ensures Passes(w, scripts).pods.Keys == w.pods.Keys
    ensures Passes(w, scripts).rev == Some(spec)
  {
    if scripts != [] {
      var k := |scripts| - 1;
      PassesStep(w, scripts);
      LastRead(w, scripts);
      PassesReadable(w, scripts[..k]);
      MissingPodsStayMissing(w, scripts[..k], spec);
      NoCreation(Scripted(Passes(w, scripts[..k]), scripts[k]), spec);
    }
  }

  lemma NoCreation(w: World, spec: Spec)
    requires w.rev == Some(spec) && Call(w.api).api.spec == spec
    ensures Reconcile(w).w.pods.Keys == w.pods.Keys && Reconcile(w).w.rev == Some(spec)
  {
    PassPods(w);
    PassObjects(w);
    NothingAdded(w.name, spec, spec);
  }

  // ---------- Distinct names ----------

  predicate DistinctPools(pools: seq<Pool>) {
    forall j, k :: 0 <= j < k < |pools| ==> pools[j].name != pools[k].name
  }

  predicate DistinctNames(pods: seq<Pod>) {
    forall j, k :: 0 <= j < k < |pods| ==> pods[j].name != pods[k].name
  }

  function TotalServers(pools: seq<Pool>): nat {
    if pools == [] then 0 else TotalServers(pools[..|pools| - 1]) + Count(pools[|pools| - 1].servers)
  }

  lemma {:induction false} AllPodsDistinct(name: string, spec: Spec, pools: seq<Pool>)
    requires DistinctPools(pools)
    ensures DistinctNames(AllPods(name, spec, pools)) && |AllPods(name, spec, pools)| == TotalServers(pools)
  {
    if pools != [] {
      var n := |pools| - 1;
      AllPodsDistinct(name, spec, pools[..n]);
      var front, back := AllPods(name, spec, pools[..n]), Layout.Pods(name, spec, pools[n]);
      var all := AllPods(name, spec, pools);
      forall j, k | 0 <= j < k < |all| ensures all[j].name != all[k].name {
        if all[j].name == all[k].name && k >= |front| {
          var i := k - |front|;
          assert all[k] == back[i] == Layout.PodFor(name, spec, pools[n], i);
          if j < |front| {
            assert all[j] == front[j];
            var q, i' := PodOrigin(name, spec, pools[..n], front[j]);
            Layout.PodNameInjective(pools[q].name, i', pools[n].name, i);
          } else {
            assert all[j] == back[j - |front|] == Layout.PodFor(name, spec, pools[n], j - |front|);
            Layout.PodNameInjective(pools[n].name, j - |front|, pools[n].name, i);
          }
        }
      }
    }
  }

  lemma TailNames(pods: seq<Pod>)
    requires pods != []
    ensures forall x :: HasName(pods, x) <==> x == pods[0].name || HasName(pods[1..], x)
    ensures DistinctNames(pods) ==> DistinctNames(pods[1..]) && !HasName(pods[1..], pods[0].name)
  {
    var rest := pods[1..];
    assert forall k :: 0 <= k < |rest| ==> rest[k] == pods[k + 1];
    forall x ensures HasName(pods, x) <==> x == pods[0].name || HasName(rest, x) {
      if HasName(rest, x) {
        var k :| 0 <= k < |rest| && rest[k].name == x;
        assert pods[k + 1].name == x;
      }
      if HasName(pods, x) && x != pods[0].name {
        var k :| 0 <= k < |pods| && pods[k].name == x;
        assert rest[k - 1].name == x;
      }
      assert x == pods[0].name ==> HasName(pods, x);
    }
  }

  /** Creating pods with fresh, distinct names stores exactly them beside what was there. */
  lemma {:induction false} PutNewDistinct(store: map<string, Pod>, pods: seq<Pod>)
    requires DistinctNames(pods) && forall x :: HasName(pods, x) ==> x !in store
    ensures var r := PutNew(store, pods);
            && r.ok && |r.pods| == |store| + |pods|
            && (forall x :: x in store ==> x in r.pods && r.pods[x] == store[x])
            && (forall x :: x in r.pods ==> x in store || HasName(pods, x))
            && Desired(r.pods, pods)
    decreases |pods|
  {
    if pods != [] {
      TailNames(pods);
      var p, rest := pods[0], pods[1..];
      PutNewDistinct(store[p.name := p], rest);
      var r := PutNew(store, pods).pods;
      assert r[p.name] == p;
      forall k | 0 <= k < |pods| ensures pods[k].name in r && r[pods[k].name] == pods[k] {
        if k > 0 {
          assert rest[k - 1] == pods[k];
        }
      }
    }
  }

  ghost predicate NoneIn(pods: seq<Pod>, store: map<string, Pod>) {
    forall k :: 0 <= k < |pods| ==> pods[k].name !in store
  }

  ghost predicate AllIn(pods: seq<Pod>, store: map<string, Pod>) {
    forall k :: 0 <= k < |pods| ==> pods[k].name in store
  }

  /** Every one of `pods` is stored as it is. */
  ghost predicate Desired(store: map<string, Pod>, pods: seq<Pod>) {
    forall k :: 0 <= k < |pods| ==> pods[k].name in store && store[pods[k].name] == pods[k]
  }

  /** Pods of other names keep what they were, and no key comes or goes. */
  lemma {:induction false} PutOverOthers(store: map<string, Pod>, pods: seq<Pod>)
    ensures var r := PutOver(store, pods).pods;
            && r.Keys == store.Keys
            && (forall x :: x in store && !HasName(pods, x) ==> r[x] == store[x])
    decreases |pods|
  {
    if pods != [] && pods[0].name in store {
      TailNames(pods);
      PutOverOthers(store[pods[0].name := pods[0]], pods[1..]);
    }
  }

  /** Pods of one name are one and the same pod. */
  ghost predicate Consistent(pods: seq<Pod>) {
    forall j, k :: 0 <= j < k < |pods| && pods[j].name == pods[k].name ==> pods[j] == pods[k]
  }

  lemma {:induction false} PutOverSucceeds(store: map<string, Pod>, pods: seq<Pod>)
    ensures PutOver(store, pods).ok <==> AllIn(pods, store)
    decreases |pods|
  {
    if pods != [] && pods[0].name in store {
      var next := store[pods[0].name := pods[0]];
      PutOverSucceeds(next, pods[1..]);
      assert AllIn(pods[1..], next) <==> AllIn(pods, store) by {
        assert forall k :: 0 < k < |pods| ==> pods[k] == pods[1..][k - 1];
      }
    }
  }

  lemma {:induction false} PutOverConsistent(store: map<string, Pod>, pods: seq<Pod>)
    requires AllIn(pods, store) && Consistent(pods)
    ensures Desired(PutOver(store, pods).pods, pods)
    decreases |pods|
  {
    if pods != [] {
      var p, rest := pods[0], pods[1..];
      assert forall k :: 0 <= k < |rest| ==> rest[k] == pods[k + 1];
      var next := store[p.name := p];
      PutOverConsistent(next, rest);
      PutOverOthers(next, rest);
      var r := PutOver(store, pods).pods;
      forall k | 0 <= k < |pods| ensures pods[k].name in r && r[pods[k].name] == pods[k] {
        if k > 0 {
          assert rest[k - 1] == pods[k];
        } else if HasName(rest, p.name) {
          var q :| 0 <= q < |rest| && rest[q].name == p.name;
          assert pods[q + 1] == p;
        }
      }
    }
  }

  /** Overwriting gets through exactly when every pod exists, and then each one is as it should be unless two of
      them contradict each other. */
  lemma PutOverReaches(store: map<string, Pod>, pods: seq<Pod>)
    ensures var r := PutOver(store, pods);
            && (r.ok <==> AllIn(pods, store))
            && (Desired(r.pods, pods) <==> AllIn(pods, store) && Consistent(pods))
  {
    PutOverSucceeds(store, pods);
    PutOverOthers(store, pods);
    if AllIn(pods, store) && Consistent(pods) {
      PutOverConsistent(store, pods);
    }
    if Desired(PutOver(store, pods).pods, pods) {
      assert forall k :: 0 <= k < |pods| ==> pods[k].name in PutOver(store, pods).pods.Keys;
    }
  }

  // ---------- Reaching the specification ----------

  lemma {:induction false} AllUpdated(prev: Spec, next: Spec, pools: seq<Pool>)
    requires forall p :: p in pools ==> p in next.pools
    ensures UpdatePools(prev, next, pools) == pools
  {
    if pools != [] {
      var n := |pools| - 1;
      assert pools[n] in pools;
      var k :| 0 <= k < |next.pools| && next.pools[k] == pools[n];
      assert ToUpdate(prev, next, pools[n]);
      forall p | p in pools[..n] ensures p in next.pools {
        assert p in pools;
      }
      AllUpdated(prev, next, pools[..n]);
    }
  }

  /** With the recorded pool list unchanged, whatever else was edited, one pass without faults succeeds if and
      only if every pod of the specification exists, and then brings each to the specification unless two pools
      of one name contradict each other. */
  lemma UnchangedPoolsConverge(w: World, prev: Spec)
    requires FaultFree(w.api.script) && w.api.life.Live?
    requires w.rev == Some(prev) && Call(w.api).api.spec.pools == prev.pools
    ensures var spec, r := Call(w.api).api.spec, Reconcile(w);
            var pods := AllPods(w.name, spec, spec.pools);
            && (r.ok <==> AllIn(pods, w.pods))
            && (Desired(r.w.pods, pods) <==> AllIn(pods, w.pods) && Consistent(pods))
            && r.w.pods.Keys == w.pods.Keys
  {
    FaultFreePass(w);
    var spec := Call(w.api).api.spec;
    NothingAdded(w.name, prev, spec);
    AllUpdated(prev, spec, prev.pools);
    PutOverReaches(w.pods, AllPods(w.name, spec, spec.pools));
    PutOverOthers(w.pods, AllPods(w.name, spec, spec.pools));
  }

  /** Once the specification is recorded, a later pass in which every call succeeds succeeds if and only if no pod
      was missing then, however many passes went before it: a missing pod never heals. */
  lemma MissingPodNeverHeals(w: World, scripts: seq<seq<Event>>, script: seq<Event>, spec: Spec)
    requires w.rev == Some(spec) && w.api.life.Live?
    requires ReadableSpecs(w, scripts) == {spec} && EditedSpecs(script) <= {spec} && FaultFree(script)
    ensures Reconcile(Scripted(Passes(w, scripts), script)).ok <==> AllIn(AllPods(w.name, spec, spec.pools), w.pods)
  {
    MissingPodsStayMissing(w, scripts, spec);
    PassesReadable(w, scripts);
    PassesLive(w, scripts);
    ObjectsOnlyGrow(w, scripts);
    var v := Scripted(Passes(w, scripts), script);
    CallFollows(v.api);
    UnchangedPoolsConverge(v, spec);
    SameKeys(AllPods(w.name, spec, spec.pools), v.pods, w.pods);
  }

  lemma {:induction false} PassesLive(w: World, scripts: seq<seq<Event>>)
    ensures Passes(w, scripts).api.life == w.api.life
  {
    if scripts != [] {
      var k := |scripts| - 1;
      PassesLive(w, scripts[..k]);
      PassStatusWrites(Scripted(Passes(w, scripts[..k]), scripts[k]));
    }
  }

  /** Two passes without faults and without a further edit bring every pod of `spec` to the specification if and
      only if every one exists after the creations of the first, which stop at the first added pod that is there
      already and never enlarge a kept pool. */
  lemma TwoPassesConverge(w: World, first: seq<Event>, second: seq<Event>, spec: Spec)
    requires w.api.life.Live? && FaultFree(first) && FaultFree(second)
    requires ReadableSpecs(w, [first, second]) == {spec}
    ensures var pods := AllPods(w.name, spec, spec.pools);
            var created := PutNew(w.pods, PodsToCreate(w.name, w.rev, spec)).pods;
            Desired(Passes(w, [first, second]).pods, pods) <==> AllIn(pods, created) && Consistent(pods)
  {
    TwoPasses(w, first, second, spec);
    var v1 := Scripted(w, first);
    RecordingPass(v1, spec);
    UnchangedPoolsConverge(Scripted(Reconcile(v1).w, second), spec);
    SameKeys(AllPods(w.name, spec, spec.pools), Reconcile(v1).w.pods,
             PutNew(w.pods, PodsToCreate(w.name, w.rev, spec)).pods);
  }

  lemma RecordingPass(w: World, spec: Spec)
    requires FaultFree(w.api.script) && w.api.life.Live? && Call(w.api).api.spec == spec
    ensures var r := Reconcile(w).w;
            && r.rev == Some(spec) && r.name == w.name && r.api.life.Live?
            && r.pods.Keys == PutNew(w.pods, PodsToCreate(w.name, w.rev, spec)).pods.Keys
  {
    FaultFreePass(w);
    KeysAfterPass(w.pods, w.name, w.rev, spec);
  }

  lemma SameKeys(pods: seq<Pod>, a: map<string, Pod>, b: map<string, Pod>)
    requires a.Keys == b.Keys
    ensures AllIn(pods, a) == AllIn(pods, b)
  {
    assert forall x :: x in a <==> x in a.Keys;
  }

  lemma KeysAfterPass(store: map<string, Pod>, name: string, prev: Option<Spec>, spec: Spec)
    ensures PodStage(store, name, prev, spec).pods.Keys == PutNew(store, PodsToCreate(name, prev, spec)).pods.Keys
  {
    PutOverOthers(PutNew(store, PodsToCreate(name, prev, spec)).pods, PodsToUpdate(name, prev, spec));
  }

  lemma TwoPasses(w: World, first: seq<Event>, second: seq<Event>, spec: Spec)
    requires ReadableSpecs(w, [first, second]) == {spec}
    ensures var v1 := Scripted(w, first);
            var v2 := Scripted(Reconcile(v1).w, second);
            && Passes(w, [first, second]) == Reconcile(v2).w
            && Call(v1.api).api.spec == spec && Call(v2.api).api.spec == spec
  {
    var both, one := [first, second], [first];
    assert both[..1] == one && one[..0] == [];
    TwoInARow(w, first, second);
    PassesStep(w, both);
    LastRead(w, one);
    LastRead(w, both);
  }

  /** Pods of added pools are created when none of them exists yet. */
  lemma FreshPodsCreated(w: World, prev: seq<Pool>, spec: Spec)
    requires DistinctPools(spec.pools)
    requires NoneIn(AllPods(w.name, spec, AddPools(prev, spec.pools)), w.pods)
    ensures var create := AllPods(w.name, spec, AddPools(prev, spec.pools));
            var c := PutNew(w.pods, create);
            c.ok && Desired(c.pods, create) && (forall x :: x in w.pods ==> x in c.pods && c.pods[x] == w.pods[x])
  {
    AddPoolsDistinct(prev, spec.pools);
    AllPodsDistinct(w.name, spec, AddPools(prev, spec.pools));
    var create := AllPods(w.name, spec, AddPools(prev, spec.pools));
    forall x | HasName(create, x) ensures x !in w.pods {
      var k :| 0 <= k < |create| && create[k].name == x;
      assert create[k].name !in w.pods;
    }
    PutNewDistinct(w.pods, create);
  }

  /** The edits an operator is meant to make: every recorded pool that is kept keeps its pods, and the pods of
      added pools are new. After those, two passes always suffice. */
  lemma UsualEditConverges(w: World, first: seq<Event>, second: seq<Event>, spec: Spec)
    requires w.api.life.Live? && FaultFree(first) && FaultFree(second)
    requires ReadableSpecs(w, [first, second]) == {spec} && DistinctPools(spec.pools)
    requires forall p, i: nat :: p in spec.pools && i < Count(p.servers) ==>
               (Layout.PodName(p.name, i) in w.pods <==> Named(OldPools(w.rev), p.name))
    ensures Desired(Passes(w, [first, second]).pods, AllPods(w.name, spec, spec.pools))
  {
    UsualEditCreates(w, spec);
    AllPodsDistinct(w.name, spec, spec.pools);
    TwoPassesConverge(w, first, second, spec);
  }

  lemma UsualEditCreates(w: World, spec: Spec)
    requires DistinctPools(spec.pools)
    requires forall p, i: nat :: p in spec.pools && i < Count(p.servers) ==>
               (Layout.PodName(p.name, i) in w.pods <==> Named(OldPools(w.rev), p.name))
    ensures AllIn(AllPods(w.name, spec, spec.pools), PutNew(w.pods, PodsToCreate(w.name, w.rev, spec)).pods)
  {
    var prev := OldPools(w.rev);
    var added := AddPools(prev, spec.pools);
    var create := PodsToCreate(w.name, w.rev, spec);
    forall k | 0 <= k < |create| ensures create[k].name !in w.pods {
      var q, i := PodOrigin(w.name, spec, added, create[k]);
      AddPoolsMember(prev, spec.pools, added[q]);
    }
    FreshPodsCreated(w, prev, spec);
    var pods := AllPods(w.name, spec, spec.pools);
    forall k | 0 <= k < |pods| ensures pods[k].name in PutNew(w.pods, create).pods {
      var q, i := PodOrigin(w.name, spec, spec.pools, pods[k]);
      var p := spec.pools[q];
      if !Named(prev, p.name) {
        AddPoolsMember(prev, spec.pools, p);
        var q' :| 0 <= q' < |added| && added[q'] == p;
        PodMember(w.name, spec, added, q', i);
        var k' :| 0 <= k' < |create| && create[k'] == pods[k];
      }
    }
  }

  lemma {:induction false} AddPoolsDistinct(prev: seq<Pool>, pools: seq<Pool>)
    requires DistinctPools(pools)
    ensures DistinctPools(AddPools(prev, pools))
  {
    if pools != [] {
      var n := |pools| - 1;
      AddPoolsDistinct(prev, pools[..n]);
      var front := AddPools(prev, pools[..n]);
      forall j | 0 <= j < |front| ensures front[j].name != pools[n].name {
        AddPoolsMember(prev, pools[..n], front[j]);
      }
    }
  }

  /** A first pass over an edited pool list builds the pods of a kept pool from the pool as it was recorded: what
      changed inside the pool is not in them yet. */
  lemma FirstPassUsesRecordedPool(w: World, prev: Spec, pool: Pool, i: nat)
    requires FaultFree(w.api.script) && w.api.life.Live?
    requires w.rev == Some(prev) && DistinctPools(prev.pools)
    requires pool in prev.pools && ToUpdate(prev, Call(w.api).api.spec, pool) && i < Count(pool.servers)
    ensures var n, r := Layout.PodName(pool.name, i), Reconcile(w).w;
            Reconcile(w).ok ==> n in r.pods && r.pods[n] == Layout.PodFor(w.name, Call(w.api).api.spec, pool, i)
  {
    FaultFreePass(w);
    var spec := Call(w.api).api.spec;
    var updated := UpdatePools(prev, spec, prev.pools);
    UpdatePoolsMember(prev, spec, prev.pools, pool);
    UpdatePoolsDistinct(prev, spec, prev.pools);
    AllPodsDistinct(w.name, spec, updated);
    var k :| 0 <= k < |updated| && updated[k] == pool;
    PodMember(w.name, spec, updated, k, i);
    PutOverReaches(PutNew(w.pods, PodsToCreate(w.name, w.rev, spec)).pods, PodsToUpdate(w.name, w.rev, spec));
    var pods := PodsToUpdate(w.name, w.rev, spec);
    var q :| 0 <= q < |pods| && pods[q] == Layout.PodFor(w.name, spec, pool, i);
  }

  lemma {:induction false} UpdatePoolsDistinct(prev: Spec, next: Spec, pools: seq<Pool>)
    requires DistinctPools(pools)
    ensures DistinctPools(UpdatePools(prev, next, pools))
  {
    if pools != [] {
      var n := |pools| - 1;
      UpdatePoolsDistinct(prev, next, pools[..n]);
      var front := UpdatePools(prev, next, pools[..n]);
      forall j | 0 <= j < |front| ensures front[j].name != pools[n].name {
        UpdatePoolsMember(prev, next, pools[..n], front[j]);
      }
    }
  }
}
