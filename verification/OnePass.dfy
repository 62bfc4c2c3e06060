/** When one pass is enough: exactly which edits reach the pods at once, and which need a second pass. */
module OnePass {
  import opened Wrappers
  import opened Types
  import opened StatusStore
  import opened MainPass
  import opened Stages
  import opened PassFacts
  import opened Convergence
  import opened Lifecycle
  import opened PodAccount
  import Layout

  // ---------- What one pass leaves of each pod ----------

  ghost predicate Holds(store: map<string, Pod>, pod: Pod) {
    pod.name in store && store[pod.name] == pod
  }

  /** A pod of a recorded pool that is not updated, or beyond its recorded size, is overwritten by no pass. */
  lemma NotOverwritten(name: string, prev: Spec, spec: Spec, kept: Pool, i: nat)
    requires DistinctPools(prev.pools) && kept in prev.pools
    requires !ToUpdate(prev, spec, kept) || i >= Count(kept.servers)
    ensures !HasName(PodsToUpdate(name, Some(prev), spec), Layout.PodName(kept.name, i))
  {
    var updated, n := UpdatePools(prev, spec, prev.pools), Layout.PodName(kept.name, i);
    var pods := PodsToUpdate(name, Some(prev), spec);
    forall k | 0 <= k < |pods| ensures pods[k].name != n {
      var q, i' := PodOrigin(name, spec, updated, pods[k]);
      UpdatePoolsMember(prev, spec, prev.pools, updated[q]);
      if pods[k].name == n {
        Layout.PodNameInjective(kept.name, i, updated[q].name, i');
        SamePool(prev.pools, kept, updated[q]);
      }
    }
  }

  lemma SamePool(pools: seq<Pool>, p: Pool, q: Pool)
    requires DistinctPools(pools) && p in pools && q in pools && p.name == q.name
    ensures p == q
  {
  }

  lemma NotCreated(name: string, prev: Spec, spec: Spec, kept: Pool, i: nat)
    requires kept in prev.pools
    ensures !HasName(PodsToCreate(name, Some(prev), spec), Layout.PodName(kept.name, i))
  {
    NamedMember(prev.pools, kept);
    PoolDiff(Some(prev), spec, kept.name);
    UnnamedPod(name, spec, AddPools(prev.pools, spec.pools), kept.name, i);
  }

  /** What a successful pass leaves under the name of a recorded pool's pod: the pod of the recorded pool if that is
      updated and has the pod, and otherwise what was there. */
  lemma KeptPod(w: World, prev: Spec, kept: Pool, i: nat)
    requires FaultFree(w.api.script) && w.api.life.Live?
    requires w.rev == Some(prev) && DistinctPools(prev.pools) && kept in prev.pools
    ensures var spec, n, r := Call(w.api).api.spec, Layout.PodName(kept.name, i), Reconcile(w);
            if ToUpdate(prev, spec, kept) && i < Count(kept.servers)
            then r.ok ==> Holds(r.w.pods, Layout.PodFor(w.name, spec, kept, i))
            else (n in r.w.pods <==> n in w.pods) && (n in w.pods ==> r.w.pods[n] == w.pods[n])
  {
    var spec := Call(w.api).api.spec;
    if ToUpdate(prev, spec, kept) && i < Count(kept.servers) {
      FirstPassUsesRecordedPool(w, prev, kept, i);
    } else {
      NotOverwritten(w.name, prev, spec, kept, i);
      NotCreated(w.name, prev, spec, kept, i);
      PassPods(w);
    }
  }

  /** A successful pass stores the pods of added pools as they should be. */
  lemma AddedPod(w: World, prev: Spec, p: Pool, i: nat)
    requires FaultFree(w.api.script) && w.api.life.Live? && w.rev == Some(prev)
    requires p in Call(w.api).api.spec.pools && !Named(prev.pools, p.name) && i < Count(p.servers)
    ensures Reconcile(w).ok ==> Holds(Reconcile(w).w.pods, Layout.PodFor(w.name, Call(w.api).api.spec, p, i))
  {
    var spec := Call(w.api).api.spec;
    FaultFreePass(w);
    AddPoolsMember(prev.pools, spec.pools, p);
    AddedPodBuilt(w.name, prev.pools, spec, p, i);
    AddedPodKept(w.name, Some(prev), spec, p, i);
    AllCreated(w.pods, PodsToCreate(w.name, w.rev, spec));
    PutOverOthers(PutNew(w.pods, PodsToCreate(w.name, w.rev, spec)).pods, PodsToUpdate(w.name, w.rev, spec));
  }

  // ---------- When one pass is enough ----------

  /** The pod of server `i` of a new pool gets through in one pass: the recorded pool of the name is overwritten with
      a pod that happens to be the right one, or is left alone and has the right one already. */
  ghost predicate Arrives(w: World, prev: Spec, spec: Spec, p: Pool, i: nat) {
    forall kept :: kept in prev.pools && kept.name == p.name ==>
      if ToUpdate(prev, spec, kept) && i < Count(kept.servers)
      then Layout.PodFor(w.name, spec, kept, i) == Layout.PodFor(w.name, spec, p, i)
      else Holds(w.pods, Layout.PodFor(w.name, spec, p, i))
  }

  /** After a successful pass a pod is as specified exactly when it arrives, whatever was edited. */
  lemma OnePodIff(w: World, prev: Spec, p: Pool, i: nat)
    requires FaultFree(w.api.script) && w.api.life.Live?
    requires w.rev == Some(prev) && DistinctPools(prev.pools)
    requires p in Call(w.api).api.spec.pools && i < Count(p.servers)
    ensures var spec, r := Call(w.api).api.spec, Reconcile(w);
            r.ok ==> (Holds(r.w.pods, Layout.PodFor(w.name, spec, p, i)) <==> Arrives(w, prev, spec, p, i))
  {
    if Named(prev.pools, p.name) {
      var k :| 0 <= k < |prev.pools| && prev.pools[k].name == p.name;
      var kept := prev.pools[k];
      KeptPod(w, prev, kept, i);
      forall q | q in prev.pools && q.name == p.name ensures q == kept {
        SamePool(prev.pools, q, kept);
      }
    } else {
      forall kept | kept in prev.pools ensures kept.name != p.name {
        NamedMember(prev.pools, kept);
      }
      AddedPod(w, prev, p, i);
    }
  }

  ghost predicate AllArrive(w: World, prev: Spec, spec: Spec) {
    forall p, i: nat :: p in spec.pools && i < Count(p.servers) ==> Arrives(w, prev, spec, p, i)
  }

  /** A pass that gets through, as can be told before it, brings every pod to the specification if and only if every
      one arrives. */
  lemma OnePassConvergesIff(w: World, prev: Spec)
    requires FaultFree(w.api.script) && w.api.life.Live?
    requires w.rev == Some(prev) && DistinctPools(prev.pools)
    ensures var spec, r := Call(w.api).api.spec, Reconcile(w);
            GetsThrough(w, spec) ==>
              r.ok && (Desired(r.w.pods, AllPods(w.name, spec, spec.pools)) <==> AllArrive(w, prev, spec))
  {
    var spec, r := Call(w.api).api.spec, Reconcile(w);
    PassSucceedsIff(w);
    if r.ok {
      DesiredIff(r.w.pods, w.name, spec);
      forall p, i: nat | p in spec.pools && i < Count(p.servers)
        ensures Holds(r.w.pods, Layout.PodFor(w.name, spec, p, i)) <==> Arrives(w, prev, spec, p, i)
      {
        OnePodIff(w, prev, p, i);
      }
    }
  }

  /** Pool by pool and server by server. */
  lemma DesiredIff(store: map<string, Pod>, name: string, spec: Spec)
    ensures Desired(store, AllPods(name, spec, spec.pools)) <==>
            forall p, i: nat :: p in spec.pools && i < Count(p.servers) ==>
              Holds(store, Layout.PodFor(name, spec, p, i))
  {
    var pods := AllPods(name, spec, spec.pools);
    if Desired(store, pods) {
      forall p, i: nat | p in spec.pools && i < Count(p.servers)
        ensures Holds(store, Layout.PodFor(name, spec, p, i))
      {
        var q :| 0 <= q < |spec.pools| && spec.pools[q] == p;
        PodMember(name, spec, spec.pools, q, i);
        var k :| 0 <= k < |pods| && pods[k] == Layout.PodFor(name, spec, p, i);
      }
    }
    if forall p, i: nat :: p in spec.pools && i < Count(p.servers) ==> Holds(store, Layout.PodFor(name, spec, p, i)) {
      forall k | 0 <= k < |pods| ensures pods[k].name in store && store[pods[k].name] == pods[k] {
        var q, i := PodOrigin(name, spec, spec.pools, pods[k]);
        assert Holds(store, Layout.PodFor(name, spec, spec.pools[q], i));
      }
    }
  }

  // ---------- Edits inside a pool ----------

  /** The parts of a pool that its pods show. */
  predicate Looks(p: Pool, q: Pool) {
    && Count(p.volumesPerServer) == Count(q.volumesPerServer)
    && (p.volumesPerServer > 0 ==> p.templateName == q.templateName)
    && p.nodeSelector == q.nodeSelector
    && p.containerSecurityContext == q.containerSecurityContext
  }

  /** Pools of one name have the same pods exactly when they look the same. */
  lemma SamePodsIff(name: string, spec: Spec, p: Pool, q: Pool, i: nat)
    requires p.name == q.name
    ensures Layout.PodFor(name, spec, p, i) == Layout.PodFor(name, spec, q, i) <==> Looks(p, q)
  {
    var a, b := Layout.PodFor(name, spec, p, i), Layout.PodFor(name, spec, q, i);
    if a == b {
      assert |a.volumes| == |b.volumes|;
      if p.volumesPerServer > 0 {
        assert a.volumes[0].name == p.templateName + "0" && b.volumes[0].name == q.templateName + "0";
        assert (p.templateName + "0")[..|p.templateName|] == (q.templateName + "0")[..|p.templateName|];
      }
    }
    if Looks(p, q) {
      assert a.volumes == b.volumes;
      assert Layout.Mounts(spec, p) == Layout.Mounts(spec, q);
    }
  }

  function Edited(prev: Spec, k: nat, pool: Pool): Spec
    requires k < |prev.pools|
  {
    prev.(pools := prev.pools[k := pool])
  }

  /** The recorded pool `old` is replaced by `pool`: same name and size, and a difference that pods show. */
  predicate VisibleEdit(kept: Pool, pool: Pool) {
    pool.name == kept.name && pool.servers == kept.servers && pool.servers > 0 && !Looks(kept, pool)
  }

  /** In a settled cluster every edit inside a pool that its pods show takes exactly two passes, be it of the node
      selector alone, which the first pass does not look at, or of anything else, which the first pass builds from
      the recorded pool. */
  lemma PoolEditTakesTwoPasses(w: World, prev: Spec, k: nat, pool: Pool, first: seq<Event>, second: seq<Event>)
    requires Settled(w, prev) && DistinctPools(prev.pools) && w.api.life.Live?
    requires k < |prev.pools| && VisibleEdit(prev.pools[k], pool)
    requires FaultFree(first) && FaultFree(second) && ReadableSpecs(w, [first, second]) == {Edited(prev, k, pool)}
    ensures var next := Edited(prev, k, pool);
            var pods := AllPods(w.name, next, next.pools);
            && !Desired(Reconcile(Scripted(w, first)).w.pods, pods)
            && Desired(Passes(w, [first, second]).pods, pods)
  {
    TwoPasses(w, first, second, Edited(prev, k, pool));
    FirstPassFallsShort(Scripted(w, first), prev, k, pool);
    EditKeepsPods(w, prev, k, pool);
    UsualEditConverges(w, first, second, Edited(prev, k, pool));
  }

  /** Such a cluster is one pass away from nothing: build it, edit pool `k`, and let two passes run. */
  lemma BuiltThenEdited(w: World, start: seq<Event>, k: nat, pool: Pool, first: seq<Event>, second: seq<Event>)
    requires Empty(w) && w.api.life.Live?
    requires FaultFree(start) && FaultFree(first) && FaultFree(second)
    requires Undisturbed(start) && Undisturbed(first) && Undisturbed(second)
    requires DistinctPools(w.api.spec.pools) && SeparableTemplates(w.api.spec.pools)
    requires k < |w.api.spec.pools| && VisibleEdit(w.api.spec.pools[k], pool)
    ensures var next := Edited(w.api.spec, k, pool);
            var v, pods := AfterEdit(Reconcile(Scripted(w, start)).w, next), AllPods(w.name, next, next.pools);
            && !Desired(Reconcile(Scripted(v, first)).w.pods, pods)
            && Desired(Passes(v, [first, second]).pods, pods)
  {
    var next := Edited(w.api.spec, k, pool);
    var v := AfterEdit(Reconcile(Scripted(w, start)).w, next);
    BuiltSettled(w, start, next);
    OnlySpec(v, first, second);
    PoolEditTakesTwoPasses(v, w.api.spec, k, pool, first, second);
  }

  lemma BuiltSettled(w: World, start: seq<Event>, next: Spec)
    requires Empty(w) && w.api.life.Live? && FaultFree(start) && Undisturbed(start)
    requires DistinctPools(w.api.spec.pools) && SeparableTemplates(w.api.spec.pools)
    ensures var v := AfterEdit(Reconcile(Scripted(w, start)).w, next);
            Settled(v, w.api.spec) && v.name == w.name && v.api.life.Live? && v.api.spec == next
  {
    var v1 := Scripted(w, start);
    UndisturbedCall(v1.api);
    FromEmpty(v1);
    FaultFreePass(v1);
    SettledEdited(Reconcile(v1).w, w.api.spec, next);
  }

  lemma SettledEdited(w: World, spec: Spec, next: Spec)
    requires Settled(w, spec)
    ensures Settled(AfterEdit(w, next), spec)
  {
    assert HasClaims(AfterEdit(w, next)) == HasClaims(w);
  }

  /** With nobody else writing there is only one specification to read. */
  lemma OnlySpec(w: World, first: seq<Event>, second: seq<Event>)
    requires Undisturbed(first) && Undisturbed(second)
    ensures ReadableSpecs(w, [first, second]) == {w.api.spec}
  {
    assert EditedSpecs(first) == {} && EditedSpecs(second) == {};
    assert forall s :: s in [first, second] ==> s == first || s == second;
  }

  lemma FirstPassFallsShort(w: World, prev: Spec, k: nat, pool: Pool)
    requires Settled(w, prev) && DistinctPools(prev.pools) && w.api.life.Live? && FaultFree(w.api.script)
    requires k < |prev.pools| && VisibleEdit(prev.pools[k], pool) && Call(w.api).api.spec == Edited(prev, k, pool)
    ensures !Desired(Reconcile(w).w.pods, AllPods(w.name, Edited(prev, k, pool), Edited(prev, k, pool).pools))
  {
    var next := Edited(prev, k, pool);
    EditedPassSucceeds(w, prev, k, pool);
    assert next.pools[k] == pool && pool in next.pools;
    EditedPodLags(w, prev, k, pool);
    OnePodIff(w, prev, pool, 0);
    DesiredIff(Reconcile(w).w.pods, w.name, next);
  }

  lemma EditedPodLags(w: World, prev: Spec, k: nat, pool: Pool)
    requires Settled(w, prev) && k < |prev.pools| && VisibleEdit(prev.pools[k], pool)
    ensures !Arrives(w, prev, Edited(prev, k, pool), pool, 0)
  {
    var kept, next := prev.pools[k], Edited(prev, k, pool);
    SamePodsIff(w.name, next, kept, pool, 0);
    SettledPod(w, prev, kept, 0);
    assert Layout.PodFor(w.name, prev, kept, 0) == Layout.PodFor(w.name, next, kept, 0);
    assert kept in prev.pools;
  }

  lemma SettledPod(w: World, prev: Spec, p: Pool, i: nat)
    requires Settled(w, prev) && p in prev.pools && i < Count(p.servers)
    ensures Holds(w.pods, Layout.PodFor(w.name, prev, p, i))
  {
    DesiredIff(w.pods, w.name, prev);
  }

  /** The pods of the edited specification are there, under the names of recorded pools. */
  lemma EditKeepsPods(w: World, prev: Spec, k: nat, pool: Pool)
    requires Settled(w, prev) && DistinctPools(prev.pools)
    requires k < |prev.pools| && pool.name == prev.pools[k].name && pool.servers == prev.pools[k].servers
    ensures var next := Edited(prev, k, pool);
            && DistinctPools(next.pools)
            && (forall p :: p in next.pools ==> Named(prev.pools, p.name))
            && (forall p, i: nat :: p in next.pools && i < Count(p.servers) ==> Layout.PodName(p.name, i) in w.pods)
  {
    var next := Edited(prev, k, pool);
    forall p | p in next.pools ensures Named(prev.pools, p.name) {
      var kept := Counterpart(prev, k, pool, p);
    }
    forall p, i: nat | p in next.pools && i < Count(p.servers) ensures Layout.PodName(p.name, i) in w.pods {
      var kept := Counterpart(prev, k, pool, p);
      SettledPod(w, prev, kept, i);
      assert Layout.PodFor(w.name, prev, kept, i).name == Layout.PodName(p.name, i);
    }
  }

  /** The recorded pool behind a pool of the edited list. */
  lemma Counterpart(prev: Spec, k: nat, pool: Pool, p: Pool) returns (kept: Pool)
    requires k < |prev.pools| && pool.name == prev.pools[k].name && p in Edited(prev, k, pool).pools
    ensures kept in prev.pools && kept.name == p.name && Named(prev.pools, p.name)
    ensures pool.servers == prev.pools[k].servers ==> kept.servers == p.servers
  {
    var pools := Edited(prev, k, pool).pools;
    var q :| 0 <= q < |pools| && pools[q] == p;
    kept := prev.pools[q];
    NamedMember(prev.pools, kept);
  }

  lemma EditedPassSucceeds(w: World, prev: Spec, k: nat, pool: Pool)
    requires Settled(w, prev) && DistinctPools(prev.pools) && w.api.life.Live? && FaultFree(w.api.script)
    requires k < |prev.pools| && pool.name == prev.pools[k].name && Call(w.api).api.spec == Edited(prev, k, pool)
    ensures Reconcile(w).ok
  {
    var next := Edited(prev, k, pool);
    forall p | p in next.pools ensures Named(prev.pools, p.name) {
      var kept := Counterpart(prev, k, pool, p);
    }
    SettledPassSucceeds(w, prev);
  }

  /** The first pass over an edited specification always gets through: the pods it adds are new and those it updates
      are there. */
  lemma SettledPassSucceeds(w: World, prev: Spec)
    requires Settled(w, prev) && FaultFree(w.api.script) && w.api.life.Live?
    requires DistinctPools(Call(w.api).api.spec.pools)
    requires AddedPodsNew(w.pods, prev.pools, Call(w.api).api.spec.pools)
    ensures Reconcile(w).ok
  {
    var next := Call(w.api).api.spec;
    PassSucceedsIff(w);
    AddedPodsFresh(w, next);
    AddPoolsDistinct(prev.pools, next.pools);
    AllPodsDistinct(w.name, next, AddPools(prev.pools, next.pools));
    RecordedPodsThere(w, prev, next);
  }

  lemma RecordedPodsThere(w: World, prev: Spec, next: Spec)
    requires Settled(w, prev)
    ensures AllIn(PodsToUpdate(w.name, Some(prev), next), w.pods)
  {
    var pods := PodsToUpdate(w.name, Some(prev), next);
    forall j | 0 <= j < |pods| ensures pods[j].name in w.pods {
      var q, i := PodOrigin(w.name, next, PoolsToUpdate(Some(prev), next), pods[j]);
      var kept := PoolsToUpdate(Some(prev), next)[q];
      UpdatePoolsMember(prev, next, prev.pools, kept);
      SettledPod(w, prev, kept, i);
    }
  }

  /** An edit of a pool's node selector and nothing else leaves that pool's pods as they are in the pass that sees
      it, whatever fails and whoever interferes. */
  lemma SelectorEditIgnored(w: World, prev: Spec, k: nat, selector: Labels, i: nat)
    requires w.rev == Some(prev) && DistinctPools(prev.pools)
    requires k < |prev.pools| && selector != prev.pools[k].nodeSelector
    requires Call(w.api).api.spec == Edited(prev, k, prev.pools[k].(nodeSelector := selector))
    ensures var n, r := Layout.PodName(prev.pools[k].name, i), Reconcile(w).w;
            (n in r.pods <==> n in w.pods) && (n in w.pods ==> r.pods[n] == w.pods[n])
  {
    var kept, next := prev.pools[k], Call(w.api).api.spec;
    NamedMember(prev.pools, kept);
    assert DistinctPools(next.pools);
    forall p, q | p in prev.pools && q in next.pools && p.name == q.name == kept.name
      ensures !MinioServerNeedToUpdate(prev, next, p, q)
    {
      SamePool(prev.pools, p, kept);
      SamePool(next.pools, q, next.pools[k]);
    }
    UnaskedPoolUntouched(w, prev, kept.name, i);
  }

  // ---------- Pools that grow ----------

  /** The pods of kept pools are there, in their new number. */
  ghost predicate KeptPodsThere(pods: map<string, Pod>, prev: seq<Pool>, pools: seq<Pool>) {
    forall p, i: nat :: p in pools && Named(prev, p.name) && i < Count(p.servers) ==> Layout.PodName(p.name, i) in pods
  }

  /** After a successful pass the pods of the specification are there exactly when those of kept pools were before. */
  lemma AllThereIff(w: World, next: Spec)
    requires FaultFree(w.api.script) && w.api.life.Live? && DistinctPools(OldPools(w.rev))
    requires Call(w.api).api.spec == next && Reconcile(w).ok
    ensures AllIn(AllPods(w.name, next, next.pools), Reconcile(w).w.pods) <==>
            KeptPodsThere(w.pods, OldPools(w.rev), next.pools)
  {
    var r, prev := Reconcile(w).w, OldPools(w.rev);
    var create := PodsToCreate(w.name, w.rev, next);
    var k, j := PassAccount(w);
    assert create[..k] == create;
    forall p, i: nat | p in next.pools && i < Count(p.servers)
      ensures Layout.PodName(p.name, i) in r.pods <==> (Named(prev, p.name) ==> Layout.PodName(p.name, i) in w.pods)
    {
      if Named(prev, p.name) {
        PoolDiff(w.rev, next, p.name);
        UnnamedPod(w.name, next, AddPools(prev, next.pools), p.name, i);
      } else {
        AddPoolsMember(prev, next.pools, p);
        AddedPodBuilt(w.name, prev, next, p, i);
      }
    }
    AllInIff(r.pods, w.name, next);
  }

  /** Pool by pool and server by server. */
  lemma AllInIff(store: map<string, Pod>, name: string, spec: Spec)
    ensures AllIn(AllPods(name, spec, spec.pools), store) <==>
            forall p, i: nat :: p in spec.pools && i < Count(p.servers) ==> Layout.PodName(p.name, i) in store
  {
    var pods := AllPods(name, spec, spec.pools);
    if AllIn(pods, store) {
      forall p, i: nat | p in spec.pools && i < Count(p.servers) ensures Layout.PodName(p.name, i) in store {
        var q :| 0 <= q < |spec.pools| && spec.pools[q] == p;
        PodMember(name, spec, spec.pools, q, i);
        var k :| 0 <= k < |pods| && pods[k] == Layout.PodFor(name, spec, p, i);
      }
    }
    if forall p, i: nat :: p in spec.pools && i < Count(p.servers) ==> Layout.PodName(p.name, i) in store {
      forall k | 0 <= k < |pods| ensures pods[k].name in store {
        var q, i := PodOrigin(name, spec, spec.pools, pods[k]);
        assert Layout.PodName(spec.pools[q].name, i) in store;
      }
    }
  }

  /** After an edit of a settled cluster, whatever was edited, the pass that sees it succeeds, and every later one
      over that specification, after however many passes, succeeds if and only if no kept pool has grown beyond
      the pods that were there. */
  lemma LaterPassesSucceedIff(w: World, prev: Spec, next: Spec, scripts: seq<seq<Event>>, script: seq<Event>)
    requires Settled(w, prev) && FaultFree(w.api.script) && w.api.life.Live? && Call(w.api).api.spec == next
    requires DistinctPools(prev.pools) && DistinctPools(next.pools) && AddedPodsNew(w.pods, prev.pools, next.pools)
    ensures var r := Reconcile(w);
            && r.ok
            && (ReadableSpecs(r.w, scripts) == {next} && EditedSpecs(script) <= {next} && FaultFree(script) ==>
                  (Reconcile(Scripted(Passes(r.w, scripts), script)).ok <==>
                     KeptPodsThere(w.pods, prev.pools, next.pools)))
  {
    SettledPassSucceeds(w, prev);
    FaultFreePass(w);
    AllThereIff(w, next);
    var r := Reconcile(w).w;
    if ReadableSpecs(r, scripts) == {next} && EditedSpecs(script) <= {next} && FaultFree(script) {
      MissingPodNeverHeals(r, scripts, script, next);
    }
  }

  /** From nothing: once any pool of a built cluster has been enlarged, the pass that sees it succeeds, and after it
      none over that specification ever does. */
  lemma EnlargedPoolNeverRecovers(w: World, start: seq<Event>, k: nat, pool: Pool, first: seq<Event>,
                                  scripts: seq<seq<Event>>, script: seq<Event>)
    requires Empty(w) && w.api.life.Live? && FaultFree(start) && Undisturbed(start) && FaultFree(first)
    requires DistinctPools(w.api.spec.pools) && SeparableTemplates(w.api.spec.pools)
    requires k < |w.api.spec.pools| && pool.name == w.api.spec.pools[k].name
    requires Count(pool.servers) > Count(w.api.spec.pools[k].servers) && Undisturbed(first)
    ensures var next := Edited(w.api.spec, k, pool);
            var r := Reconcile(Scripted(AfterEdit(Reconcile(Scripted(w, start)).w, next), first));
            && r.ok && r.w.rev == Some(next)
            && (ReadableSpecs(r.w, scripts) == {next} && EditedSpecs(script) <= {next} && FaultFree(script) ==>
                  !Reconcile(Scripted(Passes(r.w, scripts), script)).ok)
  {
    var prev, next := w.api.spec, Edited(w.api.spec, k, pool);
    var v := Scripted(AfterEdit(Reconcile(Scripted(w, start)).w, next), first);
    BuiltSettled(w, start, next);
    SettledEdited(AfterEdit(Reconcile(Scripted(w, start)).w, next), prev, next);
    UndisturbedCall(v.api);
    assert Settled(v, prev) by {
      assert HasClaims(v) == HasClaims(AfterEdit(Reconcile(Scripted(w, start)).w, next));
    }
    NoneAdded(prev, k, pool);
    LaterPassesSucceedIff(v, prev, next, scripts, script);
    FaultFreePass(v);
    GrownPodAbsent(w, start, k, pool.name);
    assert next.pools[k] == pool && pool in next.pools;
    NamedMember(prev.pools, prev.pools[k]);
    assert Layout.PodName(pool.name, Count(prev.pools[k].servers)) !in v.pods;
  }

  /** An edit of one pool that keeps its name adds none. */
  lemma NoneAdded(prev: Spec, k: nat, pool: Pool)
    requires DistinctPools(prev.pools) && k < |prev.pools| && pool.name == prev.pools[k].name
    ensures var next := Edited(prev, k, pool);
            DistinctPools(next.pools) && forall p :: p in next.pools ==> Named(prev.pools, p.name)
  {
    forall p | p in Edited(prev, k, pool).pools ensures Named(prev.pools, p.name) {
      var kept := Counterpart(prev, k, pool, p);
    }
  }

  /** A first pass stores no pod beyond the size of its pool. */
  lemma GrownPodAbsent(w: World, start: seq<Event>, k: nat, name: string)
    requires Empty(w) && w.api.life.Live? && Undisturbed(start)
    requires DistinctPools(w.api.spec.pools) && k < |w.api.spec.pools| && name == w.api.spec.pools[k].name
    ensures Layout.PodName(name, Count(w.api.spec.pools[k].servers)) !in Reconcile(Scripted(w, start)).w.pods
  {
    var v, spec := Scripted(w, start), w.api.spec;
    var n := Layout.PodName(name, Count(spec.pools[k].servers));
    UndisturbedCall(v.api);
    PassPods(v);
    AllAdded(spec.pools);
    var pods := AllPods(w.name, spec, spec.pools);
    if HasName(pods, n) {
      var q :| 0 <= q < |pods| && pods[q].name == n;
      var p, i := PodOrigin(w.name, spec, spec.pools, pods[q]);
      Layout.PodNameInjective(name, Count(spec.pools[k].servers), spec.pools[p].name, i);
      SamePool(spec.pools, spec.pools[k], spec.pools[p]);
    }
  }
}
