/** What becomes of the claims the pods refer to: when they are all stored, and exactly which edits break that. */
module Closure {
  import opened Wrappers
  import opened Types
  import opened StatusStore
  import opened MainPass
  import opened Stages
  import opened PassFacts
  import opened Convergence
  import opened Lifecycle
  import opened PodAccount
  import opened OnePass
  import Layout

  // ---------- Closed clusters ----------

  /** Every claim a stored pod refers to is stored. */
  ghost predicate Closed(pods: map<string, Pod>, pvcs: map<string, Claim>) {
    forall n, k :: n in pods && 0 <= k < |pods[n].volumes| ==> pods[n].volumes[k].claim in pvcs
  }

  /** Every claim of these pools is stored. */
  ghost predicate Ready(pvcs: map<string, Claim>, name: string, pools: seq<Pool>) {
    forall k, i: nat, j: nat ::
      0 <= k < |pools| && i < Count(pools[k].servers) && j < Count(pools[k].volumesPerServer) ==>
        Layout.ClaimName(name, pools[k].name, i, pools[k].templateName, j) in pvcs
  }

  lemma ReadyPods(pvcs: map<string, Claim>, name: string, spec: Spec, pools: seq<Pool>, p: Pod)
    requires Ready(pvcs, name, pools) && p in AllPods(name, spec, pools)
    ensures forall k :: 0 <= k < |p.volumes| ==> p.volumes[k].claim in pvcs
  {
    var k, i := PodOrigin(name, spec, pools, p);
  }

  lemma ReadySubset(pvcs: map<string, Claim>, name: string, pools: seq<Pool>, some: seq<Pool>)
    requires Ready(pvcs, name, pools) && forall p :: p in some ==> p in pools
    ensures Ready(pvcs, name, some)
  {
    forall k, i: nat, j: nat |
      0 <= k < |some| && i < Count(some[k].servers) && j < Count(some[k].volumesPerServer)
      ensures Layout.ClaimName(name, some[k].name, i, some[k].templateName, j) in pvcs
    {
      assert some[k] in pools;
      var q :| 0 <= q < |pools| && pools[q] == some[k];
      assert Layout.ClaimName(name, pools[q].name, i, pools[q].templateName, j) in pvcs;
    }
  }

  lemma ReadyLater(before: map<string, Claim>, after: map<string, Claim>, name: string, pools: seq<Pool>)
    requires Ready(before, name, pools) && before.Keys <= after.Keys
    ensures Ready(after, name, pools)
  {
  }

  /** A pass ends closed when the claims of the pools it may write pods for are stored by its end. */
  lemma PassCloses(w: World)
    requires Closed(w.pods, w.pvcs)
    ensures var added, r := AddPools(OldPools(w.rev), Call(w.api).api.spec.pools), Reconcile(w).w;
            Ready(r.pvcs, w.name, added) && Ready(r.pvcs, w.name, OldPools(w.rev)) ==> Closed(r.pods, r.pvcs)
  {
    var spec, r := Call(w.api).api.spec, Reconcile(w).w;
    var added := AddPools(OldPools(w.rev), spec.pools);
    PassObjects(w);
    PassPods(w);
    if Ready(r.pvcs, w.name, added) && Ready(r.pvcs, w.name, OldPools(w.rev)) {
      forall p | p in PoolsToUpdate(w.rev, spec) ensures p in OldPools(w.rev) {
        UpdatePoolsMember(w.rev.value, spec, w.rev.value.pools, p);
      }
      ReadySubset(r.pvcs, w.name, OldPools(w.rev), PoolsToUpdate(w.rev, spec));
      forall n, k | n in r.pods && 0 <= k < |r.pods[n].volumes|
        ensures r.pods[n].volumes[k].claim in r.pvcs
      {
        WrittenPodClosed(w, spec, r, n);
      }
    }
  }

  lemma WrittenPodClosed(w: World, spec: Spec, r: World, n: string)
    requires Closed(w.pods, w.pvcs) && w.pvcs.Keys <= r.pvcs.Keys && n in r.pods
    requires PodsWritten(w.pods, r.pods, PodsToCreate(w.name, w.rev, spec), PodsToUpdate(w.name, w.rev, spec))
    requires Ready(r.pvcs, w.name, AddPools(OldPools(w.rev), spec.pools))
    requires Ready(r.pvcs, w.name, PoolsToUpdate(w.rev, spec))
    ensures forall k :: 0 <= k < |r.pods[n].volumes| ==> r.pods[n].volumes[k].claim in r.pvcs
  {
    if r.pods[n] in PodsToCreate(w.name, w.rev, spec) {
      ReadyPods(r.pvcs, w.name, spec, AddPools(OldPools(w.rev), spec.pools), r.pods[n]);
    } else if r.pods[n] in PodsToUpdate(w.name, w.rev, spec) {
      ReadyPods(r.pvcs, w.name, spec, PoolsToUpdate(w.rev, spec), r.pods[n]);
    } else {
      assert n in w.pods && r.pods[n] == w.pods[n];
    }
  }

  /** When the claims of the pools a pass may write pods for are stored, the pass keeps closure. */
  lemma PassKeepsClosure(w: World)
    requires Closed(w.pods, w.pvcs)
    requires var spec := Call(w.api).api.spec;
             Ready(w.pvcs, w.name, AddPools(OldPools(w.rev), spec.pools)) && Ready(w.pvcs, w.name, OldPools(w.rev))
    ensures Closed(Reconcile(w).w.pods, Reconcile(w).w.pvcs)
  {
    PassObjects(w);
    ReadyLater(w.pvcs, Reconcile(w).w.pvcs, w.name, AddPools(OldPools(w.rev), Call(w.api).api.spec.pools));
    ReadyLater(w.pvcs, Reconcile(w).w.pvcs, w.name, OldPools(w.rev));
    PassCloses(w);
  }

  lemma AllClaimsReady(pvcs: map<string, Claim>, name: string, spec: Spec)
    ensures Ready(InsertMissing(pvcs, AllClaims(name, spec, spec.pools)), name, spec.pools)
  {
    InsertMissingAll(pvcs, AllClaims(name, spec, spec.pools));
    forall k, i: nat, j: nat |
      0 <= k < |spec.pools| && i < Count(spec.pools[k].servers) && j < Count(spec.pools[k].volumesPerServer)
      ensures Layout.ClaimName(name, spec.pools[k].name, i, spec.pools[k].templateName, j) in
              InsertMissing(pvcs, AllClaims(name, spec, spec.pools))
    {
      ClaimMember(name, spec, spec.pools, k, i, j);
    }
  }

  /** With no claims of this MinIO stored, the pass creates those of the whole specification. */
  lemma CreatedClaimsClose(w: World)
    requires FaultFree(w.api.script) && w.api.life.Live? && !HasClaims(w)
    requires Closed(w.pods, w.pvcs) && Ready(w.pvcs, w.name, OldPools(w.rev))
    ensures Closed(Reconcile(w).w.pods, Reconcile(w).w.pvcs)
  {
    var spec, r := Call(w.api).api.spec, Reconcile(w).w;
    FaultFreePass(w);
    AllClaimsReady(w.pvcs, w.name, spec);
    InsertMissingAll(w.pvcs, AllClaims(w.name, spec, spec.pools));
    ReadyLater(w.pvcs, r.pvcs, w.name, OldPools(w.rev));
    forall p | p in AddPools(OldPools(w.rev), spec.pools) ensures p in spec.pools {
      AddPoolsMember(OldPools(w.rev), spec.pools, p);
    }
    ReadySubset(r.pvcs, w.name, spec.pools, AddPools(OldPools(w.rev), spec.pools));
    PassCloses(w);
  }

  /** The first pass without faults, over a cluster with no pods and no claims of this MinIO, ends closed. */
  lemma FirstPassCloses(w: World)
    requires FaultFree(w.api.script) && w.api.life.Live?
    requires w.rev == None && w.pods == map[] && !HasClaims(w)
    ensures var r, pools := Reconcile(w).w, Call(w.api).api.spec.pools;
            Closed(r.pods, r.pvcs) && Ready(r.pvcs, w.name, pools)
  {
    FaultFreePass(w);
    AllClaimsReady(w.pvcs, w.name, Call(w.api).api.spec);
    CreatedClaimsClose(w);
  }

  /** From then on closure lasts over every run, whatever fails and whatever is edited, as long as the pool list
      is not. */
  lemma {:induction false} ClosureLasts(w: World, scripts: seq<seq<Event>>, pools: seq<Pool>)
    requires Closed(w.pods, w.pvcs) && Ready(w.pvcs, w.name, pools)
    requires w.rev.Some? ==> w.rev.value.pools == pools
    requires forall sp :: sp in ReadableSpecs(w, scripts) ==> sp.pools == pools
    ensures var r := Passes(w, scripts);
            && Closed(r.pods, r.pvcs) && Ready(r.pvcs, w.name, pools)
            && (r.rev.Some? ==> r.rev.value.pools == pools)
  {
    if scripts != [] {
      var n := |scripts| - 1;
      PassesStep(w, scripts);
      LastRead(w, scripts);
      ClosureLasts(w, scripts[..n], pools);
      ObjectsOnlyGrow(w, scripts[..n]);
      var v := Scripted(Passes(w, scripts[..n]), scripts[n]);
      forall p | p in AddPools(OldPools(v.rev), pools) ensures p in pools {
        AddPoolsMember(OldPools(v.rev), pools, p);
      }
      ReadySubset(v.pvcs, w.name, pools, AddPools(OldPools(v.rev), pools));
      PassKeepsClosure(v);
      PassObjects(v);
    }
  }

  // ---------- One pass ----------

  /** The claims that are stored when a pass comes to the pods: those there were, or, if there were none of this
      MinIO, those of the whole specification as well. */
  function ClaimsFor(w: World, spec: Spec): map<string, Claim> {
    if HasClaims(w) then w.pvcs else InsertMissing(w.pvcs, AllClaims(w.name, spec, spec.pools))
  }

  /** Every claim these pods refer to is stored. */
  ghost predicate Claimed(pods: seq<Pod>, pvcs: map<string, Claim>) {
    forall k, v :: 0 <= k < |pods| && 0 <= v < |pods[k].volumes| ==> pods[k].volumes[v].claim in pvcs
  }

  lemma ClaimedIffReady(name: string, spec: Spec, pools: seq<Pool>, pvcs: map<string, Claim>)
    ensures Claimed(AllPods(name, spec, pools), pvcs) <==> Ready(pvcs, name, pools)
  {
    var pods := AllPods(name, spec, pools);
    if Claimed(pods, pvcs) {
      forall k, i: nat, j: nat |
        0 <= k < |pools| && i < Count(pools[k].servers) && j < Count(pools[k].volumesPerServer)
        ensures Layout.ClaimName(name, pools[k].name, i, pools[k].templateName, j) in pvcs
      {
        PodMember(name, spec, pools, k, i);
        var q :| 0 <= q < |pods| && pods[q] == Layout.PodFor(name, spec, pools[k], i);
        assert pods[q].volumes[j] == Layout.VolumeFor(name, pools[k], i, j);
      }
    }
    if Ready(pvcs, name, pools) {
      forall k, v | 0 <= k < |pods| && 0 <= v < |pods[k].volumes| ensures pods[k].volumes[v].claim in pvcs {
        ReadyPods(pvcs, name, spec, pools, pods[k]);
      }
    }
  }

  /** Every claim a stored pod refers to is stored, except perhaps for pods with these names. */
  ghost predicate ClosedBut(pods: map<string, Pod>, pvcs: map<string, Claim>, names: seq<Pod>) {
    forall n, v :: n in pods && !HasName(names, n) && 0 <= v < |pods[n].volumes| ==> pods[n].volumes[v].claim in pvcs
  }

  /** When what is not overwritten is closed, the outcome is exactly when the claims of the written pods are stored. */
  lemma ClosedIffClaimed(before: map<string, Pod>, after: map<string, Pod>, create: seq<Pod>, update: seq<Pod>,
                         pvcs: map<string, Claim>)
    requires ClosedBut(before, pvcs, update) && Did(before, after, create, update)
    ensures Closed(after, pvcs) <==> Claimed(create, pvcs) && Claimed(update, pvcs)
  {
    if Closed(after, pvcs) {
      forall k, v | 0 <= k < |create| && 0 <= v < |create[k].volumes| ensures create[k].volumes[v].claim in pvcs {
        assert after[create[k].name] == create[k];
      }
      forall k, v | 0 <= k < |update| && 0 <= v < |update[k].volumes| ensures update[k].volumes[v].claim in pvcs {
        assert after[update[k].name] == update[k];
      }
    }
    if Claimed(create, pvcs) && Claimed(update, pvcs) {
      forall n, v | n in after && 0 <= v < |after[n].volumes| ensures after[n].volumes[v].claim in pvcs {
        WrittenClaimed(before, after, create, update, pvcs, n);
      }
    }
  }

  lemma WrittenClaimed(before: map<string, Pod>, after: map<string, Pod>, create: seq<Pod>, update: seq<Pod>,
                       pvcs: map<string, Claim>, n: string)
    requires ClosedBut(before, pvcs, update) && Did(before, after, create, update) && n in after
    requires Claimed(create, pvcs) && Claimed(update, pvcs)
    ensures forall v :: 0 <= v < |after[n].volumes| ==> after[n].volumes[v].claim in pvcs
  {
    if HasName(update, n) {
      var k :| 0 <= k < |update| && update[k].name == n;
    } else if n in before {
      assert after[n] == before[n];
    } else {
      var k :| 0 <= k < |create| && create[k].name == n;
    }
  }

  /** After a pass over a closed cluster, wherever it stops, the cluster is closed if and only if the claims of the pods
      it has written are stored. */
  lemma PassClosesIff(w: World) returns (k: nat, j: nat)
    requires FaultFree(w.api.script) && w.api.life.Live? && DistinctPools(OldPools(w.rev))
    requires Closed(w.pods, w.pvcs)
    ensures var spec, r := Call(w.api).api.spec, Reconcile(w);
            var create, update := PodsToCreate(w.name, w.rev, spec), PodsToUpdate(w.name, w.rev, spec);
            && StopsAt(w.pods, create, update, k, j)
            && r.w.pvcs == ClaimsFor(w, spec)
            && (Closed(r.w.pods, r.w.pvcs) <==>
                  Claimed(create[..k], ClaimsFor(w, spec)) && Claimed(update[..j], ClaimsFor(w, spec)))
  {
    var spec, r := Call(w.api).api.spec, Reconcile(w).w;
    var create, update := PodsToCreate(w.name, w.rev, spec), PodsToUpdate(w.name, w.rev, spec);
    FaultFreePass(w);
    InsertMissingAll(w.pvcs, AllClaims(w.name, spec, spec.pools));
    k, j := PassAccount(w);
    ClosedIffClaimed(w.pods, r.pods, create[..k], update[..j], r.pvcs);
  }

  /** After a pass that gets through, the cluster is closed if and only if the claims of all added pools and of all
      updated ones, as they were recorded, are stored. */
  lemma SuccessfulPassClosesIff(w: World)
    requires FaultFree(w.api.script) && w.api.life.Live? && DistinctPools(OldPools(w.rev))
    requires Closed(w.pods, w.pvcs) && GetsThrough(w, Call(w.api).api.spec)
    ensures var spec, r := Call(w.api).api.spec, Reconcile(w);
            && r.w.pvcs == ClaimsFor(w, spec)
            && (Closed(r.w.pods, r.w.pvcs) <==>
                  && Ready(ClaimsFor(w, spec), w.name, AddPools(OldPools(w.rev), spec.pools))
                  && Ready(ClaimsFor(w, spec), w.name, PoolsToUpdate(w.rev, spec)))
  {
    var spec := Call(w.api).api.spec;
    var create, update := PodsToCreate(w.name, w.rev, spec), PodsToUpdate(w.name, w.rev, spec);
    var k, j := PassClosesIff(w);
    EndReached(w.pods, create, update, k, j);
    assert create[..k] == create && update[..j] == update;
    ClaimedIffReady(w.name, spec, AddPools(OldPools(w.rev), spec.pools), ClaimsFor(w, spec));
    ClaimedIffReady(w.name, spec, PoolsToUpdate(w.rev, spec), ClaimsFor(w, spec));
  }

  lemma EndReached(store: map<string, Pod>, create: seq<Pod>, update: seq<Pod>, k: nat, j: nat)
    requires StopsAt(store, create, update, k, j)
    requires NoneIn(create, store) && DistinctNames(create) && AllIn(update, store)
    ensures k == |create| && j == |update|
  {
  }

  // ---------- Edits of a closed cluster ----------

  /** A settled cluster that is closed has the claims of all its pools. */
  lemma SettledReady(w: World, prev: Spec)
    requires Settled(w, prev) && Closed(w.pods, w.pvcs)
    ensures Ready(w.pvcs, w.name, prev.pools)
  {
    var pods := AllPods(w.name, prev, prev.pools);
    assert Claimed(pods, w.pvcs) by {
      forall k, v | 0 <= k < |pods| && 0 <= v < |pods[k].volumes| ensures pods[k].volumes[v].claim in w.pvcs {
        assert w.pods[pods[k].name] == pods[k];
      }
    }
    ClaimedIffReady(w.name, prev, prev.pools, w.pvcs);
  }

  lemma ClaimsForReady(w: World, spec: Spec, pools: seq<Pool>)
    ensures w.pvcs.Keys <= ClaimsFor(w, spec).Keys
    ensures Ready(w.pvcs, w.name, pools) ==> Ready(ClaimsFor(w, spec), w.name, pools)
    ensures !HasClaims(w) ==> Ready(ClaimsFor(w, spec), w.name, spec.pools)
  {
    InsertMissingAll(w.pvcs, AllClaims(w.name, spec, spec.pools));
    AllClaimsReady(w.pvcs, w.name, spec);
    if Ready(w.pvcs, w.name, pools) {
      ReadyLater(w.pvcs, ClaimsFor(w, spec), w.name, pools);
    }
  }

  /** The pass that sees an edit of a settled and closed cluster still builds updated pods from recorded pools, so it
      ends closed if and only if the claims of added pools are stored or the MinIO had none. */
  lemma FirstPassAfterEdit(w: World, prev: Spec)
    requires Settled(w, prev) && Closed(w.pods, w.pvcs) && FaultFree(w.api.script) && w.api.life.Live?
    requires DistinctPools(prev.pools) && DistinctPools(Call(w.api).api.spec.pools)
    requires AddedPodsNew(w.pods, prev.pools, Call(w.api).api.spec.pools)
    ensures var next, r := Call(w.api).api.spec, Reconcile(w).w;
            && r.pvcs == ClaimsFor(w, next)
            && (Closed(r.pods, r.pvcs) <==> Ready(ClaimsFor(w, next), w.name, AddPools(prev.pools, next.pools)))
  {
    var next := Call(w.api).api.spec;
    SettledPassSucceeds(w, prev);
    PassSucceedsIff(w);
    SuccessfulPassClosesIff(w);
    SettledReady(w, prev);
    ClaimsForReady(w, next, prev.pools);
    forall p | p in PoolsToUpdate(w.rev, next) ensures p in prev.pools {
      UpdatePoolsMember(prev, next, prev.pools, p);
    }
    ReadySubset(ClaimsFor(w, next), w.name, prev.pools, PoolsToUpdate(w.rev, next));
  }

  /** What the pass that sees an edit leaves under names the new specification does not have is closed. */
  lemma LeftoversClosed(w: World, prev: Spec)
    requires Settled(w, prev) && Closed(w.pods, w.pvcs) && FaultFree(w.api.script) && w.api.life.Live?
    requires DistinctPools(prev.pools)
    ensures var next, r := Call(w.api).api.spec, Reconcile(w).w;
            ClosedBut(r.pods, r.pvcs, AllPods(w.name, next, next.pools))
  {
    var next, r := Call(w.api).api.spec, Reconcile(w).w;
    PassObjects(w);
    PassPods(w);
    SettledReady(w, prev);
    ReadyLater(w.pvcs, r.pvcs, w.name, prev.pools);
    forall p | p in PoolsToUpdate(w.rev, next) ensures p in prev.pools {
      UpdatePoolsMember(prev, next, prev.pools, p);
    }
    ReadySubset(r.pvcs, w.name, prev.pools, PoolsToUpdate(w.rev, next));
    forall n, v | n in r.pods && !HasName(AllPods(w.name, next, next.pools), n) && 0 <= v < |r.pods[n].volumes|
      ensures r.pods[n].volumes[v].claim in r.pvcs
    {
      if r.pods[n] in PodsToUpdate(w.name, w.rev, next) {
        ReadyPods(r.pvcs, w.name, next, PoolsToUpdate(w.rev, next), r.pods[n]);
      } else if r.pods[n] in PodsToCreate(w.name, w.rev, next) && r.pods[n].name == n {
        CreatedNames(w.name, prev.pools, next, r.pods[n]);
      }
    }
  }

  lemma CreatedNames(name: string, prev: seq<Pool>, next: Spec, pod: Pod)
    requires pod in AllPods(name, next, AddPools(prev, next.pools))
    ensures HasName(AllPods(name, next, next.pools), pod.name)
  {
    var q, i := PodOrigin(name, next, AddPools(prev, next.pools), pod);
    var p := AddPools(prev, next.pools)[q];
    AddPoolsMember(prev, next.pools, p);
    var k :| 0 <= k < |next.pools| && next.pools[k] == p;
    PodMember(name, next, next.pools, k, i);
  }

  /** A pass over the recorded specification that gets through closes exactly when all its claims are stored. */
  lemma RecordedPassClosesIff(w: World, next: Spec)
    requires FaultFree(w.api.script) && w.api.life.Live? && DistinctPools(next.pools)
    requires w.rev == Some(next) && Call(w.api).api.spec == next
    requires AllIn(AllPods(w.name, next, next.pools), w.pods)
    requires ClosedBut(w.pods, w.pvcs, AllPods(w.name, next, next.pools))
    ensures var r := Reconcile(w).w;
            Closed(r.pods, r.pvcs) <==> Ready(ClaimsFor(w, next), w.name, next.pools)
  {
    var pods, r := AllPods(w.name, next, next.pools), Reconcile(w).w;
    RecordedPassDid(w, next);
    ClosedIffClaimed(w.pods, r.pods, [], pods, r.pvcs);
    ClaimedIffReady(w.name, next, next.pools, r.pvcs);
  }

  lemma RecordedPassDid(w: World, next: Spec)
    requires FaultFree(w.api.script) && w.api.life.Live? && DistinctPools(next.pools)
    requires w.rev == Some(next) && Call(w.api).api.spec == next
    requires AllIn(AllPods(w.name, next, next.pools), w.pods)
    ensures var r := Reconcile(w).w;
            && Did(w.pods, r.pods, [], AllPods(w.name, next, next.pools))
            && r.pvcs == ClaimsFor(w, next) && w.pvcs.Keys <= r.pvcs.Keys
  {
    var pods := AllPods(w.name, next, next.pools);
    FaultFreePass(w);
    NothingAdded(w.name, next, next);
    AllUpdated(next, next, next.pools);
    var k, j := PassAccount(w);
    EndReached(w.pods, [], pods, k, j);
    assert pods[..j] == pods;
    InsertMissingAll(w.pvcs, AllClaims(w.name, next, next.pools));
  }

  /** The claims a second pass finds are those the first one left, as far as the specification asks for them. */
  lemma SecondClaims(w: World, v: World, next: Spec)
    requires v.name == w.name && v.pvcs == ClaimsFor(w, next)
    ensures Ready(ClaimsFor(v, next), w.name, next.pools) <==> Ready(ClaimsFor(w, next), w.name, next.pools)
  {
    ClaimsForReady(w, next, next.pools);
    ClaimsForReady(v, next, next.pools);
    if HasClaims(w) {
      assert HasClaims(v);
    }
  }

  /** The pass after it builds every pod from the new pools. When every kept pool has the pods it asks for, so that it
      succeeds, the cluster is closed after it if and only if all claims of the new pools are stored. */
  lemma SecondPassClosesIff(w: World, prev: Spec, first: seq<Event>, second: seq<Event>, next: Spec)
    requires Settled(w, prev) && Closed(w.pods, w.pvcs) && w.api.life.Live? && FaultFree(first) && FaultFree(second)
    requires ReadableSpecs(w, [first, second]) == {next}
    requires DistinctPools(prev.pools) && DistinctPools(next.pools) && AddedPodsNew(w.pods, prev.pools, next.pools)
    ensures var r := Passes(w, [first, second]);
            KeptPodsThere(w.pods, prev.pools, next.pools) ==>
              (Closed(r.pods, r.pvcs) <==> Ready(ClaimsFor(w, next), w.name, next.pools))
  {
    TwoPasses(w, first, second, next);
    if KeptPodsThere(w.pods, prev.pools, next.pools) {
      var v1 := Scripted(w, first);
      FirstLeaves(w, v1, prev, next);
      var v2 := Scripted(Reconcile(v1).w, second);
      RecordedPassClosesIff(v2, next);
      SecondClaims(w, v2, next);
    }
  }

  lemma FirstLeaves(w: World, v: World, prev: Spec, next: Spec)
    requires Settled(w, prev) && Closed(w.pods, w.pvcs) && v == w.(api := v.api)
    requires FaultFree(v.api.script) && v.api.life.Live? && Call(v.api).api.spec == next
    requires DistinctPools(prev.pools) && DistinctPools(next.pools) && AddedPodsNew(w.pods, prev.pools, next.pools)
    requires KeptPodsThere(w.pods, prev.pools, next.pools)
    ensures var r := Reconcile(v).w;
            && r.rev == Some(next) && r.name == w.name && r.api.life.Live? && r.pvcs == ClaimsFor(w, next)
            && AllIn(AllPods(w.name, next, next.pools), r.pods)
            && ClosedBut(r.pods, r.pvcs, AllPods(w.name, next, next.pools))
  {
    assert HasClaims(v) == HasClaims(w);
    SettledPassSucceeds(v, prev);
    AllThereIff(v, next);
    LeftoversClosed(v, prev);
    FaultFreePass(v);
  }

  // ---------- From nothing ----------

  /** A cluster as one pass builds it from nothing: settled, closed, and with nothing but what `spec` asks for. */
  ghost predicate Built(w: World, spec: Spec) {
    && Settled(w, spec) && Closed(w.pods, w.pvcs) && w.api.life.Live?
    && (HasClaims(w) <==> TotalClaims(spec.pools) > 0)
    && (forall n :: n in w.pods ==> HasName(AllPods(w.name, spec, spec.pools), n))
    && (forall x :: x in w.pvcs ==> exists c :: c in AllClaims(w.name, spec, spec.pools) && c.name == x)
  }

  lemma BuiltFromNothing(w: World)
    requires Empty(w) && FaultFree(w.api.script) && w.api.life.Live?
    requires var pools := Call(w.api).api.spec.pools; DistinctPools(pools) && PairwiseSeparable(pools)
    ensures Built(Reconcile(w).w, Call(w.api).api.spec) && Reconcile(w).w.name == w.name
  {
    FromEmpty(w);
    FirstPassCloses(w);
    OnlyOwnObjects(w);
    ClaimsOrNone(w);
  }

  lemma OnlyOwnObjects(w: World)
    requires Empty(w) && FaultFree(w.api.script) && w.api.life.Live?
    ensures var r, spec := Reconcile(w).w, Call(w.api).api.spec;
            && r.name == w.name && r.api.life.Live?
            && (forall n :: n in r.pods ==> HasName(AllPods(w.name, spec, spec.pools), n))
            && (forall x :: x in r.pvcs ==> exists c :: c in AllClaims(w.name, spec, spec.pools) && c.name == x)
  {
    FaultFreePass(w);
    PassObjects(w);
    PassPods(w);
    AllAdded(Call(w.api).api.spec.pools);
  }

  lemma ClaimsOrNone(w: World)
    requires Empty(w) && FaultFree(w.api.script) && w.api.life.Live?
    requires var pools := Call(w.api).api.spec.pools; DistinctPools(pools) && PairwiseSeparable(pools)
    ensures HasClaims(Reconcile(w).w) <==> TotalClaims(Call(w.api).api.spec.pools) > 0
  {
    var r, spec := Reconcile(w).w, Call(w.api).api.spec;
    FromEmpty(w);
    AllClaimsDistinct(w.name, spec, spec.pools);
    OnlyOwnObjects(w);
    CountedClaims(r, spec);
  }

  lemma CountedClaims(r: World, spec: Spec)
    requires Settled(r, spec) && |r.pvcs| == TotalClaims(spec.pools)
    requires |AllClaims(r.name, spec, spec.pools)| == TotalClaims(spec.pools)
    ensures HasClaims(r) <==> TotalClaims(spec.pools) > 0
  {
    if TotalClaims(spec.pools) == 0 {
      assert r.pvcs == map[];
    }
  }

  /** Being built does not depend on what the server does next. */
  lemma StillBuilt(w: World, spec: Spec, a: Api)
    requires Built(w, spec) && a.life.Live?
    ensures Built(w.(api := a), spec)
  {
    assert HasClaims(w.(api := a)) == HasClaims(w);
  }

  lemma BuiltHasNoOthers(w: World, spec: Spec, pools: seq<Pool>)
    requires Built(w, spec)
    ensures AddedPodsNew(w.pods, spec.pools, pools)
  {
    forall p, i: nat | p in pools && !Named(spec.pools, p.name) && i < Count(p.servers)
      ensures Layout.PodName(p.name, i) !in w.pods
    {
      UnnamedPod(w.name, spec, spec.pools, p.name, i);
    }
  }

  /** No pool asks for more servers than one of its name did. */
  ghost predicate NoneEnlarged(prev: seq<Pool>, pools: seq<Pool>) {
    forall q, p :: q in prev && p in pools && q.name == p.name ==> Count(p.servers) <= Count(q.servers)
  }

  lemma BuiltKeepsPods(w: World, spec: Spec, pools: seq<Pool>)
    requires Built(w, spec) && NoneEnlarged(spec.pools, pools)
    ensures KeptPodsThere(w.pods, spec.pools, pools)
  {
    forall p, i: nat | p in pools && Named(spec.pools, p.name) && i < Count(p.servers)
      ensures Layout.PodName(p.name, i) in w.pods
    {
      var k :| 0 <= k < |spec.pools| && spec.pools[k].name == p.name;
      assert spec.pools[k] in spec.pools;
      SettledPod(w, spec, spec.pools[k], i);
    }
  }

  /** The claims of `p` are among those of `q`. */
  predicate Covers(q: Pool, p: Pool) {
    && q.name == p.name && q.templateName == p.templateName
    && Count(p.servers) <= Count(q.servers) && Count(p.volumesPerServer) <= Count(q.volumesPerServer)
  }

  predicate NeedsClaims(p: Pool) {
    p.servers > 0 && p.volumesPerServer > 0
  }

  /** Every pool that needs claims is covered by an old one. */
  ghost predicate Covered(prev: seq<Pool>, pools: seq<Pool>) {
    forall p :: p in pools && NeedsClaims(p) ==> exists q :: q in prev && Covers(q, p)
  }

  /** The claims of a built cluster serve other pools exactly as far as its own cover them. */
  lemma ReadyIffCovered(w: World, spec: Spec, pools: seq<Pool>)
    requires Built(w, spec) && DistinctPools(spec.pools) && PairwiseSeparable(spec.pools + pools)
    ensures Ready(w.pvcs, w.name, pools) <==> Covered(spec.pools, pools)
  {
    if Ready(w.pvcs, w.name, pools) {
      forall p | p in pools && NeedsClaims(p) ensures exists q :: q in spec.pools && Covers(q, p) {
        var q := CoveringPool(w, spec, pools, p);
      }
    }
    if Covered(spec.pools, pools) {
      SettledReady(w, spec);
      forall k, i: nat, j: nat |
        0 <= k < |pools| && i < Count(pools[k].servers) && j < Count(pools[k].volumesPerServer)
        ensures Layout.ClaimName(w.name, pools[k].name, i, pools[k].templateName, j) in w.pvcs
      {
        assert pools[k] in pools && NeedsClaims(pools[k]);
        var q :| q in spec.pools && Covers(q, pools[k]);
        var n :| 0 <= n < |spec.pools| && spec.pools[n] == q;
        assert Layout.ClaimName(w.name, spec.pools[n].name, i, spec.pools[n].templateName, j) in w.pvcs;
      }
    }
  }

  /** The last claim of a pool, being stored, shows which old pool covers it. */
  lemma CoveringPool(w: World, spec: Spec, pools: seq<Pool>, p: Pool) returns (q: Pool)
    requires Built(w, spec) && PairwiseSeparable(spec.pools + pools)
    requires Ready(w.pvcs, w.name, pools) && p in pools && NeedsClaims(p)
    ensures q in spec.pools && Covers(q, p)
  {
    var k :| 0 <= k < |pools| && pools[k] == p;
    var i, j: nat := p.servers - 1, p.volumesPerServer - 1;
    var x := Layout.ClaimName(w.name, pools[k].name, i, pools[k].templateName, j);
    assert x in w.pvcs;
    var c :| c in AllClaims(w.name, spec, spec.pools) && c.name == x;
    var n, i', j' := ClaimOfPools(w.name, spec, spec.pools, c);
    q := spec.pools[n];
    assert q in spec.pools + pools && p in spec.pools + pools;
    Layout.SeparableClaimNames(w.name, q.name, i', q.templateName, j', p.name, i, p.templateName, j);
  }

  lemma {:induction false} ClaimsCounted(pools: seq<Pool>)
    ensures TotalClaims(pools) == 0 <==> forall p :: p in pools ==> !NeedsClaims(p)
  {
    if pools != [] {
      var n := |pools| - 1;
      ClaimsCounted(pools[..n]);
      assert forall p :: p in pools <==> p in pools[..n] || p == pools[n];
      assert NeedsClaims(pools[n]) <==> Count(pools[n].servers) > 0 && Count(pools[n].volumesPerServer) > 0;
      ProductZero(Count(pools[n].servers), Count(pools[n].volumesPerServer));
    }
  }

  lemma ProductZero(a: nat, b: nat)
    ensures a * b == 0 <==> a == 0 || b == 0
  {
  }

  /** No old pool covers an added one. */
  lemma AddedCoveredIff(prev: seq<Pool>, pools: seq<Pool>)
    ensures Covered(prev, AddPools(prev, pools)) <==> TotalClaims(AddPools(prev, pools)) == 0
  {
    var added := AddPools(prev, pools);
    ClaimsCounted(added);
    forall p, q | p in added && q in prev ensures !Covers(q, p) {
      AddPoolsMember(prev, pools, p);
      NamedMember(prev, q);
    }
  }

  /** With claims stored the ones of a specification are ready as far as covered, and with none all are created. */
  lemma ClaimsForCovered(w: World, spec: Spec, next: Spec, pools: seq<Pool>)
    requires Built(w, spec) && DistinctPools(spec.pools) && PairwiseSeparable(spec.pools + next.pools)
    requires forall p :: p in pools ==> p in next.pools
    ensures Ready(ClaimsFor(w, next), w.name, pools) <==> TotalClaims(spec.pools) == 0 || Covered(spec.pools, pools)
  {
    if HasClaims(w) {
      forall p, q | p in spec.pools + pools && q in spec.pools + pools
        ensures Layout.Separable(p.templateName, q.templateName)
      {
        assert p in spec.pools + next.pools && q in spec.pools + next.pools;
      }
      ReadyIffCovered(w, spec, pools);
    } else {
      ClaimsForReady(w, next, pools);
      ReadySubset(ClaimsFor(w, next), w.name, next.pools, pools);
    }
  }

  /** The pass that sees an edit of a built cluster, whatever was edited, ends closed if and only if the cluster was
      built without claims or the added pools need none: otherwise the new pods refer to claims that no pass
      creates. */
  lemma LaterPoolsCloseIff(w: World, spec: Spec)
    requires Built(w, spec) && FaultFree(w.api.script)
    requires DistinctPools(spec.pools) && DistinctPools(Call(w.api).api.spec.pools)
    requires PairwiseSeparable(spec.pools + Call(w.api).api.spec.pools)
    ensures Closed(Reconcile(w).w.pods, Reconcile(w).w.pvcs) <==>
            TotalClaims(spec.pools) == 0 || TotalClaims(AddPools(spec.pools, Call(w.api).api.spec.pools)) == 0
  {
    var next := Call(w.api).api.spec;
    var added := AddPools(spec.pools, next.pools);
    BuiltHasNoOthers(w, spec, next.pools);
    FirstPassAfterEdit(w, spec);
    forall p | p in added ensures p in next.pools {
      AddPoolsMember(spec.pools, next.pools, p);
    }
    ClaimsForCovered(w, spec, next, added);
    AddedCoveredIff(spec.pools, next.pools);
  }

  /** The pass after it is the one that rebuilds kept pools from their new form. It ends closed, if no pool was
      enlarged, if and only if the cluster was built without claims or every new pool that needs claims is covered
      by the old one of its name: same template, and no more servers and volumes than that had. */
  lemma LaterEditClosesIff(w: World, spec: Spec, first: seq<Event>, second: seq<Event>, next: Spec)
    requires Built(w, spec) && FaultFree(first) && FaultFree(second) && ReadableSpecs(w, [first, second]) == {next}
    requires DistinctPools(spec.pools) && DistinctPools(next.pools) && PairwiseSeparable(spec.pools + next.pools)
    ensures var r := Passes(w, [first, second]);
            NoneEnlarged(spec.pools, next.pools) ==>
              (Closed(r.pods, r.pvcs) <==> TotalClaims(spec.pools) == 0 || Covered(spec.pools, next.pools))
  {
    if NoneEnlarged(spec.pools, next.pools) {
      BuiltHasNoOthers(w, spec, next.pools);
      BuiltKeepsPods(w, spec, next.pools);
      SecondPassClosesIff(w, spec, first, second, next);
      ClaimsForCovered(w, spec, next, next.pools);
    }
  }

  /** From nothing: build a cluster, give any pool with a server and a volume one volume more, and let two passes run,
      in all of which no call fails. The first one still ends closed; the second one leaves a pod whose claim
      nobody has created. */
  lemma RaisedVolumesBreakClosure(w: World, start: seq<Event>, k: nat, first: seq<Event>, second: seq<Event>)
    requires Empty(w) && w.api.life.Live?
    requires FaultFree(start) && FaultFree(first) && FaultFree(second)
    requires Undisturbed(start) && Undisturbed(first) && Undisturbed(second)
    requires DistinctPools(w.api.spec.pools) && PairwiseSeparable(w.api.spec.pools)
    requires k < |w.api.spec.pools| && NeedsClaims(w.api.spec.pools[k])
    ensures var pool := MoreVolumes(w.api.spec.pools[k]);
            var v := AfterEdit(Reconcile(Scripted(w, start)).w, Edited(w.api.spec, k, pool));
            var r1, r2 := Reconcile(Scripted(v, first)).w, Passes(v, [first, second]);
            Closed(r1.pods, r1.pvcs) && !Closed(r2.pods, r2.pvcs)
  {
    var spec, pool := w.api.spec, MoreVolumes(w.api.spec.pools[k]);
    var next := Edited(spec, k, pool);
    var v := AfterEdit(Reconcile(Scripted(w, start)).w, next);
    BuiltThenRead(w, start, next);
    NoneAdded(spec, k, pool);
    EditSeparable(spec, k, pool);
    OnlySpec(v, first, second);
    VolumesNotCovered(spec, k);
    UndisturbedCall(Scripted(v, first).api);
    StillBuilt(v, spec, Scripted(v, first).api);
    LaterPoolsCloseIff(Scripted(v, first), spec);
    LaterEditClosesIff(v, spec, first, second, next);
  }

  function MoreVolumes(p: Pool): Pool {
    p.(volumesPerServer := p.volumesPerServer + 1)
  }

  lemma BuiltThenRead(w: World, start: seq<Event>, next: Spec)
    requires Empty(w) && w.api.life.Live? && FaultFree(start) && Undisturbed(start)
    requires DistinctPools(w.api.spec.pools) && PairwiseSeparable(w.api.spec.pools)
    ensures var v := AfterEdit(Reconcile(Scripted(w, start)).w, next); Built(v, w.api.spec) && v.api.spec == next
  {
    var v1 := Scripted(w, start);
    UndisturbedCall(v1.api);
    BuiltFromNothing(v1);
    var r := Reconcile(v1).w;
    StillBuilt(r, w.api.spec, Apply(r.api, SetSpec(next)));
  }

  lemma EditSeparable(spec: Spec, k: nat, pool: Pool)
    requires PairwiseSeparable(spec.pools) && k < |spec.pools| && pool.templateName == spec.pools[k].templateName
    ensures PairwiseSeparable(spec.pools + Edited(spec, k, pool).pools)
  {
    var all := spec.pools + Edited(spec, k, pool).pools;
    forall p | p in all ensures exists q :: q in spec.pools && q.templateName == p.templateName {
      if p !in spec.pools {
        assert p == pool && spec.pools[k] in spec.pools;
      }
    }
  }

  lemma VolumesNotCovered(spec: Spec, k: nat)
    requires DistinctPools(spec.pools) && k < |spec.pools| && NeedsClaims(spec.pools[k])
    ensures var next := Edited(spec, k, MoreVolumes(spec.pools[k]));
            && TotalClaims(spec.pools) > 0 && AddPools(spec.pools, next.pools) == []
            && NoneEnlarged(spec.pools, next.pools) && !Covered(spec.pools, next.pools)
  {
    var pool := MoreVolumes(spec.pools[k]);
    var next := Edited(spec, k, pool);
    ClaimsCounted(spec.pools);
    assert spec.pools[k] in spec.pools && next.pools[k] == pool && pool in next.pools;
    NoneAdded(spec, k, pool);
    if AddPools(spec.pools, next.pools) != [] {
      AddPoolsMember(spec.pools, next.pools, AddPools(spec.pools, next.pools)[0]);
    }
    forall q, p | q in spec.pools && p in next.pools && q.name == p.name ensures Count(p.servers) <= Count(q.servers) {
      var kept := Counterpart(spec, k, pool, p);
      SamePool(spec.pools, q, kept);
    }
    forall q | q in spec.pools ensures !Covers(q, pool) {
      if q.name == pool.name {
        SamePool(spec.pools, q, spec.pools[k]);
      }
    }
  }
}
