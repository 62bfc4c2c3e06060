/** Exactly what a pass without failing calls does to the pods, also when it stops half-way, and when it does not. */
module PodAccount {
  import opened Wrappers
  import opened Types
  import opened StatusStore
  import opened MainPass
  import opened Stages
  import opened PassFacts
  import opened Convergence

  // ---------- Creating until a name is taken, overwriting until a pod is missing ----------

  /** The first `k` pods are created, and the next one's name is taken. */
  ghost predicate CreatedUntil(store: map<string, Pod>, pods: seq<Pod>, k: nat) {
    && k <= |pods| && NoneIn(pods[..k], store)
    && (k < |pods| ==> pods[k].name in store || HasName(pods[..k], pods[k].name))
  }

  /** The stores before and after differ by these pods and no others. */
  ghost predicate Added(before: map<string, Pod>, after: map<string, Pod>, pods: seq<Pod>) {
    && Desired(after, pods)
    && (forall n :: n in after <==> n in before || HasName(pods, n))
    && (forall n :: n in before ==> n in after && after[n] == before[n])
  }

  lemma ConsNames(p: Pod, pods: seq<Pod>)
    ensures forall x :: HasName([p] + pods, x) <==> x == p.name || HasName(pods, x)
  {
    var all := [p] + pods;
    assert all[0] == p && all[1..] == pods;
    TailNames(all);
  }

  lemma {:induction false} CreationStops(store: map<string, Pod>, pods: seq<Pod>) returns (k: nat)
    ensures CreatedUntil(store, pods, k)
    ensures var r := PutNew(store, pods); (r.ok <==> k == |pods|) && Added(store, r.pods, pods[..k])
    decreases |pods|
  {
    if pods == [] || pods[0].name in store {
      k := 0;
      assert pods[..0] == [];
    } else {
      var p, rest := pods[0], pods[1..];
      var next := store[p.name := p];
      var j := CreationStops(next, rest);
      k := j + 1;
      assert pods[..k] == [p] + rest[..j];
      ConsNames(p, rest[..j]);
      CreatedCons(store, p, rest, j);
      AddedCons(store, PutNew(store, pods).pods, p, rest[..j]);
      if k < |pods| {
        assert pods[k] == rest[j];
      }
    }
  }

  lemma AllCreated(store: map<string, Pod>, pods: seq<Pod>)
    ensures PutNew(store, pods).ok ==> Added(store, PutNew(store, pods).pods, pods)
  {
    var k := CreationStops(store, pods);
    assert k == |pods| ==> pods[..k] == pods;
  }

  lemma CreatedCons(store: map<string, Pod>, p: Pod, rest: seq<Pod>, j: nat)
    requires p.name !in store && CreatedUntil(store[p.name := p], rest, j)
    ensures NoneIn([p] + rest[..j], store)
  {
    var all := [p] + rest[..j];
    forall k | 0 <= k < |all| ensures all[k].name !in store {
      if k > 0 {
        assert all[k] == rest[..j][k - 1];
      }
    }
  }

  lemma AddedCons(store: map<string, Pod>, after: map<string, Pod>, p: Pod, pods: seq<Pod>)
    requires p.name !in store && Added(store[p.name := p], after, pods)
    ensures Added(store, after, [p] + pods)
  {
    ConsNames(p, pods);
    var all := [p] + pods;
    forall k | 0 <= k < |all| ensures all[k].name in after && after[all[k].name] == all[k] {
      if k > 0 {
        assert all[k] == pods[k - 1];
      }
    }
  }

  /** Creation gets through exactly when all names are free and different. */
  lemma {:induction false} PutNewSucceeds(store: map<string, Pod>, pods: seq<Pod>)
    ensures PutNew(store, pods).ok <==> NoneIn(pods, store) && DistinctNames(pods)
    decreases |pods|
  {
    if pods != [] && pods[0].name !in store {
      var p, rest := pods[0], pods[1..];
      TailNames(pods);
      PutNewSucceeds(store[p.name := p], rest);
      assert forall k :: 0 < k < |pods| ==> pods[k] == rest[k - 1];
      assert NoneIn(rest, store[p.name := p]) <==> NoneIn(rest, store) && !HasName(rest, p.name) by {
        assert HasName(rest, p.name) <==> exists k :: 0 <= k < |rest| && rest[k].name == p.name;
      }
      assert !HasName(rest, p.name) && DistinctNames(rest) ==> DistinctNames(pods);
    }
  }

  /** The first `j` pods are there, and the next one is not. */
  ghost predicate OverwrittenUntil(store: map<string, Pod>, pods: seq<Pod>, j: nat) {
    j <= |pods| && AllIn(pods[..j], store) && (j < |pods| ==> pods[j].name !in store)
  }

  lemma {:induction false} OverwritingStops(store: map<string, Pod>, pods: seq<Pod>) returns (j: nat)
    ensures OverwrittenUntil(store, pods, j)
    ensures (PutOver(store, pods).ok <==> j == |pods|) && PutOver(store, pods).pods == PutOver(store, pods[..j]).pods
    decreases |pods|
  {
    if pods == [] || pods[0].name !in store {
      j := 0;
      assert pods[..0] == [];
    } else {
      var p, rest := pods[0], pods[1..];
      var next := store[p.name := p];
      var i := OverwritingStops(next, rest);
      j := i + 1;
      assert pods[..j][1..] == rest[..i] && pods[..j][0] == p;
      assert forall k :: 0 < k < j ==> pods[..j][k] == rest[..i][k - 1];
      if j < |pods| {
        assert pods[j] == rest[i];
      }
    }
  }

  // ---------- The account of a pass ----------

  /** `create[..k]` was created and `update[..j]` overwritten, and nothing else was done. */
  ghost predicate Did(before: map<string, Pod>, after: map<string, Pod>, create: seq<Pod>, update: seq<Pod>) {
    && Desired(after, create) && Desired(after, update)
    && (forall n :: n in after <==> n in before || HasName(create, n))
    && (forall n :: n in before && !HasName(update, n) ==> n in after && after[n] == before[n])
  }

  /** Where a pass stops: creation at the first name that is taken, overwriting at the first pod that is missing. */
  ghost predicate StopsAt(store: map<string, Pod>, create: seq<Pod>, update: seq<Pod>, k: nat, j: nat) {
    && CreatedUntil(store, create, k)
    && if k < |create| then j == 0 else OverwrittenUntil(store, update, j)
  }

  /** Pods of recorded pools and pods of added ones never share a name. */
  lemma UpdatesAreNotAdded(name: string, prev: Option<Spec>, spec: Spec)
    ensures forall k :: 0 <= k < |PodsToUpdate(name, prev, spec)| ==>
              !HasName(PodsToCreate(name, prev, spec), PodsToUpdate(name, prev, spec)[k].name)
  {
    var updated, update := PoolsToUpdate(prev, spec), PodsToUpdate(name, prev, spec);
    forall k | 0 <= k < |update| ensures !HasName(PodsToCreate(name, prev, spec), update[k].name) {
      var q, i := PodOrigin(name, spec, updated, update[k]);
      NamedMember(updated, updated[q]);
      PoolDiff(prev, spec, updated[q].name);
      UnnamedPod(name, spec, AddPools(OldPools(prev), spec.pools), updated[q].name, i);
    }
  }

  lemma {:induction false} UpdatedPoolsDistinct(prev: Spec, spec: Spec, name: string)
    requires DistinctPools(prev.pools)
    ensures DistinctNames(PodsToUpdate(name, Some(prev), spec))
  {
    UpdatePoolsDistinct(prev, spec, prev.pools);
    AllPodsDistinct(name, spec, UpdatePools(prev, spec, prev.pools));
  }

  lemma NamesOfPart(pods: seq<Pod>, k: nat)
    requires k <= |pods|
    ensures forall x :: HasName(pods[..k], x) ==> HasName(pods, x)
    ensures DistinctNames(pods) ==> Consistent(pods[..k])
  {
    assert forall i :: 0 <= i < k ==> pods[..k][i] == pods[i];
  }

  /** Whatever a pass does to the pods, it is this: it creates the pods of added pools in turn until a name is taken,
      and only after all of them overwrites those of updated pools in turn until one is missing; it succeeds when
      it gets to the end of both. */
  lemma PassAccount(w: World) returns (k: nat, j: nat)
    requires FaultFree(w.api.script) && w.api.life.Live? && DistinctPools(OldPools(w.rev))
    ensures var spec, r := Call(w.api).api.spec, Reconcile(w);
            var create, update := PodsToCreate(w.name, w.rev, spec), PodsToUpdate(w.name, w.rev, spec);
            && StopsAt(w.pods, create, update, k, j)
            && Did(w.pods, r.w.pods, create[..k], update[..j])
            && (r.ok <==> k == |create| && j == |update|)
  {
    var spec := Call(w.api).api.spec;
    FaultFreePass(w);
    k, j := StageAccount(w.pods, w.name, w.rev, spec);
  }

  lemma StageAccount(store: map<string, Pod>, name: string, prev: Option<Spec>, spec: Spec) returns (k: nat, j: nat)
    requires DistinctPools(OldPools(prev))
    ensures var s := PodStage(store, name, prev, spec);
            var create, update := PodsToCreate(name, prev, spec), PodsToUpdate(name, prev, spec);
            && StopsAt(store, create, update, k, j)
            && Did(store, s.pods, create[..k], update[..j])
            && (s.ok <==> k == |create| && j == |update|)
  {
    var create, update := PodsToCreate(name, prev, spec), PodsToUpdate(name, prev, spec);
    k := CreationStops(store, create);
    if k < |create| {
      j := 0;
    } else {
      assert create[..k] == create;
      if prev.Some? {
        UpdatedPoolsDistinct(prev.value, spec, name);
      }
      UpdatesAreNotAdded(name, prev, spec);
      j := SecondHalf(store, PutNew(store, create).pods, create, update);
    }
  }

  lemma SecondHalf(store: map<string, Pod>, mid: map<string, Pod>, create: seq<Pod>, update: seq<Pod>) returns (j: nat)
    requires Added(store, mid, create) && DistinctNames(update)
    requires forall k :: 0 <= k < |update| ==> !HasName(create, update[k].name)
    ensures OverwrittenUntil(store, update, j)
    ensures var s := PutOver(mid, update); Did(store, s.pods, create, update[..j]) && (s.ok <==> j == |update|)
  {
    j := OverwritingStops(mid, update);
    var part := update[..j];
    NamesOfPart(update, j);
    PutOverReaches(mid, part);
    PutOverOthers(mid, part);
    forall i | 0 <= i < |part| ensures part[i].name in store {
      assert part[i] == update[i] && part[i].name in mid;
    }
    NotUpdated(PutOver(mid, part).pods, mid, create, part);
  }

  lemma NotUpdated(after: map<string, Pod>, mid: map<string, Pod>, create: seq<Pod>, part: seq<Pod>)
    requires Desired(mid, create) && after.Keys == mid.Keys
    requires forall x :: x in mid && !HasName(part, x) ==> after[x] == mid[x]
    requires forall i :: 0 <= i < |part| ==> !HasName(create, part[i].name)
    ensures Desired(after, create)
  {
    forall k | 0 <= k < |create| ensures create[k].name in after && after[create[k].name] == create[k] {
      assert HasName(create, create[k].name) && !HasName(part, create[k].name);
    }
  }

  /** The pods of added pools are all new and distinct, and those of updated pools are all there. */
  ghost predicate GetsThrough(w: World, spec: Spec) {
    var create, update := PodsToCreate(w.name, w.rev, spec), PodsToUpdate(w.name, w.rev, spec);
    NoneIn(create, w.pods) && DistinctNames(create) && AllIn(update, w.pods)
  }

  /** When a pass succeeds, in terms of what is there before it. */
  lemma PassSucceedsIff(w: World)
    requires FaultFree(w.api.script) && w.api.life.Live?
    ensures Reconcile(w).ok <==> GetsThrough(w, Call(w.api).api.spec)
  {
    FaultFreePass(w);
    StageSucceedsIff(w.pods, w.name, w.rev, Call(w.api).api.spec);
  }

  lemma StageSucceedsIff(store: map<string, Pod>, name: string, prev: Option<Spec>, spec: Spec)
    ensures var create, update := PodsToCreate(name, prev, spec), PodsToUpdate(name, prev, spec);
            PodStage(store, name, prev, spec).ok <==>
              NoneIn(create, store) && DistinctNames(create) && AllIn(update, store)
  {
    var create, update := PodsToCreate(name, prev, spec), PodsToUpdate(name, prev, spec);
    PutNewSucceeds(store, create);
    var c := PutNew(store, create);
    if c.ok {
      AllCreated(store, create);
      UpdatesAreNotAdded(name, prev, spec);
      PutOverSucceeds(c.pods, update);
      assert AllIn(update, c.pods) <==> AllIn(update, store);
    }
  }
}
