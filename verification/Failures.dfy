/** Runs that go wrong: what one failed call costs, and a pool whose claims are never created. */
module Failures {
  import opened Wrappers
  import opened Types
  import opened Services
  import opened StatusStore
  import opened MainPass
  import opened PassFacts
  import opened Convergence
  import opened Lifecycle
  import opened Closure
  import Layout

  // ---------- Passes of which the calls are counted ----------

  /** The next `n` calls are answered, and nobody else writes. */
  predicate Answered(script: seq<Event>, n: nat) {
    n <= |script| && forall i :: 0 <= i < n ==> script[i] == Event([], None)
  }

  /** After `n` such calls. */
  function Skip(a: Api, n: nat): Api
    requires n <= |a.script|
  {
    a.(script := a.script[n..])
  }

  lemma AnsweredCall(a: Api, n: nat)
    requires n > 0 && Answered(a.script, n)
    ensures Call(a) == Served(Skip(a, 1), None) && Answered(Skip(a, 1).script, n - 1)
  {
  }

  lemma SkipSkip(a: Api, i: nat, j: nat)
    requires i + j <= |a.script|
    ensures Skip(Skip(a, i), j) == Skip(a, i + j)
  {
  }

  lemma AnsweredRest(script: seq<Event>, i: nat, n: nat)
    requires i <= n && Answered(script, n)
    ensures Answered(script, i) && Answered(script[i..], n - i)
  {
  }

  function RevisionCalls(rev: Option<Spec>, spec: Spec): nat {
    if rev.None? then 2 else if rev.value == spec then 1 else 3
  }

  lemma RevisionRuns(w: World, m: Minio)
    requires Answered(w.api.script, RevisionCalls(w.rev, m.spec))
    ensures RecordRevision(w, m) ==
            Step(w.(rev := Some(m.spec), api := Skip(w.api, RevisionCalls(w.rev, m.spec))), m, true)
  {
    var n := RevisionCalls(w.rev, m.spec);
    AnsweredCall(w.api, n);
    if n > 1 {
      AnsweredCall(Skip(w.api, 1), n - 1);
      SkipSkip(w.api, 1, 1);
      if n > 2 {
        AnsweredCall(Skip(w.api, 2), n - 2);
        SkipSkip(w.api, 2, 1);
      }
    }
  }

  lemma ServicesRun(w: World, m: Minio)
    requires Answered(w.api.script, 3) && ServicesMatch(w.svcs, w.name, m.spec)
    ensures CheckServices(w, m) == Step(w.(api := Skip(w.api, 3)), m, true)
  {
    ServiceRuns(w, MinIOSvc, m);
    AnsweredRest(w.api.script, 1, 3);
    ServiceRuns(w.(api := Skip(w.api, 1)), ConsoleSvc, m);
    AnsweredRest(w.api.script, 2, 3);
    SkipSkip(w.api, 1, 1);
    ServiceRuns(w.(api := Skip(w.api, 2)), HeadlessSvc, m);
    SkipSkip(w.api, 2, 1);
  }

  lemma ServiceRuns(w: World, k: Kind, m: Minio)
    requires Answered(w.api.script, 1) && ServiceMatches(w.svcs, w.name, k, m.spec)
    ensures CheckService(w, k, m) == Step(w.(api := Skip(w.api, 1)), m, true)
  {
    AnsweredCall(w.api, 1);
  }

  lemma ClaimsRun(w: World, m: Minio)
    requires Answered(w.api.script, 1) && HasClaims(w)
    ensures CheckPVC(w, m) == Step(w.(api := Skip(w.api, 1)), m, true)
  {
    AnsweredCall(w.api, 1);
    assert HasClaims(w.(api := Skip(w.api, 1)));
  }

  lemma PrepareRuns(w: World, m: Minio)
    requires Answered(w.api.script, RevisionCalls(w.rev, m.spec) + 4)
    requires ServicesMatch(w.svcs, w.name, m.spec) && HasClaims(w)
    ensures Prepare(w, m) ==
            Step(w.(rev := Some(m.spec), api := Skip(w.api, RevisionCalls(w.rev, m.spec) + 4)), m, true)
  {
    var n := RevisionCalls(w.rev, m.spec);
    AnsweredRest(w.api.script, n, n + 4);
    RevisionRuns(w, m);
    var w1 := w.(rev := Some(m.spec), api := Skip(w.api, n));
    AnsweredRest(w1.api.script, 3, 4);
    ServicesRun(w1, m);
    SkipSkip(w.api, n, 3);
    var w2 := w1.(api := Skip(w.api, n + 3));
    assert HasClaims(w2);
    ClaimsRun(w2, m);
    SkipSkip(w.api, n + 3, 1);
  }

  // ---------- The failed creation ----------

  /** Reading the object, recording the revision, checking three services and listing the claims. */
  function CallsBeforePods(w: World): nat {
    1 + RevisionCalls(w.rev, w.api.spec) + 4
  }

  /** Where services and claims are in place, a pass whose very first pod creation fails has nevertheless recorded
      the specification, and no pod is there that was not before. */
  lemma FailedCreation(w: World)
    requires w.api.life.Live? && w.api.status.status != Unset
    requires ServicesMatch(w.svcs, w.name, w.api.spec) && HasClaims(w)
    requires Answered(w.api.script, CallsBeforePods(w)) && |w.api.script| > CallsBeforePods(w)
    requires w.api.script[CallsBeforePods(w)].fault.Some? && PodsToCreate(w.name, w.rev, w.api.spec) != []
    ensures var r := Reconcile(w); !r.ok && r.w.rev == Some(w.api.spec) && r.w.pods == w.pods && r.w.name == w.name
  {
    var n := CallsBeforePods(w);
    AnsweredCall(w.api, n);
    var w0, m := w.(api := Skip(w.api, 1)), Fetched(Skip(w.api, 1));
    assert HasClaims(w0);
    PrepareRuns(w0, m);
    SkipSkip(w.api, 1, n - 1);
    var p := Prepare(w0, m).w;
    assert p.api.script[0] == w.api.script[n];
    FirstCreationFails(p, m, w.rev);
  }

  lemma FirstCreationFails(w: World, m: Minio, prev: Option<Spec>)
    requires w.api.script != [] && w.api.script[0].fault.Some? && PodsToCreate(w.name, prev, m.spec) != []
    ensures var s := ReconcilePods(w, m, prev); !s.ok && s.w == w.(api := s.w.api)
  {
  }

  // ---------- A pool lost for good ----------

  function WithPool(spec: Spec, pool: Pool): Spec {
    spec.(pools := spec.pools + [pool])
  }

  /** The cluster built by one pass from `w`, after the user has added `pool`. */
  function PoolAdded(w: World, first: seq<Event>, pool: Pool, second: seq<Event>): World {
    var v := Reconcile(Scripted(w, first)).w;
    Scripted(AfterEdit(v, WithPool(w.api.spec, pool)), second)
  }

  /** From nothing, one faultless pass; the user adds a pool; one single call of the next pass fails, the first pod
      creation. Then the pool is recorded, its pod is not there, and no later run of passes over that
      specification ever creates it or succeeds, even if no call fails again. */
  lemma OneFailedCallLosesPool(w: World, first: seq<Event>, pool: Pool, second: seq<Event>,
                               scripts: seq<seq<Event>>, script: seq<Event>)
    requires Empty(w) && w.api.life.Live? && FaultFree(first) && Undisturbed(first)
    requires DistinctPools(w.api.spec.pools) && PairwiseSeparable(w.api.spec.pools) && TotalClaims(w.api.spec.pools) > 0
    requires !Named(w.api.spec.pools, pool.name) && pool.servers > 0
    requires Answered(second, 8) && |second| > 8 && second[8].fault.Some? && Undisturbed(second)
    ensures var r, next := Reconcile(PoolAdded(w, first, pool, second)).w, WithPool(w.api.spec, pool);
            && r.rev == Some(next) && r.api.spec == next && Layout.PodName(pool.name, 0) !in r.pods
            && (ReadableSpecs(r, scripts) == {next} && EditedSpecs(script) <= {next} && FaultFree(script) ==>
                  && Layout.PodName(pool.name, 0) !in Passes(r, scripts).pods
                  && !Reconcile(Scripted(Passes(r, scripts), script)).ok)
  {
    var spec, next := w.api.spec, WithPool(w.api.spec, pool);
    var v := PoolAdded(w, first, pool, second);
    BeforeFailure(w, first, pool, second);
    AddPoolsMember(spec.pools, next.pools, pool);
    AddedPodBuilt(w.name, spec.pools, next, pool, 0);
    FailedCreation(v);
    var r := Reconcile(v).w;
    SpecificationKept(v);
    PassesLive(v, [second]);
    PassStatusWrites(v);
    if ReadableSpecs(r, scripts) == {next} && EditedSpecs(script) <= {next} && FaultFree(script) {
      MissingPodsStayMissing(r, scripts, next);
      assert Passes(r, scripts).pods.Keys == r.pods.Keys;
      LostPod(r, next, pool);
      MissingPodNeverHeals(r, scripts, script, next);
    }
  }

  lemma LostPod(r: World, next: Spec, pool: Pool)
    requires pool in next.pools && pool.servers > 0 && Layout.PodName(pool.name, 0) !in r.pods
    ensures !AllIn(AllPods(r.name, next, next.pools), r.pods)
  {
    var q :| 0 <= q < |next.pools| && next.pools[q] == pool;
    PodMember(r.name, next, next.pools, q, 0);
    var pods := AllPods(r.name, next, next.pools);
    var k :| 0 <= k < |pods| && pods[k] == Layout.PodFor(r.name, next, pool, 0);
    assert pods[k].name !in r.pods;
  }

  /** With nobody else writing the specification stays what it was. */
  lemma SpecificationKept(w: World)
    requires Undisturbed(w.api.script)
    ensures Reconcile(w).w.api.spec == w.api.spec
  {
    PassStatusWrites(w);
    assert EditedSpecs(w.api.script) == {};
    assert Reconcile(w).w.api.spec in Specs(Reconcile(w).w.api);
  }

  /** What the second pass meets. */
  lemma BeforeFailure(w: World, first: seq<Event>, pool: Pool, second: seq<Event>)
    requires Empty(w) && w.api.life.Live? && FaultFree(first) && Undisturbed(first)
    requires DistinctPools(w.api.spec.pools) && PairwiseSeparable(w.api.spec.pools) && TotalClaims(w.api.spec.pools) > 0
    requires !Named(w.api.spec.pools, pool.name)
    ensures var v, spec := PoolAdded(w, first, pool, second), w.api.spec;
            && v.name == w.name && v.rev == Some(spec) && v.api.life.Live? && v.api.status.status != Unset
            && v.api.spec == WithPool(spec, pool) && v.api.script == second
            && ServicesMatch(v.svcs, v.name, v.api.spec) && HasClaims(v)
            && Layout.PodName(pool.name, 0) !in v.pods
  {
    var v1, v := Scripted(w, first), PoolAdded(w, first, pool, second);
    UndisturbedCall(v1.api);
    BuiltFromNothing(v1);
    FromEmpty(v1);
    StatusAfterPass(v1);
    SpecificationKept(v1);
    PodsOfFirstPass(v1, pool.name, 0);
    SameServices(v.svcs, w.name, w.api.spec, pool);
    assert HasClaims(v) == HasClaims(Reconcile(v1).w);
  }

  /** The services do not depend on the pools. */
  lemma SameServices(svcs: map<string, Service>, name: string, spec: Spec, pool: Pool)
    requires ServicesMatch(svcs, name, spec)
    ensures ServicesMatch(svcs, name, WithPool(spec, pool))
  {
  }

  // ---------- A run that breaks closure ----------

  function OnePool(name: string): Pool {
    Pool(name, 1, 1, "data", None, map[], "", "")
  }

  function PlainSpec(pools: seq<Pool>): Spec {
    Spec(pools, "minio", "", "", "/data", false, false, false, "", "", "", None, None, None, None, None, "")
  }

  function Nothing(spec: Spec): World {
    World("m", Admission(map[], map[], map[], "", 0), None, map[], map[], map[],
          Api(Live, 0, spec, Status(Unset, "", [], HealthUnset, ServiceAddr("", ""), []), false, 0, []))
  }

  /** Two faultless passes, the second meeting an edit of the specification. */
  function EditBetween(next: Spec): seq<seq<Event>> {
    [[], [Event([SetSpec(next)], None)]]
  }

  lemma EditIsRead(a: Api, next: Spec)
    ensures Call(a.(script := [Event([SetSpec(next)], None)])).api.spec == next
  {
    var b := a.(script := []);
    assert [Event([SetSpec(next)], None)][1..] == [];
    assert ApplyAll(b, [SetSpec(next)]) == Apply(b, SetSpec(next));
  }

  /** A run in which nothing fails: the cluster is built for pool `a`, then pool `b` is added, and the second pass
      stores a pod whose claim nobody has created. */
  lemma AddingPoolBreaksClosure()
    ensures var w, next := Nothing(PlainSpec([OnePool("a")])), PlainSpec([OnePool("a"), OnePool("b")]);
            var r := Passes(w, EditBetween(next));
            !Closed(r.pods, r.pvcs) && ReadableSpecs(w, EditBetween(next)) == {w.api.spec, next}
  {
    var spec, next := PlainSpec([OnePool("a")]), PlainSpec([OnePool("a"), OnePool("b")]);
    Layout.SeparableWhen("data", "data");
    ExamplePools();
    ExampleSpecs(spec, next);
    EditBreaksClosure(Nothing(spec), spec, next);
  }

  lemma EditBreaksClosure(w: World, spec: Spec, next: Spec)
    requires Empty(w) && w.api.life.Live? && w.api.spec == spec
    requires DistinctPools(spec.pools) && DistinctPools(next.pools) && PairwiseSeparable(spec.pools + next.pools)
    requires TotalClaims(spec.pools) > 0 && TotalClaims(AddPools(spec.pools, next.pools)) > 0
    ensures var r := Passes(w, EditBetween(next)); !Closed(r.pods, r.pvcs)
  {
    var scripts := EditBetween(next);
    var v1 := Scripted(w, scripts[0]);
    var r := Reconcile(v1).w;
    TwoInARow(w, scripts[0], scripts[1]);
    EditIsRead(r.api, next);
    assert PairwiseSeparable(spec.pools) by {
      assert forall p :: p in spec.pools ==> p in spec.pools + next.pools;
    }
    BuiltFromNothing(v1);
    StillBuilt(r, spec, Scripted(r, scripts[1]).api);
    LaterPoolsCloseIff(Scripted(r, scripts[1]), spec);
  }

  lemma ExamplePools()
    ensures var a, b := OnePool("a"), OnePool("b");
            && TotalClaims([a]) == 1 && AddPools([a], [a, b]) == [b] && TotalClaims([b]) == 1
            && DistinctPools([a, b])
  {
    var a, b := OnePool("a"), OnePool("b");
    assert [a][..0] == [] && [b][..0] == [] && [a, b][..1] == [a];
    assert Named([a], a.name) by {
      assert [a][0].name == a.name;
    }
    assert !Named([a], b.name);
    assert AddPools([a], [a]) == [];
  }

  lemma ExampleSpecs(spec: Spec, next: Spec)
    ensures var w := Nothing(spec);
            ReadableSpecs(w, EditBetween(next)) == {spec, next}
  {
    var second := [Event([SetSpec(next)], None)];
    assert second[0] in second && SetSpec(next) in second[0].others;
    assert EditedSpecs(second) == {next};
    assert EditBetween(next)[1] == second && second in EditBetween(next);
  }
}
