/** What each stage of a pass does to the cluster, under any interference and any faults, and without faults. */
module Stages {
  import opened Wrappers
  import opened Types
  import opened Services
  import opened StatusStore
  import opened MainPass

  /** The pass whose read was answered in state `a0` is under way: its writes so far are within bounds, and its
      in-memory object still has the version and specification it read and has changed only its own fields. */
  ghost predicate InRun(a0: Api, w: World, m: Minio) {
    && DuringRun(MainReconciler, a0, w.api)
    && m.version == a0.version && m.spec == a0.spec
    && AgreeOutside(MainReconciler, m.status, a0.status)
  }

  /** Nobody else writes, and what this pass has stored, if anything, says Running. */
  ghost predicate Quiet(a0: Api, w: World) {
    && Undisturbed(w.api.script)
    && (w.api.version == a0.version || w.api.status.status == Running)
  }

  /** What holds of every stage from `(w, m)` to `s`. */
  ghost predicate Proceeds(a0: Api, w: World, m: Minio, s: Step) {
    && InRun(a0, s.w, s.m)
    && Follows(w.api, s.w.api)
    && s.w.name == w.name && s.w.admit == w.admit
    && s.m.spec == m.spec
    && (Quiet(a0, w) && s.ok ==> Quiet(a0, s.w))
  }

  lemma ProceedsTransitive(a0: Api, w: World, m: Minio, s: Step, t: Step)
    requires Proceeds(a0, w, m, s) && Proceeds(a0, s.w, s.m, t) && s.ok
    ensures Proceeds(a0, w, m, t)
  {
    FollowsTransitive(w.api, s.w.api, t.w.api);
  }

  // ---------- Calls and status writes ----------

  lemma CallProceeds(a0: Api, w: World, m: Minio)
    requires InRun(a0, w, m)
    ensures Proceeds(a0, w, m, Step(w.(api := Call(w.api).api), m, true))
    ensures FaultFree(w.api.script) ==> Call(w.api).fault.None?
  {
    CallDuringRun(MainReconciler, a0, w.api);
    CallFollows(w.api);
    if w.api.script != [] {
      assert w.api.script[0] in w.api.script;
    }
    if Undisturbed(w.api.script) {
      UndisturbedCall(w.api);
    }
  }

  lemma WriteProceeds(a0: Api, w: World, m: Minio)
    requires InRun(a0, w, m)
    ensures var s := WriteStatus(w, m);
            && InRun(a0, s.w, s.m) && Follows(w.api, s.w.api)
            && s.w == w.(api := s.w.api) && s.m == m
            && (FaultFree(w.api.script) ==> s.ok)
            && (Quiet(a0, w) && s.ok && m.status.status == Running ==>
                  Quiet(a0, s.w) && s.w.api.status.status == Running)
  {
    WriteDuringRun(MainReconciler, a0, w.api, m.status, true);
    var c := Copy(m.version, m.status);
    RetryFollows(w.api, c, true);
    if Quiet(a0, w) && UpdateWithRetry(w.api, c, true).ok {
      UndisturbedWrite(w.api, c);
    }
  }

  lemma AnnounceProceeds(a0: Api, w: World, m: Minio)
    requires InRun(a0, w, m)
    ensures var s := Announce(w, m);
            && Proceeds(a0, w, m, s)
            && s.w == w.(api := s.w.api)
            && (FaultFree(w.api.script) ==> s.ok)
            && (Quiet(a0, w) && s.ok ==> s.w.api.status.status == Running)
  {
    WriteProceeds(a0, w, m.(status := m.status.(status := Running)));
  }

  lemma ReportProceeds(a0: Api, w: World, m: Minio, message: string)
    requires InRun(a0, w, m)
    ensures var s := Report(w, m, message);
            Proceeds(a0, w, m, s) && s.w == w.(api := s.w.api) && !s.ok
  {
    WriteProceeds(a0, w, m.(status := m.status.(status := Failed, message := message)));
  }

  // ---------- Revision ----------

  lemma CreateRevisionProceeds(a0: Api, w: World, m: Minio)
    requires InRun(a0, w, m) && w.rev.None?
    ensures var s := CreateRevision(w, m);
            && Proceeds(a0, w, m, s)
            && s.w == w.(rev := s.w.rev, api := s.w.api)
            && s.w.rev == (if s.ok then Some(m.spec) else None)
            && (FaultFree(w.api.script) ==> s.ok)
  {
    CallProceeds(a0, w, m);
  }

  /** The recorded specification is untouched, gone, or the current one; it is the current one on success. */
  lemma RevisionProceeds(a0: Api, w: World, m: Minio)
    requires InRun(a0, w, m)
    ensures var s := RecordRevision(w, m);
            && Proceeds(a0, w, m, s)
            && s.w == w.(rev := s.w.rev, api := s.w.api)
            && (s.w.rev == w.rev || s.w.rev == None || s.w.rev == Some(m.spec))
            && (w.rev == Some(m.spec) || s.ok ==> s.w.rev == Some(m.spec))
            && (FaultFree(w.api.script) ==> s.ok)
  {
    CallProceeds(a0, w, m);
    var w1 := w.(api := Call(w.api).api);
    if Call(w.api).fault.None? {
      if w.rev.None? {
        CreateRevisionProceeds(a0, w1, m);
        ProceedsTransitive(a0, w, m, Step(w1, m, true), CreateRevision(w1, m));
      } else if w.rev.value != m.spec {
        CallProceeds(a0, w1, m);
        var w2 := w1.(api := Call(w1.api).api);
        ProceedsTransitive(a0, w, m, Step(w1, m, true), Step(w2, m, true));
        if Call(w1.api).fault.None? {
          var w3 := w2.(rev := None);
          CreateRevisionProceeds(a0, w3, m);
          FollowsTransitive(w.api, w3.api, CreateRevision(w3, m).w.api);
        }
      }
    }
  }

  lemma RevisionStore(w: World, m: Minio)
    ensures var s := RecordRevision(w, m); s.w == w.(rev := s.w.rev, api := s.w.api) && s.m == m
  {
  }

  // ---------- Services ----------

  lemma CreateServiceProceeds(a0: Api, w: World, k: Kind, m: Minio)
    requires InRun(a0, w, m) && ServiceName(w.name, k) !in w.svcs
    ensures var s := CreateService(w, k, m);
            && Proceeds(a0, w, m, s)
            && (s.ok ==> ServiceName(w.name, k) in s.w.svcs)
            && (FaultFree(w.api.script) ==> s.ok)
  {
    AnnounceProceeds(a0, w, m);
    var a := Announce(w, m);
    if a.ok {
      CallProceeds(a0, a.w, a.m);
      var w1 := a.w.(api := Call(a.w.api).api);
      ProceedsTransitive(a0, w, m, a, Step(w1, a.m, true));
      if Call(a.w.api).fault.Some? {
        ReportProceeds(a0, w1, a.m, CreateFailure(k));
        ProceedsTransitive(a0, w, m, Step(w1, a.m, true), Report(w1, a.m, CreateFailure(k)));
      }
    }
  }

  lemma ConvergeProceeds(a0: Api, w: World, k: Kind, m: Minio)
    requires InRun(a0, w, m) && ServiceName(w.name, k) in w.svcs
    ensures Proceeds(a0, w, m, ConvergeService(w, k, m))
    ensures FaultFree(w.api.script) ==> ConvergeService(w, k, m).ok
  {
    var n := ServiceName(w.name, k);
    if !Matches(w.svcs[n], Expected(w.name, k, m.spec)) {
      CallProceeds(a0, w, m);
      var w1 := w.(api := Call(w.api).api);
      if Call(w.api).fault.Some? {
        ReportProceeds(a0, w1, m, UpdateFailure(k));
        ProceedsTransitive(a0, w, m, Step(w1, m, true), Report(w1, m, UpdateFailure(k)));
      }
    }
  }

  lemma ServiceProceeds(a0: Api, w: World, k: Kind, m: Minio)
    requires InRun(a0, w, m)
    ensures Proceeds(a0, w, m, CheckService(w, k, m))
    ensures FaultFree(w.api.script) ==> CheckService(w, k, m).ok
  {
    CallProceeds(a0, w, m);
    var w1 := w.(api := Call(w.api).api);
    if Call(w.api).fault.None? {
      if ServiceName(w.name, k) in w.svcs {
        ConvergeProceeds(a0, w1, k, m);
        ProceedsTransitive(a0, w, m, Step(w1, m, true), ConvergeService(w1, k, m));
      } else {
        CreateServiceProceeds(a0, w1, k, m);
        var c := CreateService(w1, k, m);
        ProceedsTransitive(a0, w, m, Step(w1, m, true), c);
        if c.ok {
          ConvergeProceeds(a0, c.w, k, c.m);
          ProceedsTransitive(a0, w, m, c, ConvergeService(c.w, k, c.m));
        }
      }
    }
  }

  /** What a check that succeeds leaves as service `k`: the stored one if it matches, and otherwise what the server
      makes of the expected one, whether a service was overwritten or created. */
  function Settle(svcs: map<string, Service>, ad: Admission, name: string, k: Kind, spec: Spec): Service {
    var n, e := ServiceName(name, k), Expected(name, k, spec);
    if n !in svcs then Admit(ad, e.(name := n))
    else if Matches(svcs[n], e) then svcs[n]
    else Admit(ad, Overwrite(svcs[n], e))
  }

  /** Of the services `before`, those after a check of service `n`: nothing removed, no other one touched, a
      matching one not written, and on success `settled`, which matches what it is compared with. */
  ghost predicate Checked(before: map<string, Service>, after: map<string, Service>,
                          n: string, expected: Service, settled: Service, ok: bool) {
    && before.Keys <= after.Keys <= before.Keys + {n}
    && (forall x :: x in before && x != n ==> after[x] == before[x])
    && (n in before && Matches(before[n], expected) ==> after == before)
    && (ok ==> after == before[n := settled] && Matches(settled, expected))
  }

  lemma CheckedAfterCreation(before: map<string, Service>, svc: Service, after: map<string, Service>,
                             n: string, expected: Service, settled: Service, ok: bool)
    requires n !in before && Checked(before[n := svc], after, n, expected, settled, ok)
    ensures Checked(before, after, n, expected, settled, ok)
  {
    assert forall x :: x in before ==> before[n := svc][x] == before[x];
    assert before[n := svc][n := settled] == before[n := settled];
  }

  /** A service as built matches at once and is what would be settled on, or, for the headless one, is overwritten. */
  lemma BuiltSettles(svcs: map<string, Service>, ad: Admission, name: string, k: Kind, spec: Spec)
    ensures var n, e, svc := ServiceName(name, k), Expected(name, k, spec), Admit(ad, Built(name, k, spec));
            n !in svcs ==> Settle(svcs[n := svc], ad, name, k, spec) == Settle(svcs, ad, name, k, spec)
  {
    var n, e, svc := ServiceName(name, k), Expected(name, k, spec), Admit(ad, Built(name, k, spec));
    if k.HeadlessSvc? {
      HeadlessNeverMatchesConsole(ad, name, spec);
    } else {
      assert Built(name, k, spec) == e.(name := n);
      assert Overwrite(svc, e) == e.(name := n);
    }
  }

  lemma ConvergeStore(w: World, k: Kind, m: Minio)
    requires ServiceName(w.name, k) in w.svcs
    ensures var s, n, e := ConvergeService(w, k, m), ServiceName(w.name, k), Expected(w.name, k, m.spec);
            && s.w == w.(svcs := s.w.svcs, api := s.w.api)
            && Checked(w.svcs, s.w.svcs, n, e, Settle(w.svcs, w.admit, w.name, k, m.spec), s.ok)
            && s.m.spec == m.spec
            && (Matches(w.svcs[n], e) ==> s == Step(w, m, true))
  {
    OverwrittenMatches(w.admit, w.svcs[ServiceName(w.name, k)], Expected(w.name, k, m.spec));
  }

  lemma CreateServiceStore(w: World, k: Kind, m: Minio)
    requires ServiceName(w.name, k) !in w.svcs
    ensures var s, n := CreateService(w, k, m), ServiceName(w.name, k);
            && s.w == w.(svcs := s.w.svcs, api := s.w.api)
            && s.m.spec == m.spec
            && s.w.svcs == (if s.ok then w.svcs[n := Admit(w.admit, Built(w.name, k, m.spec))] else w.svcs)
  {
    assert Built(w.name, k, m.spec).name == ServiceName(w.name, k);
  }

  lemma ServiceStore(w: World, k: Kind, m: Minio)
    ensures var s, n, e := CheckService(w, k, m), ServiceName(w.name, k), Expected(w.name, k, m.spec);
            && s.w == w.(svcs := s.w.svcs, api := s.w.api)
            && Checked(w.svcs, s.w.svcs, n, e, Settle(w.svcs, w.admit, w.name, k, m.spec), s.ok)
            && s.m.spec == m.spec
            && (n in w.svcs && Matches(w.svcs[n], e) ==> s.m == m)
  {
    var w1 := w.(api := Call(w.api).api);
    if Call(w.api).fault.None? {
      if ServiceName(w.name, k) in w.svcs {
        ConvergeStore(w1, k, m);
        assert CheckService(w, k, m) == ConvergeService(w1, k, m);
      } else {
        MissingServiceStore(w1, k, m);
      }
    }
  }

  /** A missing service is created and then checked like a stored one. */
  lemma MissingServiceStore(w: World, k: Kind, m: Minio)
    requires ServiceName(w.name, k) !in w.svcs
    ensures var c, n, e := CreateService(w, k, m), ServiceName(w.name, k), Expected(w.name, k, m.spec);
            && (c.ok ==> n in c.w.svcs)
            && var s := if c.ok then ConvergeService(c.w, k, c.m) else c;
               && s.w == w.(svcs := s.w.svcs, api := s.w.api)
               && Checked(w.svcs, s.w.svcs, n, e, Settle(w.svcs, w.admit, w.name, k, m.spec), s.ok)
               && s.m.spec == m.spec
  {
    CreateServiceStore(w, k, m);
    var c := CreateService(w, k, m);
    if c.ok {
      ConvergeStore(c.w, k, c.m);
      BuiltSettles(w.svcs, w.admit, w.name, k, m.spec);
      var s, n := ConvergeService(c.w, k, c.m), ServiceName(w.name, k);
      CheckedAfterCreation(w.svcs, c.w.svcs[n], s.w.svcs, n, Expected(w.name, k, m.spec),
                           Settle(w.svcs, w.admit, w.name, k, m.spec), s.ok);
    }
  }

  // ---------- Claims ----------

  /** Claims stored one by one, leaving those that exist as they are. */
  function InsertMissing(store: map<string, Claim>, claims: seq<Claim>): map<string, Claim>
    decreases |claims|
  {
    if claims == [] then store
    else InsertMissing(if claims[0].name in store then store else store[claims[0].name := claims[0]], claims[1..])
  }

  /** Claims only added, and only missing ones out of `claims`. */
  ghost predicate ClaimsAdded(before: map<string, Claim>, after: map<string, Claim>, claims: seq<Claim>) {
    && before.Keys <= after.Keys
    && (forall x :: x in before ==> after[x] == before[x])
    && (forall x :: x in after && x !in before ==> exists c :: c in claims && c.name == x)
  }

  lemma ClaimsAddedStep(before: map<string, Claim>, after: map<string, Claim>, claims: seq<Claim>)
    requires claims != []
    requires ClaimsAdded(before, after, claims[1..]) ||
             (claims[0].name !in before && ClaimsAdded(before[claims[0].name := claims[0]], after, claims[1..]))
    ensures ClaimsAdded(before, after, claims)
  {
    assert claims[0] in claims && forall c :: c in claims[1..] ==> c in claims;
    if !ClaimsAdded(before, after, claims[1..]) {
      assert forall x :: x in before ==> before[claims[0].name := claims[0]][x] == before[x];
    }
  }

  lemma {:induction false} CreateClaimsProceeds(a0: Api, w: World, m: Minio, claims: seq<Claim>)
    requires InRun(a0, w, m)
    ensures var t := CreateClaims(w, claims);
            && Proceeds(a0, w, m, Step(t, m, true))
            && t == w.(pvcs := t.pvcs, api := t.api)
            && ClaimsAdded(w.pvcs, t.pvcs, claims)
            && (FaultFree(w.api.script) ==> t.pvcs == InsertMissing(w.pvcs, claims))
    decreases |claims|
  {
    if claims != [] {
      CallProceeds(a0, w, m);
      var w1 := w.(api := Call(w.api).api);
      var w2 := if Call(w.api).fault.Some? || claims[0].name in w1.pvcs then w1
                else w1.(pvcs := w1.pvcs[claims[0].name := claims[0]]);
      CreateClaimsProceeds(a0, w2, m, claims[1..]);
      ProceedsTransitive(a0, w, m, Step(w2, m, true), Step(CreateClaims(w, claims), m, true));
      ClaimsAddedStep(w.pvcs, CreateClaims(w, claims).pvcs, claims);
    }
  }

  /** Existing claims are never changed; claims are created only when the MinIO has none. */
  lemma ClaimsProceed(a0: Api, w: World, m: Minio)
    requires InRun(a0, w, m)
    ensures var s := CheckPVC(w, m);
            && Proceeds(a0, w, m, s)
            && s.w == w.(pvcs := s.w.pvcs, api := s.w.api)
            && ClaimsAdded(w.pvcs, s.w.pvcs, AllClaims(w.name, m.spec, m.spec.pools))
            && (HasClaims(w) ==> s.w.pvcs == w.pvcs)
            && (FaultFree(w.api.script) ==> s.ok)
            && (FaultFree(w.api.script) && !HasClaims(w) ==>
                  s.w.pvcs == InsertMissing(w.pvcs, AllClaims(w.name, m.spec, m.spec.pools)))
  {
    CallProceeds(a0, w, m);
    var w1 := w.(api := Call(w.api).api);
    assert HasClaims(w1) == HasClaims(w);
    if Call(w.api).fault.None? && !HasClaims(w1) {
      AnnounceProceeds(a0, w1, m);
      var a := Announce(w1, m);
      ProceedsTransitive(a0, w, m, Step(w1, m, true), a);
      if a.ok {
        var claims := AllClaims(w.name, m.spec, m.spec.pools);
        CreateClaimsProceeds(a0, a.w, a.m, claims);
        ProceedsTransitive(a0, w, m, a, Step(CreateClaims(a.w, claims), a.m, true));
      }
    }
  }

  // ---------- Pods ----------

  datatype Stored = Stored(pods: map<string, Pod>, ok: bool)

  /** Pods created one after another until one exists already. */
  function PutNew(store: map<string, Pod>, pods: seq<Pod>): Stored
    decreases |pods|
  {
    if pods == [] then Stored(store, true)
    else if pods[0].name in store then Stored(store, false)
    else PutNew(store[pods[0].name := pods[0]], pods[1..])
  }

  /** Pods replaced one after another until one is missing. */
  function PutOver(store: map<string, Pod>, pods: seq<Pod>): Stored
    decreases |pods|
  {
    if pods == [] then Stored(store, true)
    else if pods[0].name !in store then Stored(store, false)
    else PutOver(store[pods[0].name := pods[0]], pods[1..])
  }

  /** Whatever `after` holds was there before or is one of `pods`, and nothing was removed. */
  ghost predicate Written(before: map<string, Pod>, after: map<string, Pod>, pods: seq<Pod>) {
    && before.Keys <= after.Keys
    && forall n :: n in after ==>
         (n in before && after[n] == before[n]) ||
         exists k :: 0 <= k < |pods| && pods[k].name == n && after[n] == pods[k]
  }

  lemma WrittenStep(before: map<string, Pod>, after: map<string, Pod>, pods: seq<Pod>)
    requires pods != [] && Written(before[pods[0].name := pods[0]], after, pods[1..])
    ensures Written(before, after, pods)
  {
    forall n | n in after
      ensures (n in before && after[n] == before[n]) ||
              exists k :: 0 <= k < |pods| && pods[k].name == n && after[n] == pods[k]
    {
      if exists k :: 0 <= k < |pods[1..]| && pods[1..][k].name == n && after[n] == pods[1..][k] {
        var k :| 0 <= k < |pods[1..]| && pods[1..][k].name == n && after[n] == pods[1..][k];
        assert pods[k + 1] == pods[1..][k];
      } else if n == pods[0].name {
        assert after[n] == pods[0];
      }
    }
  }

  /** Under any interference and faults. */
  lemma {:induction false} CreatePodsProceeds(a0: Api, w: World, m: Minio, pods: seq<Pod>)
    requires InRun(a0, w, m)
    ensures var s := CreatePods(w, m, pods);
            && Proceeds(a0, w, m, s)
            && (FaultFree(w.api.script) ==> Stored(s.w.pods, s.ok) == PutNew(w.pods, pods))
    decreases |pods|
  {
    if pods != [] {
      CallProceeds(a0, w, m);
      var w1 := w.(api := Call(w.api).api);
      var fault := Call(w.api).fault;
      if fault.Some? || pods[0].name in w1.pods {
        var text := "MinIO Pod Create Failed, " + ErrorText(fault, "already exists");
        ReportProceeds(a0, w1, m, text);
        ProceedsTransitive(a0, w, m, Step(w1, m, true), Report(w1, m, text));
      } else {
        var w2 := w1.(pods := w1.pods[pods[0].name := pods[0]]);
        CreatePodsProceeds(a0, w2, m, pods[1..]);
        ProceedsTransitive(a0, w, m, Step(w2, m, true), CreatePods(w2, m, pods[1..]));
      }
    }
  }

  /** Creation never overwrites. */
  lemma {:induction false} CreatePodsStore(w: World, m: Minio, pods: seq<Pod>)
    ensures var s := CreatePods(w, m, pods);
            && s.w == w.(pods := s.w.pods, api := s.w.api)
            && Written(w.pods, s.w.pods, pods)
            && (forall x :: x in w.pods ==> s.w.pods[x] == w.pods[x])
    decreases |pods|
  {
    if pods != [] {
      var w1 := w.(api := Call(w.api).api);
      if Call(w.api).fault.None? && !(pods[0].name in w1.pods) {
        var w2 := w1.(pods := w1.pods[pods[0].name := pods[0]]);
        CreatePodsStore(w2, m, pods[1..]);
        WrittenStep(w.pods, CreatePods(w2, m, pods[1..]).w.pods, pods);
      }
    }
  }

  /** Under any interference and faults. */
  lemma {:induction false} UpdatePodsProceeds(a0: Api, w: World, m: Minio, pods: seq<Pod>)
    requires InRun(a0, w, m)
    ensures var s := UpdatePods(w, m, pods);
            && Proceeds(a0, w, m, s)
            && (FaultFree(w.api.script) ==> Stored(s.w.pods, s.ok) == PutOver(w.pods, pods))
    decreases |pods|
  {
    if pods != [] {
      CallProceeds(a0, w, m);
      var w1 := w.(api := Call(w.api).api);
      var fault := Call(w.api).fault;
      if fault.Some? || pods[0].name !in w1.pods {
        var text := "MinIO Pod Update Failed, " + ErrorText(fault, "not found");
        ReportProceeds(a0, w1, m, text);
        ProceedsTransitive(a0, w, m, Step(w1, m, true), Report(w1, m, text));
      } else {
        var w2 := w1.(pods := w1.pods[pods[0].name := pods[0]]);
        UpdatePodsProceeds(a0, w2, m, pods[1..]);
        ProceedsTransitive(a0, w, m, Step(w2, m, true), UpdatePods(w2, m, pods[1..]));
      }
    }
  }

  /** Updating never adds a pod. */
  lemma {:induction false} UpdatePodsStore(w: World, m: Minio, pods: seq<Pod>)
    ensures var s := UpdatePods(w, m, pods);
            && s.w == w.(pods := s.w.pods, api := s.w.api)
            && Written(w.pods, s.w.pods, pods)
            && (s.w.pods.Keys == w.pods.Keys)
    decreases |pods|
  {
    if pods != [] {
      var w1 := w.(api := Call(w.api).api);
      if Call(w.api).fault.None? && !(pods[0].name !in w1.pods) {
        var w2 := w1.(pods := w1.pods[pods[0].name := pods[0]]);
        UpdatePodsStore(w2, m, pods[1..]);
        WrittenStep(w.pods, UpdatePods(w2, m, pods[1..]).w.pods, pods);
      }
    }
  }
}
