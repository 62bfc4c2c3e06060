/** One run of the health checker, and runs in sequence: `minio_health_checker_controller.go`. */
module HealthRuns {
  import opened Types
  import opened StatusStore

  function CheckResult(healthy: bool): (r: HealthStatus)
    ensures r == Health <==> healthy
    ensures r == UnHealth <==> !healthy
  {
    if healthy then Health else UnHealth
  }

  /** An error of the first read other than "not found" leaves a nameless object whose status write is refused
      before it reaches the server. */
  function HealthReconcile(a: Api, healthy: bool): RunResult {
    var g := Call(a);
    if g.fault.Some? then RunResult(g.api, true, true)
    else if g.api.life.Gone? then RunResult(g.api, false, true)
    else
      var base := Copy(g.api.version, g.api.status);
      var w1 := UpdateWithRetry(g.api, base.(status := base.status.(healthStatus := Unknown)), true);
      if !w1.ok then RunResult(w1.api, true, true)
      else if base.status.status != Completed then RunResult(w1.api, true, false)
      else
        var w2 := UpdateWithRetry(w1.api, base.(status := base.status.(healthStatus := CheckResult(healthy))), true);
        if !w2.ok then RunResult(w2.api, true, true)
        else RunResult(w2.api, !healthy, false)
  }

  /** Under any interference and any faults, a run changes the store at most once and only the health status. */
  lemma HealthRunOwnsHealth(a: Api, healthy: bool)
    ensures DuringRun(HealthChecker, Call(a).api, HealthReconcile(a, healthy).api)
  {
    var a0 := Call(a).api;
    RunStarts(HealthChecker, a0);
    var s1 := a0.status.(healthStatus := Unknown);
    WriteDuringRun(HealthChecker, a0, a0, s1, true);
    var w1 := UpdateWithRetry(a0, Copy(a0.version, s1), true).api;
    WriteDuringRun(HealthChecker, a0, w1, a0.status.(healthStatus := CheckResult(healthy)), true);
  }

  /** With nobody else writing, one run stores the check result only when the deployment is complete, the stored
      health is already Unknown and the server does not count a no-op write; otherwise it stores Unknown. */
  lemma OneHealthRun(a: Api, healthy: bool)
    requires Calm(a) && !a.life.Gone?
    ensures var r := HealthReconcile(a, healthy).api;
            && Calm(r) && r.life == a.life && r.noopBumps == a.noopBumps
            && r.status == a.status.(healthStatus :=
                 if a.status.status == Completed && a.status.healthStatus == Unknown && !a.noopBumps
                 then CheckResult(healthy) else Unknown)
  {
    UndisturbedCall(a);
    CallFollows(a);
    if a.script != [] {
      assert a.script[0] in a.script;
    }
    var a0 := Call(a).api;
    var c1 := Copy(a0.version, a0.status.(healthStatus := Unknown));
    RetryFollows(a0, c1, true);
    UndisturbedWrite(a0, c1);
    var w1 := UpdateWithRetry(a0, c1, true).api;
    if a0.status.status == Completed {
      var c2 := Copy(a0.version, a0.status.(healthStatus := CheckResult(healthy)));
      RetryFollows(w1, c2, true);
      UndisturbedWrite(w1, c2);
    }
  }

  /** Health runs one after another, the i-th check answering `checks[i]`. */
  function HealthRunsFrom(a: Api, checks: seq<bool>): Api {
    if checks == [] then a
    else HealthReconcile(HealthRunsFrom(a, checks[..|checks| - 1]), checks[|checks| - 1]).api
  }

  /** For every number of runs, every sequence of check results and every start value, the stored health
      alternates between Unknown and the latest check result; the start value decides which comes first. With a
      server that counts no-op writes, or an incomplete deployment, no check result is ever stored. */
  lemma {:induction false} HealthAlternates(a: Api, checks: seq<bool>)
    requires Calm(a) && !a.life.Gone?
    ensures var r := HealthRunsFrom(a, checks);
            && Calm(r) && r.life == a.life && r.noopBumps == a.noopBumps
            && r.status == a.status.(healthStatus := Alternating(a, checks))
  {
    var n := |checks|;
    if n > 0 {
      var before := HealthRunsFrom(a, checks[..n - 1]);
      HealthAlternates(a, checks[..n - 1]);
      OneHealthRun(before, checks[n - 1]);
      assert before.status.status == a.status.status;
      if n > 1 {
        assert before.status.healthStatus == Unknown <==> Alternating(a, checks[..n - 1]) == Unknown;
      }
    }
  }

  /** Before the first run the start value; afterwards, on a server that ignores no-op writes and a complete
      deployment, the latest check result after odd runs from Unknown and even runs from anything else. */
  function Alternating(a: Api, checks: seq<bool>): HealthStatus {
    var n := |checks|;
    if n == 0 then a.status.healthStatus
    else if a.status.status == Completed && !a.noopBumps && ((n % 2 == 1) == (a.status.healthStatus == Unknown))
    then CheckResult(checks[n - 1])
    else Unknown
  }
}
