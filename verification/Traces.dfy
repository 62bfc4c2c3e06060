/** The reconcilers' runs are runs of the protocol: each call of a run is a step of its reconciler, the others' writes
    it meets are outside writes; and what a reconciler meets in an interleaving are outside writes as well. */
module Traces {
  import opened Wrappers
  import opened Types
  import opened StatusStore
  import opened Protocol
  import HealthRuns
  import StatusRuns

  // ---------- Actions in a row ----------

  lemma {:induction false} LegalAppend(s: Sys, x: seq<Action>, y: seq<Action>)
    requires Legal(s, x) && Legal(Final(s, x), y)
    ensures Legal(s, x + y) && Final(s, x + y) == Final(Final(s, x), y)
    decreases |x|
  {
    if x == [] {
      assert x + y == y;
    } else {
      assert (x + y)[1..] == x[1..] + y;
      LegalAppend(Do(s, x[0]), x[1..], y);
    }
  }

  function OutsideWrite(act: Action): seq<Write> {
    if act.Outside? then [act.write] else []
  }

  function OutsideWrites(acts: seq<Action>): seq<Write> {
    if acts == [] then [] else OutsideWrite(acts[0]) + OutsideWrites(acts[1..])
  }

  lemma Regroup<T>(x: seq<T>, y: seq<T>, z: seq<T>)
    ensures x + (y + z) == x + y + z
  {
  }

  lemma {:induction false} OutsideAppend(x: seq<Action>, y: seq<Action>)
    ensures OutsideWrites(x + y) == OutsideWrites(x) + OutsideWrites(y)
  {
    if x == [] {
      assert x + y == y;
    } else {
      assert (x + y)[0] == x[0] && (x + y)[1..] == x[1..] + y;
      OutsideAppend(x[1..], y);
      Regroup(OutsideWrite(x[0]), OutsideWrites(x[1..]), OutsideWrites(y));
    }
  }

  /** How often the object is read at the start of a run. */
  function Fetches(acts: seq<Action>): nat {
    if acts == [] then 0 else (if acts[0].Fetch? then 1 else 0) + Fetches(acts[1..])
  }

  lemma {:induction false} FetchesAppend(x: seq<Action>, y: seq<Action>)
    ensures Fetches(x + y) == Fetches(x) + Fetches(y)
  {
    if x == [] {
      assert x + y == y;
    } else {
      assert (x + y)[0] == x[0] && (x + y)[1..] == x[1..] + y;
      FetchesAppend(x[1..], y);
    }
  }

  function OthersOf(events: seq<Event>): seq<Write> {
    if events == [] then [] else events[0].others + OthersOf(events[1..])
  }

  lemma {:induction false} OthersAppend(x: seq<Event>, y: seq<Event>)
    ensures OthersOf(x + y) == OthersOf(x) + OthersOf(y)
  {
    if x == [] {
      assert x + y == y;
    } else {
      assert (x + y)[0] == x[0] && (x + y)[1..] == x[1..] + y;
      OthersAppend(x[1..], y);
      Regroup(x[0].others, OthersOf(x[1..]), OthersOf(y));
    }
  }

  predicate OnlyBy(acts: seq<Action>, o: Owner) {
    forall a :: a in acts ==> a.Outside? || a.o == o
  }

  /** The server of the protocol and that of the store model are in the same state. */
  predicate Mirrors(s: Sys, a: Api) {
    s.version == a.version && s.spec == a.spec && s.status == a.status && s.noopBumps == a.noopBumps
  }

  /** These actions, all by `o` or from outside, take the server from `a` to `b`, and the outside writes among them
      are, in order, those of the events used up. */
  ghost predicate Runs(o: Owner, s: Sys, acts: seq<Action>, a: Api, b: Api) {
    && OnlyBy(acts, o) && Legal(s, acts)
    && Mirrors(s, a) && Mirrors(Final(s, acts), b)
    && Rest(a.script, b.script) && OutsideWrites(acts) == OthersOf(Met(a, b))
  }

  /** A stretch of a run after its first read: the reconciler's count of changes grows as that of the store model. */
  ghost predicate Stretch(o: Owner, s: Sys, acts: seq<Action>, a: Api, b: Api) {
    && Runs(o, s, acts, a, b) && Fetches(acts) == 0
    && o in s.procs && o in Final(s, acts).procs
    && Final(s, acts).procs[o].changes + a.own == s.procs[o].changes + b.own
  }

  /** A whole run: it reads the object once, and then the changes it has made are those the store model counts; or its
      first read is not answered, and it does nothing. */
  ghost predicate WholeRun(o: Owner, s: Sys, acts: seq<Action>, a: Api, b: Api) {
    && Runs(o, s, acts, a, b)
    && o in s.procs && o in Final(s, acts).procs
    && if Fetches(acts) == 0 then Final(s, acts).procs == s.procs && b.own == a.own
       else Fetches(acts) == 1 && Final(s, acts).procs[o].changes + a.own == b.own
  }

  lemma StretchAppend(o: Owner, s: Sys, x: seq<Action>, y: seq<Action>, a: Api, b: Api, c: Api)
    requires Stretch(o, s, x, a, b) && Stretch(o, Final(s, x), y, b, c)
    ensures Stretch(o, s, x + y, a, c) && Final(s, x + y) == Final(Final(s, x), y)
  {
    RunsAppend(o, s, x, y, a, b, c);
    FetchesAppend(x, y);
  }

  lemma RunsAppend(o: Owner, s: Sys, x: seq<Action>, y: seq<Action>, a: Api, b: Api, c: Api)
    requires Runs(o, s, x, a, b) && Runs(o, Final(s, x), y, b, c)
    ensures Runs(o, s, x + y, a, c) && Final(s, x + y) == Final(Final(s, x), y)
  {
    LegalAppend(s, x, y);
    OutsideAppend(x, y);
    MetAppend(a, b, c);
    OthersAppend(Met(a, b), Met(b, c));
  }

  lemma OwnStep(o: Owner, s: Sys, act: Action, a: Api, b: Api)
    requires !act.Outside? && act.o == o && Enabled(s, act)
    requires Mirrors(s, a) && Mirrors(Do(s, act), b) && a.script == b.script
    ensures Runs(o, s, [act], a, b) && Final(s, [act]) == Do(s, act)
    ensures Fetches([act]) == if act.Fetch? then 1 else 0
    ensures !act.Fetch? && Do(s, act).procs[o].changes + a.own == s.procs[o].changes + b.own ==>
              Stretch(o, s, [act], a, b)
  {
    assert [act][1..] == [] && Met(a, b) == [];
    assert Legal(Do(s, act), []);
  }

  // ---------- One call, one write ----------

  function Meddling(ws: seq<Write>): seq<Action> {
    if ws == [] then [] else [Outside(ws[0])] + Meddling(ws[1..])
  }

  lemma {:induction false} MeddlingRuns(s: Sys, a: Api, ws: seq<Write>, o: Owner)
    requires Mirrors(s, a)
    ensures var acts := Meddling(ws);
            && Legal(s, acts) && Mirrors(Final(s, acts), ApplyAll(a, ws)) && Final(s, acts).procs == s.procs
            && OutsideWrites(acts) == ws && OnlyBy(acts, o) && Fetches(acts) == 0
    decreases |ws|
  {
    if ws != [] {
      MeddlingRuns(Do(s, Outside(ws[0])), Apply(a, ws[0]), ws[1..], o);
      assert Meddling(ws)[1..] == Meddling(ws[1..]);
    }
  }

  lemma CallTrace(o: Owner, s: Sys, a: Api) returns (acts: seq<Action>)
    requires Mirrors(s, a) && o in s.procs
    ensures Stretch(o, s, acts, a, Call(a).api) && Final(s, acts).procs == s.procs
  {
    CallShape(a);
    if a.script == [] {
      acts := [];
      assert Met(a, a) == [];
    } else {
      acts := Meddling(a.script[0].others);
      MeddlingRuns(s, a.(script := a.script[1..]), a.script[0].others, o);
      assert Met(a, Call(a).api) == [a.script[0]];
      assert OthersOf([a.script[0]]) == a.script[0].others;
    }
  }

  /** A call and then a step of the reconciler's own. */
  lemma CallThen(o: Owner, s: Sys, calls: seq<Action>, act: Action, a: Api, b: Api)
    requires Stretch(o, s, calls, a, Call(a).api) && Call(a).api.script == b.script
    requires !act.Outside? && !act.Fetch? && act.o == o && Enabled(Final(s, calls), act)
    requires Mirrors(Do(Final(s, calls), act), b)
    requires Do(Final(s, calls), act).procs[o].changes + Call(a).api.own == Final(s, calls).procs[o].changes + b.own
    ensures Stretch(o, s, calls + [act], a, b) && Final(s, calls + [act]) == Do(Final(s, calls), act)
  {
    OwnStep(o, Final(s, calls), act, Call(a).api, b);
    StretchAppend(o, s, calls, [act], a, Call(a).api, b);
  }

  /** The whole of a status write, retries included. */
  lemma {:induction false} WriteTrace(o: Owner, s: Sys, a: Api, c: Copy) returns (acts: seq<Action>)
    requires Mirrors(s, a) && o in s.procs && s.procs[o].flight == Sending(c)
    ensures Stretch(o, s, acts, a, UpdateWithRetry(a, c, true).api)
    ensures var t := Final(s, acts).procs[o]; t.minio == s.procs[o].minio && t.flight == Resting
    decreases |a.script|, if c.version == a.version then 0 else 1, 0
  {
    var calls := CallTrace(o, s, a);
    var u := UpdateStatus(a, c);
    CallShape(a);
    if u.reply.Conflict? {
      CallThen(o, s, calls, Send(o), a, u.api);
      var again := RetryTrace(o, Final(s, calls + [Send(o)]), u.api);
      StretchAppend(o, s, calls + [Send(o)], again, a, u.api, UpdateWithRetry(a, c, true).api);
      acts := calls + [Send(o)] + again;
    } else {
      var act := if u.reply.Done? then Send(o) else GiveUp(o);
      CallThen(o, s, calls, act, a, u.api);
      acts := calls + [act];
    }
  }

  /** What the retry does after a conflict: read, and send what was read. */
  function AfterConflict(a: Api): Api {
    var g := Call(a).api;
    if Call(a).fault.Some? then g else UpdateWithRetry(g, Copy(g.version, g.status), true).api
  }

  lemma {:induction false} RetryTrace(o: Owner, s: Sys, a: Api) returns (acts: seq<Action>)
    requires Mirrors(s, a) && o in s.procs && s.procs[o].flight == Refetching
    ensures Stretch(o, s, acts, a, AfterConflict(a))
    ensures var t := Final(s, acts).procs[o]; t.minio == s.procs[o].minio && t.flight == Resting
    decreases |a.script|, 0, 1
  {
    var calls := CallTrace(o, s, a);
    var g := Call(a);
    CallShape(a);
    var act := if g.fault.Some? then GiveUp(o) else Refetch(o);
    CallThen(o, s, calls, act, a, g.api);
    acts := calls + [act];
    if g.fault.None? {
      var again := WriteTrace(o, Final(s, acts), g.api, Copy(g.api.version, g.api.status));
      StretchAppend(o, s, acts, again, a, g.api, AfterConflict(a));
      acts := acts + again;
    }
  }

  // ---------- Stretches of a run ----------

  /** Between two writes: the in-memory object is `c`. */
  ghost predicate Holding(o: Owner, s: Sys, a: Api, c: Copy) {
    Mirrors(s, a) && o in s.procs && s.procs[o].minio == Some(c) && s.procs[o].flight == Resting
  }

  ghost predicate Reaches(o: Owner, s: Sys, a: Api, b: Api, d: Copy) {
    exists acts :: Stretch(o, s, acts, a, b) && Holding(o, Final(s, acts), b, d)
  }

  /** What leads from `a` with the object `c` to `b` with the object `d` is a run of the protocol. */
  ghost predicate Traced(o: Owner, a: Api, c: Copy, b: Api, d: Copy) {
    forall s :: Holding(o, s, a, c) ==> Reaches(o, s, a, b, d)
  }

  lemma TracedNothing(o: Owner, a: Api, c: Copy)
    ensures Traced(o, a, c, a, c)
  {
    forall s | Holding(o, s, a, c) ensures Reaches(o, s, a, a, c) {
      assert Met(a, a) == [];
      assert Stretch(o, s, [], a, a) && Holding(o, Final(s, []), a, c);
    }
  }

  lemma TracedThen(o: Owner, a: Api, c: Copy, b: Api, d: Copy, e: Api, f: Copy)
    requires Traced(o, a, c, b, d) && Traced(o, b, d, e, f)
    ensures Traced(o, a, c, e, f)
  {
    forall s | Holding(o, s, a, c) ensures Reaches(o, s, a, e, f) {
      assert Reaches(o, s, a, b, d);
      var x :| Stretch(o, s, x, a, b) && Holding(o, Final(s, x), b, d);
      assert Reaches(o, Final(s, x), b, e, f);
      var y :| Stretch(o, Final(s, x), y, b, e) && Holding(o, Final(Final(s, x), y), e, f);
      StretchAppend(o, s, x, y, a, b, e);
      assert Stretch(o, s, x + y, a, e) && Holding(o, Final(s, x + y), e, f);
    }
  }

  lemma TracedCall(o: Owner, a: Api, c: Copy)
    ensures Traced(o, a, c, Call(a).api, c)
  {
    forall s | Holding(o, s, a, c) ensures Reaches(o, s, a, Call(a).api, c) {
      var acts := CallTrace(o, s, a);
      assert Stretch(o, s, acts, a, Call(a).api) && Holding(o, Final(s, acts), Call(a).api, c);
    }
  }

  /** A field assigned and the object sent. */
  lemma TracedWrite(o: Owner, a: Api, c: Copy, st: Status)
    requires AgreeOutside(o, st, c.status)
    ensures var d := c.(status := st); Traced(o, a, c, UpdateWithRetry(a, d, true).api, d)
  {
    var d := c.(status := st);
    var b := UpdateWithRetry(a, d, true).api;
    forall s | Holding(o, s, a, c) ensures Reaches(o, s, a, b, d) {
      var s1 := Do(s, Assign(o, st));
      OwnStep(o, s, Assign(o, st), a, a);
      OwnStep(o, s1, Begin(o), a, a);
      StretchAppend(o, s, [Assign(o, st)], [Begin(o)], a, a, a);
      var start := [Assign(o, st)] + [Begin(o)];
      var acts := WriteTrace(o, Final(s, start), a, d);
      StretchAppend(o, s, start, acts, a, a, b);
      assert Stretch(o, s, start + acts, a, b) && Holding(o, Final(s, start + acts), b, d);
    }
  }

  /** A run begins by reading the object, once. */
  lemma RunFrom(o: Owner, s: Sys, a: Api, b: Api, d: Copy) returns (acts: seq<Action>)
    requires Mirrors(s, a) && o in s.procs && s.procs[o].flight == Resting
    requires Traced(o, Call(a).api, Copy(Call(a).api.version, Call(a).api.status), b, d)
    ensures WholeRun(o, s, acts, a, b)
  {
    var a0 := Call(a).api;
    CallShape(a);
    var calls := CallTrace(o, s, a);
    OwnStep(o, Final(s, calls), Fetch(o), a0, a0);
    RunsAppend(o, s, calls, [Fetch(o)], a, a0, a0);
    FetchesAppend(calls, [Fetch(o)]);
    var start := calls + [Fetch(o)];
    assert Reaches(o, Final(s, start), a0, b, d);
    var rest :| Stretch(o, Final(s, start), rest, a0, b) && Holding(o, Final(Final(s, start), rest), b, d);
    RunsAppend(o, s, start, rest, a, a0, b);
    FetchesAppend(start, rest);
    acts := start + rest;
  }

  /** A run whose first read is not answered, or shows nothing to act on. */
  lemma NoRun(o: Owner, s: Sys, a: Api) returns (acts: seq<Action>)
    requires Mirrors(s, a) && o in s.procs
    ensures WholeRun(o, s, acts, a, Call(a).api)
  {
    CallShape(a);
    acts := CallTrace(o, s, a);
  }

  // ---------- The health checker and the status controller ----------

  /** Every run of the health checker is a run of the protocol. */
  lemma HealthRunIsTrace(s: Sys, a: Api, healthy: bool) returns (acts: seq<Action>)
    requires Mirrors(s, a) && HealthChecker in s.procs && s.procs[HealthChecker].flight == Resting
    ensures WholeRun(HealthChecker, s, acts, a, HealthRuns.HealthReconcile(a, healthy).api)
  {
    var o, a0 := HealthChecker, Call(a).api;
    var c := Copy(a0.version, a0.status);
    if Call(a).fault.Some? || a0.life.Gone? {
      acts := NoRun(o, s, a);
    } else {
      var c1 := c.(status := c.status.(healthStatus := Unknown));
      var w1 := UpdateWithRetry(a0, c1, true);
      TracedWrite(o, a0, c, c1.status);
      if !w1.ok || c.status.status != Completed {
        acts := RunFrom(o, s, a, w1.api, c1);
      } else {
        var c2 := c.(status := c.status.(healthStatus := HealthRuns.CheckResult(healthy)));
        TracedWrite(o, w1.api, c1, c2.status);
        TracedThen(o, a0, c, w1.api, c1, UpdateWithRetry(w1.api, c2, true).api, c2);
        acts := RunFrom(o, s, a, UpdateWithRetry(w1.api, c2, true).api, c2);
      }
    }
  }

  lemma {:induction false} ListTrace(s: Sys, a: Api, n: nat) returns (acts: seq<Action>)
    requires Mirrors(s, a) && StatusController in s.procs
    ensures Stretch(StatusController, s, acts, a, StatusRuns.ListCalls(a, n).api) && Final(s, acts).procs == s.procs
    decreases n
  {
    if n == 0 {
      acts := [];
      assert Met(a, a) == [];
    } else {
      acts := CallTrace(StatusController, s, a);
      if Call(a).fault.None? {
        var more := ListTrace(Final(s, acts), Call(a).api, n - 1);
        StretchAppend(StatusController, s, acts, more, a, Call(a).api, StatusRuns.ListCalls(a, n).api);
        acts := acts + more;
      }
    }
  }

  lemma TracedListing(a: Api, c: Copy, n: nat)
    ensures Traced(StatusController, a, c, StatusRuns.ListCalls(a, n).api, c)
  {
    var b := StatusRuns.ListCalls(a, n).api;
    forall s | Holding(StatusController, s, a, c) ensures Reaches(StatusController, s, a, b, c) {
      var acts := ListTrace(s, a, n);
      assert Stretch(StatusController, s, acts, a, b) && Holding(StatusController, Final(s, acts), b, c);
    }
  }

  /** Every run of the status controller is a run of the protocol. */
  lemma StatusRunIsTrace(s: Sys, a: Api, pvcs: seq<PVCStatus>, service: ServiceAddr, listing: StatusRuns.Listing)
    returns (acts: seq<Action>)
    requires Mirrors(s, a) && StatusController in s.procs && s.procs[StatusController].flight == Resting
    ensures WholeRun(StatusController, s, acts, a, StatusRuns.StatusReconcile(a, pvcs, service, listing).api)
  {
    var o, a0 := StatusController, Call(a).api;
    var c := Copy(a0.version, a0.status);
    if Call(a).fault.Some? || a0.life.Gone? {
      acts := NoRun(o, s, a);
    } else {
      var n := 2 + |a0.spec.pools|;
      var l := StatusRuns.ListCalls(a0, n);
      TracedListing(a0, c, n);
      if !l.ok {
        acts := RunFrom(o, s, a, l.api, c);
      } else {
        var st := StatusRuns.Observed(c.status, a0.spec.pools, pvcs, service, listing);
        var b := UpdateWithRetry(l.api, c.(status := st), true).api;
        TracedWrite(o, l.api, c, st);
        TracedThen(o, a0, c, l.api, c, b, c.(status := st));
        acts := RunFrom(o, s, a, b, c.(status := st));
      }
    }
  }

  /** So the bound on changes carries over: from any state of the protocol its invariant allows, such a run changes
      the stored status at most once. */
  lemma WholeRunChangesOnce(o: Owner, s: Sys, acts: seq<Action>, a: Api, b: Api)
    requires Inv(s) && WholeRun(o, s, acts, a, b)
    ensures Inv(Final(s, acts)) && b.own <= a.own + 1
  {
    ReachableInv(s, acts);
    assert ProcInv(o, Final(s, acts).procs[o], Final(s, acts).version, Final(s, acts).status);
  }

  // ---------- What one reconciler sees of an interleaving ----------

  /** Another's accepted send becomes an outside write, its other actions disappear. */
  function SeenAs(s: Sys, act: Action, o: Owner): seq<Action>
    requires Enabled(s, act)
  {
    if act.Outside? || act.o == o then [act]
    else if act.Send? && s.procs[act.o].flight.copy.version == s.version
    then [Outside(SetStatus(s.procs[act.o].flight.copy.status))]
    else []
  }

  function Seen(s: Sys, acts: seq<Action>, o: Owner): seq<Action>
    requires Legal(s, acts)
    decreases |acts|
  {
    if acts == [] then [] else SeenAs(s, acts[0], o) + Seen(Do(s, acts[0]), acts[1..], o)
  }

  predicate Alike(s: Sys, t: Sys, o: Owner) {
    && s.version == t.version && s.spec == t.spec && s.status == t.status && s.noopBumps == t.noopBumps
    && o in s.procs && o in t.procs && s.procs[o] == t.procs[o]
  }

  lemma LegalOne(t: Sys, act: Action)
    requires Enabled(t, act)
    ensures Legal(t, [act]) && Final(t, [act]) == Do(t, act)
  {
    assert [act][1..] == [] && Legal(Do(t, act), []);
  }

  lemma SeenStep(s: Sys, t: Sys, act: Action, o: Owner)
    requires Alike(s, t, o) && Enabled(s, act)
    ensures var seen := SeenAs(s, act, o);
            OnlyBy(seen, o) && Legal(t, seen) && Alike(Do(s, act), Final(t, seen), o)
  {
    if act.Outside? || act.o == o {
      LegalOne(t, act);
    } else if act.Send? && s.procs[act.o].flight.copy.version == s.version {
      LegalOne(t, Outside(SetStatus(s.procs[act.o].flight.copy.status)));
    }
  }

  /** For every interleaving and each reconciler, what it sees is a run of that reconciler among outside writes, and
      takes the server and the reconciler to the same state. */
  lemma {:induction false} SeenRuns(s: Sys, t: Sys, acts: seq<Action>, o: Owner)
    requires Alike(s, t, o) && Legal(s, acts)
    ensures var seen := Seen(s, acts, o);
            OnlyBy(seen, o) && Legal(t, seen) && Alike(Final(s, acts), Final(t, seen), o)
    decreases |acts|
  {
    if acts != [] {
      var first := SeenAs(s, acts[0], o);
      SeenStep(s, t, acts[0], o);
      SeenRuns(Do(s, acts[0]), Final(t, first), acts[1..], o);
      LegalAppend(t, first, Seen(Do(s, acts[0]), acts[1..], o));
    }
  }
}
