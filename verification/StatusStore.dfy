/** The stored MinIO object as its API server keeps it, and the conflict-retry status write that all three
    reconcilers carry (`updateMinIOStatusWithRetry`, `updateMinIOStatus`). */
module StatusStore {
  import opened Wrappers
  import opened Types

  /** A write by somebody else that lands between two calls of the client under study. */
  datatype Write = SetStatus(status: Status) | SetSpec(spec: Spec)

  /** What one API call meets: first the others' writes, then possibly an error instead of an answer. */
  datatype Event = Event(others: seq<Write>, fault: Option<string>)

  datatype Life = Live | Deleting | Gone

  /** The server's view of the object.
      `noopBumps` says whether a write that changes nothing still raises the version; `own` counts the client's
      status writes that changed the stored status; `script` is what the calls still to come will meet. */
  datatype Api = Api(
    life: Life,
    version: nat,
    spec: Spec,
    status: Status,
    noopBumps: bool,
    own: nat,
    script: seq<Event>)

  /** The part of the in-memory object a status write sends: the version it was read at and a status. */
  datatype Copy = Copy(version: nat, status: Status)

  /** How a run of one of the two smaller reconcilers ends. */
  datatype RunResult = RunResult(api: Api, requeue: bool, failed: bool)

  datatype Served = Served(api: Api, fault: Option<string>)

  datatype Reply = Done | Conflict | Refused

  datatype Replied = Replied(api: Api, reply: Reply)

  datatype Answer = Answer(api: Api, ok: bool)

  /** `sends` counts the status updates sent. */
  datatype Writing = Writing(api: Api, ok: bool, sends: nat)

  // ---------- The server ----------

  function StoreStatus(a: Api, s: Status): Api {
    if s == a.status && !a.noopBumps then a else a.(version := a.version + 1, status := s)
  }

  function StoreOwn(a: Api, s: Status): Api {
    StoreStatus(a, s).(own := if s == a.status then a.own else a.own + 1)
  }

  function Apply(a: Api, w: Write): Api {
    match w
    case SetStatus(s) => StoreStatus(a, s)
    case SetSpec(sp) => if sp == a.spec && !a.noopBumps then a else a.(version := a.version + 1, spec := sp)
  }

  function ApplyAll(a: Api, ws: seq<Write>): Api
    decreases ws
  {
    if ws == [] then a else ApplyAll(Apply(a, ws[0]), ws[1..])
  }

  /** One API call: the others' writes land, then the call is answered or fails. */
  function Call(a: Api): Served {
    if a.script == [] then Served(a, None)
    else Served(ApplyAll(a.(script := a.script[1..]), a.script[0].others), a.script[0].fault)
  }

  /** A status update is accepted only at the version it was read at. */
  function UpdateStatus(a: Api, c: Copy): Replied {
    var s := Call(a);
    if s.fault.Some? then Replied(s.api, Refused)
    else if c.version != s.api.version then Replied(s.api, Conflict)
    else Replied(StoreOwn(s.api, c.status), Done)
  }

  /** On conflict the retry re-reads the object and sends what it has read. */
  function UpdateWithRetry(a: Api, c: Copy, retry: bool): Writing
    decreases |a.script|, if c.version == a.version then 0 else 1
  {
    var u := UpdateStatus(a, c);
    CallShape(a);
    match u.reply
    case Done => Writing(u.api, true, 1)
    case Refused => Writing(u.api, false, 1)
    case Conflict =>
      if !retry then Writing(u.api, false, 1)
      else
        var g := Call(u.api);
        CallShape(u.api);
        if g.fault.Some? then Writing(g.api, false, 1)
        else
          var w := UpdateWithRetry(g.api, Copy(g.api.version, g.api.status), retry);
          w.(sends := 1 + w.sends)
  }

  // ---------- What every call keeps ----------

  lemma {:induction false} ApplyAllShape(a: Api, ws: seq<Write>)
    ensures var b := ApplyAll(a, ws);
            && b.life == a.life && b.noopBumps == a.noopBumps && b.own == a.own && b.script == a.script
            && b.version >= a.version && (b.version == a.version ==> b == a)
    decreases ws
  {
    if ws != [] {
      ApplyAllShape(Apply(a, ws[0]), ws[1..]);
    }
  }

  lemma CallShape(a: Api)
    ensures var b := Call(a).api;
            && b.life == a.life && b.noopBumps == a.noopBumps && b.own == a.own
            && b.script == (if a.script == [] then [] else a.script[1..])
            && b.version >= a.version && (b.version == a.version ==> b.spec == a.spec && b.status == a.status)
  {
    if a.script != [] {
      ApplyAllShape(a.(script := a.script[1..]), a.script[0].others);
    }
  }

  // ---------- The others' writes taken alone ----------

  function LastStatus(s: Status, ws: seq<Write>): Status
    decreases ws
  {
    if ws == [] then s
    else LastStatus(if ws[0].SetStatus? then ws[0].status else s, ws[1..])
  }

  /** The status the others' writes of these events leave when they start from `s`. */
  function Drain(s: Status, events: seq<Event>): Status
    decreases events
  {
    if events == [] then s else Drain(LastStatus(s, events[0].others), events[1..])
  }

  lemma {:induction false} DrainAppend(s: Status, x: seq<Event>, y: seq<Event>)
    ensures Drain(s, x + y) == Drain(Drain(s, x), y)
    decreases x
  {
    if x == [] {
      assert x + y == y;
    } else {
      assert (x + y)[1..] == x[1..] + y;
      DrainAppend(LastStatus(s, x[0].others), x[1..], y);
    }
  }

  lemma {:induction false} ApplyAllStatus(a: Api, ws: seq<Write>)
    ensures ApplyAll(a, ws).status == LastStatus(a.status, ws)
    decreases ws
  {
    if ws != [] {
      ApplyAllStatus(Apply(a, ws[0]), ws[1..]);
    }
  }

  /** What is left of a script after some of its events have been used up. */
  predicate Rest(script: seq<Event>, rest: seq<Event>) {
    |rest| <= |script| && rest == script[|script| - |rest|..]
  }

  /** The events used up on the way from `a` to `b`. */
  function Met(a: Api, b: Api): seq<Event>
    requires Rest(a.script, b.script)
  {
    a.script[..|a.script| - |b.script|]
  }

  lemma MetAppend(a: Api, b: Api, c: Api)
    requires Rest(a.script, b.script) && Rest(b.script, c.script)
    ensures Rest(a.script, c.script) && Met(a, c) == Met(a, b) + Met(b, c)
  {
  }

  /** The status of `b` is what the others' writes on the way from `a` have left, and no other. */
  ghost predicate OthersOnly(a: Api, b: Api) {
    Rest(a.script, b.script) && b.status == Drain(a.status, Met(a, b))
  }

  lemma OthersOnlyTransitive(a: Api, b: Api, c: Api)
    requires OthersOnly(a, b) && OthersOnly(b, c)
    ensures OthersOnly(a, c)
  {
    MetAppend(a, b, c);
    DrainAppend(a.status, Met(a, b), Met(b, c));
  }

  lemma CallOthersOnly(a: Api)
    ensures OthersOnly(a, Call(a).api)
  {
    CallShape(a);
    if a.script != [] {
      ApplyAllStatus(a.(script := a.script[1..]), a.script[0].others);
      assert Met(a, Call(a).api) == [a.script[0]];
    }
  }

  // ---------- Who owns which field ----------

  datatype Owner = MainReconciler | HealthChecker | StatusController

  /** The status with the fields `o` assigns blanked out. */
  function Foreign(o: Owner, s: Status): Status {
    match o
    case MainReconciler => s.(status := Unset, message := "")
    case HealthChecker => s.(healthStatus := HealthUnset)
    case StatusController => s.(status := Unset, poolStatus := [], service := ServiceAddr("", ""), pvcStatus := [])
  }

  predicate AgreeOutside(o: Owner, s: Status, t: Status) {
    Foreign(o, s) == Foreign(o, t)
  }

  /** Field by field: the health status belongs to the health checker; pool, service and claim status to the
      status controller; the message to the main reconciler; the deploy status to the last two. */
  lemma OwnedFields(o: Owner, s: Status, t: Status)
    ensures AgreeOutside(o, s, t) <==>
            && (o != HealthChecker ==> s.healthStatus == t.healthStatus)
            && (o != StatusController ==>
                  s.poolStatus == t.poolStatus && s.service == t.service && s.pvcStatus == t.pvcStatus)
            && (o != MainReconciler ==> s.message == t.message)
            && (o == HealthChecker ==> s.status == t.status)
  {
  }

  lemma {:induction false} LastStatusForeign(o: Owner, s: Status, t: Status, ws: seq<Write>)
    requires AgreeOutside(o, s, t)
    ensures AgreeOutside(o, LastStatus(s, ws), LastStatus(t, ws))
    decreases ws
  {
    if ws != [] {
      if ws[0].SetStatus? {
      } else {
        LastStatusForeign(o, s, t, ws[1..]);
      }
    }
  }

  lemma {:induction false} DrainForeign(o: Owner, s: Status, t: Status, script: seq<Event>)
    requires AgreeOutside(o, s, t)
    ensures AgreeOutside(o, Drain(s, script), Drain(t, script))
    decreases script
  {
    if script != [] {
      LastStatusForeign(o, s, t, script[0].others);
      DrainForeign(o, LastStatus(s, script[0].others), LastStatus(t, script[0].others), script[1..]);
    }
  }

  // ---------- From one point of a run to a later one ----------

  ghost function EditedSpecs(script: seq<Event>): set<Spec> {
    set e, w | e in script && w in e.others && w.SetSpec? :: w.spec
  }

  /** The specifications that can be read from now on. */
  ghost function Specs(a: Api): set<Spec> {
    {a.spec} + EditedSpecs(a.script)
  }

  ghost predicate FaultFree(script: seq<Event>) {
    forall e :: e in script ==> e.fault.None?
  }

  ghost predicate Undisturbed(script: seq<Event>) {
    forall e :: e in script ==> e.others == []
  }

  /** Calls succeed and nobody else writes. */
  ghost predicate Calm(a: Api) {
    FaultFree(a.script) && Undisturbed(a.script)
  }

  /** `b` is later than `a`: versions only rise, events are used up, and unless the client changed the status
      the others' writes are all there is. */
  ghost predicate Follows(a: Api, b: Api) {
    && b.life == a.life && b.noopBumps == a.noopBumps
    && b.version >= a.version
    && (b.version == a.version ==> b.spec == a.spec && b.status == a.status)
    && Rest(a.script, b.script) && (forall e :: e in b.script ==> e in a.script)
    && b.own >= a.own && (b.own == a.own ==> OthersOnly(a, b))
    && Specs(b) <= Specs(a)
  }

  lemma {:induction false} ApplyAllSpecs(a: Api, ws: seq<Write>)
    ensures ApplyAll(a, ws).spec == a.spec || exists w :: w in ws && w.SetSpec? && ApplyAll(a, ws).spec == w.spec
    decreases ws
  {
    if ws != [] {
      ApplyAllSpecs(Apply(a, ws[0]), ws[1..]);
      if ApplyAll(a, ws).spec != a.spec {
        if ApplyAll(a, ws).spec == Apply(a, ws[0]).spec {
          assert ws[0] in ws;
        } else {
          var w :| w in ws[1..] && w.SetSpec? && ApplyAll(a, ws).spec == w.spec;
          assert w in ws;
        }
      }
    }
  }

  lemma CallFollows(a: Api)
    ensures Follows(a, Call(a).api)
  {
    CallShape(a);
    CallOthersOnly(a);
    if a.script != [] {
      ApplyAllSpecs(a.(script := a.script[1..]), a.script[0].others);
      assert a.script[0] in a.script;
    }
  }

  lemma FollowsTransitive(a: Api, b: Api, c: Api)
    requires Follows(a, b) && Follows(b, c)
    ensures Follows(a, c)
  {
    MetAppend(a, b, c);
    if c.own == a.own {
      OthersOnlyTransitive(a, b, c);
    }
  }

  lemma StoreOwnFollows(a: Api, s: Status)
    ensures Follows(a, StoreOwn(a, s))
  {
  }

  lemma UpdateStatusFollows(a: Api, c: Copy)
    ensures Follows(a, UpdateStatus(a, c).api)
  {
    CallFollows(a);
    StoreOwnFollows(Call(a).api, c.status);
  }

  /** The retry always ends; it fails only when a call fails or retrying was not asked for. */
  lemma {:induction false} RetryFollows(a: Api, c: Copy, retry: bool)
    ensures Follows(a, UpdateWithRetry(a, c, retry).api)
    ensures FaultFree(a.script) && retry ==> UpdateWithRetry(a, c, retry).ok
    decreases |a.script|, if c.version == a.version then 0 else 1
  {
    var u := UpdateStatus(a, c);
    CallShape(a);
    UpdateStatusFollows(a, c);
    if a.script != [] {
      assert a.script[0] in a.script;
    }
    if u.reply.Conflict? && retry {
      var g := Call(u.api);
      CallShape(u.api);
      CallFollows(u.api);
      if u.api.script != [] {
        assert u.api.script[0] in u.api.script;
      }
      FollowsTransitive(a, u.api, g.api);
      if g.fault.None? {
        RetryFollows(g.api, Copy(g.api.version, g.api.status), retry);
        FollowsTransitive(a, g.api, UpdateWithRetry(a, c, retry).api);
      }
    }
  }

  // ---------- What the retry leaves behind ----------

  /** A call and another one. */
  lemma TwoCallsOthersOnly(a: Api)
    ensures OthersOnly(a, Call(Call(a).api).api) && Call(Call(a).api).api.own == a.own
    ensures a.script == [] || |Call(Call(a).api).api.script| < |a.script|
  {
    CallShape(a);
    CallShape(Call(a).api);
    CallOthersOnly(a);
    CallOthersOnly(Call(a).api);
    OthersOnlyTransitive(a, Call(a).api, Call(Call(a).api).api);
  }

  /** Sending back exactly what is stored changes nothing, however often it has to be repeated. */
  lemma {:induction false} EchoChangesNothing(a: Api, retry: bool)
    ensures var r := UpdateWithRetry(a, Copy(a.version, a.status), retry);
            r.api.own == a.own && OthersOnly(a, r.api)
    decreases |a.script|
  {
    var u := UpdateStatus(a, Copy(a.version, a.status));
    CallShape(a);
    CallOthersOnly(a);
    if u.reply.Conflict? && retry {
      var g := Call(u.api);
      TwoCallsOthersOnly(a);
      if g.fault.None? {
        EchoChangesNothing(g.api, retry);
        OthersOnlyTransitive(a, g.api, UpdateWithRetry(g.api, Copy(g.api.version, g.api.status), retry).api);
      }
    }
  }

  /** A write whose version does not match when it arrives changes nothing, whether or not it reports success. */
  lemma StaleChangesNothing(a: Api, c: Copy, retry: bool)
    requires c.version != Call(a).api.version
    ensures var r := UpdateWithRetry(a, c, retry).api; r.own == a.own && OthersOnly(a, r)
  {
    var u := UpdateStatus(a, c);
    CallShape(a);
    CallOthersOnly(a);
    if u.reply.Conflict? && retry {
      var g := Call(u.api).api;
      TwoCallsOthersOnly(a);
      if Call(u.api).fault.None? {
        EchoChangesNothing(g, true);
        OthersOnlyTransitive(a, g, UpdateWithRetry(g, Copy(g.version, g.status), true).api);
      }
    }
  }

  /** The outcome of a status write that reports success. Either the version still matched when it arrived, and
      the requested status was stored by its first attempt; or it met a conflict, and then the store is as the
      others' writes alone have left it. */
  lemma RetryOutcome(a: Api, c: Copy)
    requires UpdateWithRetry(a, c, true).ok
    ensures var first, r := Call(a).api, UpdateWithRetry(a, c, true).api;
            if first.version == c.version
            then r == StoreOwn(first, c.status) && r.status == c.status
            else r.own == a.own && OthersOnly(a, r)
  {
    if Call(a).api.version != c.version {
      StaleChangesNothing(a, c, true);
    }
  }

  // ---------- How often it tries ----------

  /** Number of interfering writes still to come. */
  function Interfering(script: seq<Event>): nat {
    if script == [] then 0 else |script[0].others| + Interfering(script[1..])
  }

  /** One attempt for the write itself, one for a version that was already outdated, and one more for each
      interfering write at most. */
  lemma {:induction false} AttemptsBounded(a: Api, c: Copy)
    ensures 1 <= UpdateWithRetry(a, c, true).sends <= Interfering(a.script) + if c.version == a.version then 1 else 2
    decreases |a.script|, if c.version == a.version then 0 else 1
  {
    var u := UpdateStatus(a, c);
    CallShape(a);
    if u.reply.Conflict? {
      var g := Call(u.api);
      CallShape(u.api);
      if g.fault.None? {
        AttemptsBounded(g.api, Copy(g.api.version, g.api.status));
      }
    }
  }

  // ---------- One run of a reconciler ----------

  /** What holds all through one run of reconciler `o` whose read of the object was answered in state `a0`: its
      writes have changed the store at most once, and every field it does not own is as the others' writes up to
      this point have left it. */
  ghost predicate DuringRun(o: Owner, a0: Api, a: Api) {
    && Follows(a0, a)
    && (a.version == a0.version ==> a.own == a0.own)
    && a.own <= a0.own + 1
    && AgreeOutside(o, a.status, Drain(a0.status, Met(a0, a)))
  }

  lemma RunStarts(o: Owner, a0: Api)
    ensures DuringRun(o, a0, a0)
  {
    assert Met(a0, a0) == [];
  }

  /** Others' writes alone keep agreement with what they do by themselves. */
  lemma AgreementKept(o: Owner, a0: Api, a: Api, b: Api)
    requires DuringRun(o, a0, a) && OthersOnly(a, b)
    ensures Rest(a0.script, b.script) && AgreeOutside(o, b.status, Drain(a0.status, Met(a0, b)))
  {
    MetAppend(a0, a, b);
    DrainAppend(a0.status, Met(a0, a), Met(a, b));
    DrainForeign(o, a.status, Drain(a0.status, Met(a0, a)), Met(a, b));
  }

  lemma CallDuringRun(o: Owner, a0: Api, a: Api)
    requires DuringRun(o, a0, a)
    ensures DuringRun(o, a0, Call(a).api)
  {
    CallFollows(a);
    CallShape(a);
    FollowsTransitive(a0, a, Call(a).api);
    AgreementKept(o, a0, a, Call(a).api);
  }

  /** A write that arrives at its version ends at once, with the status stored or refused. */
  lemma CurrentEndsAtOnce(a: Api, c: Copy, retry: bool)
    requires c.version == Call(a).api.version
    ensures var first, r := Call(a).api, UpdateWithRetry(a, c, retry).api;
            r == first || (r.script == first.script && r.status == c.status)
  {
  }

  /** A status write of the run: always sent with the version read at its start, whatever it wrote before. */
  lemma WriteDuringRun(o: Owner, a0: Api, a: Api, s: Status, retry: bool)
    requires DuringRun(o, a0, a) && AgreeOutside(o, s, a0.status)
    ensures DuringRun(o, a0, UpdateWithRetry(a, Copy(a0.version, s), retry).api)
  {
    var c := Copy(a0.version, s);
    RetryFollows(a, c, retry);
    FollowsTransitive(a0, a, UpdateWithRetry(a, c, retry).api);
    WriteCounts(o, a0, a, s, retry);
    if Call(a).api.version != a0.version {
      StaleChangesNothing(a, c, retry);
      AgreementKept(o, a0, a, UpdateWithRetry(a, c, retry).api);
    } else {
      CurrentWriteAgrees(o, a0, a, s, retry);
    }
  }

  lemma CurrentWriteAgrees(o: Owner, a0: Api, a: Api, s: Status, retry: bool)
    requires DuringRun(o, a0, a) && AgreeOutside(o, s, a0.status) && Call(a).api.version == a0.version
    ensures var r := UpdateWithRetry(a, Copy(a0.version, s), retry).api;
            Rest(a0.script, r.script) && AgreeOutside(o, r.status, Drain(a0.status, Met(a0, r)))
  {
    var first, r := Call(a).api, UpdateWithRetry(a, Copy(a0.version, s), retry).api;
    CallDuringRun(o, a0, a);
    CurrentEndsAtOnce(a, Copy(a0.version, s), retry);
    assert first.status == a0.status;
    assert Met(a0, r) == Met(a0, first);
  }

  lemma WriteCounts(o: Owner, a0: Api, a: Api, s: Status, retry: bool)
    requires DuringRun(o, a0, a)
    ensures var r := UpdateWithRetry(a, Copy(a0.version, s), retry).api;
            r.own <= a0.own + 1 && (r.version == a0.version ==> r.own == a0.own)
  {
    CallShape(a);
    if Call(a).api.version != a0.version {
      StaleChangesNothing(a, Copy(a0.version, s), retry);
      RetryFollows(a, Copy(a0.version, s), retry);
    }
  }

  // ---------- Nobody else writing ----------

  lemma {:induction false} UndisturbedDrain(s: Status, events: seq<Event>)
    requires Undisturbed(events)
    ensures Drain(s, events) == s
    decreases events
  {
    if events != [] {
      assert events[0] in events;
      UndisturbedDrain(s, events[1..]);
    }
  }

  /** With no other writer nothing changes but by the client itself. */
  lemma UndisturbedOthers(a: Api, b: Api)
    requires Undisturbed(a.script) && OthersOnly(a, b)
    ensures b.status == a.status && Undisturbed(b.script)
  {
    UndisturbedDrain(a.status, Met(a, b));
  }

  lemma UndisturbedCall(a: Api)
    requires Undisturbed(a.script)
    ensures Undisturbed(Call(a).api.script)
    ensures Call(a).api == a.(script := Call(a).api.script)
  {
    if a.script != [] {
      assert a.script[0] in a.script;
    }
  }

  /** With no other writer a successful status write stores what it was given if its version is current, and
      otherwise leaves the object alone except for its version. */
  lemma UndisturbedWrite(a: Api, c: Copy)
    requires Undisturbed(a.script) && UpdateWithRetry(a, c, true).ok
    ensures var r := UpdateWithRetry(a, c, true).api;
            && Undisturbed(r.script)
            && (if c.version == a.version
                then r == StoreOwn(a, c.status).(script := r.script)
                else r.status == a.status && r.own == a.own && r.version >= a.version)
  {
    RetryFollows(a, c, true);
    RetryOutcome(a, c);
    UndisturbedCall(a);
    if c.version != a.version {
      UndisturbedOthers(a, UpdateWithRetry(a, c, true).api);
    }
  }
}
