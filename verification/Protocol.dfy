/** The three reconcilers at once: every interleaving of their reads and status writes over one stored object.
    A reconciler reads the object, assigns fields it owns in its in-memory copy, and sends copies of it; a
    conflict makes it read again and send what it read, while the in-memory copy keeps its old version. Users and
    other writers may write at any time. */
module Protocol {
  import opened Wrappers
  import opened Types
  import opened StatusStore

  /** The status-write call in progress: none, about to send a copy, or about to read after a conflict. */
  datatype Flight = Resting | Sending(copy: Copy) | Refetching

  /** `minio` is the in-memory object of the current run; `changes` counts the run's writes that changed the
      stored status. */
  datatype Proc = Proc(minio: Option<Copy>, flight: Flight, changes: nat)

  datatype Sys = Sys(version: nat, spec: Spec, status: Status, noopBumps: bool, procs: map<Owner, Proc>)

  /** `GiveUp` ends a status write with an error, `Abort` a whole run; `Outside` is a write by nobody of the three. */
  datatype Action =
    | Fetch(o: Owner)
    | Assign(o: Owner, status: Status)
    | Begin(o: Owner)
    | Send(o: Owner)
    | Refetch(o: Owner)
    | GiveUp(o: Owner)
    | Abort(o: Owner)
    | Outside(write: Write)

  ghost predicate AllPresent(s: Sys) {
    forall o: Owner :: o in s.procs
  }

  predicate Enabled(s: Sys, act: Action) {
    act.Outside? ||
    (act.o in s.procs &&
     var p := s.procs[act.o];
     match act
     case Fetch(_) => p.flight.Resting?
     case Assign(o, st) => p.flight.Resting? && p.minio.Some? && AgreeOutside(o, st, p.minio.value.status)
     case Begin(_) => p.flight.Resting? && p.minio.Some?
     case Send(_) => p.flight.Sending?
     case Refetch(_) => p.flight.Refetching?
     case GiveUp(_) => !p.flight.Resting?
     case Abort(_) => true
     case Outside(_) => true)
  }

  function SetProc(s: Sys, o: Owner, p: Proc): Sys {
    s.(procs := s.procs[o := p])
  }

  function Meddle(s: Sys, w: Write): Sys {
    match w
    case SetStatus(st) => if st == s.status && !s.noopBumps then s else s.(version := s.version + 1, status := st)
    case SetSpec(sp) => if sp == s.spec && !s.noopBumps then s else s.(version := s.version + 1, spec := sp)
  }

  function Do(s: Sys, act: Action): Sys
    requires Enabled(s, act)
  {
    match act
    case Outside(w) => Meddle(s, w)
    case Fetch(o) => SetProc(s, o, Proc(Some(Copy(s.version, s.status)), Resting, 0))
    case Assign(o, st) =>
      var p := s.procs[o];
      SetProc(s, o, p.(minio := Some(p.minio.value.(status := st))))
    case Begin(o) =>
      var p := s.procs[o];
      SetProc(s, o, p.(flight := Sending(p.minio.value)))
    case Send(o) =>
      var p := s.procs[o];
      var c := p.flight.copy;
      if c.version != s.version then SetProc(s, o, p.(flight := Refetching))
      else
        var bump := if c.status == s.status && !s.noopBumps then 0 else 1;
        var changed := if c.status == s.status then 0 else 1;
        SetProc(s.(version := s.version + bump, status := c.status), o,
                p.(flight := Resting, changes := p.changes + changed))
    case Refetch(o) =>
      var p := s.procs[o];
      SetProc(s, o, p.(flight := Sending(Copy(s.version, s.status))))
    case GiveUp(o) => SetProc(s, o, s.procs[o].(flight := Resting))
    case Abort(o) => SetProc(s, o, Proc(None, Resting, 0))
  }

  predicate Legal(s: Sys, acts: seq<Action>)
    decreases |acts|
  {
    acts == [] || (Enabled(s, acts[0]) && Legal(Do(s, acts[0]), acts[1..]))
  }

  function Final(s: Sys, acts: seq<Action>): Sys
    requires Legal(s, acts)
    decreases |acts|
  {
    if acts == [] then s else Final(Do(s, acts[0]), acts[1..])
  }

  ghost predicate Initial(s: Sys) {
    AllPresent(s) && forall o: Owner :: s.procs[o] == Proc(None, Resting, 0)
  }

  /** A send here is the status update of the store model, conflicts included. */
  lemma SendIsUpdate(s: Sys, o: Owner, a: Api)
    requires o in s.procs && s.procs[o].flight.Sending?
    requires a.script == [] && a.version == s.version && a.status == s.status && a.noopBumps == s.noopBumps
    ensures var t, u := Do(s, Send(o)), UpdateStatus(a, s.procs[o].flight.copy);
            && u.api.version == t.version && u.api.status == t.status
            && (u.reply == Conflict <==> t.procs[o].flight == Refetching)
            && (u.reply == Done <==> t.procs[o].flight == Resting)
            && u.api.own - a.own == t.procs[o].changes - s.procs[o].changes
  {
  }

  // ---------- The invariant ----------

  /** A version determines what can be known from it: an in-memory copy at the server's version agrees with the
      server outside the reconciler's own fields, and a copy under way is that copy or just what was read. */
  ghost predicate ProcInv(o: Owner, p: Proc, version: nat, status: Status) {
    && p.changes <= 1
    && (p.minio.None? ==> p.flight.Resting? && p.changes == 0)
    && (p.minio.Some? ==>
          && p.minio.value.version <= version
          && (p.changes == 1 ==> p.minio.value.version < version)
          && (p.minio.value.version == version ==> AgreeOutside(o, p.minio.value.status, status)))
    && (p.flight.Sending? ==>
          var c := p.flight.copy;
          && c.version <= version
          && (c.version == version ==>
                c.status == status ||
                (p.changes == 0 && AgreeOutside(o, c.status, status))))
  }

  ghost predicate Inv(s: Sys) {
    AllPresent(s) && forall o: Owner :: ProcInv(o, s.procs[o], s.version, s.status)
  }

  lemma InitialInv(s: Sys)
    requires Initial(s)
    ensures Inv(s)
  {
  }

  lemma StepInv(s: Sys, act: Action)
    requires Inv(s) && Enabled(s, act)
    ensures Inv(Do(s, act))
  {
    var t := Do(s, act);
    forall o: Owner
      ensures o in t.procs && ProcInv(o, t.procs[o], t.version, t.status)
    {
      assert o in s.procs && ProcInv(o, s.procs[o], s.version, s.status);
      if !act.Outside? && o != act.o {
        assert t.procs[o] == s.procs[o];
      }
    }
  }

  lemma {:induction false} ReachableInv(s: Sys, acts: seq<Action>)
    requires Inv(s) && Legal(s, acts)
    ensures Inv(Final(s, acts))
    decreases |acts|
  {
    if acts != [] {
      StepInv(s, acts[0]);
      ReachableInv(Do(s, acts[0]), acts[1..]);
    }
  }

  // ---------- Ownership ----------

  /** Of the reconcilers' actions only a send changes the stored status, and only in fields its sender owns. */
  lemma StepOwnership(s: Sys, act: Action)
    requires Inv(s) && Enabled(s, act)
    ensures !act.Send? && !act.Outside? ==> Do(s, act).status == s.status
    ensures act.Send? ==> AgreeOutside(act.o, Do(s, act).status, s.status)
  {
    if act.Send? {
      assert ProcInv(act.o, s.procs[act.o], s.version, s.status);
    }
  }

  /** None of `owners` sends anything, and no outside write gives the field another value than `v`. */
  ghost predicate Untouched<T>(acts: seq<Action>, owners: set<Owner>, field: Status -> T, v: T) {
    forall a :: a in acts ==>
      && (a.Send? ==> a.o !in owners)
      && (a.Outside? && a.write.SetStatus? ==> field(a.write.status) == v)
  }

  /** A field of the status that no one but `owners` may assign. */
  ghost predicate OwnedBy<T>(field: Status -> T, owners: set<Owner>) {
    forall o: Owner, s: Status, t: Status :: o !in owners && AgreeOutside(o, s, t) ==> field(s) == field(t)
  }

  /** In every interleaving a field stands while its owners send nothing and nobody outside writes it. */
  lemma {:induction false} FieldStands<T>(s: Sys, acts: seq<Action>, owners: set<Owner>, field: Status -> T)
    requires Inv(s) && Legal(s, acts)
    requires OwnedBy(field, owners) && Untouched(acts, owners, field, field(s.status))
    ensures field(Final(s, acts).status) == field(s.status)
    decreases |acts|
  {
    if acts != [] {
      StepInv(s, acts[0]);
      StepOwnership(s, acts[0]);
      assert acts[0] in acts && forall a :: a in acts[1..] ==> a in acts;
      FieldStands(Do(s, acts[0]), acts[1..], owners, field);
    }
  }

  function HealthOf(s: Status): HealthStatus {
    s.healthStatus
  }

  function ObservationOf(s: Status): (seq<PoolStatus>, ServiceAddr, seq<PVCStatus>) {
    (s.poolStatus, s.service, s.pvcStatus)
  }

  function MessageOf(s: Status): string {
    s.message
  }

  function DeployStatusOf(s: Status): DeployStatus {
    s.status
  }

  /** In every interleaving, while the health checker sends nothing the health status stands, while the status
      controller sends nothing the pool, service and claim statuses stand, and while the main reconciler sends
      nothing the message stands. The deploy status is shared by the last two. */
  lemma NoFieldReverted(s: Sys, acts: seq<Action>)
    requires Inv(s) && Legal(s, acts)
    ensures var t := Final(s, acts).status;
            && (Untouched(acts, {HealthChecker}, HealthOf, HealthOf(s.status)) ==> HealthOf(t) == HealthOf(s.status))
            && (Untouched(acts, {StatusController}, ObservationOf, ObservationOf(s.status)) ==>
                  ObservationOf(t) == ObservationOf(s.status))
            && (Untouched(acts, {MainReconciler}, MessageOf, MessageOf(s.status)) ==>
                  MessageOf(t) == MessageOf(s.status))
            && (Untouched(acts, {MainReconciler, StatusController}, DeployStatusOf, DeployStatusOf(s.status)) ==>
                  DeployStatusOf(t) == DeployStatusOf(s.status))
  {
    WhoOwnsWhat();
    if Untouched(acts, {HealthChecker}, HealthOf, HealthOf(s.status)) {
      FieldStands(s, acts, {HealthChecker}, HealthOf);
    }
    if Untouched(acts, {StatusController}, ObservationOf, ObservationOf(s.status)) {
      FieldStands(s, acts, {StatusController}, ObservationOf);
    }
    if Untouched(acts, {MainReconciler}, MessageOf, MessageOf(s.status)) {
      FieldStands(s, acts, {MainReconciler}, MessageOf);
    }
    if Untouched(acts, {MainReconciler, StatusController}, DeployStatusOf, DeployStatusOf(s.status)) {
      FieldStands(s, acts, {MainReconciler, StatusController}, DeployStatusOf);
    }
  }

  lemma WhoOwnsWhat()
    ensures OwnedBy(HealthOf, {HealthChecker}) && OwnedBy(ObservationOf, {StatusController})
    ensures OwnedBy(MessageOf, {MainReconciler}) && OwnedBy(DeployStatusOf, {MainReconciler, StatusController})
  {
    forall o: Owner, s: Status, t: Status | AgreeOutside(o, s, t)
      ensures o != HealthChecker ==> HealthOf(s) == HealthOf(t)
      ensures o != StatusController ==> ObservationOf(s) == ObservationOf(t)
      ensures o != MainReconciler ==> MessageOf(s) == MessageOf(t)
      ensures o == HealthChecker ==> DeployStatusOf(s) == DeployStatusOf(t)
    {
      OwnedFields(o, s, t);
    }
  }

  /** From the start, in every interleaving, no run of any reconciler changes the stored status more than once. */
  lemma OneChangePerRun(s: Sys, acts: seq<Action>, o: Owner)
    requires Initial(s) && Legal(s, acts)
    ensures AllPresent(Final(s, acts)) && Final(s, acts).procs[o].changes <= 1
  {
    InitialInv(s);
    ReachableInv(s, acts);
    assert ProcInv(o, Final(s, acts).procs[o], Final(s, acts).version, Final(s, acts).status);
  }
}
