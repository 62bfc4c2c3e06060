/** One pass of the main reconciler as a function of the cluster it meets: `minio_controller.go`,
    `utils/controllerrevision.go` and the update decision of `utils/pod.go`. */
module MainPass {
  import opened Wrappers
  import opened Types
  import opened Services
  import opened StatusStore
  import Layout

  /** Everything a pass reads and writes. Objects are keyed by name; `Create` fails on an existing key, `Update`
      on a missing one and otherwise replaces the object. */
  datatype World = World(
    name: string,
    admit: Admission,
    rev: Option<Spec>,
    svcs: map<string, Service>,
    pvcs: map<string, Claim>,
    pods: map<string, Pod>,
    api: Api)

  /** The in-memory MinIO object of one pass. */
  datatype Minio = Minio(version: nat, spec: Spec, status: Status)

  /** The cluster and the in-memory object after a stage, and whether the pass goes on. */
  datatype Step = Step(w: World, m: Minio, ok: bool)

  // ---------- Status writes ----------

  function WriteStatus(w: World, m: Minio): Step {
    var r := UpdateWithRetry(w.api, Copy(m.version, m.status), true);
    Step(w.(api := r.api), m, r.ok)
  }

  function Announce(w: World, m: Minio): Step {
    WriteStatus(w, m.(status := m.status.(status := Running)))
  }

  /** A failed call is reported in the status; the pass ends whether or not the report gets through. */
  function Report(w: World, m: Minio, message: string): Step {
    WriteStatus(w, m.(status := m.status.(status := Failed, message := message))).(ok := false)
  }

  // ---------- The revision ----------

  function CreateRevision(w: World, m: Minio): Step {
    var g := Call(w.api);
    if g.fault.Some? || w.rev.Some? then Step(w.(api := g.api), m, false)
    else Step(w.(api := g.api, rev := Some(m.spec)), m, true)
  }

  function RecordRevision(w: World, m: Minio): Step {
    var g := Call(w.api);
    var w1 := w.(api := g.api);
    if g.fault.Some? then Step(w1, m, false)
    else if w1.rev.None? then CreateRevision(w1, m)
    else if w1.rev.value == m.spec then Step(w1, m, true)
    else
      var d := Call(w1.api);
      if d.fault.Some? then Step(w1.(api := d.api), m, false)
      else CreateRevision(w1.(api := d.api, rev := None), m)
  }

  // ---------- The services ----------

  datatype Kind = MinIOSvc | ConsoleSvc | HeadlessSvc

  function ServiceName(name: string, k: Kind): string {
    match k
    case MinIOSvc => CIServiceName(name)
    case ConsoleSvc => ConsoleServiceName(name)
    case HeadlessSvc => Layout.HLServiceName(name)
  }

  /** What a missing service is created as. */
  function Built(name: string, k: Kind, spec: Spec): Service {
    match k
    case MinIOSvc => NewServiceForMinIO(name, spec)
    case ConsoleSvc => NewConsoleServiceForMinIO(name, spec)
    case HeadlessSvc => NewHeadlessServiceForMinIO(name, spec)
  }

  /** What a stored service is compared with; for the headless service this is the console service. */
  function Expected(name: string, k: Kind, spec: Spec): Service {
    match k
    case MinIOSvc => NewServiceForMinIO(name, spec)
    case ConsoleSvc => NewConsoleServiceForMinIO(name, spec)
    case HeadlessSvc => NewConsoleServiceForMinIO(name, spec)
  }

  function CreateFailure(k: Kind): string {
    match k
    case MinIOSvc => "MinIO Service Create Failed"
    case ConsoleSvc => "MinIO Console Service Create Failed"
    case HeadlessSvc => "MinIO Headless Service Created Failed"
  }

  function UpdateFailure(k: Kind): string {
    match k
    case MinIOSvc => "MinIO Service Update Failed"
    case ConsoleSvc => "MinIO Console Service Created Failed"
    case HeadlessSvc => "MinIO Headless Service Created Failed"
  }

  function SubmitService(w: World, k: Kind, m: Minio): Step {
    var c := Call(w.api);
    var w1 := w.(api := c.api);
    var svc := Built(w.name, k, m.spec);
    if c.fault.Some? || svc.name in w1.svcs then Report(w1, m, CreateFailure(k))
    else Step(w1.(svcs := w1.svcs[svc.name := Admit(w.admit, svc)]), m, true)
  }

  /** A missing service is created once Running has been announced. */
  function CreateService(w: World, k: Kind, m: Minio): Step {
    var a := Announce(w, m);
    if !a.ok then a else SubmitService(a.w, k, a.m)
  }

  /** Bring the stored service into line with the expected one. */
  function ConvergeService(w: World, k: Kind, m: Minio): Step
    requires ServiceName(w.name, k) in w.svcs
  {
    var name := ServiceName(w.name, k);
    var svc := w.svcs[name];
    var expected := Expected(w.name, k, m.spec);
    if Matches(svc, expected) then Step(w, m, true)
    else
      var u := Call(w.api);
      var w1 := w.(api := u.api);
      if u.fault.Some? then Report(w1, m, UpdateFailure(k))
      else Step(w1.(svcs := w1.svcs[name := Admit(w.admit, Overwrite(svc, expected))]), m, true)
  }

  function CheckService(w: World, k: Kind, m: Minio): Step {
    var g := Call(w.api);
    var w1 := w.(api := g.api);
    if g.fault.Some? then Step(w1, m, false)
    else if ServiceName(w.name, k) in w1.svcs then ConvergeService(w1, k, m)
    else
      var c := CreateService(w1, k, m);
      if !c.ok then c else ConvergeService(c.w, k, c.m)
  }

  // ---------- The claims ----------

  predicate OwnsClaim(name: string, c: Claim) {
    MINIO_LABEL in c.labels && c.labels[MINIO_LABEL] == name
  }

  predicate HasClaims(w: World) {
    exists n :: n in w.pvcs && OwnsClaim(w.name, w.pvcs[n])
  }

  function AllClaims(name: string, spec: Spec, pools: seq<Pool>): seq<Claim> {
    if pools == [] then []
    else AllClaims(name, spec, pools[..|pools| - 1]) + Layout.Claims(name, spec, pools[|pools| - 1])
  }

  /** A claim that cannot be created is only logged. */
  function CreateClaims(w: World, claims: seq<Claim>): World
    decreases |claims|
  {
    if claims == [] then w
    else
      var c := Call(w.api);
      var w1 := w.(api := c.api);
      CreateClaims(if c.fault.Some? || claims[0].name in w1.pvcs then w1
                   else w1.(pvcs := w1.pvcs[claims[0].name := claims[0]]), claims[1..])
  }

  function CheckPVC(w: World, m: Minio): Step {
    var g := Call(w.api);
    var w1 := w.(api := g.api);
    if g.fault.Some? then Step(w1, m, false)
    else if HasClaims(w1) then Step(w1, m, true)
    else
      var a := Announce(w1, m);
      if !a.ok then a
      else a.(w := CreateClaims(a.w, AllClaims(w.name, m.spec, m.spec.pools)))
  }

  // ---------- The pool diff ----------

  predicate Named(pools: seq<Pool>, name: string) {
    exists k :: 0 <= k < |pools| && pools[k].name == name
  }

  predicate Changed<T(==)>(x: Option<T>, y: Option<T>) {
    x.Some? && y.Some? && x != y
  }

  /** The update decision as it is written: an unchanged node selector asks for an update. */
  predicate MinioServerNeedToUpdate(prev: Spec, next: Spec, oldPool: Pool, newPool: Pool) {
    || prev.image != next.image
    || prev.imagePullPolicy != next.imagePullPolicy
    || prev.imagePullSecret != next.imagePullSecret
    || Changed(prev.liveness, next.liveness)
    || Changed(prev.readiness, next.readiness)
    || Changed(prev.startup, next.startup)
    || Changed(prev.affinity, next.affinity)
    || prev.resources != next.resources
    || oldPool.nodeSelector == newPool.nodeSelector
  }

  function OldPools(prev: Option<Spec>): seq<Pool> {
    if prev.None? then [] else prev.value.pools
  }

  /** The new pools no old pool is named like. */
  function AddPools(prev: seq<Pool>, pools: seq<Pool>): seq<Pool> {
    if pools == [] then []
    else
      var last := pools[|pools| - 1];
      AddPools(prev, pools[..|pools| - 1]) + if Named(prev, last.name) then [] else [last]
  }

  predicate ToUpdate(prev: Spec, next: Spec, oldPool: Pool) {
    exists k :: 0 <= k < |next.pools| && next.pools[k].name == oldPool.name &&
      MinioServerNeedToUpdate(prev, next, oldPool, next.pools[k])
  }

  /** The old pools, as they were recorded, that a new pool of the same name asks to update. */
  function UpdatePools(prev: Spec, next: Spec, pools: seq<Pool>): seq<Pool> {
    if pools == [] then []
    else
      var last := pools[|pools| - 1];
      UpdatePools(prev, next, pools[..|pools| - 1]) + if ToUpdate(prev, next, last) then [last] else []
  }

  function PoolsToUpdate(prev: Option<Spec>, next: Spec): seq<Pool> {
    if prev.None? then [] else UpdatePools(prev.value, next, prev.value.pools)
  }

  // ---------- The pods ----------

  function AllPods(name: string, spec: Spec, pools: seq<Pool>): seq<Pod> {
    if pools == [] then []
    else AllPods(name, spec, pools[..|pools| - 1]) + Layout.Pods(name, spec, pools[|pools| - 1])
  }

  function ErrorText(fault: Option<string>, otherwise: string): string {
    if fault.Some? then fault.value else otherwise
  }

  function CreatePods(w: World, m: Minio, pods: seq<Pod>): Step
    decreases |pods|
  {
    if pods == [] then Step(w, m, true)
    else
      var c := Call(w.api);
      var w1 := w.(api := c.api);
      if c.fault.Some? || pods[0].name in w1.pods then
        Report(w1, m, "MinIO Pod Create Failed, " + ErrorText(c.fault, "already exists"))
      else CreatePods(w1.(pods := w1.pods[pods[0].name := pods[0]]), m, pods[1..])
  }

  function UpdatePods(w: World, m: Minio, pods: seq<Pod>): Step
    decreases |pods|
  {
    if pods == [] then Step(w, m, true)
    else
      var c := Call(w.api);
      var w1 := w.(api := c.api);
      if c.fault.Some? || pods[0].name !in w1.pods then
        Report(w1, m, "MinIO Pod Update Failed, " + ErrorText(c.fault, "not found"))
      else UpdatePods(w1.(pods := w1.pods[pods[0].name := pods[0]]), m, pods[1..])
  }

  /** Creations first, then updates, then the final status. */
  function ReconcilePods(w: World, m: Minio, prev: Option<Spec>): Step {
    var c := CreatePods(w, m, AllPods(w.name, m.spec, AddPools(OldPools(prev), m.spec.pools)));
    if !c.ok then c
    else
      var u := UpdatePods(c.w, c.m, AllPods(w.name, m.spec, PoolsToUpdate(prev, m.spec)));
      if !u.ok then u else Announce(u.w, u.m)
  }

  // ---------- The pass ----------

  function FirstStatus(w: World, m: Minio): Step {
    if m.status.status == Unset then WriteStatus(w, m.(status := m.status.(status := Initial)))
    else Step(w, m, true)
  }

  function CheckServices(w: World, m: Minio): Step {
    var s1 := CheckService(w, MinIOSvc, m);
    if !s1.ok then s1 else
    var s2 := CheckService(s1.w, ConsoleSvc, s1.m);
    if !s2.ok then s2 else
    CheckService(s2.w, HeadlessSvc, s2.m)
  }

  /** Revision, services and claims: everything before the pods. */
  function Prepare(w: World, m: Minio): Step {
    var s1 := RecordRevision(w, m);
    if !s1.ok then s1 else
    var s2 := CheckServices(s1.w, s1.m);
    if !s2.ok then s2 else
    CheckPVC(s2.w, s2.m)
  }

  /** All that follows the first status; `prev` is what the revision held when the pass began. */
  function AfterFirst(w: World, m: Minio, prev: Option<Spec>): Step {
    var p := Prepare(w, m);
    if !p.ok then p else ReconcilePods(p.w, p.m, prev)
  }

  datatype Outcome = Outcome(w: World, ok: bool)

  function Fetched(a: Api): Minio {
    Minio(a.version, a.spec, a.status)
  }

  /** An error of the first read other than "not found" leaves a nameless object, whose status write is refused
      before it reaches the server. */
  function Reconcile(w: World): Outcome {
    var g := Call(w.api);
    var w0 := w.(api := g.api);
    if g.fault.Some? then Outcome(w0, false)
    else if !g.api.life.Live? then Outcome(w0, true)
    else
      var s0 := FirstStatus(w0, Fetched(g.api));
      if !s0.ok then Outcome(s0.w, false)
      else
        var r := AfterFirst(s0.w, s0.m, w.rev);
        Outcome(r.w, r.ok)
  }

  /** Passes one after another, each meeting its own script of interference and faults. */
  function Passes(w: World, scripts: seq<seq<Event>>): World {
    if scripts == [] then w
    else
      var w1 := Passes(w, scripts[..|scripts| - 1]);
      Reconcile(w1.(api := w1.api.(script := scripts[|scripts| - 1]))).w
  }
}
