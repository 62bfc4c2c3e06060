/** The MinIO custom resource and the Kubernetes objects derived from it.
    Owner references and the namespace are the same for every object of one MinIO and are not carried. */
module Types {
  import opened Wrappers

  /** A part the operator copies or compares as a whole, never looks into. */
  type Opaque = string

  type Labels = map<string, string>

  const MINIO_LABEL := "v1alpha1.bob.com/minio"
  const POOL_LABEL := "v1alphal1.bob.com/pool"
  const MINIO_PORT := 9000
  const MINIO_PORT_SVC := 80
  const MINIO_TLS_PORT_SVC := 443
  const CONSOLE_PORT := 9090
  const CONSOLE_TLS_PORT := 9443

  /** `templateName` and `storageClass` are the parts of the claim template that are read. */
  datatype Pool = Pool(
    name: string,
    servers: int,
    volumesPerServer: int,
    templateName: string,
    storageClass: Option<string>,
    nodeSelector: Labels,
    securityContext: Opaque,
    containerSecurityContext: Opaque)

  /** `other` holds the environment, configuration secret and reclaim flag: compared with the rest of the
      specification, read nowhere else. */
  datatype Spec = Spec(
    pools: seq<Pool>,
    image: string,
    imagePullPolicy: string,
    imagePullSecret: string,
    mountPath: string,
    exposeMinIO: bool,
    exposeConsole: bool,
    enableCert: bool,
    serviceAccount: string,
    tolerations: Opaque,
    resources: Opaque,
    affinity: Option<Opaque>,
    liveness: Option<Opaque>,
    readiness: Option<Opaque>,
    startup: Option<Opaque>,
    lifecycle: Option<Opaque>,
    other: Opaque)

  datatype DeployStatus = Unset | Initial | Completed | Running | Failed

  datatype PoolDeployStatus = PoolUnset | PoolCompleted | PoolRunning | PoolFailed

  datatype HealthStatus = HealthUnset | Health | UnHealth | Unknown

  datatype MinIOServer = MinIOServer(name: string, hostIP: string, podIP: string, phase: Phase)

  datatype Phase = PodPending | PodRunning | PodOther(text: string)

  datatype PoolStatus = PoolStatus(
    name: string,
    status: PoolDeployStatus,
    availableReplicas: nat,
    replicas: int,
    servers: seq<MinIOServer>)

  datatype ServiceAddr = ServiceAddr(minio: string, console: string)

  datatype PVCStatus = PVCStatus(name: string, status: string, volume: string, capacity: string, storageClass: string)

  datatype Status = Status(
    status: DeployStatus,
    message: string,
    poolStatus: seq<PoolStatus>,
    healthStatus: HealthStatus,
    service: ServiceAddr,
    pvcStatus: seq<PVCStatus>)

  datatype Volume = Volume(name: string, claim: string)

  datatype VolumeMount = VolumeMount(name: string, path: string)

  datatype Container = Container(
    image: string,
    imagePullPolicy: string,
    consolePort: int,
    mounts: seq<VolumeMount>,
    resources: Opaque,
    liveness: Option<Opaque>,
    readiness: Option<Opaque>,
    startup: Option<Opaque>,
    lifecycle: Option<Opaque>,
    securityContext: Opaque)

  datatype Pod = Pod(
    name: string,
    labels: Labels,
    volumes: seq<Volume>,
    container: Container,
    nodeSelector: Labels,
    serviceAccount: string,
    hostname: string,
    subdomain: string,
    affinity: Option<Opaque>,
    tolerations: Opaque)

  datatype Claim = Claim(name: string, labels: Labels, resources: Opaque, storageClass: Option<string>)

  datatype ServiceType = ClusterIP | NodePort

  /** `nodePort` is assigned by the server. */
  datatype ServicePort = ServicePort(name: string, port: int, targetPort: int, nodePort: int)

  datatype ServiceSpec = ServiceSpec(
    ports: seq<ServicePort>,
    selector: Labels,
    kind: ServiceType,
    clusterIP: string,
    publishNotReady: bool)

  datatype Service = Service(name: string, labels: Labels, annotations: Labels, spec: ServiceSpec)

  /** The labels every object of the MinIO named `name` starts from. */
  function PodLabels(name: string): Labels {
    map[MINIO_LABEL := name]
  }

  /** Go counting loops run no iteration for a negative bound. */
  function Count(n: int): nat {
    if n < 0 then 0 else n
  }
}
