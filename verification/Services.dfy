/** The three services of a MinIO and the relation that decides whether a stored one is up to date:
    `utils/service.go`. */
module Services {
  import opened Wrappers
  import opened Types
  import Layout

  function CIServiceName(minio: string): string {
    minio
  }

  function ConsoleServiceName(minio: string): string {
    minio + "console"
  }

  function NewServiceForMinIO(minio: string, spec: Spec): Service {
    var port := if spec.enableCert then MINIO_TLS_PORT_SVC else MINIO_PORT_SVC;
    var portName := if spec.enableCert then "https-minio" else "http-minio";
    Service(CIServiceName(minio), PodLabels(minio), map[],
            ServiceSpec([ServicePort(portName, port, MINIO_PORT, 0)], PodLabels(minio),
                        if spec.exposeMinIO then NodePort else ClusterIP, "", false))
  }

  function NewConsoleServiceForMinIO(minio: string, spec: Spec): Service {
    Service(ConsoleServiceName(minio), map[], map[],
            ServiceSpec([ServicePort("http-console", CONSOLE_PORT, CONSOLE_PORT, 0)], PodLabels(minio),
                        if spec.exposeConsole then NodePort else ClusterIP, "", false))
  }

  function NewHeadlessServiceForMinIO(minio: string, spec: Spec): Service {
    var portName := if spec.enableCert then "https-minio" else "http-minio";
    Service(Layout.HLServiceName(minio), PodLabels(minio), map[],
            ServiceSpec([ServicePort(portName, MINIO_PORT, 0, 0)], PodLabels(minio), ClusterIP, "None", true))
  }

  /** Every entry of `expected` is in `actual` with the same value. */
  predicate Contains(actual: Labels, expected: Labels) {
    forall k :: k in expected ==> k in actual && actual[k] == expected[k]
  }

  /** The semantic "derivative" comparison of selectors: an empty expected value accepts any present one. */
  predicate Derives(actual: Labels, expected: Labels) {
    forall k :: k in expected ==> k in actual && (expected[k] == "" || actual[k] == expected[k])
  }

  predicate SamePort(actual: ServicePort, expected: ServicePort) {
    actual.name == expected.name && actual.port == expected.port && actual.targetPort == expected.targetPort
  }

  predicate Matches(svc: Service, expected: Service) {
    && Contains(svc.labels, expected.labels)
    && Contains(svc.annotations, expected.annotations)
    && |svc.spec.ports| == |expected.spec.ports|
    && (forall i :: 0 <= i < |svc.spec.ports| ==> SamePort(svc.spec.ports[i], expected.spec.ports[i]))
    && Derives(svc.spec.selector, expected.spec.selector)
    && svc.spec.kind == expected.spec.kind
  }

  /** The loop over a map of required labels, in any order the runtime picks. */
  method FindMissing(actual: Labels, expected: Labels) returns (missing: bool)
    ensures missing == !Contains(actual, expected)
  {
    var keys := expected.Keys;
    while keys != {}
      invariant keys <= expected.Keys
      invariant forall k :: k in expected && k !in keys ==> k in actual && actual[k] == expected[k]
      decreases |keys|
    {
      var k :| k in keys;
      if k !in actual || actual[k] != expected[k] {
        return true;
      }
      keys := keys - {k};
    }
    return false;
  }

  method MinioSvcMatchesSpecification(svc: Service, expected: Service) returns (isMatch: bool, err: Option<string>)
    ensures isMatch == Matches(svc, expected)
    ensures isMatch <==> err.None?
    ensures isMatch <==>
            && (forall k :: k in expected.labels ==> k in svc.labels && svc.labels[k] == expected.labels[k])
            && (forall k :: k in expected.annotations ==>
                  k in svc.annotations && svc.annotations[k] == expected.annotations[k])
            && |svc.spec.ports| == |expected.spec.ports|
            && (forall i :: 0 <= i < |svc.spec.ports| ==>
                  && svc.spec.ports[i].name == expected.spec.ports[i].name
                  && svc.spec.ports[i].port == expected.spec.ports[i].port
                  && svc.spec.ports[i].targetPort == expected.spec.ports[i].targetPort)
            && (forall k :: k in expected.spec.selector ==>
                  k in svc.spec.selector &&
                  (expected.spec.selector[k] == "" || svc.spec.selector[k] == expected.spec.selector[k]))
            && svc.spec.kind == expected.spec.kind
  {
    var missing := FindMissing(svc.labels, expected.labels);
    if missing {
      return false, Some("service labels don't match");
    }
    missing := FindMissing(svc.annotations, expected.annotations);
    if missing {
      return false, Some("service annotations don't match");
    }
    if |svc.spec.ports| != |expected.spec.ports| {
      return false, Some("service ports don't match");
    }
    for i := 0 to |expected.spec.ports|
      invariant forall k :: 0 <= k < i ==> SamePort(svc.spec.ports[k], expected.spec.ports[k])
    {
      if !SamePort(svc.spec.ports[i], expected.spec.ports[i]) {
        return false, Some("service ports don't match");
      }
    }
    if !Derives(svc.spec.selector, expected.spec.selector) {
      return false, Some("selectors don't match");
    }
    if svc.spec.kind != expected.spec.kind {
      return false, Some("Service type doesn't match");
    }
    return true, None;
  }

  /** What the server may add to a service it stores: further labels, annotations and selector entries, a
      cluster address, node ports. It never overrides what was sent. */
  datatype Admission = Admission(
    labels: Labels,
    annotations: Labels,
    selector: Labels,
    clusterIP: string,
    nodePort: int)

  function Admit(ad: Admission, svc: Service): Service {
    svc.(labels := ad.labels + svc.labels,
         annotations := ad.annotations + svc.annotations,
         spec := svc.spec.(
           ports := seq(|svc.spec.ports|,
                        i requires 0 <= i < |svc.spec.ports| => svc.spec.ports[i].(nodePort := ad.nodePort)),
           selector := ad.selector + svc.spec.selector,
           clusterIP := if svc.spec.clusterIP == "" then ad.clusterIP else svc.spec.clusterIP))
  }

  /** The in-place update of a stored service that does not match: everything but its name. */
  function Overwrite(svc: Service, expected: Service): Service {
    svc.(annotations := expected.annotations, labels := expected.labels, spec := expected.spec)
  }

  /** Whatever was stored and whatever the server adds, an overwritten service matches. */
  lemma OverwrittenMatches(ad: Admission, svc: Service, expected: Service)
    ensures Matches(Admit(ad, Overwrite(svc, expected)), expected)
  {
    var stored := Admit(ad, Overwrite(svc, expected));
    assert stored.labels == ad.labels + expected.labels;
    assert stored.spec.selector == ad.selector + expected.spec.selector;
  }

  /** What the server adds never turns a match into a mismatch, nor a port or type mismatch into a match. */
  lemma AdmissionKeepsMatch(ad: Admission, svc: Service, expected: Service)
    ensures Matches(svc, expected) ==> Matches(Admit(ad, svc), expected)
    ensures Matches(Admit(ad, svc), expected) ==>
              |svc.spec.ports| == |expected.spec.ports| && svc.spec.kind == expected.spec.kind &&
              forall i :: 0 <= i < |svc.spec.ports| ==> SamePort(svc.spec.ports[i], expected.spec.ports[i])
  {
    var stored := Admit(ad, svc);
    assert forall i :: 0 <= i < |svc.spec.ports| ==>
             stored.spec.ports[i] == svc.spec.ports[i].(nodePort := ad.nodePort);
  }

  /** A freshly built headless service never passes the check it is given, which compares with the console. */
  lemma HeadlessNeverMatchesConsole(ad: Admission, minio: string, spec: Spec)
    ensures !Matches(Admit(ad, NewHeadlessServiceForMinIO(minio, spec)), NewConsoleServiceForMinIO(minio, spec))
  {
    var hl := NewHeadlessServiceForMinIO(minio, spec);
    AdmissionKeepsMatch(ad, hl, NewConsoleServiceForMinIO(minio, spec));
    assert hl.spec.ports[0].port != NewConsoleServiceForMinIO(minio, spec).spec.ports[0].port;
  }
}
