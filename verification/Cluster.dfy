/**
 * The CSMS resource, the five kinds of child objects kept for it, and what
 * its spec alone says about each of them.
 */
module Cluster {
  import opened Base

  const COMPONENT := "csms-runtime"
  const LABEL_NAME := "app.kubernetes.io/name"
  const LABEL_INSTANCE := "app.kubernetes.io/instance"
  const DEFAULT_PORT := 8080
  const DEFAULT_GRACE := 30
  const TLS_SERVER_VOLUME := "tls-server"
  const TLS_CA_VOLUME := "tls-ca"

  type Strings = map<string, string>

  datatype Key = Key(namespace: string, name: string)

  datatype Tls = Tls(secretName: string, clientCASecretName: string)

  datatype IngressSpec = IngressSpec(host: string, className: string, tlsSecretName: string, annotations: Strings)

  datatype Resources = Resources(requests: Option<Strings>, limits: Option<Strings>)

  datatype Spec = Spec(
    image: string, replicas: Option<int>, port: int, livenessPath: string, readinessPath: string, grace: Option<int>,
    databaseSecret: string, redisSecret: string, apiSecret: string,
    config: Strings, resources: Resources, minAvailable: Option<string>,
    ingress: Option<IngressSpec>, tls: Option<Tls>)

  datatype Message = NoReplicaReady | ReplicasReady(ready: int, desired: int)

  datatype Condition = Condition(status: bool, reason: string, message: Message, generation: int, since: int)

  datatype Status = Status(replicas: int, ready: int, observedGeneration: int, conditions: map<string, Condition>)

  datatype Csms = Csms(key: Key, uid: string, generation: int, spec: Spec, status: Status)

  // ---------- Child objects

  datatype Kind = ConfigMap | Service | Deployment | PodDisruptionBudget | Ingress

  datatype ServicePort = ServicePort(name: string, port: int, targetPort: string)

  datatype EnvFrom = ConfigMapRef(name: string) | SecretRef(name: string, optional: bool)

  datatype EnvVar = EnvVar(name: string, fieldPath: string)

  datatype Volume = Volume(name: string, secretName: string)

  datatype Mount = Mount(name: string, path: string, readOnly: bool)

  datatype Probe = Probe(path: string, port: string, https: bool, periodSeconds: int)

  datatype Container = Container(
    name: string, image: string, pullPolicy: string, envFrom: seq<EnvFrom>, env: seq<EnvVar>,
    portName: string, port: int, mounts: seq<Mount>, readiness: Probe, liveness: Probe, resources: Resources)

  datatype Template = Template(labels: Strings, grace: int, volumes: seq<Volume>, container: Container)

  datatype Rule = Rule(host: string, path: string, pathType: string, service: string, portName: string)

  datatype IngressTls = IngressTls(hosts: seq<string>, secretName: string)

  /** The fields of a child that Reconcile sets. */
  datatype Fields =
    | ConfigMapFields(labels: Strings, data: Strings)
    | ServiceFields(labels: Strings, selector: Strings, ports: seq<ServicePort>)
    | DeploymentFields(labels: Strings, replicas: int, selector: Strings, template: Template)
    | BudgetFields(labels: Strings, minAvailable: string, selector: Strings)
    | IngressFields(labels: Strings, annotations: Strings, className: Option<string>, rules: seq<Rule>, tls: seq<IngressTls>)

  datatype OwnerRef = OwnerRef(kind: string, name: string, uid: string)

  /** The fields Reconcile never sets: those others write, and a Deployment's observed status. */
  datatype Other = Other(replicas: int, ready: int, rest: Strings)

  const NEW := Other(0, 0, map[])

  datatype Object = Object(fields: Fields, controller: Option<OwnerRef>, other: Other)

  datatype Cell = Cell(kind: Kind, key: Key)

  type Objects = map<Cell, Object>

  // ---------- What the spec determines

  function Labels(name: string): (l: Strings) { map[LABEL_NAME := COMPONENT, LABEL_INSTANCE := name] }

  function Port(s: Spec): (p: int) { if s.port != 0 then s.port else DEFAULT_PORT }

  function LivenessPath(s: Spec): (p: string) { if s.livenessPath != "" then s.livenessPath else "/livez" }

  function ReadinessPath(s: Spec): (p: string) { if s.readinessPath != "" then s.readinessPath else "/readyz" }

  function Grace(s: Spec): (g: int) { if s.grace.Some? then s.grace.value else DEFAULT_GRACE }

  function Replicas(s: Spec): (n: int) { if s.replicas.Some? then s.replicas.value else 1 }

  function ResourcesOf(s: Spec): (r: Resources) {
    if s.resources.requests.Some? || s.resources.limits.Some? then s.resources
    else Resources(Some(map["cpu" := "50m", "memory" := "64Mi"]), Some(map["cpu" := "500m", "memory" := "256Mi"]))
  }

  /** One optional reference per secret named, in order. */
  function SecretRefs(names: seq<string>): (refs: seq<EnvFrom>) {
    if names == [] then []
    else SecretRefs(names[..|names| - 1]) +
         (if names[|names| - 1] == "" then [] else [SecretRef(names[|names| - 1], true)])
  }

  function Volumes(s: Spec): (vs: seq<Volume>) {
    if s.tls.None? then []
    else [Volume(TLS_SERVER_VOLUME, s.tls.value.secretName)] +
         if s.tls.value.clientCASecretName == "" then [] else [Volume(TLS_CA_VOLUME, s.tls.value.clientCASecretName)]
  }

  function Mounts(s: Spec): (ms: seq<Mount>) {
    if s.tls.None? then []
    else [Mount(TLS_SERVER_VOLUME, "/etc/csms/tls/server", true)] +
         if s.tls.value.clientCASecretName == "" then [] else [Mount(TLS_CA_VOLUME, "/etc/csms/tls/ca", true)]
  }

  function TemplateOf(name: string, s: Spec): (t: Template) {
    Template(Labels(name), Grace(s), Volumes(s),
      Container("runtime", s.image, "IfNotPresent",
        [ConfigMapRef(name)] + SecretRefs([s.databaseSecret, s.redisSecret, s.apiSecret]),
        [EnvVar("CSMS_INSTANCE_ID", "metadata.name")],
        "http", Port(s), Mounts(s),
        Probe(ReadinessPath(s), "http", s.tls.Some?, 5), Probe(LivenessPath(s), "http", s.tls.Some?, 10),
        ResourcesOf(s)))
  }

  /** The fields the spec gives a child, or None where it wants no such child. */
  function Desired(name: string, s: Spec, kind: Kind): (f: Option<Fields>) {
    var labels := Labels(name);
    match kind
    case ConfigMap => Some(ConfigMapFields(labels, s.config))
    case Service => Some(ServiceFields(labels, labels, [ServicePort("http", Port(s), "http")]))
    case Deployment => Some(DeploymentFields(labels, Replicas(s), labels, TemplateOf(name, s)))
    case PodDisruptionBudget =>
      if s.minAvailable.None? then None else Some(BudgetFields(labels, s.minAvailable.value, labels))
    case Ingress =>
      if s.ingress.None? then None
      else
        var i := s.ingress.value;
        Some(IngressFields(
          labels, i.annotations, if i.className == "" then None else Some(i.className),
          [Rule(i.host, "/", "Prefix", name, "http")],
          if i.tlsSecretName == "" then [] else [IngressTls([i.host], i.tlsSecretName)]))
  }

  function RefOf(c: Csms): (r: OwnerRef) { OwnerRef("CSMS", c.key.name, c.uid) }

  /** Another owner controls the object; a reference is recognised by kind and name. */
  predicate Foreign(o: Object, c: Csms) {
    o.controller.Some? && !(o.controller.value.kind == "CSMS" && o.controller.value.name == c.key.name)
  }

  /** The child is as the spec says: with exactly those fields and this controller, or absent. */
  predicate AtDesired(objects: Objects, c: Csms, kind: Kind) {
    var cell := Cell(kind, c.key);
    match Desired(c.key.name, c.spec, kind)
    case None => cell !in objects
    case Some(f) => cell in objects && objects[cell].fields == f && objects[cell].controller == Some(RefOf(c))
  }

  predicate AllDesired(objects: Objects, c: Csms) { forall kind: Kind :: AtDesired(objects, c, kind) }

  // ---------- The parts fit together

  predicate Selects(selector: Strings, labels: Strings) {
    forall k | k in selector :: k in labels && labels[k] == selector[k]
  }

  /** Selectors keep the pods of differently named resources apart. */
  lemma SelectorsSeparate(a: string, b: string)
    ensures Selects(Labels(a), Labels(b)) <==> a == b
  {
    assert LABEL_INSTANCE in Labels(a) && Labels(a)[LABEL_INSTANCE] == a && Labels(b)[LABEL_INSTANCE] == b;
  }

  /** The Service selects the pods and reaches their port, and so does the Ingress through it. */
  predicate Routed(objects: Objects, c: Csms) {
    var service, deployment := Cell(Service, c.key), Cell(Deployment, c.key);
    && service in objects && objects[service].fields.ServiceFields?
    && deployment in objects && objects[deployment].fields.DeploymentFields?
    && var s, d := objects[service].fields, objects[deployment].fields;
    && Selects(s.selector, d.template.labels) && Selects(d.selector, d.template.labels)
    && (exists i | 0 <= i < |s.ports| ::
      s.ports[i].port == d.template.container.port && s.ports[i].targetPort == d.template.container.portName)
    && (c.spec.ingress.Some? ==>
      var ingress := Cell(Ingress, c.key);
      && ingress in objects && objects[ingress].fields.IngressFields?
      && forall r | 0 <= r < |objects[ingress].fields.rules| ::
        var rule := objects[ingress].fields.rules[r];
        rule.service == c.key.name && exists i | 0 <= i < |s.ports| :: s.ports[i].name == rule.portName)
  }

  /** The probes ask the port the container names, and each mount has its volume. */
  predicate Mounted(t: Template) {
    && t.container.readiness.port == t.container.portName == t.container.liveness.port
    && |t.volumes| == |t.container.mounts|
    && (forall i | 0 <= i < |t.volumes| :: t.volumes[i].name == t.container.mounts[i].name && t.container.mounts[i].readOnly)
    && (forall i, j | 0 <= i < j < |t.volumes| :: t.volumes[i].name != t.volumes[j].name)
    && (forall i, j | 0 <= i < j < |t.container.mounts| :: t.container.mounts[i].path != t.container.mounts[j].path)
  }

  /** From the fields the spec determines, traffic and secrets reach the container. */
  lemma DesiredFits(objects: Objects, c: Csms)
    requires AllDesired(objects, c)
    ensures Routed(objects, c)
    ensures Mounted(objects[Cell(Deployment, c.key)].fields.template)
  {
    assert AtDesired(objects, c, Service) && AtDesired(objects, c, Deployment) && AtDesired(objects, c, Ingress);
    var s := objects[Cell(Service, c.key)].fields;
    assert s.ports[0].port == Port(c.spec) && s.ports[0].targetPort == "http" && s.ports[0].name == "http";
  }

  /** The environment names every secret given and no other, each optional. */
  lemma {:induction false} SecretsNamed(names: seq<string>, r: EnvFrom)
    ensures r in SecretRefs(names) <==> r.SecretRef? && r.optional && r.name != "" && r.name in names
  {
    if names != [] {
      var n := |names| - 1;
      SecretsNamed(names[..n], r);
      assert names == names[..n] + [names[n]];
    }
  }
}
