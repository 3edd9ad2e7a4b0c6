/**
 * What a completed reconcile leaves in the cluster, told field by field from
 * the resource alone.
 */
module SpecReached {
  import opened Base
  import opened Cluster
  import opened Reconcile

  /** The child exists, carries the resource's labels and is controlled by it. */
  predicate Owned(objects: Objects, c: Csms, kind: Kind) {
    && Cell(kind, c.key) in objects
    && var o := objects[Cell(kind, c.key)];
    && o.controller == Some(OwnerRef("CSMS", c.key.name, c.uid))
    && o.fields.labels == InstanceLabels(c)
  }

  function InstanceLabels(c: Csms): (l: Strings) {
    map["app.kubernetes.io/name" := "csms-runtime", "app.kubernetes.io/instance" := c.key.name]
  }

  predicate ConfigReached(objects: Objects, c: Csms) {
    && Owned(objects, c, ConfigMap)
    && var f := objects[Cell(ConfigMap, c.key)].fields;
    f.ConfigMapFields? && f.data == c.spec.config
  }

  function Listening(c: Csms): (port: int) { if c.spec.port == 0 then 8080 else c.spec.port }

  predicate ServiceReached(objects: Objects, c: Csms) {
    && Owned(objects, c, Service)
    && var f := objects[Cell(Service, c.key)].fields;
    && f.ServiceFields? && f.selector == InstanceLabels(c) && |f.ports| == 1
    && f.ports[0].name == "http" && f.ports[0].port == Listening(c) && f.ports[0].targetPort == "http"
  }

  /** One optional reference if the secret is named. */
  function Optional(name: string): (refs: seq<EnvFrom>) { if name == "" then [] else [SecretRef(name, true)] }

  predicate EnvironmentReached(e: Container, c: Csms) {
    && e.envFrom == [ConfigMapRef(c.key.name)]
                    + Optional(c.spec.databaseSecret) + Optional(c.spec.redisSecret) + Optional(c.spec.apiSecret)
    && |e.env| == 1 && e.env[0].name == "CSMS_INSTANCE_ID" && e.env[0].fieldPath == "metadata.name"
  }

  /** Each probe asks its own path on the named port, over HTTPS exactly with TLS. */
  predicate ProbesReached(e: Container, c: Csms) {
    && e.readiness.path == (if c.spec.readinessPath == "" then "/readyz" else c.spec.readinessPath)
    && e.liveness.path == (if c.spec.livenessPath == "" then "/livez" else c.spec.livenessPath)
    && e.readiness.periodSeconds == 5 && e.liveness.periodSeconds == 10
    && e.readiness.port == e.liveness.port == "http"
    && (e.readiness.https <==> c.spec.tls.Some?) && (e.liveness.https <==> c.spec.tls.Some?)
  }

  predicate ContainerReached(e: Container, c: Csms) {
    && e.name == "runtime" && e.image == c.spec.image && e.pullPolicy == "IfNotPresent"
    && e.portName == "http" && e.port == Listening(c)
    && EnvironmentReached(e, c) && ProbesReached(e, c)
    && (if c.spec.resources.requests == None && c.spec.resources.limits == None
        then e.resources.requests == Some(map["cpu" := "50m", "memory" := "64Mi"])
             && e.resources.limits == Some(map["cpu" := "500m", "memory" := "256Mi"])
        else e.resources == c.spec.resources)
  }

  /** Each secret named for TLS is mounted read-only at its own path, and nothing else is. */
  predicate SecretsMounted(t: Template, c: Csms) {
    match c.spec.tls
    case None => t.volumes == [] && t.container.mounts == []
    case Some(tls) =>
      if tls.clientCASecretName == "" then
        && t.volumes == [Volume("tls-server", tls.secretName)]
        && t.container.mounts == [Mount("tls-server", "/etc/csms/tls/server", true)]
      else
        && t.volumes == [Volume("tls-server", tls.secretName), Volume("tls-ca", tls.clientCASecretName)]
        && t.container.mounts ==
           [Mount("tls-server", "/etc/csms/tls/server", true), Mount("tls-ca", "/etc/csms/tls/ca", true)]
  }

  predicate DeploymentReached(objects: Objects, c: Csms) {
    && Owned(objects, c, Deployment)
    && var f := objects[Cell(Deployment, c.key)].fields;
    && f.DeploymentFields? && f.selector == InstanceLabels(c) == f.template.labels
    && f.replicas == (if c.spec.replicas == None then 1 else c.spec.replicas.value)
    && f.template.grace == (if c.spec.grace == None then 30 else c.spec.grace.value)
    && ContainerReached(f.template.container, c) && SecretsMounted(f.template, c)
  }

  /** Present exactly when the spec gives a number, and then with it. */
  predicate BudgetReached(objects: Objects, c: Csms) {
    && (Cell(PodDisruptionBudget, c.key) in objects <==> c.spec.minAvailable != None)
    && (c.spec.minAvailable != None ==>
      && Owned(objects, c, PodDisruptionBudget)
      && var f := objects[Cell(PodDisruptionBudget, c.key)].fields;
      f.BudgetFields? && f.minAvailable == c.spec.minAvailable.value && f.selector == InstanceLabels(c))
  }

  /** Present exactly when the spec has one: its host goes to the Service, with its class, annotations and secret. */
  predicate IngressReached(objects: Objects, c: Csms) {
    && (Cell(Ingress, c.key) in objects <==> c.spec.ingress != None)
    && (c.spec.ingress != None ==>
      && Owned(objects, c, Ingress)
      && var f, i := objects[Cell(Ingress, c.key)].fields, c.spec.ingress.value;
      && f.IngressFields? && f.annotations == i.annotations
      && f.className == (if i.className == "" then None else Some(i.className))
      && |f.rules| == 1 && f.rules[0].host == i.host && f.rules[0].path == "/" && f.rules[0].pathType == "Prefix"
      && f.rules[0].service == c.key.name && f.rules[0].portName == "http"
      && (if i.tlsSecretName == "" then f.tls == []
          else |f.tls| == 1 && f.tls[0].hosts == [i.host] && f.tls[0].secretName == i.tlsSecretName))
  }

  predicate Reached(objects: Objects, c: Csms) {
    && ConfigReached(objects, c) && ServiceReached(objects, c) && DeploymentReached(objects, c)
    && BudgetReached(objects, c) && IngressReached(objects, c)
  }

  lemma TemplateMeans(c: Csms)
    ensures var t := TemplateOf(c.key.name, c.spec);
      t.grace == (if c.spec.grace == None then 30 else c.spec.grace.value) && t.labels == InstanceLabels(c)
      && ContainerReached(t.container, c) && SecretsMounted(t, c)
  {
    var a, b, d := c.spec.databaseSecret, c.spec.redisSecret, c.spec.apiSecret;
    assert [a, b, d][..2] == [a, b] && [a, b][..1] == [a] && [a][..0] == [];
    assert SecretRefs([a]) == Optional(a);
    assert SecretRefs([a, b]) == Optional(a) + Optional(b);
    assert SecretRefs([a, b, d]) == Optional(a) + Optional(b) + Optional(d);
  }

  lemma DesiredMeans(objects: Objects, c: Csms)
    requires AllDesired(objects, c)
    ensures Reached(objects, c)
  {
    TemplateMeans(c);
    assert AtDesired(objects, c, ConfigMap) && AtDesired(objects, c, Service) && AtDesired(objects, c, Deployment);
    assert AtDesired(objects, c, PodDisruptionBudget) && AtDesired(objects, c, Ingress);
  }

  // ---------- Status

  /** The condition says so, for this generation, and since when. */
  predicate Says(s: Status, before: map<string, Condition>, name: string, holds: bool, reason: string, message: Message,
                 generation: int, now: int) {
    && name in s.conditions
    && var c := s.conditions[name];
    && c.status == holds && c.reason == reason && c.message == message && c.generation == generation
    && c.since == if name in before && before[name].status == holds then before[name].since else now
  }

  /** The status a reconcile reports from the numbers of replicas and of ready ones observed. */
  predicate StatusReached(s: Status, c: Csms, replicas: int, ready: int, now: int) {
    var before, wanted := c.status.conditions, if c.spec.replicas == None then 1 else c.spec.replicas.value;
    && s.replicas == replicas && s.ready == ready && s.observedGeneration == c.generation
    && Says(s, before, "Available", ready > 0, if ready > 0 then "ReplicasReady" else "NoReadyReplicas",
            if ready > 0 then ReplicasReady(ready, wanted) else NoReplicaReady, c.generation, now)
    && Says(s, before, "Progressing", ready != wanted, if ready == wanted then "ReplicasReady" else "ReplicasNotReady",
            ReplicasReady(ready, wanted), c.generation, now)
    && (forall name | name in before && name != "Available" && name != "Progressing" ::
      name in s.conditions && s.conditions[name] == before[name])
  }

  lemma StatusMeansReached(c: Csms, o: Other, now: int)
    ensures StatusReached(StatusOf(c, o, now), c, o.replicas, o.ready, now)
  {
  }

  /**
   * From any state of the cluster, a completed reconcile leaves every governed
   * field at the value the resource gives it, and reports the readiness the
   * Deployment had, none if it is new.
   */
  lemma ReconciledReaches(st: State, key: Key, now: int, fates: seq<Fate>)
    requires |fates| == 6 && WellKeyed(st) && key in st.resources && Reconciled(st, key, now, fates).ok
    ensures var st', c, cell := Reconciled(st, key, now, fates).state, st.resources[key], Cell(Deployment, key);
      && Reached(st'.objects, c)
      && StatusReached(st'.resources[key].status, c, if cell in st.objects then st.objects[cell].other.replicas else 0,
                       if cell in st.objects then st.objects[cell].other.ready else 0, now)
      && st'.resources[key] == c.(status := st'.resources[key].status)
  {
    var c, cell := st.resources[key], Cell(Deployment, key);
    Converges(st, key, now, fates);
    var children := Children(st.objects, c, fates, 5).objects;
    DesiredMeans(children, c);
    OtherOfDeployment(st.objects, c, fates);
    StatusMeansReached(c, children[cell].other, now);
  }

  /** The Deployment's observed status is what it was, and none if it is new. */
  lemma OtherOfDeployment(objects: Objects, c: Csms, fates: seq<Fate>)
    requires 5 <= |fates| && Children(objects, c, fates, 5).ok
    ensures var cell, after := Cell(Deployment, c.key), Children(objects, c, fates, 5).objects;
      cell in after ==> after[cell].other == if cell in objects then objects[cell].other else NEW
  {
    var cell := Cell(Deployment, c.key);
    TurnOver(objects, c, fates, Deployment, 5);
    ChildrenFrame(objects, c, fates, 2, cell);
    assert Nth(2) == Deployment;
  }
}
