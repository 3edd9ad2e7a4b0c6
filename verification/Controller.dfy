/** The reconciler itself: it creates, overwrites and deletes objects of the cluster one call at a time. */
module Controller {
  import opened Base
  import opened Cluster
  import opened Reconcile

  /** After an error the rest of the children are not handled. */
  function Then(r: Synced, c: Csms, kind: Kind, fate: Fate): (r': Synced) {
    if r.ok then Sync(r.objects, c, kind, fate) else r
  }

  lemma OneByOne(objects: Objects, c: Csms, fates: seq<Fate>)
    requires 5 <= |fates|
    ensures var one := Sync(objects, c, ConfigMap, fates[0]);
            var three := Then(Then(one, c, Service, fates[1]), c, Deployment, fates[2]);
            Children(objects, c, fates, 5) == Then(Then(three, c, PodDisruptionBudget, fates[3]), c, Ingress, fates[4])
  {
    assert Children(objects, c, fates, 0) == Synced(objects, true);
    assert Children(objects, c, fates, 1) == Sync(objects, c, ConfigMap, fates[0]);
    assert Children(objects, c, fates, 2) == Then(Children(objects, c, fates, 1), c, Service, fates[1]);
    assert Children(objects, c, fates, 3) == Then(Children(objects, c, fates, 2), c, Deployment, fates[2]);
    assert Children(objects, c, fates, 4) == Then(Children(objects, c, fates, 3), c, PodDisruptionBudget, fates[3]);
  }

  class Reconciler {
    var resources: map<Key, Csms>
    var objects: Objects

    constructor (resources: map<Key, Csms>, objects: Objects)
      ensures this.resources == resources && this.objects == objects
    {
      this.resources, this.objects := resources, objects;
    }

    ghost function Cluster(): (st: State)
      reads this
    {
      State(resources, objects)
    }

    /** Get or start afresh, set the fields and the controller, then create or update. */
    method CreateOrUpdate(c: Csms, kind: Kind, f: Fields, fate: Fate) returns (ok: bool, child: Object)
      requires Desired(c.key.name, c.spec, kind) == Some(f)
      modifies this`objects
      ensures Synced(objects, ok) == Sync(old(objects), c, kind, fate)
      ensures ok ==> Cell(kind, c.key) in objects && objects[Cell(kind, c.key)] == child
    {
      var cell := Cell(kind, c.key);
      child := if cell in objects then objects[cell] else Object(f, None, NEW);
      child := child.(fields := f);
      if child.controller.Some? {
        var owner := child.controller.value;
        if owner.kind != "CSMS" || owner.name != c.key.name { return false, child; }
      }
      child := child.(controller := Some(RefOf(c)));
      if fate.Applied() { objects := objects[cell := child]; }
      ok := fate.Acknowledged?;
    }

    /** Deleting what is not there is no error. */
    method Delete(c: Csms, kind: Kind, fate: Fate) returns (ok: bool)
      requires Desired(c.key.name, c.spec, kind).None?
      modifies this`objects
      ensures Synced(objects, ok) == Sync(old(objects), c, kind, fate)
    {
      if fate.Applied() { objects := objects - {Cell(kind, c.key)}; }
      ok := fate.Acknowledged?;
    }

    method ReconcileConfigMap(c: Csms, fate: Fate) returns (ok: bool)
      modifies this`objects
      ensures Synced(objects, ok) == Sync(old(objects), c, ConfigMap, fate)
    {
      var child;
      ok, child := CreateOrUpdate(c, ConfigMap, ConfigMapFields(Labels(c.key.name), c.spec.config), fate);
    }

    method ReconcileService(c: Csms, fate: Fate) returns (ok: bool)
      modifies this`objects
      ensures Synced(objects, ok) == Sync(old(objects), c, Service, fate)
    {
      var labels := Labels(c.key.name);
      var child;
      var ports := [ServicePort("http", Port(c.spec), "http")];
      ok, child := CreateOrUpdate(c, Service, ServiceFields(labels, labels, ports), fate);
    }

    method TlsVolumes(s: Spec) returns (volumes: seq<Volume>, mounts: seq<Mount>)
      ensures volumes == Volumes(s) && mounts == Mounts(s)
    {
      if s.tls.None? { return [], []; }
      volumes := [Volume(TLS_SERVER_VOLUME, s.tls.value.secretName)];
      mounts := [Mount(TLS_SERVER_VOLUME, "/etc/csms/tls/server", true)];
      if s.tls.value.clientCASecretName != "" {
        volumes := volumes + [Volume(TLS_CA_VOLUME, s.tls.value.clientCASecretName)];
        mounts := mounts + [Mount(TLS_CA_VOLUME, "/etc/csms/tls/ca", true)];
      }
    }

    /** The ConfigMap first, then one optional reference per secret named. */
    method EnvFromOf(name: string, s: Spec) returns (envFrom: seq<EnvFrom>)
      ensures envFrom == [ConfigMapRef(name)] + SecretRefs([s.databaseSecret, s.redisSecret, s.apiSecret])
    {
      var names := [s.databaseSecret, s.redisSecret, s.apiSecret];
      envFrom := [ConfigMapRef(name)];
      for i := 0 to |names|
        invariant envFrom == [ConfigMapRef(name)] + SecretRefs(names[..i])
      {
        assert names[..i + 1][..i] == names[..i];
        if names[i] != "" {
          envFrom := envFrom + [SecretRef(names[i], true)];
        }
      }
      assert names[..|names|] == names;
    }

    method ReconcileDeployment(c: Csms, fate: Fate) returns (ok: bool, deployment: Object)
      modifies this`objects
      ensures Synced(objects, ok) == Sync(old(objects), c, Deployment, fate)
      ensures ok ==> Cell(Deployment, c.key) in objects && objects[Cell(Deployment, c.key)] == deployment
    {
      var replicas := 1;
      if c.spec.replicas.Some? { replicas := c.spec.replicas.value; }
      var resources := c.spec.resources;
      if resources.requests.None? && resources.limits.None? {
        resources := Resources(
          Some(map["cpu" := "50m", "memory" := "64Mi"]), Some(map["cpu" := "500m", "memory" := "256Mi"]));
      }
      var envFrom := EnvFromOf(c.key.name, c.spec);
      var volumes, mounts := TlsVolumes(c.spec);
      var labels := Labels(c.key.name);
      var container := Container(
        "runtime", c.spec.image, "IfNotPresent", envFrom, [EnvVar("CSMS_INSTANCE_ID", "metadata.name")],
        "http", Port(c.spec), mounts,
        Probe(ReadinessPath(c.spec), "http", c.spec.tls.Some?, 5),
        Probe(LivenessPath(c.spec), "http", c.spec.tls.Some?, 10), resources);
      var fields := DeploymentFields(labels, replicas, labels, Template(labels, Grace(c.spec), volumes, container));
      ok, deployment := CreateOrUpdate(c, Deployment, fields, fate);
    }

    method ReconcilePodDisruptionBudget(c: Csms, fate: Fate) returns (ok: bool)
      modifies this`objects
      ensures Synced(objects, ok) == Sync(old(objects), c, PodDisruptionBudget, fate)
    {
      if c.spec.minAvailable.None? {
        ok := Delete(c, PodDisruptionBudget, fate);
        return;
      }
      var labels := Labels(c.key.name);
      var child;
      ok, child := CreateOrUpdate(c, PodDisruptionBudget, BudgetFields(labels, c.spec.minAvailable.value, labels), fate);
    }

    method ReconcileIngress(c: Csms, fate: Fate) returns (ok: bool)
      modifies this`objects
      ensures Synced(objects, ok) == Sync(old(objects), c, Ingress, fate)
    {
      if c.spec.ingress.None? {
        ok := Delete(c, Ingress, fate);
        return;
      }
      var spec := c.spec.ingress.value;
      var className := if spec.className != "" then Some(spec.className) else None;
      var tls := if spec.tlsSecretName != "" then [IngressTls([spec.host], spec.tlsSecretName)] else [];
      var rules := [Rule(spec.host, "/", "Prefix", c.key.name, "http")];
      var child;
      ok, child := CreateOrUpdate(
        c, Ingress, IngressFields(Labels(c.key.name), spec.annotations, className, rules, tls), fate);
    }

    method UpdateStatus(c: Csms, deployment: Object, now: int, fate: Fate) returns (ok: bool)
      modifies this`resources
      ensures ok == fate.Acknowledged?
      ensures resources ==
        if fate.Applied() then old(resources)[c.key := c.(status := StatusOf(c, deployment.other, now))]
        else old(resources)
    {
      var desired, o := Replicas(c.spec), deployment.other;
      var available := Condition(false, "NoReadyReplicas", NoReplicaReady, c.generation, now);
      if o.ready > 0 {
        available := Condition(true, "ReplicasReady", ReplicasReady(o.ready, desired), c.generation, now);
      }
      var progressing := Condition(true, "ReplicasNotReady", ReplicasReady(o.ready, desired), c.generation, now);
      if o.ready == desired {
        progressing := progressing.(status := false, reason := "ReplicasReady");
      }
      var conditions := SetCondition(c.status.conditions, "Available", available);
      conditions := SetCondition(conditions, "Progressing", progressing);
      if fate.Applied() {
        resources := resources[c.key := c.(status := Status(o.replicas, o.ready, c.generation, conditions))];
      }
      ok := fate.Acknowledged?;
    }

    /** ConfigMap, Service, Deployment, budget, Ingress; the first error ends it. */
    method ReconcileChildren(c: Csms, fates: seq<Fate>) returns (ok: bool, deployment: Option<Object>)
      requires |fates| == 6
      modifies this`objects
      ensures Synced(objects, ok) == Children(old(objects), c, fates, 5)
      ensures ok ==> Cell(Deployment, c.key) in objects && deployment == Some(objects[Cell(Deployment, c.key)])
    {
      OneByOne(objects, c, fates);
      deployment := None;
      ok := ReconcileConfigMap(c, fates[0]);
      if !ok { return; }
      ok := ReconcileService(c, fates[1]);
      if !ok { return; }
      var child;
      ok, child := ReconcileDeployment(c, fates[2]);
      if !ok { return; }
      deployment := Some(child);
      SyncMeans(objects, c, PodDisruptionBudget, fates[3]);
      ok := ReconcilePodDisruptionBudget(c, fates[3]);
      if !ok { return; }
      SyncMeans(objects, c, Ingress, fates[4]);
      ok := ReconcileIngress(c, fates[4]);
    }

    /** The children, then the status. */
    method Reconcile(key: Key, now: int, fates: seq<Fate>) returns (ok: bool)
      requires |fates| == 6 && WellKeyed(Cluster())
      modifies this
      ensures Outcome(Cluster(), ok) == Reconciled(old(Cluster()), key, now, fates)
    {
      if key !in resources { return true; }
      var c := resources[key];
      assert resources[key := c] == resources;
      var deployment;
      ok, deployment := ReconcileChildren(c, fates);
      if !ok { return; }
      ok := UpdateStatus(c, deployment.value, now, fates[5]);
    }
  }
}
