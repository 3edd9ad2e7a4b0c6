/**
 * Bringing the children of a CSMS resource in line with its spec: one child at
 * a time, in any state the cluster may be in, with any call failing.
 */
module Reconcile {
  import opened Base
  import opened Cluster

  function Position(kind: Kind): (i: nat)
    ensures i < 5
  {
    match kind case ConfigMap => 0 case Service => 1 case Deployment => 2 case PodDisruptionBudget => 3 case Ingress => 4
  }

  /** The children in the order they are reconciled. */
  function Nth(i: nat): (kind: Kind)
    requires i < 5
    ensures Position(kind) == i
  {
    if i == 0 then ConfigMap else if i == 1 then Service else if i == 2 then Deployment
    else if i == 3 then PodDisruptionBudget else Ingress
  }

  datatype Synced = Synced(objects: Objects, ok: bool)

  /** The object with the desired fields set, what others wrote kept. */
  function Mutated(objects: Objects, cell: Cell, f: Fields, c: Csms): (o: Object) {
    Object(f, Some(RefOf(c)), if cell in objects then objects[cell].other else NEW)
  }

  /** One child: created, overwritten or deleted by name, or refused because another owner controls it. */
  function Sync(objects: Objects, c: Csms, kind: Kind, fate: Fate): (r: Synced) {
    var cell := Cell(kind, c.key);
    match Desired(c.key.name, c.spec, kind)
    case None => Synced(if fate.Applied() then objects - {cell} else objects, fate.Acknowledged?)
    case Some(f) =>
      if cell in objects && Foreign(objects[cell], c) then Synced(objects, false)
      else Synced(if fate.Applied() then objects[cell := Mutated(objects, cell, f, c)] else objects, fate.Acknowledged?)
  }

  /** The first n children in order, stopping at the first error. */
  function Children(objects: Objects, c: Csms, fates: seq<Fate>, n: nat): (r: Synced)
    requires n <= 5 <= |fates|
  {
    if n == 0 then Synced(objects, true)
    else
      var before := Children(objects, c, fates, n - 1);
      if before.ok then Sync(before.objects, c, Nth(n - 1), fates[n - 1]) else before
  }

  predicate SameAt(a: Objects, b: Objects, cell: Cell) {
    (cell in a <==> cell in b) && (cell in a ==> a[cell] == b[cell])
  }

  /** What others wrote on an object that stays is kept. */
  predicate KeepsOther(a: Objects, b: Objects, cell: Cell) { cell in a && cell in b ==> b[cell].other == a[cell].other }

  /** Nobody else controls a child the spec wants. */
  predicate Free(objects: Objects, c: Csms, kind: Kind) {
    var cell := Cell(kind, c.key);
    Desired(c.key.name, c.spec, kind).Some? && cell in objects ==> !Foreign(objects[cell], c)
  }

  /** One child: when it goes through, what it then is, and all that it may change. */
  lemma SyncMeans(objects: Objects, c: Csms, kind: Kind, fate: Fate)
    ensures var r := Sync(objects, c, kind, fate);
            && (r.ok <==> fate.Acknowledged? && Free(objects, c, kind))
            && (r.ok ==> AtDesired(r.objects, c, kind))
            && (forall cell | cell != Cell(kind, c.key) :: SameAt(r.objects, objects, cell))
            && KeepsOther(objects, r.objects, Cell(kind, c.key))
  {
  }

  /** A child as desired stays exactly as it is, whatever becomes of the call. */
  lemma SyncSettled(objects: Objects, c: Csms, kind: Kind, fate: Fate)
    requires AtDesired(objects, c, kind)
    ensures Sync(objects, c, kind, fate).objects == objects && Free(objects, c, kind)
  {
  }

  /** Whether a child is as desired depends on that child alone. */
  lemma DesiredFrame(a: Objects, b: Objects, c: Csms, kind: Kind)
    requires SameAt(a, b, Cell(kind, c.key))
    ensures AtDesired(a, c, kind) <==> AtDesired(b, c, kind)
    ensures Free(a, c, kind) <==> Free(b, c, kind)
  {
  }

  /** Children not reached yet, and everybody else's, are as they were. */
  lemma {:induction false} ChildrenFrame(objects: Objects, c: Csms, fates: seq<Fate>, n: nat, cell: Cell)
    requires n <= 5 <= |fates|
    requires cell.key == c.key ==> n <= Position(cell.kind)
    ensures SameAt(Children(objects, c, fates, n).objects, objects, cell)
  {
    if n > 0 {
      ChildrenFrame(objects, c, fates, n - 1, cell);
      SyncMeans(Children(objects, c, fates, n - 1).objects, c, Nth(n - 1), fates[n - 1]);
    }
  }

  lemma {:induction false} ChildrenKeepOther(objects: Objects, c: Csms, fates: seq<Fate>, n: nat, cell: Cell)
    requires n <= 5 <= |fates|
    ensures KeepsOther(objects, Children(objects, c, fates, n).objects, cell)
  {
    if n > 0 {
      ChildrenKeepOther(objects, c, fates, n - 1, cell);
      if cell == Cell(Nth(n - 1), c.key) {
        ChildrenFrame(objects, c, fates, n - 1, cell);
      }
      SyncMeans(Children(objects, c, fates, n - 1).objects, c, Nth(n - 1), fates[n - 1]);
    }
  }

  /** The children before position p all go through. */
  predicate Reaches(objects: Objects, c: Csms, fates: seq<Fate>, p: nat)
    requires p <= 5 <= |fates|
  {
    forall i | 0 <= i < p :: fates[i].Acknowledged? && Free(objects, c, Nth(i))
  }

  /** Child n goes through exactly when those before it did, its call does, and nobody else controls it. */
  lemma NextChild(objects: Objects, c: Csms, fates: seq<Fate>, n: nat)
    requires 0 < n <= 5 <= |fates|
    ensures Children(objects, c, fates, n).ok <==>
      Children(objects, c, fates, n - 1).ok && fates[n - 1].Acknowledged? && Free(objects, c, Nth(n - 1))
  {
    var before, kind := Children(objects, c, fates, n - 1), Nth(n - 1);
    ChildrenFrame(objects, c, fates, n - 1, Cell(kind, c.key));
    DesiredFrame(before.objects, objects, c, kind);
    SyncMeans(before.objects, c, kind, fates[n - 1]);
  }

  /** The first n go through exactly when no call fails and nobody else controls one that is wanted. */
  lemma {:induction false} FirstChildren(objects: Objects, c: Csms, fates: seq<Fate>, n: nat)
    requires n <= 5 <= |fates|
    ensures Children(objects, c, fates, n).ok <==> Reaches(objects, c, fates, n)
  {
    if n > 0 {
      FirstChildren(objects, c, fates, n - 1);
      NextChild(objects, c, fates, n);
      OneFurther(objects, c, fates, n);
    }
  }

  lemma OneFurther(objects: Objects, c: Csms, fates: seq<Fate>, n: nat)
    requires 0 < n <= 5 <= |fates|
    ensures Reaches(objects, c, fates, n) <==>
      Reaches(objects, c, fates, n - 1) && fates[n - 1].Acknowledged? && Free(objects, c, Nth(n - 1))
  {
  }

  /** And then the first n are as desired. */
  lemma {:induction false} DesiredChildren(objects: Objects, c: Csms, fates: seq<Fate>, n: nat)
    requires n <= 5 <= |fates| && Children(objects, c, fates, n).ok
    ensures forall i | 0 <= i < n :: AtDesired(Children(objects, c, fates, n).objects, c, Nth(i))
  {
    if n > 0 {
      var before, after := Children(objects, c, fates, n - 1).objects, Children(objects, c, fates, n).objects;
      DesiredChildren(objects, c, fates, n - 1);
      SyncMeans(before, c, Nth(n - 1), fates[n - 1]);
      forall i | 0 <= i < n - 1 ensures AtDesired(after, c, Nth(i)) {
        DesiredFrame(after, before, c, Nth(i));
      }
    }
  }

  /** Children as desired stay exactly as they are, however the calls end. */
  lemma {:induction false} ChildrenSettled(objects: Objects, c: Csms, fates: seq<Fate>, n: nat)
    requires n <= 5 <= |fates| && AllDesired(objects, c)
    ensures Children(objects, c, fates, n).objects == objects
  {
    if n > 0 {
      ChildrenSettled(objects, c, fates, n - 1);
      SyncSettled(objects, c, Nth(n - 1), fates[n - 1]);
    }
  }

  // ---------- Status

  /** meta.SetStatusCondition: the time moves only when the status does. */
  function SetCondition(conditions: map<string, Condition>, name: string, next: Condition): (m: map<string, Condition>) {
    var keep := name in conditions && conditions[name].status == next.status;
    conditions[name := if keep then next.(since := conditions[name].since) else next]
  }

  function StatusOf(c: Csms, o: Other, now: int): (s: Status) {
    var desired := Replicas(c.spec);
    var available :=
      if o.ready > 0 then Condition(true, "ReplicasReady", ReplicasReady(o.ready, desired), c.generation, now)
      else Condition(false, "NoReadyReplicas", NoReplicaReady, c.generation, now);
    var progressing :=
      Condition(o.ready != desired, if o.ready == desired then "ReplicasReady" else "ReplicasNotReady",
                ReplicasReady(o.ready, desired), c.generation, now);
    Status(o.replicas, o.ready, c.generation,
           SetCondition(SetCondition(c.status.conditions, "Available", available), "Progressing", progressing))
  }

  // ---------- One reconcile

  datatype State = State(resources: map<Key, Csms>, objects: Objects)

  datatype Outcome = Outcome(state: State, ok: bool)

  /** Names in the map are those the resources carry. */
  predicate WellKeyed(st: State) { forall k | k in st.resources :: st.resources[k].key == k }

  /** The resource after its children were handled: with the Deployment's readiness as its status, if all went well. */
  function Reported(c: Csms, children: Synced, now: int, fate: Fate): (c': Csms) {
    var cell := Cell(Deployment, c.key);
    if children.ok && fate.Applied() && cell in children.objects
    then c.(status := StatusOf(c, children.objects[cell].other, now)) else c
  }

  function Reconciled(st: State, key: Key, now: int, fates: seq<Fate>): (r: Outcome)
    requires |fates| == 6 && WellKeyed(st)
    ensures WellKeyed(r.state)
  {
    if key !in st.resources then Outcome(st, true)
    else
      var c := st.resources[key];
      var children := Children(st.objects, c, fates, 5);
      Outcome(State(st.resources[key := Reported(c, children, now, fates[5])], children.objects),
              children.ok && fates[5].Acknowledged?)
  }

  /**
   * From any state of the cluster, a reconcile completes exactly when no call
   * fails and nobody else controls a child the spec wants, and then every child
   * is as the spec says.
   */
  lemma Converges(st: State, key: Key, now: int, fates: seq<Fate>)
    requires |fates| == 6 && WellKeyed(st) && key in st.resources
    ensures var r := Reconciled(st, key, now, fates);
            && (r.ok <==> && (forall i | 0 <= i < 6 :: fates[i].Acknowledged?)
                          && forall kind: Kind :: Free(st.objects, st.resources[key], kind))
            && (r.ok ==> AllDesired(r.state.objects, st.resources[key]))
  {
    var c := st.resources[key];
    FirstChildren(st.objects, c, fates, 5);
    var r := Children(st.objects, c, fates, 5);
    if r.ok {
      DesiredChildren(st.objects, c, fates, 5);
      forall kind: Kind ensures Free(st.objects, c, kind) && AtDesired(r.objects, c, kind) {
        assert kind == Nth(Position(kind));
      }
    }
  }

  /** A later one, completed or cut short anywhere, at any time, leaves it all unchanged, the status too. */
  lemma Settled(st: State, key: Key, now: int, fates: seq<Fate>, now': int, fates': seq<Fate>)
    requires |fates| == |fates'| == 6 && WellKeyed(st)
    requires Reconciled(st, key, now, fates).ok
    ensures var done := Reconciled(st, key, now, fates).state;
            Reconciled(done, key, now', fates').state == done
  {
    if key in st.resources {
      Converges(st, key, now, fates);
      var done := Reconciled(st, key, now, fates).state;
      var c, c' := st.resources[key], done.resources[key];
      assert AllDesired(done.objects, c') by {
        assert forall kind: Kind :: AtDesired(done.objects, c, kind) <==> AtDesired(done.objects, c', kind);
      }
      ChildrenSettled(done.objects, c', fates', 5);
      assert AtDesired(done.objects, c, Deployment);
      StatusSettled(c, done.objects[Cell(Deployment, key)].other, now, now');
    }
  }

  /** Reporting the same observation again changes nothing, whatever the time. */
  lemma StatusSettled(c: Csms, o: Other, now: int, now': int)
    ensures var s := StatusOf(c, o, now);
            StatusOf(c.(status := s), o, now') == s
  {
  }

  /** Every other resource, its children, and what others wrote on one's own, are kept. */
  lemma OthersKept(st: State, key: Key, now: int, fates: seq<Fate>, cell: Cell)
    requires |fates| == 6 && WellKeyed(st)
    ensures var st' := Reconciled(st, key, now, fates).state;
            && st'.resources.Keys == st.resources.Keys
            && (forall k | k in st.resources :: st'.resources[k] == st.resources[k].(status := st'.resources[k].status))
            && (forall k | k in st.resources && k != key :: st'.resources[k] == st.resources[k])
            && (cell.key != key ==> SameAt(st'.objects, st.objects, cell)) && KeepsOther(st.objects, st'.objects, cell)
  {
    if key in st.resources {
      ChildrenKeepOther(st.objects, st.resources[key], fates, 5, cell);
      if cell.key != key {
        ChildrenFrame(st.objects, st.resources[key], fates, 5, cell);
      }
    }
  }

  // ---------- Children somebody else controls

  /** A foreign child survives its turn exactly when the spec wants one there or the call does not get through. */
  lemma ForeignSurvivesIff(objects: Objects, c: Csms, kind: Kind, fate: Fate)
    requires Cell(kind, c.key) in objects && Foreign(objects[Cell(kind, c.key)], c)
    ensures SameAt(Sync(objects, c, kind, fate).objects, objects, Cell(kind, c.key)) <==>
      Desired(c.key.name, c.spec, kind).Some? || fate.NotApplied?
  {
  }

  /** After its turn a child is left alone. */
  lemma {:induction false} TurnOver(objects: Objects, c: Csms, fates: seq<Fate>, kind: Kind, n: nat)
    requires Position(kind) < n <= 5 <= |fates|
    ensures SameAt(Children(objects, c, fates, n).objects,
                   Children(objects, c, fates, Position(kind) + 1).objects, Cell(kind, c.key))
  {
    if n > Position(kind) + 1 {
      TurnOver(objects, c, fates, kind, n - 1);
      SyncMeans(Children(objects, c, fates, n - 1).objects, c, Nth(n - 1), fates[n - 1]);
    }
  }

  /**
   * Over a whole reconcile another owner's object under one of the five names
   * survives exactly when the spec wants such a child, or the deletion does not
   * get through, or an error before it ends the reconcile.
   */
  lemma ForeignSurvivesReconcileIff(st: State, key: Key, now: int, fates: seq<Fate>, kind: Kind)
    requires |fates| == 6 && WellKeyed(st) && key in st.resources
    requires Cell(kind, key) in st.objects && Foreign(st.objects[Cell(kind, key)], st.resources[key])
    ensures SameAt(Reconciled(st, key, now, fates).state.objects, st.objects, Cell(kind, key)) <==>
      || Desired(key.name, st.resources[key].spec, kind).Some? || fates[Position(kind)].NotApplied?
      || !Reaches(st.objects, st.resources[key], fates, Position(kind))
  {
    var c, p, cell := st.resources[key], Position(kind), Cell(kind, key);
    var before := Children(st.objects, c, fates, p);
    assert Nth(p) == kind;
    FirstChildren(st.objects, c, fates, p);
    ChildrenFrame(st.objects, c, fates, p, cell);
    ForeignSurvivesIff(before.objects, c, kind, fates[p]);
    TurnOver(st.objects, c, fates, kind, 5);
  }

  const EXAMPLE := Key("default", "depot")

  /** A resource without Ingress next to somebody else's Ingress of the same name. */
  function ForeignIngress(owner: OwnerRef): (st: State) {
    var spec := Spec("image", None, 0, "", "", None, "", "", "", map[], Resources(None, None), None, None, None);
    var c := Csms(EXAMPLE, "uid", 1, spec, Status(0, 0, 0, map[]));
    var other := Object(IngressFields(map[], map[], None, [], []), Some(owner), NEW);
    State(map[EXAMPLE := c], map[Cell(Ingress, EXAMPLE) := other])
  }

  /** Whoever that is, one undisturbed reconcile completes and the Ingress is gone. */
  lemma ForeignIngressDeleted(owner: OwnerRef, now: int)
    requires owner.kind != "CSMS"
    ensures var st, fates := ForeignIngress(owner), seq(6, _ => Acknowledged);
      && Foreign(st.objects[Cell(Ingress, EXAMPLE)], st.resources[EXAMPLE])
      && Reconciled(st, EXAMPLE, now, fates).ok
      && Cell(Ingress, EXAMPLE) !in Reconciled(st, EXAMPLE, now, fates).state.objects
  {
    var st, fates := ForeignIngress(owner), seq(6, _ => Acknowledged);
    var c := st.resources[EXAMPLE];
    assert forall kind: Kind :: Free(st.objects, c, kind);
    Converges(st, EXAMPLE, now, fates);
    assert AtDesired(Reconciled(st, EXAMPLE, now, fates).state.objects, c, Ingress);
  }
}
