/**
 * Reconciles of many resources and writes by others, interleaved child by
 * child: what one key's children become depends on that key's steps alone.
 */
module ReconcileRuns {
  import opened Base
  import opened Cluster
  import opened Reconcile

  // ---------- Whole reconciles of different resources

  predicate SameFor(a: Objects, b: Objects, key: Key) { forall kind: Kind :: SameAt(a, b, Cell(kind, key)) }

  lemma SyncLocal(a: Objects, b: Objects, c: Csms, kind: Kind, fate: Fate)
    requires SameAt(a, b, Cell(kind, c.key))
    ensures Sync(a, c, kind, fate).ok == Sync(b, c, kind, fate).ok
    ensures SameAt(Sync(a, c, kind, fate).objects, Sync(b, c, kind, fate).objects, Cell(kind, c.key))
  {
  }

  lemma SyncLocalFor(a: Objects, b: Objects, c: Csms, kind: Kind, fate: Fate)
    requires SameFor(a, b, c.key)
    ensures Sync(a, c, kind, fate).ok == Sync(b, c, kind, fate).ok
    ensures SameFor(Sync(a, c, kind, fate).objects, Sync(b, c, kind, fate).objects, c.key)
  {
    SyncLocal(a, b, c, kind, fate);
    forall other: Kind ensures SameAt(Sync(a, c, kind, fate).objects, Sync(b, c, kind, fate).objects, Cell(other, c.key)) {
      assert SameAt(a, b, Cell(other, c.key));
      if other != kind {
        SyncMeans(a, c, kind, fate);
        SyncMeans(b, c, kind, fate);
      }
    }
  }

  /** What becomes of a key's children depends on those children alone. */
  lemma {:induction false} ChildrenLocal(a: Objects, b: Objects, c: Csms, fates: seq<Fate>, n: nat)
    requires n <= 5 <= |fates| && SameFor(a, b, c.key)
    ensures Children(a, c, fates, n).ok == Children(b, c, fates, n).ok
    ensures SameFor(Children(a, c, fates, n).objects, Children(b, c, fates, n).objects, c.key)
  {
    if n > 0 {
      ChildrenLocal(a, b, c, fates, n - 1);
      var a', b' := Children(a, c, fates, n - 1), Children(b, c, fates, n - 1);
      if a'.ok {
        SyncLocalFor(a'.objects, b'.objects, c, Nth(n - 1), fates[n - 1]);
      }
    }
  }

  lemma ChildrenApart(objects: Objects, c: Csms, fates: seq<Fate>, key: Key)
    requires 5 <= |fates| && key != c.key
    ensures SameFor(Children(objects, c, fates, 5).objects, objects, key)
  {
    forall kind: Kind ensures SameAt(Children(objects, c, fates, 5).objects, objects, Cell(kind, key)) {
      ChildrenFrame(objects, c, fates, 5, Cell(kind, key));
    }
  }

  /** After c and then d, a cell is what c alone made it, or d alone, or as it was. */
  lemma BothOrders(objects: Objects, c: Csms, fc: seq<Fate>, d: Csms, fd: seq<Fate>)
    requires |fc| == |fd| == 6 && c.key != d.key
    ensures var one, other := Children(objects, c, fc, 5), Children(objects, d, fd, 5);
            && Children(one.objects, d, fd, 5).ok == other.ok
            && SameFor(Children(one.objects, d, fd, 5).objects, one.objects, c.key)
            && SameFor(Children(one.objects, d, fd, 5).objects, other.objects, d.key)
            && forall key | key != c.key && key != d.key :: SameFor(Children(one.objects, d, fd, 5).objects, objects, key)
  {
    var one := Children(objects, c, fc, 5);
    ChildrenApart(objects, c, fc, d.key);
    ChildrenLocal(one.objects, objects, d, fd, 5);
    ChildrenApart(one.objects, d, fd, c.key);
    forall key | key != c.key && key != d.key ensures SameFor(Children(one.objects, d, fd, 5).objects, objects, key) {
      ChildrenApart(objects, c, fc, key);
      ChildrenApart(one.objects, d, fd, key);
    }
  }

  lemma SameEverywhere(a: Objects, b: Objects)
    requires forall key :: SameFor(a, b, key)
    ensures a == b
  {
    forall cell: Cell ensures SameAt(a, b, cell) {
      assert SameFor(a, b, cell.key) && cell == Cell(cell.kind, cell.key);
    }
    assert forall cell | cell in a :: SameAt(a, b, cell);
    assert forall cell | cell in b :: SameAt(a, b, cell);
  }

  lemma SameThrough(a: Objects, via: Objects, b: Objects, key: Key)
    requires SameFor(a, via, key) && SameFor(b, via, key)
    ensures SameFor(a, b, key)
  {
    forall kind: Kind ensures SameAt(a, b, Cell(kind, key)) {
      assert SameAt(a, via, Cell(kind, key)) && SameAt(b, via, Cell(kind, key));
    }
  }

  lemma ChildrenCommute(objects: Objects, c: Csms, fc: seq<Fate>, d: Csms, fd: seq<Fate>)
    requires |fc| == |fd| == 6 && c.key != d.key
    ensures Children(Children(objects, c, fc, 5).objects, d, fd, 5).objects
            == Children(Children(objects, d, fd, 5).objects, c, fc, 5).objects
  {
    var x := Children(Children(objects, c, fc, 5).objects, d, fd, 5).objects;
    var y := Children(Children(objects, d, fd, 5).objects, c, fc, 5).objects;
    BothOrders(objects, c, fc, d, fd);
    BothOrders(objects, d, fd, c, fc);
    forall key ensures SameFor(x, y, key) {
      SameThrough(x, if key == c.key then Children(objects, c, fc, 5).objects
                     else if key == d.key then Children(objects, d, fd, 5).objects else objects, y, key);
    }
    SameEverywhere(x, y);
  }

  lemma ReportedLocal(c: Csms, a: Synced, b: Synced, now: int, fate: Fate)
    requires a.ok == b.ok && SameFor(a.objects, b.objects, c.key)
    ensures Reported(c, a, now, fate) == Reported(c, b, now, fate)
  {
    assert SameAt(a.objects, b.objects, Cell(Deployment, c.key));
  }

  /** The resource and the flag one reconcile leaves, from the children it leaves. */
  lemma AfterChildren(st: State, c: Csms, now: int, fates: seq<Fate>)
    requires |fates| == 6 && WellKeyed(st) && c.key in st.resources && st.resources[c.key] == c
    ensures var r, children := Reconciled(st, c.key, now, fates), Children(st.objects, c, fates, 5);
            && r.ok == (children.ok && fates[5].Acknowledged?) && r.state.objects == children.objects
            && r.state.resources == st.resources[c.key := Reported(c, children, now, fates[5])]
  {
  }

  /** After one, another goes as if it were alone. */
  lemma SecondAlone(st: State, c: Csms, now: int, fates: seq<Fate>, d: Csms, now': int, fates': seq<Fate>)
    requires |fates| == |fates'| == 6 && WellKeyed(st) && c.key != d.key
    requires c.key in st.resources && d.key in st.resources && st.resources[c.key] == c && st.resources[d.key] == d
    ensures var one, other := Reconciled(st, c.key, now, fates), Reconciled(st, d.key, now', fates');
            && var both := Reconciled(one.state, d.key, now', fates');
            && both.ok == other.ok
            && both.state.objects == Children(Children(st.objects, c, fates, 5).objects, d, fates', 5).objects
            && both.state.resources == one.state.resources[d.key := other.state.resources[d.key]]
  {
    var one := Reconciled(st, c.key, now, fates).state;
    AfterChildren(st, c, now, fates);
    AfterChildren(st, d, now', fates');
    AfterChildren(one, d, now', fates');
    BothOrders(st.objects, c, fates, d, fates');
    ReportedLocal(d, Children(one.objects, d, fates', 5), Children(st.objects, d, fates', 5), now', fates'[5]);
  }

  lemma UpdatesCommute(m: map<Key, Csms>, k: Key, c: Csms, k': Key, d: Csms)
    requires k != k'
    ensures m[k := c][k' := d] == m[k' := d][k := c]
  {
  }

  /** Both outcomes of running two reconciles in a row. */
  predicate Commute(st: State, k: Key, now: int, fates: seq<Fate>, k': Key, now': int, fates': seq<Fate>)
    requires |fates| == |fates'| == 6 && WellKeyed(st)
  {
    var one, other := Reconciled(st, k, now, fates), Reconciled(st, k', now', fates');
    var then1, then2 := Reconciled(one.state, k', now', fates'), Reconciled(other.state, k, now, fates);
    then1.state == then2.state && then1.ok == other.ok && then2.ok == one.ok
  }

  lemma PresentCommute(st: State, c: Csms, now: int, fates: seq<Fate>, d: Csms, now': int, fates': seq<Fate>)
    requires |fates| == |fates'| == 6 && WellKeyed(st) && c.key != d.key
    requires c.key in st.resources && d.key in st.resources && st.resources[c.key] == c && st.resources[d.key] == d
    ensures Commute(st, c.key, now, fates, d.key, now', fates')
  {
    var one, other := Reconciled(st, c.key, now, fates), Reconciled(st, d.key, now', fates');
    ChildrenCommute(st.objects, c, fates, d, fates');
    SecondAlone(st, c, now, fates, d, now', fates');
    SecondAlone(st, d, now', fates', c, now, fates);
    UpdatesCommute(st.resources, c.key, one.state.resources[c.key], d.key, other.state.resources[d.key]);
  }

  /** Reconciles of differently named resources commute, and neither changes whether the other completes. */
  lemma ReconcilesCommute(st: State, k: Key, now: int, fates: seq<Fate>, k': Key, now': int, fates': seq<Fate>)
    requires |fates| == |fates'| == 6 && WellKeyed(st) && k != k'
    ensures Commute(st, k, now, fates, k', now', fates')
  {
    if k in st.resources && k' in st.resources {
      PresentCommute(st, st.resources[k], now, fates, st.resources[k'], now', fates');
    }
  }

  // ---------- Interleaved child by child

  /** One step of the cluster: somebody else writes or deletes an object, or a reconcile handles a child. */
  datatype Step = Drift(cell: Cell, to: Option<Object>) | Child(c: Csms, kind: Kind, fate: Fate)

  function CellOf(s: Step): (cell: Cell) { if s.Drift? then s.cell else Cell(s.kind, s.c.key) }

  function After(objects: Objects, s: Step): (objects': Objects) {
    match s
    case Drift(cell, None) => objects - {cell}
    case Drift(cell, Some(o)) => objects[cell := o]
    case Child(c, kind, fate) => Sync(objects, c, kind, fate).objects
  }

  function Run(objects: Objects, steps: seq<Step>): (objects': Objects) {
    if steps == [] then objects else After(Run(objects, steps[..|steps| - 1]), steps[|steps| - 1])
  }

  function Only(steps: seq<Step>, cell: Cell): (own: seq<Step>) {
    if steps == [] then []
    else
      var rest, s := Only(steps[..|steps| - 1], cell), steps[|steps| - 1];
      if CellOf(s) == cell then rest + [s] else rest
  }

  lemma AfterLocal(a: Objects, b: Objects, s: Step, cell: Cell)
    requires SameAt(a, b, cell)
    ensures SameAt(After(a, s), After(b, s), cell)
    ensures CellOf(s) != cell ==> SameAt(After(a, s), b, cell)
  {
    if s.Child? {
      SyncMeans(a, s.c, s.kind, s.fate);
      SyncMeans(b, s.c, s.kind, s.fate);
      if CellOf(s) == cell {
        SyncLocal(a, b, s.c, s.kind, s.fate);
      }
    }
  }

  /** In any interleaving a child ends as if only the steps on that child had happened. */
  lemma {:induction false} OwnStepsOnly(objects: Objects, steps: seq<Step>, cell: Cell)
    ensures SameAt(Run(objects, steps), Run(objects, Only(steps, cell)), cell)
  {
    if steps != [] {
      var rest, s := steps[..|steps| - 1], steps[|steps| - 1];
      OwnStepsOnly(objects, rest, cell);
      AfterLocal(Run(objects, rest), Run(objects, Only(rest, cell)), s, cell);
      if CellOf(s) == cell {
        assert (Only(rest, cell) + [s])[..|Only(rest, cell)|] == Only(rest, cell);
      }
    }
  }

  /** From step i on, the child is touched only by reconciles of this very resource. */
  predicate Undisturbed(steps: seq<Step>, i: nat, c: Csms, kind: Kind)
    requires i <= |steps|
  {
    forall j | i <= j < |steps| :: CellOf(steps[j]) == Cell(kind, c.key) ==> steps[j].Child? && steps[j].c == c
  }

  /**
   * Whatever happened before it, and whatever happens to other children after
   * it, one completed step on a child settles it: it is as desired from then on,
   * through later reconciles that are cut short anywhere.
   */
  lemma {:induction false} Settles(objects: Objects, steps: seq<Step>, i: nat, c: Csms, kind: Kind)
    requires i < |steps| && steps[i] == Child(c, kind, Acknowledged) && Free(Run(objects, steps[..i]), c, kind)
    requires Undisturbed(steps, i, c, kind)
    ensures AtDesired(Run(objects, steps), c, kind)
  {
    var n := |steps| - 1;
    var rest, s, cell := steps[..n], steps[n], Cell(kind, c.key);
    if i == n {
      SyncMeans(Run(objects, rest), c, kind, Acknowledged);
    } else {
      assert rest[..i] == steps[..i];
      assert forall j | i <= j < n :: rest[j] == steps[j];
      Settles(objects, rest, i, c, kind);
      if CellOf(s) == cell {
        SyncSettled(Run(objects, rest), c, kind, s.fate);
      } else {
        AfterLocal(Run(objects, rest), Run(objects, rest), s, cell);
        DesiredFrame(Run(objects, steps), Run(objects, rest), c, kind);
      }
    }
  }
}
