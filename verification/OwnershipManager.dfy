/**
 * The ownership manager of one runtime as its callbacks run it: entry map and
 * entries updated in place over a shared lease table.  Each method, run
 * without interruption, is the stated run of the ownership protocol.
 */
module OwnershipManager {
  import opened Base
  import opened Leases
  import opened Ownership

  /** The registry would grant r the station now. */
  predicate Free(t: Table, now: nat, r: string, s: string) { Asks(r, s) && s != COUNTER_STATION && !Live(t, now, s) }

  /** A release that reaches the store takes out the lease it names, if that is the one held, and nothing else. */
  predicate Freed(t: Table, t': Table, now: nat, l: Lease, fate: Fate) {
    t' == if !fate.NotApplied? && Holds(t, now, l.station, l.owner, l.generation)
      then t.(cells := t.cells - {l.station})
      else t
  }

  /** The lease table all runtimes share, with the protocol state it is part of. */
  class SharedStore {
    var table: Table
    var clock: nat
    ghost var world: State

    ghost predicate Valid()
      reads this
    {
      world.table == table && world.now == clock
    }

    constructor ()
      ensures Valid() && world == INITIAL
    {
      table, clock, world := EMPTY, 0, INITIAL;
    }
  }

  class Sessions {
    const ownerID: string
    const ttl: nat
    const store: SharedStore
    var heap: seq<Entry>
    var entries: map<string, nat>
    ghost var callbacks: map<string, Callback>

    ghost predicate Valid()
      reads this, store
    {
      store.Valid() && Of(store.world, ownerID) == Manager(heap, entries, callbacks)
    }

    constructor (ownerID: string, ttl: nat, store: SharedStore)
      requires store.Valid() && Of(store.world, ownerID) == FRESH
      ensures Valid() && this.ownerID == ownerID && this.store == store && this.ttl == ttl
    {
      this.ownerID, this.ttl, this.store := ownerID, ttl, store;
      heap, entries, callbacks := [], map[], map[];
    }

    /** Records one step of this runtime in the protocol state. */
    ghost method Advance(a: Action)
      requires Enabled(store.world, a)
      modifies store`world, `callbacks
      ensures store.world == Step(old(store.world), a)
      ensures callbacks == Of(store.world, ownerID).callbacks
    {
      store.world := Step(store.world, a);
      callbacks := Of(store.world, ownerID).callbacks;
    }

    ghost method Enter(s: string)
      requires Valid() && At(Of(store.world, ownerID), s).Down?
      modifies store`world, `callbacks
      ensures Valid() && store.world == Step(old(store.world), Connect(ownerID, s))
      ensures At(Of(store.world, ownerID), s).Claiming?
    {
      Advance(Connect(ownerID, s));
    }

    /** The store's Claim: a lease only where the grant is confirmed. */
    method Claim(s: string, fate: Fate) returns (lease: Option<Lease>)
      requires Valid() && At(Of(store.world, ownerID), s).Claiming?
      modifies store, `callbacks
      ensures Valid() && store.world == Step(old(store.world), ClaimRun(ownerID, s, ttl, fate))
      ensures lease.Some? <==> fate.Acknowledged? && Free(old(store.table), store.clock, ownerID, s)
      ensures store.clock == old(store.clock)
      ensures At(Of(store.world, ownerID), s) == if lease.Some? then Won(lease.value) else Refused
      ensures lease.Some? ==>
        && lease.value == Lease(s, ownerID, old(store.table.counter) + 1, (store.clock + ttl) * NANOS_PER_MS)
        && (ttl > 0 ==> Holds(store.table, store.clock, s, ownerID, lease.value.generation))
    {
      var free := Free(store.table, store.clock, ownerID, s);
      var generation := store.table.counter + 1;
      if fate.Applied() && free {
        store.table := Table(generation, store.table.cells[s := Cell(ownerID, generation, store.clock + ttl)]);
      } else if fate.Applied() && Asks(ownerID, s) && s == COUNTER_STATION && store.table.counter == 0 {
        store.table := store.table.(counter := 1);
      }
      Advance(ClaimRun(ownerID, s, ttl, fate));
      if !free || !fate.Acknowledged? { return None; }
      return Some(Lease(s, ownerID, generation, (store.clock + ttl) * NANOS_PER_MS));
    }

    /** The new entry goes into the map, its renewal loop waiting for its first tick. */
    method PutEntry(s: string, lease: Lease)
      requires Valid() && At(Of(store.world, ownerID), s) == Won(lease)
      modifies this, store`world
      ensures Valid() && store.world == Step(old(store.world), Install(ownerID, s))
      ensures heap == old(heap) + [Entry(lease, false, Waiting)] && entries == old(entries)[s := |old(heap)|]
    {
      heap := heap + [Entry(lease, false, Waiting)];
      entries := entries[s := |heap| - 1];
      Advance(Install(ownerID, s));
    }

    /** Claims the station; without a confirmed grant the session is closed and no entry appears. */
    method OnConnect(s: string, fate: Fate) returns (closed: bool)
      requires Valid() && At(Of(store.world, ownerID), s).Down?
      modifies this, store
      ensures Valid()
      ensures closed <==> !fate.Acknowledged? || !Free(old(store.table), store.clock, ownerID, s)
      ensures store.clock == old(store.clock)
      ensures closed ==> heap == old(heap) && entries == old(entries) && At(Of(store.world, ownerID), s).Refused?
      ensures !closed ==>
        && entries == old(entries)[s := |old(heap)|] && |heap| == |old(heap)| + 1 && old(heap) <= heap
        && var e := heap[entries[s]];
        && e.lease == Lease(s, ownerID, old(store.table.counter) + 1, (store.clock + ttl) * NANOS_PER_MS)
        && e.loop.Waiting? && !e.cancelled && (ttl > 0 ==> Holds(store.table, store.clock, s, ownerID, e.lease.generation))
      ensures Follows(old(store.world),
        [Connect(ownerID, s), ClaimRun(ownerID, s, ttl, fate)] + if closed then [] else [Install(ownerID, s)],
        store.world)
    {
      ghost var st0 := store.world;
      Enter(s);
      ghost var st1 := store.world;
      var lease := Claim(s, fate);
      ghost var st2 := store.world;
      if lease.None? {
        Chain2(st0, Connect(ownerID, s), st1, ClaimRun(ownerID, s, ttl, fate), st2);
        ghost var acts := [Connect(ownerID, s), ClaimRun(ownerID, s, ttl, fate)];
        assert acts + [] == acts;
        return true;
      }
      PutEntry(s, lease.value);
      Chain3(st0, Connect(ownerID, s), st1, ClaimRun(ownerID, s, ttl, fate), st2, Install(ownerID, s), store.world);
      assert [Connect(ownerID, s), ClaimRun(ownerID, s, ttl, fate)] + [Install(ownerID, s)] ==
        [Connect(ownerID, s), ClaimRun(ownerID, s, ttl, fate), Install(ownerID, s)];
      return false;
    }

    /** One tick of an entry's renewal loop; anything but a confirmed renewal ends the loop. */
    method RenewOnce(e: nat, fate: Fate) returns (stop: bool)
      requires Valid() && e < |heap| && heap[e].loop.Waiting?
      modifies this, store
      ensures Valid()
      ensures var l := old(heap[e].lease);
        stop <==> !(fate.Acknowledged? && Holds(old(store.table), store.clock, l.station, l.owner, l.generation))
      ensures |heap| == |old(heap)| && entries == old(entries) && store.clock == old(store.clock)
      ensures forall i | 0 <= i < |heap| && i != e :: heap[i] == old(heap)[i]
      ensures (heap[e].loop.Waiting? <==> !stop) && !heap[e].loop.Locked? && heap[e].cancelled == old(heap)[e].cancelled
      ensures heap[e].lease ==
        if stop then old(heap)[e].lease else old(heap)[e].lease.(expiresAt := (store.clock + ttl) * NANOS_PER_MS)
      ensures var t, l := old(store.table), old(heap)[e].lease;
        store.table ==
          if !fate.NotApplied? && Holds(t, store.clock, l.station, l.owner, l.generation)
          then t.(cells := t.cells[l.station := Cell(l.owner, l.generation, store.clock + ttl)])
          else t
      ensures Follows(old(store.world), [LoopTick(ownerID, e), RenewRun(ownerID, e, ttl, fate)], store.world)
    {
      ghost var st0 := store.world;
      heap := heap[e := heap[e].(loop := Locked)];
      Advance(LoopTick(ownerID, e));
      ghost var st1 := store.world;
      var l := heap[e].lease;
      var current := Holds(store.table, store.clock, l.station, l.owner, l.generation);
      if fate.Applied() && current {
        store.table := store.table.(cells :=
          store.table.cells[l.station := Cell(l.owner, l.generation, store.clock + ttl)]);
      }
      stop := !fate.Acknowledged? || !current;
      if stop {
        heap := heap[e := heap[e].(loop := Stopped)];
      } else {
        var renewed := l.(expiresAt := (store.clock + ttl) * NANOS_PER_MS);
        heap := heap[e := heap[e].(lease := renewed, loop := Waiting)];
      }
      Advance(RenewRun(ownerID, e, ttl, fate));
      Chain2(st0, LoopTick(ownerID, e), st1, RenewRun(ownerID, e, ttl, fate), store.world);
    }

    /** The entry leaves the map, if there is one. */
    method TakeOut(s: string) returns (e: Option<nat>)
      requires Valid() && (At(Of(store.world, ownerID), s).Up? || At(Of(store.world, ownerID), s).Refused?)
      modifies this, store`world
      ensures Valid() && store.world == Step(old(store.world), TakeEntry(ownerID, s))
      ensures heap == old(heap) && entries == old(entries) - {s}
      ensures e == if s in old(entries) then Some(old(entries)[s]) else None
      ensures e.Some? ==> At(Of(store.world, ownerID), s) == Taken(e.value)
    {
      e := if s in entries then Some(entries[s]) else None;
      entries := entries - {s};
      Advance(TakeEntry(ownerID, s));
    }

    /** Its loop is told to stop; once the loop is out of Renew, the lease to release is read. */
    method Cancel(s: string, e: nat)
      requires Valid() && At(Of(store.world, ownerID), s) == Taken(e) && e < |heap| && !heap[e].loop.Locked?
      modifies this, store`world
      ensures Valid() && store.world == Step(old(store.world), CancelEntry(ownerID, s))
      ensures At(Of(store.world, ownerID), s) == Cancelled(e) && entries == old(entries)
      ensures heap == old(heap)[e := old(heap)[e].(cancelled := true)]
    {
      heap := heap[e := heap[e].(cancelled := true)];
      Advance(CancelEntry(ownerID, s));
    }

    method LeaseOf(s: string, e: nat) returns (l: Lease)
      requires Valid() && At(Of(store.world, ownerID), s) == Cancelled(e) && e < |heap| && !heap[e].loop.Locked?
      modifies store`world, `callbacks
      ensures Valid() && store.world == Step(old(store.world), ReadLease(ownerID, s))
      ensures At(Of(store.world, ownerID), s) == Releasing(l) && l == heap[e].lease
    {
      l := heap[e].lease;
      Advance(ReadLease(ownerID, s));
    }

    /** The store's Release: nothing happens unless the lease is still the one held. */
    method Release(s: string, l: Lease, fate: Fate)
      requires Valid() && At(Of(store.world, ownerID), s) == Releasing(l)
      modifies store, `callbacks
      ensures Valid() && store.world == Step(old(store.world), ReleaseRun(ownerID, s, fate))
      ensures Freed(old(store.table), store.table, store.clock, l, fate) && store.clock == old(store.clock)
    {
      if fate.Applied() && Holds(store.table, store.clock, l.station, l.owner, l.generation) {
        store.table := store.table.(cells := store.table.cells - {l.station});
      }
      Advance(ReleaseRun(ownerID, s, fate));
    }

    /** The entry taken out is stopped and its lease released. */
    method Retire(s: string, e: nat, fate: Fate)
      requires Valid() && At(Of(store.world, ownerID), s) == Taken(e) && e < |heap| && !heap[e].loop.Locked?
      modifies this, store
      ensures Valid() && entries == old(entries) && heap == old(heap)[e := old(heap)[e].(cancelled := true)]
      ensures Freed(old(store.table), store.table, store.clock, old(heap)[e].lease, fate) && store.clock == old(store.clock)
      ensures Follows(old(store.world),
        [CancelEntry(ownerID, s), ReadLease(ownerID, s), ReleaseRun(ownerID, s, fate)], store.world)
    {
      ghost var st1 := store.world;
      Cancel(s, e);
      ghost var st2 := store.world;
      var l := LeaseOf(s, e);
      ghost var st3 := store.world;
      Release(s, l, fate);
      Chain3(st1, CancelEntry(ownerID, s), st2, ReadLease(ownerID, s), st3, ReleaseRun(ownerID, s, fate), store.world);
    }

    /** Removes the station's entry, stops its loop and releases the lease it held. */
    method OnDisconnect(s: string, fate: Fate)
      requires Valid() && (At(Of(store.world, ownerID), s).Up? || At(Of(store.world, ownerID), s).Refused?)
      requires s in entries ==> entries[s] < |heap| && !heap[entries[s]].loop.Locked?
      modifies this, store
      ensures Valid() && entries == old(entries) - {s}
      ensures s !in old(entries) ==> heap == old(heap) && store.table == old(store.table)
      ensures s in old(entries) ==>
        var e := old(entries)[s];
        && heap == old(heap)[e := old(heap)[e].(cancelled := true)]
        && Freed(old(store.table), store.table, store.clock, old(heap)[e].lease, fate)
      ensures Follows(old(store.world),
        [TakeEntry(ownerID, s)] +
          if s in old(entries) then [CancelEntry(ownerID, s), ReadLease(ownerID, s), ReleaseRun(ownerID, s, fate)] else [],
        store.world)
    {
      ghost var st0 := store.world;
      var e := TakeOut(s);
      ghost var st1, rest := store.world, [];
      if e.Some? {
        rest := [CancelEntry(ownerID, s), ReadLease(ownerID, s), ReleaseRun(ownerID, s, fate)];
        Retire(s, e.value, fate);
      }
      Prepend(st0, TakeEntry(ownerID, s), st1, rest, store.world);
    }

    /** The gate: only the local entry counts. */
    method OwnsStation(s: string, g: nat) returns (b: bool)
      requires Valid() && (s in entries ==> entries[s] < |heap|)
      ensures b <==> s in entries && Owns(Of(store.world, ownerID), ownerID, entries[s], g)
      ensures b <==> s in entries && heap[entries[s]].lease.owner == ownerID && heap[entries[s]].lease.generation == g
    {
      if s !in entries { return false; }
      var lease := heap[entries[s]].lease;
      b := lease.owner == ownerID && lease.generation == g;
    }
  }

  lemma Chain2(st0: State, a: Action, st1: State, b: Action, st2: State)
    requires Enabled(st0, a) && st1 == Step(st0, a) && Enabled(st1, b) && st2 == Step(st1, b)
    ensures Follows(st0, [a, b], st2)
  {
    assert [a, b][1..] == [b];
    assert Follows(st1, [b], st2);
  }

  lemma Chain3(st0: State, a: Action, st1: State, b: Action, st2: State, c: Action, st3: State)
    requires Enabled(st0, a) && st1 == Step(st0, a) && Enabled(st1, b) && st2 == Step(st1, b)
    requires Enabled(st2, c) && st3 == Step(st2, c)
    ensures Follows(st0, [a, b, c], st3)
  {
    Chain2(st1, b, st2, c, st3);
    assert [a, b, c][1..] == [b, c];
  }

  lemma Prepend(st0: State, a: Action, st1: State, rest: seq<Action>, st: State)
    requires Enabled(st0, a) && st1 == Step(st0, a) && Follows(st1, rest, st)
    ensures Follows(st0, [a] + rest, st)
  {
    assert ([a] + rest)[1..] == rest;
  }
}
