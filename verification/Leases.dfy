/**
 * The session registry as the runtimes see it: one counter and at most one
 * lease per station.  Time is the store's clock in whole milliseconds, and a
 * lease is live on the half-open interval that ends at its deadline.
 */
module Leases {
  datatype Cell = Cell(owner: string, generation: nat, deadline: nat)

  datatype Table = Table(counter: nat, cells: map<string, Cell>)

  datatype ClaimReply =
    | Granted(generation: nat, remaining: nat)
    | Conflict(owner: string, generation: nat, remaining: nat)
    | Failed

  /** The lease record handed to callers; expiresAt is in nanoseconds and informative only. */
  datatype Lease = Lease(station: string, owner: string, generation: nat, expiresAt: int)

  /** How a registry call ends. */
  datatype Outcome =
    | Held(lease: Lease)
    | OwnershipConflict(current: Lease)
    | LeaseLost
    | NotFound
    | Done
    | InvalidArgument
    | ContextDone
    | StoreError

  const NANOS_PER_MS := 1_000_000

  /** time.Duration.Milliseconds on a non-negative duration. */
  function Milliseconds(nanos: nat): (ms: nat) { nanos / NANOS_PER_MS }

  const EMPTY := Table(0, map[])

  /** The one identity whose lease key is the key of the generation counter. */
  const COUNTER_STATION := "generation"

  predicate Live(t: Table, now: nat, s: string) {
    s in t.cells && now < t.cells[s].deadline
  }

  /** Generation g occupies station s. */
  predicate Occupied(t: Table, now: nat, s: string, g: nat) {
    Live(t, now, s) && t.cells[s].generation == g
  }

  /** The live lease of station s was granted to owner o with generation g. */
  predicate Holds(t: Table, now: nat, s: string, o: string, g: nat) {
    Occupied(t, now, s, g) && t.cells[s].owner == o
  }

  /** A claim of the counter's own name fails, and burns a generation if no other was drawn before. */
  function Claim(t: Table, now: nat, s: string, o: string, ttl: nat): (r: (Table, ClaimReply)) {
    if s == COUNTER_STATION then
      (if t.counter == 0 then t.(counter := 1) else t, Failed)
    else if Live(t, now, s) then
      (t, Conflict(t.cells[s].owner, t.cells[s].generation, t.cells[s].deadline - now))
    else
      (Table(t.counter + 1, t.cells[s := Cell(o, t.counter + 1, now + ttl)]), Granted(t.counter + 1, ttl))
  }

  function Renew(t: Table, now: nat, s: string, o: string, g: nat, ttl: nat): (r: (Table, bool)) {
    if Holds(t, now, s, o, g) then
      (t.(cells := t.cells[s := Cell(o, g, now + ttl)]), true)
    else
      (t, false)
  }

  function Release(t: Table, now: nat, s: string, o: string, g: nat): (r: (Table, bool)) {
    if Holds(t, now, s, o, g) then (t.(cells := t.cells - {s}), true) else (t, false)
  }
}
