/**
 * The fixed-window rate limiter shared by all replicas.  Time is in
 * nanoseconds; the store's clock is its whole milliseconds.
 */
module RateLimit {
  import opened Base
  import opened Leases

  datatype Counter = Counter(count: nat, deadline: nat)

  /** Counters by subject and window number; their keys are distinct (Keys.KeySeparation). */
  type Counters = map<(string, nat), Counter>

  datatype Limiter = Limiter(limit: nat, window: nat)

  /** An attempt and what became of its call to the store. */
  datatype Attempt = Attempt(at: nat, subject: string, fate: Fate)

  predicate Running(cs: Counters, key: (string, nat), now: nat) {
    key in cs && Milliseconds(now) < cs[key].deadline
  }

  function WindowOf(l: Limiter, a: Attempt): (key: (string, nat))
    requires l.window > 0
  {
    (a.subject, a.at / l.window)
  }

  /** The script: count up, and start the expiry when the count is 1. */
  function Counted(l: Limiter, cs: Counters, a: Attempt): (c: Counter)
    requires l.window > 0
  {
    var key := WindowOf(l, a);
    var count := if Running(cs, key, a.at) then cs[key].count + 1 else 1;
    Counter(count, if count == 1 then Milliseconds(a.at) + Milliseconds(l.window) else cs[key].deadline)
  }

  /** The counters after an attempt; they do not move if the script did not run. */
  function Moved(l: Limiter, cs: Counters, a: Attempt): (cs': Counters)
    requires l.window > 0
  {
    if a.fate.Applied() then cs[WindowOf(l, a) := Counted(l, cs, a)] else cs
  }

  /** The script ran and counted within the limit. */
  predicate Within(l: Limiter, cs: Counters, a: Attempt)
    requires l.window > 0
  {
    a.fate.Applied() && Counted(l, cs, a).count <= l.limit
  }

  predicate Allowed(l: Limiter, cs: Counters, a: Attempt)
    requires l.window > 0
  {
    a.fate.Acknowledged? && Within(l, cs, a)
  }

  class RedisRateLimiter {
    const limiter: Limiter
    var counters: Counters

    constructor (limit: nat, window: nat)
      ensures limiter == Limiter(limit, window) && counters == map[]
    {
      limiter, counters := Limiter(limit, window), map[];
    }

    /** None is the error of a call that was not answered; the caller is then not admitted. */
    method Allow(now: nat, subject: string, fate: Fate) returns (allowed: Option<bool>)
      requires limiter.window > 0
      modifies `counters
      ensures var a := Attempt(now, subject, fate);
        && counters == Moved(limiter, old(counters), a)
        && allowed == if fate.Acknowledged? then Some(Allowed(limiter, old(counters), a)) else None
      ensures allowed.Some? <==> fate.Acknowledged?
      ensures var key := (subject, now / limiter.window);
        allowed.Some? ==> key in counters && (allowed.value <==> counters[key].count <= limiter.limit)
    {
      if fate.NotApplied? { return None; }
      var key := WindowOf(limiter, Attempt(now, subject, fate));
      var count := 1;
      if Running(counters, key, now) { count := counters[key].count + 1; }
      if count == 1 {
        counters := counters[key := Counter(count, Milliseconds(now) + Milliseconds(limiter.window))];
      } else {
        counters := counters[key := Counter(count, counters[key].deadline)];
      }
      if fate.ReplyLost? { return None; }
      allowed := Some(count <= limiter.limit);
    }
  }

  // ---------- Whole histories of attempts, by any replicas, in any order of subjects

  function After(l: Limiter, attempts: seq<Attempt>): (cs: Counters)
    requires l.window > 0
  {
    if attempts == [] then map[]
    else
      var n := |attempts| - 1;
      Moved(l, After(l, attempts[..n]), attempts[n])
  }

  /** The attempt is of the subject and falls in the window. */
  predicate In(l: Limiter, a: Attempt, key: (string, nat))
    requires l.window > 0
  {
    a.subject == key.0 && a.at / l.window == key.1
  }

  /** How many attempts in the window reached the store. */
  function Attempted(l: Limiter, attempts: seq<Attempt>, key: (string, nat)): (n: nat)
    requires l.window > 0
  {
    if attempts == [] then 0
    else
      var n := |attempts| - 1;
      Attempted(l, attempts[..n], key) + if In(l, attempts[n], key) && !attempts[n].fate.NotApplied? then 1 else 0
  }

  /** How many of those within the limit were not admitted because the reply was lost. */
  function Lost(l: Limiter, attempts: seq<Attempt>, key: (string, nat)): (n: nat)
    requires l.window > 0
  {
    if attempts == [] then 0
    else
      var n := |attempts| - 1;
      var a := attempts[n];
      Lost(l, attempts[..n], key) +
        if In(l, a, key) && a.fate.ReplyLost? && Within(l, After(l, attempts[..n]), a) then 1 else 0
  }

  function Admitted(l: Limiter, attempts: seq<Attempt>, key: (string, nat)): (n: nat)
    requires l.window > 0
  {
    if attempts == [] then 0
    else
      var n := |attempts| - 1;
      Admitted(l, attempts[..n], key) +
        if In(l, attempts[n], key) && Allowed(l, After(l, attempts[..n]), attempts[n]) then 1 else 0
  }

  function Min(a: nat, b: nat): (m: nat) { if a < b then a else b }

  /** An instant lies in its window, in milliseconds as in nanoseconds. */
  lemma InsideWindow(at: nat, window: nat)
    requires window > 0 && window % NANOS_PER_MS == 0
    ensures var k, ms := at / window, Milliseconds(window);
      k * ms <= Milliseconds(at) < (k + 1) * ms
  {
    var k, ms := at / window, Milliseconds(window);
    assert window == ms * NANOS_PER_MS;
    assert k * window <= at < (k + 1) * window;
    assert k * window == (k * ms) * NANOS_PER_MS && (k + 1) * window == ((k + 1) * ms) * NANOS_PER_MS;
  }

  /** A window's counter is never forgotten while the window lasts, so it counts every attempt made in it. */
  lemma {:induction false} CounterCounts(l: Limiter, attempts: seq<Attempt>, key: (string, nat))
    requires l.window > 0 && l.window % NANOS_PER_MS == 0
    ensures Attempted(l, attempts, key) == 0 <==> key !in After(l, attempts)
    ensures Attempted(l, attempts, key) > 0 ==>
      && After(l, attempts)[key].count == Attempted(l, attempts, key)
      && After(l, attempts)[key].deadline >= (key.1 + 1) * Milliseconds(l.window)
    ensures Admitted(l, attempts, key) + Lost(l, attempts, key) == Min(l.limit, Attempted(l, attempts, key))
  {
    if attempts != [] {
      var n := |attempts| - 1;
      CounterCounts(l, attempts[..n], key);
      InsideWindow(attempts[n].at, l.window);
    }
  }

  /**
   * Each window admits as many attempts of a subject as reached the store, up to
   * the limit, less those whose reply was lost; all of them if none was.
   */
  lemma WindowAdmits(l: Limiter, attempts: seq<Attempt>, key: (string, nat))
    requires l.window > 0 && l.window % NANOS_PER_MS == 0
    ensures Admitted(l, attempts, key) + Lost(l, attempts, key) == Min(l.limit, Attempted(l, attempts, key))
    ensures (forall i | 0 <= i < |attempts| :: !attempts[i].fate.ReplyLost?) ==>
      Admitted(l, attempts, key) == Min(l.limit, Attempted(l, attempts, key))
  {
    CounterCounts(l, attempts, key);
    if forall i | 0 <= i < |attempts| :: !attempts[i].fate.ReplyLost? { NothingLost(l, attempts, key); }
  }

  lemma {:induction false} NothingLost(l: Limiter, attempts: seq<Attempt>, key: (string, nat))
    requires l.window > 0 && forall i | 0 <= i < |attempts| :: !attempts[i].fate.ReplyLost?
    ensures Lost(l, attempts, key) == 0
  {
    if attempts != [] { NothingLost(l, attempts[..|attempts| - 1], key); }
  }

  /** Attempts of a subject admitted in the half-open interval of one window length from start. */
  function AdmittedSince(l: Limiter, attempts: seq<Attempt>, subject: string, start: nat): (n: nat)
    requires l.window > 0
  {
    if attempts == [] then 0
    else
      var n := |attempts| - 1;
      AdmittedSince(l, attempts[..n], subject, start) +
        if attempts[n].subject == subject && start <= attempts[n].at < start + l.window
           && Allowed(l, After(l, attempts[..n]), attempts[n]) then 1 else 0
  }

  lemma TwoWindows(at: nat, start: nat, window: nat)
    requires window > 0 && start <= at < start + window
    ensures at / window == start / window || at / window == start / window + 1
  {
    var k, j := start / window, at / window;
    Quotient(at, window);
    Quotient(start, window);
    OneMore(k, window);
    FactorLess(j, k + 2, window);
    FactorLess(k, j + 1, window);
  }

  lemma Quotient(x: nat, w: nat)
    requires w > 0
    ensures (x / w) * w <= x < (x / w + 1) * w
  {
    assert x == (x / w) * w + x % w;
  }

  lemma OneMore(k: nat, w: nat)
    ensures (k + 2) * w == (k + 1) * w + w
  {
  }

  lemma FactorLess(a: nat, b: nat, w: nat)
    requires a * w < b * w
    ensures a < b
  {
    assert a >= b ==> (a - b) * w >= 0;
  }

  lemma {:induction false} IntervalWithinTwo(l: Limiter, attempts: seq<Attempt>, subject: string, start: nat)
    requires l.window > 0
    ensures AdmittedSince(l, attempts, subject, start) <=
      Admitted(l, attempts, (subject, start / l.window)) + Admitted(l, attempts, (subject, start / l.window + 1))
  {
    if attempts != [] {
      var n := |attempts| - 1;
      IntervalWithinTwo(l, attempts[..n], subject, start);
      if start <= attempts[n].at < start + l.window { TwoWindows(attempts[n].at, start, l.window); }
    }
  }

  /** No interval of one window length, wherever it starts, admits more than twice the limit. */
  lemma {:induction false} IntervalAdmitsTwiceTheLimit(l: Limiter, attempts: seq<Attempt>, subject: string, start: nat)
    requires l.window > 0 && l.window % NANOS_PER_MS == 0
    ensures AdmittedSince(l, attempts, subject, start) <= 2 * l.limit
  {
    IntervalWithinTwo(l, attempts, subject, start);
    WindowAdmits(l, attempts, (subject, start / l.window));
    WindowAdmits(l, attempts, (subject, start / l.window + 1));
  }

  // ---------- Whole milliseconds are needed

  ghost predicate Exact(window: nat)
    requires window > 0
  {
    forall limit: nat, attempts: seq<Attempt>, key: (string, nat) ::
      Admitted(Limiter(limit, window), attempts, key) + Lost(Limiter(limit, window), attempts, key) ==
        Min(limit, Attempted(Limiter(limit, window), attempts, key))
  }

  /** Two attempts in the first window, the second just when the counter of the first has expired. */
  lemma CounterLost(window: nat)
    requires window > 0 && window % NANOS_PER_MS != 0
    ensures var l, key := Limiter(1, window), ("", 0);
      var attempts := [Attempt(0, "", Acknowledged), Attempt(Milliseconds(window) * NANOS_PER_MS, "", Acknowledged)];
      Admitted(l, attempts, key) == 2
  {
    var l, key := Limiter(1, window), ("", 0);
    var first, second := Attempt(0, "", Acknowledged), Attempt(Milliseconds(window) * NANOS_PER_MS, "", Acknowledged);
    assert second.at / window == 0;
    assert [first, second][..1] == [first] && [first][..0] == [];
    assert In(l, first, key) && In(l, second, key);
    var cs := After(l, [first]);
    assert After(l, []) == map[];
    assert cs == map[key := Counter(1, Milliseconds(window))];
    assert !Running(cs, key, second.at);
    assert Admitted(l, [first], key) == 1;
  }

  /** The limiter is exact for every limit and history precisely when its window is whole milliseconds. */
  lemma ExactIff(window: nat)
    requires window > 0
    ensures Exact(window) <==> window % NANOS_PER_MS == 0
  {
    if window % NANOS_PER_MS == 0 {
      forall limit: nat, attempts: seq<Attempt>, key: (string, nat)
        ensures Admitted(Limiter(limit, window), attempts, key) + Lost(Limiter(limit, window), attempts, key) ==
          Min(limit, Attempted(Limiter(limit, window), attempts, key))
      {
        WindowAdmits(Limiter(limit, window), attempts, key);
      }
    } else {
      CounterLost(window);
    }
  }
}
