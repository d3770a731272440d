/** The fixed-window limiter on database mutations, and what it admits in any interval. */
module RateLimiter {

  const WINDOW_MS := 60000
  const MAX_MUTATIONS_PER_WINDOW := 6

  datatype Entry = Entry(count: nat, windowStartedAt: int)

  datatype Served = Served(key: string, at: int, admitted: bool)

  type Attempts = map<string, Entry>

  /** The entry of a key once a request at `now` was counted. */
  function Counted(attempts: Attempts, key: string, now: int): Entry {
    if key !in attempts || now - attempts[key].windowStartedAt >= WINDOW_MS then Entry(1, now)
    else attempts[key].(count := attempts[key].count + 1)
  }

  function Admits(e: Entry): bool { e.count <= MAX_MUTATIONS_PER_WINDOW }

  /** Requests served so far, oldest first, and the counters they leave. */
  function AttemptsAfter(log: seq<Served>): Attempts {
    if log == [] then map[]
    else
      var before, last := AttemptsAfter(log[..|log| - 1]), log[|log| - 1];
      before[last.key := Counted(before, last.key, last.at)]
  }

  /** A log the limiter can produce with a clock that never runs backwards. */
  predicate Clocked(log: seq<Served>) {
    log == [] ||
    var init, last := log[..|log| - 1], log[|log| - 1];
    && Clocked(init) && (init != [] ==> init[|init| - 1].at <= last.at)
    && last.admitted == Admits(Counted(AttemptsAfter(init), last.key, last.at))
  }

  /** Mutations of a key admitted from `lo` through `hi`. */
  function AdmittedIn(log: seq<Served>, key: string, lo: int, hi: int): nat {
    if log == [] then 0
    else
      var last := log[|log| - 1];
      AdmittedIn(log[..|log| - 1], key, lo, hi)
        + if last.key == key && last.admitted && lo <= last.at <= hi then 1 else 0
  }

  /** The places in the log where a mutation of the key was admitted in the interval. */
  function Places(log: seq<Served>, key: string, lo: int, hi: int): set<int> {
    set i | 0 <= i < |log| && log[i].key == key && log[i].admitted && lo <= log[i].at <= hi
  }

  lemma PlacesGrow(log: seq<Served>, s: Served, key: string, lo: int, hi: int)
    ensures |Places(log + [s], key, lo, hi)| == |Places(log, key, lo, hi)|
            + if s.key == key && s.admitted && lo <= s.at <= hi then 1 else 0
  {
    var here := if s.key == key && s.admitted && lo <= s.at <= hi then {|log|} else {};
    assert Places(log + [s], key, lo, hi) == Places(log, key, lo, hi) + here;
  }

  /** The count is the number of those places. */
  lemma {:induction false} AdmittedIsPlaces(log: seq<Served>, key: string, lo: int, hi: int)
    ensures AdmittedIn(log, key, lo, hi) == |Places(log, key, lo, hi)|
  {
    if log == [] {
      assert Places(log, key, lo, hi) == {};
    } else {
      hide Places;
      AdmittedIsPlaces(log[..|log| - 1], key, lo, hi);
      PlacesGrow(log[..|log| - 1], log[|log| - 1], key, lo, hi);
      assert log == log[..|log| - 1] + [log[|log| - 1]];
    }
  }

  function Capped(n: nat): nat { if n < MAX_MUTATIONS_PER_WINDOW then n else MAX_MUTATIONS_PER_WINDOW }

  /** How much a key can have had admitted from `t` through `hi`, by where its current
      window began; `hi` is one minute after `t`, or just short of it. */
  function Allowed(e: Entry, t: int, hi: int): int {
    var w := e.windowStartedAt;
    if w + WINDOW_MS <= t then 0
    else if w < t then Capped(e.count) - 1
    else if w == t then Capped(e.count)
    else if w < t + WINDOW_MS then MAX_MUTATIONS_PER_WINDOW - 1 + Capped(e.count)
    else if w <= hi then MAX_MUTATIONS_PER_WINDOW + Capped(e.count)
    else if hi < t + WINDOW_MS then 2 * MAX_MUTATIONS_PER_WINDOW - 1
    else 2 * MAX_MUTATIONS_PER_WINDOW
  }

  /** What the counters say of one key at any time. */
  ghost predicate Bounded(log: seq<Served>, key: string, t: int, hi: int) {
    var attempts := AttemptsAfter(log);
    if key !in attempts then AdmittedIn(log, key, t, hi) == 0
    else
      && log != [] && attempts[key].count >= 1 && attempts[key].windowStartedAt <= log[|log| - 1].at
      && AdmittedIn(log, key, t, hi) <= Allowed(attempts[key], t, hi)
  }

  lemma {:induction false} AlwaysBounded(log: seq<Served>, key: string, t: int, hi: int)
    requires Clocked(log) && (hi == t + WINDOW_MS || hi == t + WINDOW_MS - 1)
    ensures Bounded(log, key, t, hi)
  {
    if log != [] { AlwaysBounded(log[..|log| - 1], key, t, hi); }
  }

  /** In any closed minute at most twelve mutations of a key are admitted, and in any
      minute without its last instant at most eleven. */
  lemma AtMostTwelve(log: seq<Served>, key: string, t: int)
    requires Clocked(log)
    ensures AdmittedIn(log, key, t, t + 60000) <= 12
    ensures AdmittedIn(log, key, t, t + 59999) <= 11
  {
    AlwaysBounded(log, key, t, t + WINDOW_MS);
    AlwaysBounded(log, key, t, t + WINDOW_MS - 1);
  }

  /** The counter of a key's current window is the number of mutations admitted in it,
      up to six. */
  lemma {:induction false} WindowCounts(log: seq<Served>, key: string)
    requires Clocked(log) && key in AttemptsAfter(log)
    ensures var e := AttemptsAfter(log)[key];
      AdmittedIn(log, key, e.windowStartedAt, e.windowStartedAt + WINDOW_MS - 1) == Capped(e.count)
  {
    var init, last := log[..|log| - 1], log[|log| - 1];
    if key in AttemptsAfter(init) { WindowCounts(init, key); }
    AlwaysBounded(init, key, last.at, last.at + WINDOW_MS - 1);
    if key in AttemptsAfter(init) {
      var began := AttemptsAfter(init)[key].windowStartedAt;
      AlwaysBounded(init, key, began, began + WINDOW_MS - 1);
    }
  }

  /** A request is refused exactly when its key's window is still open and six mutations
      were admitted in it; a minute after the window opened none is. */
  lemma RefusedExactly(log: seq<Served>, key: string, now: int)
    requires Clocked(log) && (log == [] || log[|log| - 1].at <= now)
    ensures var attempts := AttemptsAfter(log);
      !Admits(Counted(attempts, key, now)) <==>
        && key in attempts && now < attempts[key].windowStartedAt + 60000
        && AdmittedIn(log, key, attempts[key].windowStartedAt, attempts[key].windowStartedAt + 59999) == 6
  {
    if key in AttemptsAfter(log) { WindowCounts(log, key); }
  }

  // ----- both bounds are reached

  function Burst(key: string, at: int, n: nat): (log: seq<Served>)
    ensures |log| == n
  {
    if n == 0 then [] else Burst(key, at, n - 1) + [Served(key, at, true)]
  }

  lemma ServeOne(log: seq<Served>, s: Served)
    ensures Clocked(log + [s]) <==>
            Clocked(log) && (log != [] ==> log[|log| - 1].at <= s.at)
              && s.admitted == Admits(Counted(AttemptsAfter(log), s.key, s.at))
    ensures AttemptsAfter(log + [s]) == AttemptsAfter(log)[s.key := Counted(AttemptsAfter(log), s.key, s.at)]
  {
    hide Counted, Admits;
    assert (log + [s])[..|log|] == log;
  }

  /** Up to six requests at one instant that opens a window are all admitted. */
  lemma {:induction false} BurstIsServed(log: seq<Served>, key: string, at: int, n: nat)
    requires Clocked(log) && n <= MAX_MUTATIONS_PER_WINDOW && (log == [] || log[|log| - 1].at <= at)
    requires key in AttemptsAfter(log) ==> at - AttemptsAfter(log)[key].windowStartedAt >= WINDOW_MS
    ensures var all := log + Burst(key, at, n);
      && Clocked(all) && (n > 0 ==> all[|all| - 1].at == at)
      && (n > 0 ==> key in AttemptsAfter(all) && AttemptsAfter(all)[key] == Entry(n, at))
  {
    hide Clocked, AttemptsAfter;
    if n == 0 {
      assert log + Burst(key, at, 0) == log;
    } else {
      var prior := log + Burst(key, at, n - 1);
      if n == 1 { assert prior == log; }
      BurstIsServed(log, key, at, n - 1);
      assert log + Burst(key, at, n) == prior + [Served(key, at, true)];
      ServeOne(prior, Served(key, at, true));
    }
  }

  lemma CountOne(log: seq<Served>, s: Served, key: string, lo: int, hi: int)
    ensures AdmittedIn(log + [s], key, lo, hi) == AdmittedIn(log, key, lo, hi)
            + if s.key == key && s.admitted && lo <= s.at <= hi then 1 else 0
  {
    assert (log + [s])[..|log|] == log;
  }

  lemma {:induction false} BurstCounts(log: seq<Served>, key: string, at: int, n: nat, lo: int, hi: int)
    ensures AdmittedIn(log + Burst(key, at, n), key, lo, hi) == AdmittedIn(log, key, lo, hi)
            + if lo <= at <= hi then n else 0
  {
    hide AdmittedIn;
    if n == 0 {
      assert log + Burst(key, at, 0) == log;
    } else {
      var prior := log + Burst(key, at, n - 1);
      BurstCounts(log, key, at, n - 1, lo, hi);
      assert log + Burst(key, at, n) == prior + [Served(key, at, true)];
      CountOne(prior, Served(key, at, true), key, lo, hi);
    }
  }

  /** Six at the start of a window and six when the next one opens, one minute later. */
  lemma TwelveIsReached(key: string)
    ensures exists log :: Clocked(log) && AdmittedIn(log, key, 0, 60000) == 12
  {
    hide Clocked, AttemptsAfter, AdmittedIn;
    NothingYet(key);
    var first := Burst(key, 0, 6);
    assert [] + first == first;
    BurstIsServed([], key, 0, 6);
    BurstCounts([], key, 0, 6, 0, WINDOW_MS);
    BurstIsServed(first, key, WINDOW_MS, 6);
    BurstCounts(first, key, WINDOW_MS, 6, 0, WINDOW_MS);
    assert Clocked(first + Burst(key, WINDOW_MS, 6));
  }

  lemma NothingYet(key: string)
    ensures Clocked([]) && AttemptsAfter([]) == map[] && forall lo, hi :: AdmittedIn([], key, lo, hi) == 0
  {}

  // ----- the limiter

  datatype Verdict = NotConfigured | CrossOrigin | Unauthenticated | RateLimited | Authorized

  class MutationLimiter {
    var attempts: Attempts
    ghost var log: seq<Served>

    ghost predicate Valid()
      reads this
    {
      Clocked(log) && attempts == AttemptsAfter(log)
    }

    constructor ()
      ensures Valid() && log == []
    {
      attempts, log := map[], [];
    }

    /** Counts a request only once it passed the other checks, and limits it by its key's
        window. */
    method AuthorizeDatabaseMutation(configured: bool, sameOrigin: bool, authentic: bool, key: string, now: int)
      returns (verdict: Verdict)
      requires Valid() && (log == [] || log[|log| - 1].at <= now)
      modifies this
      ensures Valid()
      ensures !(configured && sameOrigin && authentic) ==>
              && log == old(log) && attempts == old(attempts)
              && verdict == if !configured then NotConfigured else if !sameOrigin then CrossOrigin else Unauthenticated
      ensures configured && sameOrigin && authentic ==>
              && log == old(log) + [Served(key, now, verdict == Authorized)]
              && verdict == if && key in old(attempts) && now < old(attempts)[key].windowStartedAt + 60000
                               && old(attempts)[key].count >= 6
                            then RateLimited else Authorized
    {
      hide Clocked, AttemptsAfter;
      if !configured { return NotConfigured; }
      if !sameOrigin { return CrossOrigin; }
      if !authentic { return Unauthenticated; }
      var entry := if key !in attempts || now - attempts[key].windowStartedAt >= WINDOW_MS then Entry(0, now)
        else attempts[key];
      entry := entry.(count := entry.count + 1);
      ServeOne(log, Served(key, now, entry.count <= MAX_MUTATIONS_PER_WINDOW));
      attempts := attempts[key := entry];
      log := log + [Served(key, now, entry.count <= MAX_MUTATIONS_PER_WINDOW)];
      verdict := if entry.count > MAX_MUTATIONS_PER_WINDOW then RateLimited else Authorized;
    }
  }
}
