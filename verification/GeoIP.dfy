/** The location resolver shared by the two click workers: a bounded TTL cache, three attempts, and a
    circuit breaker. Times are in milliseconds. */
module GeoIP {
  import opened Domain

  const CACHE_TTL := 60 * 60 * 1000
  const NEGATIVE_CACHE_TTL := 30 * 1000
  const BREAKER_FAILURE_LIMIT := 5
  const BREAKER_OPEN_DURATION := 30 * 1000
  const MAX_RETRIES := 2
  const CACHE_LIMIT := 1000

  datatype Result = Result(country: string, city: string)

  const UNKNOWN := Result("Unknown", "Unknown")
  const LOCAL := Result("Local", "Local")

  datatype CacheEntry = CacheEntry(result: Result, expiresAt: int)

  /** `openUntil` is None for the zero time. */
  datatype Breaker = Breaker(failures: nat, openUntil: Option<int>)

  /** One write to the cache: history. `remote` tells a looked-up result from a negative entry. */
  datatype Store = Store(ip: string, result: Result, at: int, remote: bool)

  function TTL(remote: bool): int {
    if remote then CACHE_TTL else NEGATIVE_CACHE_TTL
  }

  predicate IsLocal(ip: string) {
    ip == "" || ip == "127.0.0.1" || ip == "::1"
  }

  /** Upstream answers with empty fields count as unknown. */
  function Normalised(upstream: Result): Result {
    Result(if upstream.country == "" then "Unknown" else upstream.country,
           if upstream.city == "" then "Unknown" else upstream.city)
  }

  // ---------------------------------------------------------------------- the breaker

  predicate IsOpen(b: Breaker, now: int) {
    b.openUntil.Some? && now < b.openUntil.value
  }

  function AfterSuccess(): Breaker {
    Breaker(0, None)
  }

  function AfterFailure(b: Breaker, now: int): Breaker {
    if b.failures + 1 >= BREAKER_FAILURE_LIMIT then Breaker(0, Some(now + BREAKER_OPEN_DURATION))
    else b.(failures := b.failures + 1)
  }

  /** The breaker after failures recorded at the given times, the last success before them. */
  function AfterFailures(times: seq<int>): Breaker {
    if times == [] then AfterSuccess() else AfterFailure(AfterFailures(times[..|times| - 1]), times[|times| - 1])
  }

  lemma OneMoreOfFive(n: nat)
    requires n > 0
    ensures n % 5 == if (n - 1) % 5 == 4 then 0 else (n - 1) % 5 + 1
  {
  }

  /** Each fifth failure opens the breaker for 30 seconds from its own time, and the count starts again. */
  lemma {:induction false} FifthFailureOpens(times: seq<int>, now: int)
    ensures AfterFailures(times).failures == |times| % 5
    ensures AfterFailures(times).openUntil.Some? <==> |times| >= 5
    ensures IsOpen(AfterFailures(times), now) <==> |times| >= 5 && now < times[|times| - |times| % 5 - 1] + 30 * 1000
  {
    if times != [] {
      var n := |times| - 1;
      OneMoreOfFive(|times|);
      FifthFailureOpens(times[..n], now);
      if |times| % 5 != 0 && |times| >= 5 {
        assert |times| - |times| % 5 - 1 == n - n % 5 - 1;
      }
    }
  }

  // ------------------------------------------------------------------------ the cache

  /** A looked-up result is served for an hour, an Unknown for 30 seconds. */
  lemma ServedUntil(cache: map<string, CacheEntry>, ip: string, result: Result, at: int, remote: bool, now: int)
    ensures var written := cache[ip := CacheEntry(result, at + TTL(remote))];
            Hits(written, ip, now) <==> now <= at + if remote then 60 * 60 * 1000 else 30 * 1000
  {
  }

  predicate Hits(cache: map<string, CacheEntry>, ip: string, now: int) {
    ip in cache && now <= cache[ip].expiresAt
  }

  function Unexpired(cache: map<string, CacheEntry>, now: int): map<string, CacheEntry> {
    map ip | ip in cache && now <= cache[ip].expiresAt :: cache[ip]
  }

  /** What eviction may leave of a cache: everything, or what is unexpired, or all but one entry. */
  ghost predicate Evicted(cache: map<string, CacheEntry>, now: int, rest: map<string, CacheEntry>) {
    if |cache| <= CACHE_LIMIT then rest == cache
    else if |Unexpired(cache, now)| <= CACHE_LIMIT then rest == Unexpired(cache, now)
    else exists victim :: victim in cache && rest == cache - {victim}
  }

  /** Every entry is a looked-up result or, for a shorter time, an Unknown; a write to the cache put it
      there. */
  ghost predicate Provenance(cache: map<string, CacheEntry>, log: seq<Store>) {
    forall ip :: ip in cache ==> exists i :: 0 <= i < |log| && Explains(log[i], ip, cache[ip])
  }

  predicate Explains(store: Store, ip: string, entry: CacheEntry) {
    && store.ip == ip
    && store.result == entry.result
    && entry.expiresAt == store.at + TTL(store.remote)
    && (!store.remote ==> store.result == UNKNOWN)
  }

  lemma UnexpiredIsSubset(cache: map<string, CacheEntry>, now: int)
    ensures Unexpired(cache, now).Keys <= cache.Keys
    ensures |Unexpired(cache, now)| <= |cache|
    ensures |Unexpired(cache, now)| == |cache| ==> Unexpired(cache, now) == cache
  {
    var live := Unexpired(cache, now);
    assert cache.Keys == live.Keys + (cache.Keys - live.Keys);
    assert |cache.Keys| == |live.Keys| + |cache.Keys - live.Keys|;
    if |live| == |cache| {
      assert cache.Keys - live.Keys == {};
      assert live.Keys == cache.Keys;
    }
  }

  /** After a write to a cache within its limit: the limit holds again, and an unexpired entry is gone
      only if all 1001 were unexpired, and then exactly one is. */
  lemma EvictionIsGentle(cache: map<string, CacheEntry>, now: int, rest: map<string, CacheEntry>)
    requires |cache| <= CACHE_LIMIT + 1 && Evicted(cache, now, rest)
    ensures |rest| <= 1000
    ensures forall ip :: ip in rest ==> ip in cache && rest[ip] == cache[ip]
    ensures (exists ip :: ip in cache && ip !in rest && now <= cache[ip].expiresAt) ==>
              && |cache| == 1001
              && Unexpired(cache, now) == cache
              && |cache.Keys - rest.Keys| == 1
  {
    UnexpiredIsSubset(cache, now);
    if |cache| > CACHE_LIMIT && |Unexpired(cache, now)| > CACHE_LIMIT {
      var victim :| victim in cache && rest == cache - {victim};
      assert cache.Keys - rest.Keys == {victim};
      assert rest.Keys == cache.Keys - {victim};
    }
  }

  lemma StoreKeepsProvenance(cache: map<string, CacheEntry>, log: seq<Store>, store: Store)
    requires Provenance(cache, log) && (!store.remote ==> store.result == UNKNOWN)
    ensures Provenance(cache[store.ip := CacheEntry(store.result, store.at + TTL(store.remote))], log + [store])
  {
    var cache', log' := cache[store.ip := CacheEntry(store.result, store.at + TTL(store.remote))], log + [store];
    assert log'[|log|] == store;
    forall ip | ip in cache' ensures exists i :: 0 <= i < |log'| && Explains(log'[i], ip, cache'[ip]) {
      if ip == store.ip {
        assert Explains(log'[|log|], ip, cache'[ip]);
      } else {
        var i :| 0 <= i < |log| && Explains(log[i], ip, cache[ip]);
        assert Explains(log'[i], ip, cache'[ip]);
      }
    }
  }

  /** A hit is a looked-up result at most an hour old, or an Unknown at most 30 seconds old. */
  lemma HitIsRecent(cache: map<string, CacheEntry>, log: seq<Store>, ip: string, now: int)
    requires Provenance(cache, log) && Hits(cache, ip, now)
    ensures exists i :: 0 <= i < |log| && log[i].ip == ip && log[i].result == cache[ip].result
                        && (if log[i].remote then now - log[i].at <= CACHE_TTL
                            else now - log[i].at <= NEGATIVE_CACHE_TTL && log[i].result == UNKNOWN)
  {
    var i :| 0 <= i < |log| && Explains(log[i], ip, cache[ip]);
    assert log[i].ip == ip;
  }

  // ------------------------------------------------- the two workers' calls, interleaved

  /** Where a worker's call of Resolve stands. */
  datatype Call =
    | Idle
    | Missed(ip: string)                          // no cache hit
    | Attempting(ip: string, failed: nat)         // the breaker was closed; so many attempts failed
    | Succeeded(ip: string, found: Result)        // an attempt succeeded
    | Storing(ip: string, toStore: Result, remote: bool) // the breaker was told, the cache not yet
    | Exhausted(ip: string)                       // the last attempt failed

  /** `failedAt` are the times of the failures told to the breaker: history, like `log`. */
  datatype State = State(
    clock: int,
    cache: map<string, CacheEntry>,
    breaker: Breaker,
    calls: seq<Call>,
    log: seq<Store>,
    failedAt: seq<int>)

  datatype Step =
    | Advance(elapsed: nat)
    | Begin(w: nat, ip: string)
    | CheckBreaker(w: nat)
    | Attempt(w: nat, upstream: Option<Result>)
    | RecordSuccess(w: nat)
    | RecordFailure(w: nat)
    | SetCache(w: nat, lag: nat, rest: map<string, CacheEntry>)

  function CallOf(s: State, w: nat): Call {
    if w < 2 && |s.calls| == 2 then s.calls[w] else Idle
  }

  function SetCall(s: State, w: nat, call: Call): State
    requires w < |s.calls|
  {
    s.(calls := s.calls[w := call])
  }

  function Written(s: State, ip: string, result: Result, remote: bool): map<string, CacheEntry> {
    s.cache[ip := CacheEntry(result, s.clock + TTL(remote))]
  }

  ghost function Apply(s: State, step: Step): State {
    match step
    case Advance(elapsed) => s.(clock := s.clock + elapsed)
    case Begin(w, ip) =>
      if w < 2 && |s.calls| == 2 && s.calls[w].Idle? && !IsLocal(ip)
         && !Hits(s.cache, ip, s.clock) then SetCall(s, w, Missed(ip)) else s
    case CheckBreaker(w) =>
      if !CallOf(s, w).Missed? then s
      else SetCall(s, w, if IsOpen(s.breaker, s.clock) then Idle else Attempting(s.calls[w].ip, 0))
    case Attempt(w, upstream) =>
      if !CallOf(s, w).Attempting? then s
      else
        var call := s.calls[w];
        SetCall(s, w, match upstream
                      case Some(found) => Succeeded(call.ip, Normalised(found))
                      case None => if call.failed < MAX_RETRIES then call.(failed := call.failed + 1)
                          else Exhausted(call.ip))
    case RecordSuccess(w) =>
      if !CallOf(s, w).Succeeded? then s
      else SetCall(s, w, Storing(s.calls[w].ip, s.calls[w].found, true)).(breaker := AfterSuccess())
    case RecordFailure(w) =>
      if !CallOf(s, w).Exhausted? then s
      else SetCall(s, w, Storing(s.calls[w].ip, UNKNOWN, false))
           .(breaker := AfterFailure(s.breaker, s.clock), failedAt := s.failedAt + [s.clock])
    case SetCache(w, lag, rest) =>
      var call := CallOf(s, w);
      if !call.Storing? || !Evicted(Written(s, call.ip, call.toStore, call.remote), s.clock + lag, rest) then s
      else
        SetCall(s, w, Idle).(cache := rest, clock := s.clock + lag,
                             log := s.log + [Store(call.ip, call.toStore, s.clock, call.remote)])
  }

  ghost function Run(s: State, steps: seq<Step>): State
    decreases |steps|
  {
    if steps == [] then s else Apply(Run(s, steps[..|steps| - 1]), steps[|steps| - 1])
  }

  function Init(clock: int): State {
    State(clock, map[], Breaker(0, None), [Idle, Idle], [], [])
  }

  ghost predicate Inv(s: State) {
    && |s.calls| == 2
    && s.breaker.failures < BREAKER_FAILURE_LIMIT
    && |s.cache| <= CACHE_LIMIT
    && Provenance(s.cache, s.log)
    && (forall w :: 0 <= w < 2 && s.calls[w].Storing? && !s.calls[w].remote ==> s.calls[w].toStore == UNKNOWN)
  }

  lemma EvictedKeepsProvenance(cache: map<string, CacheEntry>, now: int, rest: map<string, CacheEntry>, log: seq<Store>)
    requires |cache| <= CACHE_LIMIT + 1 && Evicted(cache, now, rest) && Provenance(cache, log)
    ensures |rest| <= CACHE_LIMIT && Provenance(rest, log)
  {
    EvictionIsGentle(cache, now, rest);
  }

  lemma StepKeepsInv(s: State, step: Step)
    requires Inv(s)
    ensures Inv(Apply(s, step))
  {
    if step.SetCache? && Apply(s, step) != s {
      var call := CallOf(s, step.w);
      var written := Written(s, call.ip, call.toStore, call.remote);
      StoreKeepsProvenance(s.cache, s.log, Store(call.ip, call.toStore, s.clock, call.remote));
      EvictedKeepsProvenance(written, s.clock + step.lag, step.rest,
                             s.log + [Store(call.ip, call.toStore, s.clock, call.remote)]);
    }
  }

  lemma {:induction false} RunKeepsInv(s: State, steps: seq<Step>)
    requires Inv(s)
    ensures Inv(Run(s, steps))
    decreases |steps|
  {
    hide Inv, Apply;
    if steps != [] {
      RunKeepsInv(s, steps[..|steps| - 1]);
      StepKeepsInv(Run(s, steps[..|steps| - 1]), steps[|steps| - 1]);
    }
  }

  /** In every run the cache keeps its limit and every hit is recent. */
  lemma CacheIsBoundedAndFresh(clock: int, steps: seq<Step>, ip: string)
    ensures var s := Run(Init(clock), steps);
            && |s.cache| <= 1000
            && (Hits(s.cache, ip, s.clock) ==>
                  exists i :: 0 <= i < |s.log| && s.log[i].ip == ip && s.log[i].result == s.cache[ip].result
                              && (if s.log[i].remote then s.clock - s.log[i].at <= CACHE_TTL
                                  else s.clock - s.log[i].at <= NEGATIVE_CACHE_TTL && s.log[i].result == UNKNOWN))
  {
    RunKeepsInv(Init(clock), steps);
    var s := Run(Init(clock), steps);
    if Hits(s.cache, ip, s.clock) { HitIsRecent(s.cache, s.log, ip, s.clock); }
  }

  // ------------------------------------------------------------- how often it can fail

  /** No success is told to the breaker. */
  predicate NoSuccess(steps: seq<Step>) {
    forall i :: 0 <= i < |steps| ==> !steps[i].RecordSuccess?
  }

  /** How many failures are told to the breaker during the half-open window [x, x + duration). */
  ghost function FailuresIn(s: State, steps: seq<Step>, x: int): nat
    decreases |steps|
  {
    if steps == [] then 0
    else
      var before, step := steps[..|steps| - 1], steps[|steps| - 1];
      var now := Run(s, before);
      FailuresIn(s, before, x)
      + if step.RecordFailure? && CallOf(now, step.w).Exhausted? && x <= now.clock < x + BREAKER_OPEN_DURATION then 1
          else 0
  }

  /** The call has passed the breaker and may still fail. */
  function Pending(call: Call): nat {
    if call.Attempting? || call.Exhausted? then 1 else 0
  }

  function PendingCalls(s: State): nat
    requires |s.calls| == 2
  {
    Pending(s.calls[0]) + Pending(s.calls[1])
  }

  /** Inside the window either the breaker has counted every failure of the window, or it is open until
      the window's end and only calls already past it can still fail. */
  predicate Bounded(s: State, count: nat, x: int) {
    && |s.calls| == 2
    && count <= 6
    && (s.clock < x ==> count == 0)
    && (s.clock < x + BREAKER_OPEN_DURATION ==>
          || count <= s.breaker.failures
          || (s.breaker.openUntil.Some? && s.breaker.openUntil.value >= x + BREAKER_OPEN_DURATION
              && count + PendingCalls(s) <= 6))
  }

  lemma FailureStaysBounded(s: State, w: nat, count: nat, x: int)
    requires Inv(s) && Bounded(s, count, x) && CallOf(s, w).Exhausted?
    ensures Bounded(Apply(s, RecordFailure(w)), if x <= s.clock < x + BREAKER_OPEN_DURATION then count + 1
                    else count, x)
  {
    hide Provenance;
    var s' := Apply(s, RecordFailure(w));
    assert s'.calls[w].Storing? && s'.calls[1 - w] == s.calls[1 - w];
    assert PendingCalls(s) == PendingCalls(s') + 1;
    assert PendingCalls(s') <= 1;
  }

  lemma OtherStaysBounded(s: State, step: Step, count: nat, x: int)
    requires Inv(s) && Bounded(s, count, x) && !step.RecordFailure? && !step.RecordSuccess?
    ensures Bounded(Apply(s, step), count, x)
  {
    hide Provenance, Evicted;
  }

  /** In any stretch with no recorded success, at most six failures are recorded in any window of the
      breaker's open duration: five to open it, and one call already past it. */
  lemma {:induction false} AtMostSixFailures(s: State, steps: seq<Step>, x: int)
    requires Inv(s) && NoSuccess(steps)
    ensures FailuresIn(s, steps, x) <= 6
    ensures Bounded(Run(s, steps), FailuresIn(s, steps, x), x)
    decreases |steps|
  {
    hide Inv, Apply;
    if steps == [] {
      InvHasCalls(s);
    } else {
      var before, step := steps[..|steps| - 1], steps[|steps| - 1];
      var now := Run(s, before);
      AtMostSixFailures(s, before, x);
      RunKeepsInv(s, before);
      if step.RecordFailure? {
        if CallOf(now, step.w).Exhausted? {
          FailureStaysBounded(now, step.w, FailuresIn(s, before, x), x);
        } else {
          NothingRecorded(now, step.w);
        }
      } else {
        OtherStaysBounded(now, step, FailuresIn(s, before, x), x);
      }
    }
  }

  lemma InvHasCalls(s: State)
    requires Inv(s)
    ensures |s.calls| == 2
  {
  }

  lemma NothingRecorded(s: State, w: nat)
    requires !CallOf(s, w).Exhausted?
    ensures Apply(s, RecordFailure(w)) == s
  {
  }
}
