/** The resolver's own code, proved against module GeoIP. */
module GeoResolverCode {
  import opened Domain
  import opened GeoIP

  /** When the clock is read during one call of Resolve: at the cache, at the breaker, when the outcome
      is recorded, when it is stored, and when eviction looks for expired entries. */
  datatype Times = Times(lookup: int, check: int, record: int, store: int, evict: int)

  predicate InOrder(t: Times) {
    t.lookup <= t.check <= t.record <= t.store <= t.evict
  }

  class Resolver {
    var cache: map<string, CacheEntry>
    var consecutiveFailures: nat
    var circuitOpenUntil: Option<int>
    ghost var log: seq<Store>

    constructor ()
      ensures Valid() && cache == map[] && BreakerState() == Breaker(0, None) && log == []
    {
      cache, consecutiveFailures, circuitOpenUntil, log := map[], 0, None, [];
    }

    ghost function BreakerState(): Breaker
      reads this
    {
      Breaker(consecutiveFailures, circuitOpenUntil)
    }

    ghost predicate Valid()
      reads this
    {
      |cache| <= CACHE_LIMIT && Provenance(cache, log) && consecutiveFailures < BREAKER_FAILURE_LIMIT
    }

    method GetCached(ip: string, now: int) returns (found: Option<Result>)
      ensures found == if Hits(cache, ip, now) then Some(cache[ip].result) else None
    {
      if ip !in cache || now > cache[ip].expiresAt {
        return None;
      }
      return Some(cache[ip].result);
    }

    method IsCircuitOpen(now: int) returns (open: bool)
      ensures open <==> IsOpen(BreakerState(), now)
    {
      return circuitOpenUntil.Some? && now < circuitOpenUntil.value;
    }

    method RecordSuccess()
      modifies this`consecutiveFailures, this`circuitOpenUntil
      ensures BreakerState() == AfterSuccess()
    {
      consecutiveFailures := 0;
      circuitOpenUntil := None;
    }

    method RecordFailure(now: int)
      modifies this`consecutiveFailures, this`circuitOpenUntil
      ensures BreakerState() == AfterFailure(old(BreakerState()), now) && consecutiveFailures < BREAKER_FAILURE_LIMIT
    {
      consecutiveFailures := consecutiveFailures + 1;
      if consecutiveFailures >= BREAKER_FAILURE_LIMIT {
        circuitOpenUntil := Some(now + BREAKER_OPEN_DURATION);
        consecutiveFailures := 0;
      }
    }

    /** The first loop deletes what is expired; the second, any entry while there are too many. */
    method EvictExpired(now: int)
      requires |cache| <= CACHE_LIMIT + 1
      modifies this`cache
      ensures Evicted(old(cache), now, cache)
    {
      if |cache| <= CACHE_LIMIT {
        return;
      }
      DeleteExpired(now);
      ghost var live := cache;
      UnexpiredIsSubset(old(cache), now);
      if |cache| > CACHE_LIMIT {
        assert live == old(cache);
        while |cache| > CACHE_LIMIT
          invariant cache == live
                    || (|cache| == CACHE_LIMIT && exists victim :: victim in live && cache == live - {victim})
          decreases |cache|
        {
          assert cache == live && |live| == CACHE_LIMIT + 1;
          assert cache.Keys != {};
          var k :| k in cache.Keys;
          cache := cache - {k};
          assert cache.Keys == live.Keys - {k};
        }
      }
    }

    method DeleteExpired(now: int)
      modifies this`cache
      ensures cache == Unexpired(old(cache), now)
    {
      var keys := cache.Keys;
      while keys != {}
        invariant keys <= cache.Keys
        invariant forall k :: k in cache ==> k in old(cache) && cache[k] == old(cache)[k]
        invariant forall k :: k in old(cache) ==> (k in cache <==> k in keys || now <= old(cache)[k].expiresAt)
        decreases |keys|
      {
        var k :| k in keys;
        keys := keys - {k};
        if now > cache[k].expiresAt {
          cache := cache - {k};
        }
      }
    }

    method SetCache(ip: string, result: Result, remote: bool, now: int, later: int)
      requires Valid() && now <= later && (!remote ==> result == UNKNOWN)
      modifies this`cache, this`log
      ensures Valid() && log == old(log) + [Store(ip, result, now, remote)]
      ensures Evicted(old(cache)[ip := CacheEntry(result, now + TTL(remote))], later, cache)
    {
      StoreKeepsProvenance(cache, log, Store(ip, result, now, remote));
      cache := cache[ip := CacheEntry(result, now + TTL(remote))];
      log := log + [Store(ip, result, now, remote)];
      ghost var written := cache;
      EvictExpired(later);
      EvictedKeepsProvenance(written, later, cache, log);
    }

    /** `attempts` are the upstream answers to up to three requests; None is an error. */
    method Resolve(ip: string, attempts: seq<Option<Result>>, t: Times) returns (result: Result)
      requires Valid() && InOrder(t) && |attempts| == MAX_RETRIES + 1
      modifies this
      ensures Valid()
      ensures ip == "" || ip == "127.0.0.1" || ip == "::1" ==> result == GeoIP.Result("Local", "Local")
      ensures !IsLocal(ip) && old(Hits(cache, ip, t.lookup)) ==> result == old(cache)[ip].result
      ensures !old(Looked(ip, t)) && !IsLocal(ip) && !old(Hits(cache, ip, t.lookup)) ==> result == UNKNOWN
      ensures !old(Looked(ip, t)) ==> cache == old(cache) && BreakerState() == old(BreakerState()) && log == old(log)
      ensures old(Looked(ip, t)) ==>
                var found := FirstAnswer(attempts);
                && result == (if found.Some? then found.value else UNKNOWN)
                && BreakerState() == (if found.Some? then AfterSuccess()
                                      else AfterFailure(old(BreakerState()), t.record))
                && log == old(log) + [Store(ip, result, t.store, found.Some?)]
                && Evicted(old(cache)[ip := CacheEntry(result, t.store + TTL(found.Some?))], t.evict, cache)
      ensures old(Looked(ip, t)) ==>
                forall i :: 0 <= i < |attempts| && IsFirstAnswer(attempts, i) ==>
                  && result.country == (if attempts[i].value.country == "" then "Unknown"
                                        else attempts[i].value.country)
                  && result.city == (if attempts[i].value.city == "" then "Unknown" else attempts[i].value.city)
                  && (ip in cache ==> cache[ip] == CacheEntry(result, t.store + 60 * 60 * 1000))
      ensures old(Looked(ip, t)) && (forall i :: 0 <= i < |attempts| ==> attempts[i].None?) ==>
                result.country == "Unknown" && result.city == "Unknown"
                && (ip in cache ==> cache[ip] == CacheEntry(result, t.store + 30 * 1000))
    {
      hide FirstAnswer, Evicted, Provenance, Normalised, IsOpen, AfterFailure;
      if ip == "" || ip == "127.0.0.1" || ip == "::1" {
        return LOCAL;
      }
      var cached := GetCached(ip, t.lookup);
      if cached.Some? {
        return cached.value;
      }
      var open := IsCircuitOpen(t.check);
      if open {
        return UNKNOWN;
      }
      for attempt := 0 to MAX_RETRIES + 1
        invariant forall i :: 0 <= i < attempt ==> attempts[i].None?
        invariant cache == old(cache) && BreakerState() == old(BreakerState()) && log == old(log)
      {
        if attempts[attempt].Some? {
          result := Normalised(attempts[attempt].value);
          FirstIs(attempts, attempt);
          AnswerFields(attempts, attempt);
          RecordSuccess();
          assert Valid();
          ghost var written := cache[ip := CacheEntry(result, t.store + TTL(true))];
          SetCache(ip, result, true, t.store, t.evict);
          EvictedKeeps(written, t.evict, cache, ip);
          return;
        }
      }
      NoneIs(attempts);
      RecordFailure(t.record);
      assert Valid();
      ghost var written := cache[ip := CacheEntry(UNKNOWN, t.store + TTL(false))];
      SetCache(ip, UNKNOWN, false, t.store, t.evict);
      EvictedKeeps(written, t.evict, cache, ip);
      return UNKNOWN;
    }

    /** The call reaches the remote lookup. */
    ghost predicate Looked(ip: string, t: Times)
      reads this
    {
      !IsLocal(ip) && !Hits(cache, ip, t.lookup) && !IsOpen(BreakerState(), t.check)
    }
  }

  /** The attempt is the first that is not an error. */
  predicate IsFirstAnswer(attempts: seq<Option<Result>>, i: nat)
    requires i < |attempts|
  {
    attempts[i].Some? && forall j :: 0 <= j < i ==> attempts[j].None?
  }

  /** An empty field of the upstream answer becomes Unknown, any other is taken over. */
  lemma AnswerFields(attempts: seq<Option<Result>>, n: nat)
    requires n < |attempts| && IsFirstAnswer(attempts, n)
    ensures var u, r := attempts[n].value, Normalised(attempts[n].value);
            && r.country == (if u.country == "" then "Unknown" else u.country)
            && r.city == (if u.city == "" then "Unknown" else u.city)
    ensures forall i :: 0 <= i < |attempts| && IsFirstAnswer(attempts, i) ==> i == n
  {
  }

  lemma EvictedKeeps(cache: map<string, CacheEntry>, now: int, rest: map<string, CacheEntry>, ip: string)
    requires Evicted(cache, now, rest)
    ensures ip in rest ==> ip in cache && rest[ip] == cache[ip]
  {
  }

  /** The first answer that is not an error. */
  function FirstAnswer(attempts: seq<Option<Result>>): Option<Result> {
    if attempts == [] then None
    else if attempts[0].Some? then Some(Normalised(attempts[0].value))
    else FirstAnswer(attempts[1..])
  }

  lemma {:induction false} FirstIs(attempts: seq<Option<Result>>, n: nat)
    requires n < |attempts| && attempts[n].Some? && forall i :: 0 <= i < n ==> attempts[i].None?
    ensures FirstAnswer(attempts) == Some(Normalised(attempts[n].value))
  {
    if n > 0 { FirstIs(attempts[1..], n - 1); }
  }

  lemma {:induction false} NoneIs(attempts: seq<Option<Result>>)
    requires forall i :: 0 <= i < |attempts| ==> attempts[i].None?
    ensures FirstAnswer(attempts) == None
  {
    if attempts != [] { NoneIs(attempts[1..]); }
  }

  // ------------------------------------------------------- the call as steps of the system

  ghost function Checked(s: State, w: nat, ip: string, t: Times): State
    requires s.clock <= t.lookup && InOrder(t)
  {
    Apply(Apply(Apply(Apply(s, Advance(t.lookup - s.clock)), Begin(w, ip)), Advance(t.check - t.lookup)),
          CheckBreaker(w))
  }

  ghost function Attempted(s: State, w: nat, attempts: seq<Option<Result>>): State
    requires |attempts| == MAX_RETRIES + 1
  {
    Apply(Apply(Apply(s, Attempt(w, attempts[0])), Attempt(w, attempts[1])), Attempt(w, attempts[2]))
  }

  ghost function Recorded(s: State, w: nat, wait: nat): State {
    Apply(Apply(Apply(s, Advance(wait)), RecordSuccess(w)), RecordFailure(w))
  }

  /** A call of Resolve by worker w that nothing interrupts. A step that does not apply does nothing. */
  ghost function ResolveSteps(s: State, w: nat, ip: string, attempts: seq<Option<Result>>, t: Times,
                              rest: map<string, CacheEntry>): State
    requires s.clock <= t.lookup && InOrder(t) && |attempts| == MAX_RETRIES + 1
  {
    Apply(Apply(Recorded(Attempted(Checked(s, w, ip, t), w, attempts), w, t.record - t.check),
                Advance(t.store - t.record)),
          SetCache(w, t.evict - t.store, rest))
  }

  /** Worker w is between two calls. */
  predicate AtRest(s: State, w: nat) {
    w < 2 && |s.calls| == 2 && s.calls[w].Idle?
  }

  predicate Reaches(s: State, ip: string, t: Times) {
    !IsLocal(ip) && !Hits(s.cache, ip, t.lookup) && !IsOpen(s.breaker, t.check)
  }

  lemma CheckedIs(s: State, w: nat, ip: string, t: Times)
    requires AtRest(s, w) && s.clock <= t.lookup && InOrder(t)
    ensures Checked(s, w, ip, t) == 
              if Reaches(s, ip, t) then SetCall(s.(clock := t.check), w, Attempting(ip, 0)) else s.(clock := t.check)
  {
    var s1 := Apply(s, Advance(t.lookup - s.clock));
    var s2 := Apply(s1, Begin(w, ip));
    var s3 := Apply(s2, Advance(t.check - t.lookup));
    assert s3.calls == if IsLocal(ip) || Hits(s.cache, ip, t.lookup) then s.calls else s.calls[w := Missed(ip)];
    assert s.calls[w := Missed(ip)][w := Idle] == s.calls;
    assert s.calls[w := Missed(ip)][w := Attempting(ip, 0)] == s.calls[w := Attempting(ip, 0)];
  }

  lemma AttemptedIs(s: State, w: nat, ip: string, attempts: seq<Option<Result>>)
    requires AtRest(s, w) && |attempts| == MAX_RETRIES + 1
    ensures Attempted(SetCall(s, w, Attempting(ip, 0)), w, attempts) ==
            SetCall(s, w, if FirstAnswer(attempts).Some? then Succeeded(ip, FirstAnswer(attempts).value)
                    else Exhausted(ip))
  {
    hide Apply, SetCall, FirstAnswer;
    AttemptIs(s, w, ip, 0, attempts[0]);
    if attempts[0].Some? {
      FirstIs(attempts, 0);
      NoMoreAttempts(s, w, ip, attempts[0].value, attempts[1]);
      NoMoreAttempts(s, w, ip, attempts[0].value, attempts[2]);
    } else {
      AttemptIs(s, w, ip, 1, attempts[1]);
      if attempts[1].Some? {
        FirstIs(attempts, 1);
        NoMoreAttempts(s, w, ip, attempts[1].value, attempts[2]);
      } else {
        AttemptIs(s, w, ip, 2, attempts[2]);
        if attempts[2].Some? { FirstIs(attempts, 2); } else { NoneIs(attempts); }
      }
    }
  }

  lemma NoMoreAttempts(s: State, w: nat, ip: string, found: Result, upstream: Option<Result>)
    requires AtRest(s, w)
    ensures var t := SetCall(s, w, Succeeded(ip, Normalised(found))); Apply(t, Attempt(w, upstream)) == t
  {
  }

  lemma AttemptIs(s: State, w: nat, ip: string, failed: nat, upstream: Option<Result>)
    requires AtRest(s, w)
    ensures Apply(SetCall(s, w, Attempting(ip, failed)), Attempt(w, upstream)) ==
            SetCall(s, w, if upstream.Some? then Succeeded(ip, Normalised(upstream.value))
                          else if failed < MAX_RETRIES then Attempting(ip, failed + 1) else Exhausted(ip))
  {
    var before := SetCall(s, w, Attempting(ip, failed));
    var next := Apply(before, Attempt(w, upstream)).calls[w];
    assert before.calls[w := next] == s.calls[w := next];
  }

  /** The recording and the storing of what the attempts found. */
  lemma StoredIs(s: State, w: nat, ip: string, found: Option<Result>, t: Times, rest: map<string, CacheEntry>)
    requires AtRest(s, w) && s.clock == t.check && InOrder(t)
    requires var result := if found.Some? then found.value else UNKNOWN;
             Evicted(s.cache[ip := CacheEntry(result, t.store + TTL(found.Some?))], t.evict, rest)
    ensures var result := if found.Some? then found.value else UNKNOWN;
            var s1 := SetCall(s, w, if found.Some? then Succeeded(ip, found.value) else Exhausted(ip));
            var s' := Apply(Apply(Recorded(s1, w, t.record - t.check), Advance(t.store - t.record)),
                            SetCache(w, t.evict - t.store, rest));
            && s'.calls == s.calls && s'.cache == rest && s'.clock == t.evict
            && s'.breaker == (if found.Some? then AfterSuccess() else AfterFailure(s.breaker, t.record))
            && s'.log == s.log + [Store(ip, result, t.store, found.Some?)]
  {
    hide Evicted;
    var result := if found.Some? then found.value else UNKNOWN;
    var s1 := SetCall(s, w, if found.Some? then Succeeded(ip, found.value) else Exhausted(ip));
    var s2 := Apply(Recorded(s1, w, t.record - t.check), Advance(t.store - t.record));
    assert s2.calls == s.calls[w := Storing(ip, result, found.Some?)];
    assert s2.calls[w := Idle] == s.calls;
    assert Written(s2, ip, result, found.Some?) == s.cache[ip := CacheEntry(result, t.store + TTL(found.Some?))];
  }

  /** What Resolver.Resolve does to the cache, the breaker and the log is what a run of these steps does. */
  lemma ResolveIsRun(s: State, w: nat, ip: string, attempts: seq<Option<Result>>, t: Times,
                     rest: map<string, CacheEntry>)
    requires AtRest(s, w) && s.clock <= t.lookup && InOrder(t) && |attempts| == MAX_RETRIES + 1
    requires var found := FirstAnswer(attempts);
             Reaches(s, ip, t) ==>
               Evicted(s.cache[ip := CacheEntry(if found.Some? then found.value
                                                else UNKNOWN, t.store + TTL(found.Some?))], t.evict, rest)
    ensures var s', found := ResolveSteps(s, w, ip, attempts, t, rest), FirstAnswer(attempts);
            && s'.calls == s.calls
            && (!Reaches(s, ip, t) ==> s'.cache == s.cache && s'.breaker == s.breaker && s'.log == s.log)
            && (Reaches(s, ip, t) ==>
                  && s'.cache == rest
                  && s'.breaker == (if found.Some? then AfterSuccess() else AfterFailure(s.breaker, t.record))
                  && s'.log == s.log + [Store(ip, if found.Some? then found.value else UNKNOWN, t.store, found.Some?)])
  {
    hide Apply, Checked, Attempted, Recorded, SetCall, Evicted, FirstAnswer;
    CheckedIs(s, w, ip, t);
    if Reaches(s, ip, t) {
      AttemptedIs(s.(clock := t.check), w, ip, attempts);
      StoredIs(s.(clock := t.check), w, ip, FirstAnswer(attempts), t, rest);
    } else {
      NothingLeft(s.(clock := t.check), w, attempts, t, rest);
    }
  }

  lemma NothingLeft(s: State, w: nat, attempts: seq<Option<Result>>, t: Times, rest: map<string, CacheEntry>)
    requires AtRest(s, w) && s.clock == t.check && InOrder(t) && |attempts| == MAX_RETRIES + 1
    ensures var s' := Apply(Apply(Recorded(Attempted(s, w, attempts), w, t.record - t.check),
                                  Advance(t.store - t.record)), SetCache(w, t.evict - t.store, rest));
            s' == s.(clock := t.store)
  {
    hide Evicted;
    assert Attempted(s, w, attempts) == s;
    assert Recorded(s, w, t.record - t.check) == s.(clock := t.record);
  }

  /** After a call that got its answer from attempt i, the address hits for an hour, unless its entry is evicted, and
      the hit has the fields of that answer. */
  lemma HitAfterAnswer(s: State, w: nat, ip: string, attempts: seq<Option<Result>>, t: Times,
                       rest: map<string, CacheEntry>, i: nat, now: int)
    requires AtRest(s, w) && s.clock <= t.lookup && InOrder(t) && |attempts| == MAX_RETRIES + 1 && Reaches(s, ip, t)
    requires i < |attempts| && IsFirstAnswer(attempts, i) && ip in rest
    requires Evicted(s.cache[ip := CacheEntry(Normalised(attempts[i].value), t.store + TTL(true))], t.evict, rest)
    ensures var cache, u := ResolveSteps(s, w, ip, attempts, t, rest).cache, attempts[i].value;
            && ip in cache && (Hits(cache, ip, now) <==> now <= t.store + 60 * 60 * 1000)
            && cache[ip].result.country == (if u.country == "" then "Unknown" else u.country)
            && cache[ip].result.city == (if u.city == "" then "Unknown" else u.city)
  {
    hide FirstAnswer, ResolveSteps, Evicted, Normalised;
    FirstIs(attempts, i);
    AnswerFields(attempts, i);
    ResolveIsRun(s, w, ip, attempts, t, rest);
    EvictedKeeps(s.cache[ip := CacheEntry(Normalised(attempts[i].value), t.store + TTL(true))], t.evict, rest, ip);
  }
}
