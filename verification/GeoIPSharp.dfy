/** Six failures in one window of the breaker's open duration do happen. */
module GeoIPSharp {
  import opened Domain
  import opened GeoIP

  lemma {:induction false} RunMore(s: State, first: seq<Step>, second: seq<Step>, x: int)
    ensures Run(s, first + second) == Run(Run(s, first), second)
    ensures FailuresIn(s, first + second, x) == FailuresIn(s, first, x) + FailuresIn(Run(s, first), second, x)
    decreases |second|
  {
    hide Apply;
    if second == [] {
      assert first + second == first;
    } else {
      var n := |second| - 1;
      RunMore(s, first, second[..n], x);
      assert (first + second)[..|first + second| - 1] == first + second[..n];
    }
  }

  lemma RunThen(s: State, steps: seq<Step>, step: Step, x: int)
    ensures Run(s, steps + [step]) == Apply(Run(s, steps), step)
    ensures !step.RecordFailure? ==> FailuresIn(s, steps + [step], x) == FailuresIn(s, steps, x)
    ensures step.RecordFailure? && CallOf(Run(s, steps), step.w).Exhausted?
            && x <= Run(s, steps).clock < x + BREAKER_OPEN_DURATION ==>
              FailuresIn(s, steps + [step], x) == FailuresIn(s, steps, x) + 1
  {
    assert (steps + [step])[..|steps|] == steps;
  }

  lemma RunNothing(s: State, x: int)
    ensures Run(s, []) == s && FailuresIn(s, [], x) == 0
  {
  }

  /** A call starts and passes the closed breaker. */
  function Start(w: nat, ip: string): seq<Step> {
    [] + [Begin(w, ip)] + [CheckBreaker(w)]
  }

  lemma Starts(s: State, w: nat, ip: string, x: int)
    requires w < 2 && |s.calls| == 2 && s.calls[w].Idle? && !IsLocal(ip) && ip !in s.cache
             && !IsOpen(s.breaker, s.clock)
    ensures Run(s, Start(w, ip)) == SetCall(s, w, Attempting(ip, 0)) && FailuresIn(s, Start(w, ip), x) == 0
    ensures NoSuccess(Start(w, ip))
  {
    hide IsLocal, Run, FailuresIn;
    RunNothing(s, x);
    RunThen(s, [], Begin(w, ip), x);
    RunThen(s, [] + [Begin(w, ip)], CheckBreaker(w), x);
    assert s.calls[w := Missed(ip)][w := Attempting(ip, 0)] == s.calls[w := Attempting(ip, 0)];
  }

  /** All attempts of a call fail, and the breaker is told. */
  function Fail(w: nat): seq<Step> {
    [] + [Attempt(w, None)] + [Attempt(w, None)] + [Attempt(w, None)] + [RecordFailure(w)]
  }

  lemma Attempts(s: State, w: nat, ip: string, failed: nat)
    requires w < 2 && |s.calls| == 2
    ensures Apply(SetCall(s, w, Attempting(ip, failed)), Attempt(w, None))
         == SetCall(s, w, if failed < MAX_RETRIES then Attempting(ip, failed + 1) else Exhausted(ip))
  {
    var next := if failed < MAX_RETRIES then Attempting(ip, failed + 1) else Exhausted(ip);
    assert s.calls[w := Attempting(ip, failed)][w := next] == s.calls[w := next];
  }

  lemma Fails(s: State, w: nat, ip: string, x: int)
    requires w < 2 && |s.calls| == 2 && x <= s.clock < x + BREAKER_OPEN_DURATION
    ensures var s0 := SetCall(s, w, Attempting(ip, 0));
            && Run(s0, Fail(w)) == SetCall(s, w, Storing(ip, UNKNOWN, false))
                                   .(breaker := AfterFailure(s.breaker, s.clock), failedAt := s.failedAt + [s.clock])
            && FailuresIn(s0, Fail(w), x) == 1
    ensures NoSuccess(Fail(w))
  {
    var s0 := SetCall(s, w, Attempting(ip, 0));
    var three := [] + [Attempt(w, None)] + [Attempt(w, None)] + [Attempt(w, None)];
    Attempts(s, w, ip, 0);
    Attempts(s, w, ip, 1);
    Attempts(s, w, ip, 2);
    RunNothing(s0, x);
    RunThen(s0, [], Attempt(w, None), x);
    RunThen(s0, [] + [Attempt(w, None)], Attempt(w, None), x);
    RunThen(s0, [] + [Attempt(w, None)] + [Attempt(w, None)], Attempt(w, None), x);
    RunThen(s0, three, RecordFailure(w), x);
    assert s.calls[w := Exhausted(ip)][w := Storing(ip, UNKNOWN, false)] == s.calls[w := Storing(ip, UNKNOWN, false)];
    hide Run, FailuresIn;
  }

  /** Between two of worker 0's calls, while worker 1 is past the breaker. */
  predicate Racing(s: State, failures: nat) {
    && |s.calls| == 2 && s.calls[0].Idle? && s.calls[1] == Attempting("last", 0)
    && s.clock == 0 && |s.cache| <= failures
    && (failures < BREAKER_FAILURE_LIMIT ==> s.breaker == Breaker(failures, None))
  }

  /** One more failed call of worker 0. */
  lemma OneFailure(s: State, failures: nat, ip: string) returns (steps: seq<Step>)
    requires Racing(s, failures) && failures < BREAKER_FAILURE_LIMIT && !IsLocal(ip) && ip !in s.cache
    ensures NoSuccess(steps) && FailuresIn(s, steps, 0) == 1 && Racing(Run(s, steps), failures + 1)
    ensures Run(s, steps).cache.Keys == s.cache.Keys + {ip}
  {
    hide Run, FailuresIn, Apply;
    Starts(s, 0, ip, 0);
    Fails(s, 0, ip, 0);
    RunMore(s, Start(0, ip), Fail(0), 0);
    var before := Start(0, ip) + Fail(0);
    var s1 := Run(s, before);
    var rest := Written(s1, ip, UNKNOWN, false);
    assert rest.Keys == s.cache.Keys + {ip} && |rest.Keys| == |s.cache.Keys| + 1;
    Stores(s1, ip, rest);
    RunThen(s, before, SetCache(0, 0, rest), 0);
    steps := before + [SetCache(0, 0, rest)];
  }

  lemma Stores(s: State, ip: string, rest: map<string, CacheEntry>)
    requires |s.calls| == 2 && s.calls[0] == Storing(ip, UNKNOWN, false) && rest == Written(s, ip, UNKNOWN, false)
             && |rest| <= CACHE_LIMIT
    ensures var s' := Apply(s, SetCache(0, 0, rest));
            s'.calls == s.calls[0 := Idle] && s'.cache == rest && s'.clock == s.clock && s'.breaker == s.breaker
  {
    hide Unexpired;
  }

  /** Distinct addresses, told apart by their lengths. */
  function Address(n: nat): (ip: string)
    ensures |ip| == n + 10 && !IsLocal(ip)
  {
    seq(n + 10, _ => '1')
  }

  lemma {:induction false} FirstFailures(n: nat) returns (steps: seq<Step>)
    requires n <= BREAKER_FAILURE_LIMIT
    ensures NoSuccess(steps) && FailuresIn(Init(0), steps, 0) == n && Racing(Run(Init(0), steps), n)
    ensures forall ip :: ip in Run(Init(0), steps).cache ==> |ip| < n + 10
    decreases n, 1
  {
    if n == 0 {
      assert !IsLocal("last");
      hide IsLocal;
      Starts(Init(0), 1, "last", 0);
      steps := Start(1, "last");
    } else {
      steps := NextFailure(n);
    }
  }

  lemma {:induction false} NextFailure(n: nat) returns (steps: seq<Step>)
    requires 0 < n <= BREAKER_FAILURE_LIMIT
    ensures NoSuccess(steps) && FailuresIn(Init(0), steps, 0) == n && Racing(Run(Init(0), steps), n)
    ensures forall ip :: ip in Run(Init(0), steps).cache ==> |ip| < n + 10
    decreases n, 0
  {
    hide Run, FailuresIn, Apply, IsLocal;
    var before := FirstFailures(n - 1);
    var more := OneFailure(Run(Init(0), before), n - 1, Address(n - 1));
    RunMore(Init(0), before, more, 0);
    steps := before + more;
  }

  /** Five failures of one worker open the breaker, and the other's call, already past it, fails sixth. */
  lemma SixFailuresHappen() returns (steps: seq<Step>)
    ensures NoSuccess(steps) && FailuresIn(Init(0), steps, 0) == 6
  {
    hide Run, FailuresIn, Apply;
    var five := FirstFailures(5);
    var s := Run(Init(0), five);
    Fails(s, 1, "last", 0);
    assert SetCall(s, 1, Attempting("last", 0)) == s by { assert s.calls[1 := s.calls[1]] == s.calls; }
    RunMore(Init(0), five, Fail(1), 0);
    steps := five + Fail(1);
  }
}
