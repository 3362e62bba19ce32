/** A worker's own loop: batch sizes, backoff and shutdown, over every run of the pipeline. */
module PipelineTiming {
  import opened Domain
  import opened Pipeline
  import opened PipelineInvariant

  // ------------------------------------------------------------ the loop head

  predicate AtLoopHead(phase: Phase) {
    phase.Idle? || phase.Reading? || (phase.Enriching? && !phase.closing)
  }

  predicate InShutdown(phase: Phase) {
    phase.Closing? || phase.Exited? || ((phase.Enriching? || phase.Flushing? || phase.Acking?) && phase.closing)
  }

  /** The failures of the current streak are at least their backoffs apart, and the next attempt waits
      for the last one's. */
  predicate Spaced(k: Worker, clock: int) {
    && |k.failedAt| == k.failures
    && (k.next.None? <==> k.failures == 0)
    && (forall i :: 0 <= i < |k.failedAt| - 1 ==> k.failedAt[i] + CalculateFlushBackoff(i + 1) <= k.failedAt[i + 1])
    && (k.failures > 0 ==>
          && k.failedAt[k.failures - 1] <= clock
          && k.next == Some(k.failedAt[k.failures - 1] + CalculateFlushBackoff(k.failures)))
  }

  /** What holds whenever a worker is at its select, and while it flushes. */
  predicate LoopInv(k: Worker, clock: int) {
    && Spaced(k, clock)
    && (k.failures > 0 && !k.phase.Exited? ==> |k.batch| > 0)
    && (AtLoopHead(k.phase) && k.failures == 0 ==> |k.batch| < FULL_BATCH && k.overflowIDs == [])
    && (k.phase.Reading? ==> |k.batch| < FULL_BATCH && Due(k.next, clock))
    && (k.phase == Flushing(false) ==>
        |k.batch| > 0 && Due(k.next, clock) && (k.failures == 0 ==> |k.batch| <= FULL_BATCH))
    && (k.phase.Exited? ==> k.batch == [] && k.overflowIDs == [])
  }

  predicate BothLoop(s: State) {
    |s.workers| == 2 && LoopInv(s.workers[0], s.clock) && LoopInv(s.workers[1], s.clock)
  }

  lemma WorkerLoops(s: State, w: nat, k: Worker)
    requires BothLoop(s) && w < 2 && LoopInv(k, s.clock)
    ensures BothLoop(SetWorker(s, w, k))
  {
  }

  /** A new phase, or a longer batch, keeps the streak of failures as it was. */
  lemma SameStreak(k: Worker, k': Worker, clock: int)
    requires LoopInv(k, clock)
    requires k' == k.(phase := k'.phase, batch := k'.batch, overflowIDs := k'.overflowIDs)
    ensures Spaced(k', clock)
  {
  }

  lemma ReceiveLoops(s: State, w: nat)
    requires BothLoop(s)
    ensures BothLoop(ReceiveEffect(s, w))
  {
    hide Spaced;
    var s' := ReceiveEffect(s, w);
    if s' != s {
      SameStreak(s.workers[w], s'.workers[w], s.clock);
      WorkerLoops(s, w, s'.workers[w]);
    }
  }

  lemma EnrichLoops(s: State, w: nat, country: string, city: string)
    requires BothLoop(s)
    ensures BothLoop(EnrichEffect(s, w, country, city))
  {
    var s' := EnrichEffect(s, w, country, city);
    if s' != s {
      SameStreak(s.workers[w], s'.workers[w], s.clock);
      WorkerLoops(s, w, s'.workers[w]);
    }
  }

  lemma TickLoops(s: State, w: nat)
    requires BothLoop(s)
    ensures BothLoop(TickEffect(s, w))
  {
    var s' := TickEffect(s, w);
    if s' != s {
      SameStreak(s.workers[w], s'.workers[w], s.clock);
      WorkerLoops(s, w, s'.workers[w]);
    }
  }

  lemma CloseLoops(s: State, step: Step)
    requires BothLoop(s) && (step.BeginClose? || step.FinishClose?)
    ensures BothLoop(Apply(s, step))
  {
    var s' := Apply(s, step);
    if s' != s {
      SameStreak(s.workers[step.w], s'.workers[step.w], s.clock);
      WorkerLoops(s, step.w, s'.workers[step.w]);
    }
  }

  lemma ReadLoops(s: State, w: nat, ok: bool)
    requires BothLoop(s)
    ensures BothLoop(ReadEffect(s, w, ok))
  {
    hide Spaced;
    var s' := ReadEffect(s, w, ok);
    if Phases(s, w).Reading? && |s.workers[w].batch| < FULL_BATCH {
      SameStreak(s.workers[w], s'.workers[w], s.clock);
      WorkerLoops(s, w, s'.workers[w]);
    }
  }

  lemma FailedLoops(k: Worker, clock: int)
    requires LoopInv(k, clock) && k.phase == Flushing(false)
    ensures LoopInv(Failed(k, clock), clock)
  {
  }

  lemma InsertLoops(s: State, w: nat, inserted: InsertOutcome)
    requires BothLoop(s)
    ensures BothLoop(InsertEffect(s, w, inserted))
  {
    hide Spaced;
    var s' := InsertEffect(s, w, inserted);
    if Phases(s, w).Flushing? {
      var k, k' := s.workers[w], s'.workers[w];
      if inserted.Committed? || k.phase.closing {
        SameStreak(k, k', s.clock);
      } else {
        FailedLoops(k, s.clock);
      }
      WorkerLoops(s, w, k');
    }
  }

  lemma AckLoops(s: State, w: nat, applied: bool)
    requires BothLoop(s)
    ensures BothLoop(AckEffect(s, w, applied))
  {
  }

  lemma ProducerLoops(s: State, step: Step)
    requires BothLoop(s) && (step.Advance? || step.Offer? || step.Push? || step.Stop?)
    ensures BothLoop(Apply(s, step))
  {
  }

  lemma {:induction false} RunLoops(s: State, steps: seq<Step>)
    requires BothLoop(s)
    ensures BothLoop(Run(s, steps))
    decreases |steps|
  {
    hide BothLoop, Apply;
    if steps != [] {
      RunLoops(s, steps[..|steps| - 1]);
      StepLoops(Run(s, steps[..|steps| - 1]), steps[|steps| - 1]);
    }
  }

  lemma ReachedLoops(hasRedis: bool, clock: int, steps: seq<Step>)
    ensures BothLoop(Reached(hasRedis, clock, steps))
  {
    RunLoops(Init(hasRedis, clock), steps);
  }

  lemma StepLoops(s: State, step: Step)
    requires BothLoop(s)
    ensures BothLoop(Apply(s, step))
  {
    hide BothLoop, OfferEffect, PushEffect, ReceiveEffect, EnrichEffect, TickEffect, ReadEffect, InsertEffect,
         AckEffect, FinishCloseEffect;
    match step
    case Receive(w) => ReceiveLoops(s, w);
    case Enrich(w, country, city) => EnrichLoops(s, w, country, city);
    case Tick(w) => TickLoops(s, w);
    case Read(w, ok) => ReadLoops(s, w, ok);
    case Insert(w, inserted) => InsertLoops(s, w, inserted);
    case Ack(w, applied) => AckLoops(s, w, applied);
    case Advance(_) => ProducerLoops(s, step);
    case Offer(_) => ProducerLoops(s, step);
    case Push(_, _, _) => ProducerLoops(s, step);
    case Stop => ProducerLoops(s, step);
    case _ => CloseLoops(s, step);
  }

  // ------------------------------------------------------- batch size, backoff

  /** Before shutdown, a worker with no failure behind it is at its select with fewer than 100 clicks
      and no overflow entry; with one behind it, it has a batch to retry, and the entries it holds are
      at distinct positions of that batch. */
  lemma LoopHead(hasRedis: bool, clock: int, steps: seq<Step>, w: nat)
    requires w < 2 && Phases(Reached(hasRedis, clock, steps), w).Idle?
    ensures var s := Reached(hasRedis, clock, steps);
            var k := s.workers[w];
            && (k.next.None? <==> k.failures == 0)
            && (k.failures == 0 ==> |k.batch| < FULL_BATCH && k.overflowIDs == [])
            && (k.failures > 0 ==> |k.batch| > 0)
            && (w == 1 ==> k.overflowIDs == [])
            && (forall i, j :: 0 <= i < j < |k.overflowIDs| ==> k.overflowIDs[i] != k.overflowIDs[j])
            && exists off: nat :: HeldAt(s.issued, k, off)
  {
    ReachedLoops(hasRedis, clock, steps);
    ReachedInv(hasRedis, clock, steps);
    if w == 1 {
      HoldingNothing(Reached(hasRedis, clock, steps).issued, {}, Reached(hasRedis, clock, steps).workers[1]);
    }
  }

  /** Before shutdown no flush starts inside a backoff window or without rows, and a first attempt
      has at most 100 rows, so 1300 parameters. */
  lemma FlushStart(hasRedis: bool, clock: int, steps: seq<Step>, w: nat)
    requires Phases(Reached(hasRedis, clock, steps), w) == Flushing(false)
    ensures var s := Reached(hasRedis, clock, steps);
            var k := s.workers[w];
            && 0 < |k.batch|
            && (k.next.None? || k.next.value <= s.clock)
            && (k.failures == 0 ==> |k.batch| <= FULL_BATCH && 13 * |k.batch| <= 1300)
  {
    ReachedLoops(hasRedis, clock, steps);
  }

  /** The total of the first n backoffs. */
  function BackoffSum(n: nat): int {
    if n == 0 then 0 else BackoffSum(n - 1) + CalculateFlushBackoff(n)
  }

  lemma {:induction false} BackoffSumClosed(n: nat)
    ensures n == 1 ==> BackoffSum(n) == 200
    ensures n == 2 ==> BackoffSum(n) == 700
    ensures n == 3 ==> BackoffSum(n) == 1700
    ensures n >= 4 ==> BackoffSum(n) == 3700 + 5000 * (n - 4)
  {
    if n > 0 { BackoffSumClosed(n - 1); }
  }

  /** Before it has exited, a worker with failures behind it waits from the last one on: 200 ms after the first of
      the streak, then 500, 1000, 2000, and 5000 after each further one. */
  lemma WaitsForBackoff(hasRedis: bool, clock: int, steps: seq<Step>, w: nat)
    requires HasWorker(Reached(hasRedis, clock, steps), w) && Reached(hasRedis, clock, steps).workers[w].failures > 0
    ensures var k := Reached(hasRedis, clock, steps).workers[w];
            && |k.failedAt| == k.failures
            && k.next == Some(k.failedAt[k.failures - 1] + match k.failures
                                                           case 1 => 200
                                                           case 2 => 500
                                                           case 3 => 1000
                                                           case 4 => 2000
                                                           case _ => 5000)
  {
    hide Reached;
    ReachedLoops(hasRedis, clock, steps);
  }

  lemma {:induction false} SpacedApart(k: Worker, clock: int, n: nat)
    requires Spaced(k, clock) && 1 <= n <= |k.failedAt|
    ensures k.failedAt[n - 1] - k.failedAt[0] >= BackoffSum(n - 1)
  {
    if n > 1 {
      SpacedApart(k, clock, n - 1);
      assert k.failedAt[n - 2] + CalculateFlushBackoff(n - 1) <= k.failedAt[n - 1];
    }
  }

  /** The first and the n-th failure of a streak are at least the first n-1 backoffs apart. */
  lemma FailuresApart(hasRedis: bool, clock: int, steps: seq<Step>, w: nat, n: nat)
    requires HasWorker(Reached(hasRedis, clock, steps), w)
    requires 1 <= n <= |Reached(hasRedis, clock, steps).workers[w].failedAt|
    ensures var at := Reached(hasRedis, clock, steps).workers[w].failedAt;
            && at[n - 1] - at[0] >= BackoffSum(n - 1)
            && (n >= 5 ==> at[n - 1] - at[0] >= 3700 + 5000 * (n - 5))
  {
    hide Reached, Run;
    ReachedLoops(hasRedis, clock, steps);
    var s := Reached(hasRedis, clock, steps);
    SpacedApart(s.workers[w], s.clock, n);
    if n >= 5 { BackoffSumClosed(n - 1); }
  }
}
