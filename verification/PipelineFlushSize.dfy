/** How many rows a flush can have: exactly when there is no bound. */
module PipelineFlushSize {
  import opened Domain
  import opened Pipeline
  import opened PipelineSafety
  import opened PipelineTiming
  import opened PipelineNecessity

  /** PostgreSQL's limit on the parameters of one statement. */
  const MAX_PARAMETERS := 65535

  predicate NoInsert(steps: seq<Step>, w: nat) {
    forall i :: 0 <= i < |steps| ==> !(steps[i].Insert? && steps[i].w == w)
  }

  /** Without trying to insert in between, the worker can come to flush more than n rows. */
  ghost predicate CanFlushMore(s: State, w: nat, n: nat) {
    exists steps :: NoInsert(steps, w) && FlushesMore(Run(s, steps), w, n)
  }

  predicate FlushesMore(s: State, w: nat, n: nat) {
    Phases(s, w) == Flushing(false) && |s.workers[w].batch| > n
  }

  function Max(a: nat, b: nat): nat {
    if a < b then b else a
  }

  /** What the next flush can have at most, if it need not wait: the first size from 100 on. */
  function NextSize(k: Worker): nat {
    Max(FULL_BATCH, |k.batch| + 1)
  }

  // ------------------------------------------------------------------ the upper bound

  /** No backoff is pending and no flush can have more than `most` rows before the next insert. */
  predicate Capped(s: State, w: nat, most: nat) {
    && HasWorker(s, w) && Due(s.workers[w].next, s.clock) && most >= FULL_BATCH
    && var k := s.workers[w];
       match k.phase
       case Idle => |k.batch| < most
       case Enriching(_, closing) => closing || |k.batch| < most
       case Reading => |k.batch| < FULL_BATCH
       case Flushing(closing) => closing || |k.batch| <= most
       case Acking(closing) => closing
       case _ => true
  }

  /** A step leaves a worker that is not its own, and no step takes time back. */
  predicate Leaves(s: State, s': State, w: nat)
    requires HasWorker(s, w)
  {
    HasWorker(s', w) && s'.workers[w] == s.workers[w] && s'.clock >= s.clock
  }

  lemma ProducersLeave(s: State, step: Step, w: nat)
    requires HasWorker(s, w) && (step.Offer? || step.Push? || step.Advance? || step.Stop?)
    ensures Leaves(s, Apply(s, step), w)
  {
  }

  lemma ReceiversLeave(s: State, step: Step, w: nat)
    requires HasWorker(s, w) && (step.Receive? || step.Enrich? || step.Tick? || step.BeginClose? || step.FinishClose?)
             && step.w != w
    ensures Leaves(s, Apply(s, step), w)
  {
  }

  lemma ReadersLeave(s: State, step: Step, w: nat)
    requires HasWorker(s, w) && step.Read? && step.w != w
    ensures Leaves(s, Apply(s, step), w)
  {
    hide Entries, Readable, Loaded;
  }

  lemma FlushersLeave(s: State, step: Step, w: nat)
    requires HasWorker(s, w) && (step.Insert? || step.Ack?) && step.w != w
    ensures Leaves(s, Apply(s, step), w)
  {
    hide Tags, HeldTags, Without, Failed, ExitedWorker;
  }

  lemma OthersStayCapped(s: State, step: Step, w: nat, most: nat)
    requires Capped(s, w, most) && !IsWorkersStep(step, w)
    ensures Capped(Apply(s, step), w, most)
  {
    hide Apply;
    if step.Offer? || step.Push? || step.Advance? || step.Stop? {
      ProducersLeave(s, step, w);
    } else if step.Read? {
      ReadersLeave(s, step, w);
    } else if step.Insert? || step.Ack? {
      FlushersLeave(s, step, w);
    } else {
      ReceiversLeave(s, step, w);
    }
  }

  /** A step of the worker w. */
  predicate IsWorkersStep(step: Step, w: nat) {
    (step.Receive? || step.Enrich? || step.Tick? || step.Read? || step.Insert? || step.Ack? || step.BeginClose?
     || step.FinishClose?) && step.w == w
  }

  lemma ReadStaysCapped(s: State, w: nat, ok: bool, most: nat)
    requires Capped(s, w, most)
    ensures Capped(ReadEffect(s, w, ok), w, most)
  {
    hide Entries;
  }

  lemma OwnStaysCapped(s: State, step: Step, w: nat, most: nat)
    requires Capped(s, w, most) && IsWorkersStep(step, w) && !step.Insert? && !step.Read?
    ensures Capped(Apply(s, step), w, most)
  {
    hide Tags, HeldTags, Without, Entries, Readable, Loaded, Failed;
  }

  lemma {:induction false} RunStaysCapped(s: State, steps: seq<Step>, w: nat, most: nat)
    requires Capped(s, w, most) && NoInsert(steps, w)
    ensures Capped(Run(s, steps), w, most)
    decreases |steps|
  {
    hide Capped, Apply, ReadEffect;
    if steps != [] {
      var before, step := steps[..|steps| - 1], steps[|steps| - 1];
      RunStaysCapped(s, before, w, most);
      if !IsWorkersStep(step, w) {
        OthersStayCapped(Run(s, before), step, w, most);
      } else if step.Read? {
        ReadStaysCapped(Run(s, before), w, step.ok, most);
        ReadIsEffect(Run(s, before), w, step.ok);
      } else {
        OwnStaysCapped(Run(s, before), step, w, most);
      }
    }
  }

  lemma ReadIsEffect(s: State, w: nat, ok: bool)
    ensures Apply(s, Read(w, ok)) == ReadEffect(s, w, ok)
  {
  }

  // ------------------------------------------------------------------ growing a batch

  /** Before Stop a worker at its select always gets one more click. */
  function OneMoreClick(w: nat, click: ClickEvent): seq<Step> {
    [Offer(click)] + [Receive(w)] + [Enrich(w, "", "")]
  }

  lemma ClickGrows(s: State, w: nat, click: ClickEvent)
    requires HasWorker(s, w) && s.workers[w].phase.Idle? && !s.stopped
    ensures var s', k := Run(s, OneMoreClick(w, click)), s.workers[w];
            && HasWorker(s', w) && !s'.stopped && s'.clock == s.clock && s'.workers[w].next == k.next
            && |s'.workers[w].batch| == |k.batch| + 1
            && s'.workers[w].phase == if |k.batch| + 1 >= FULL_BATCH && Due(k.next, s.clock) then Flushing(false)
               else Idle
  {
    RunThree(s, Offer(click), Receive(w), Enrich(w, "", ""));
    hide Run;
    var s1 := Apply(s, Offer(click));
    assert s1.channel != [] && s1.workers == s.workers;
  }

  /** During a backoff the batch grows by any number of clicks, at the same time. */
  lemma {:induction false} BatchGrows(s: State, w: nat, n: nat, click: ClickEvent) returns (steps: seq<Step>)
    requires HasWorker(s, w) && s.workers[w].phase.Idle? && !s.stopped && !Due(s.workers[w].next, s.clock)
    ensures CleanRun(steps) && NoInsert(steps, w)
    ensures var s', k := Run(s, steps), s.workers[w];
            && HasWorker(s', w) && s'.workers[w].phase.Idle? && !s'.stopped && s'.clock == s.clock
            && s'.workers[w].next == k.next && |s'.workers[w].batch| == |k.batch| + n
  {
    if n == 0 {
      steps := [];
    } else {
      hide Run, Apply;
      var before := BatchGrows(s, w, n - 1, click);
      steps := before + OneMoreClick(w, click);
      RunMore(s, before, OneMoreClick(w, click));
      ClickGrows(Run(s, before), w, click);
    }
  }

  /** Without a pending backoff the batch grows up to 100 clicks, or by one click beyond. */
  lemma {:induction false} BatchFills(s: State, w: nat, click: ClickEvent) returns (steps: seq<Step>)
    requires HasWorker(s, w) && s.workers[w].phase.Idle? && !s.stopped && Due(s.workers[w].next, s.clock)
    ensures CleanRun(steps) && NoInsert(steps, w)
    ensures var s' := Run(s, steps); Phases(s', w) == Flushing(false) && |s'.workers[w].batch| == NextSize(s.workers[w])
    decreases FULL_BATCH - |s.workers[w].batch|
  {
    hide Run, Apply;
    var s' := Run(s, OneMoreClick(w, click));
    ClickGrows(s, w, click);
    steps := OneMoreClick(w, click);
    if |s.workers[w].batch| + 1 < FULL_BATCH {
      var rest := BatchFills(s', w, click);
      RunMore(s, OneMoreClick(w, click), rest);
      steps := OneMoreClick(w, click) + rest;
    }
  }

  /** When the backoff is over, the worker flushes all it has. */
  lemma FlushesAll(s: State, w: nat) returns (steps: seq<Step>)
    requires HasWorker(s, w) && s.workers[w].phase.Idle? && |s.workers[w].batch| > 0
    ensures CleanRun(steps) && NoInsert(steps, w)
    ensures var s' := Run(s, steps); Phases(s', w) == Flushing(false) && |s'.workers[w].batch| == |s.workers[w].batch|
  {
    hide Run, Apply;
    var next := s.workers[w].next;
    var wait: nat := if next.Some? && next.value > s.clock then next.value - s.clock else 0;
    steps := [Advance(wait)] + [Tick(w)] + [Read(w, false)];
    AdvanceIs(s, wait);
    RunThree(s, Advance(wait), Tick(w), Read(w, false));
    TickFlushes(s.(clock := s.clock + wait), w);
  }

  lemma TickFlushes(s: State, w: nat)
    requires HasWorker(s, w) && s.workers[w].phase.Idle? && |s.workers[w].batch| > 0 && Due(s.workers[w].next, s.clock)
    ensures var s' := Apply(Apply(s, Tick(w)), Read(w, false));
            Phases(s', w) == Flushing(false) && s'.workers[w].batch == s.workers[w].batch
  {
    hide Entries, Readable;
  }

  // ------------------------------------------------------------------- the exact size

  /** Before Stop, from its select, a worker can come to flush more than n rows before it tries another insert,
      exactly when a backoff is pending, or n is below 100 or below what it has. */
  lemma FlushSizeIff(hasRedis: bool, clock: int, before: seq<Step>, w: nat, n: nat)
    requires Phases(Reached(hasRedis, clock, before), w).Idle? && !Reached(hasRedis, clock, before).stopped
    ensures var s := Reached(hasRedis, clock, before);
            CanFlushMore(s, w, n) <==> !Due(s.workers[w].next, s.clock) || n < NextSize(s.workers[w])
  {
    hide Reached, Run;
    var s := Reached(hasRedis, clock, before);
    var click := ClickEvent("", "", None, "", "", "", "", "", "", "", false, 0, "");
    if !Due(s.workers[w].next, s.clock) {
      var grown := BatchGrows(s, w, n + 1, click);
      var flush := FlushesAll(Run(s, grown), w);
      RunMore(s, grown, flush);
      assert NoInsert(grown + flush, w) && FlushesMore(Run(s, grown + flush), w, n);
    } else if n < NextSize(s.workers[w]) {
      var steps := BatchFills(s, w, click);
      assert FlushesMore(Run(s, steps), w, n);
    } else {
      forall steps | NoInsert(steps, w) ensures !FlushesMore(Run(s, steps), w, n) {
        RunStaysCapped(s, steps, w, NextSize(s.workers[w]));
      }
    }
  }

  /** So there is no bound exactly when a flush has failed and its backoff is pending; and more than 100 rows
      take a failure, and besides a pending backoff or a full batch. */
  lemma UnboundedIff(hasRedis: bool, clock: int, before: seq<Step>, w: nat)
    requires Phases(Reached(hasRedis, clock, before), w).Idle? && !Reached(hasRedis, clock, before).stopped
    ensures var s := Reached(hasRedis, clock, before);
            var k := s.workers[w];
            && ((forall n: nat :: CanFlushMore(s, w, n)) <==> k.failures > 0 && !Due(k.next, s.clock))
            && (CanFlushMore(s, w, FULL_BATCH)
                <==> k.failures > 0 && (!Due(k.next, s.clock) || |k.batch| >= FULL_BATCH))
  {
    hide Reached, Run, CanFlushMore;
    var k := Reached(hasRedis, clock, before).workers[w];
    LoopHead(hasRedis, clock, before, w);
    FlushSizeIff(hasRedis, clock, before, w, FULL_BATCH);
    FlushSizeIff(hasRedis, clock, before, w, NextSize(k));
    forall n: nat ensures !Due(k.next, Reached(hasRedis, clock, before).clock) ==>
        CanFlushMore(Reached(hasRedis, clock, before), w, n) {
      FlushSizeIff(hasRedis, clock, before, w, n);
    }
  }

  // ----------------------------------------------------------- more than one statement takes

  /** A worker whose first flush failed, with its backoff pending. */
  lemma FirstFlushFails(click: ClickEvent) returns (steps: seq<Step>)
    ensures CleanRun(steps)
    ensures var s := Reached(false, 0, steps);
            HasWorker(s, 0) && s.workers[0].phase.Idle? && !s.stopped && !Due(s.workers[0].next, s.clock)
  {
    var item;
    steps, item := Received(click);
    hide Reached, Run;
    ReachNext(false, 0, steps, Tick(0));
    ReachNext(false, 0, steps + [Tick(0)], Insert(0, Rejected));
    steps := steps + [Tick(0)] + [Insert(0, Rejected)];
  }

  /** One failed insert and one backoff are enough for a flush, and so for a statement, that PostgreSQL refuses:
      5042 rows have 65546 parameters. No step but the insert goes wrong. */
  lemma TooManyParameters(click: ClickEvent) returns (steps: seq<Step>)
    ensures CleanRun(steps)
    ensures var s := Reached(false, 0, steps);
            Phases(s, 0) == Flushing(false) && 13 * |s.workers[0].batch| > MAX_PARAMETERS
  {
    hide Run, Apply;
    var first := FirstFlushFails(click);
    var s := Reached(false, 0, first);
    var grown := BatchGrows(s, 0, 5042, click);
    var flush := FlushesAll(Run(s, grown), 0);
    RunMore(s, grown, flush);
    RunMore(Init(false, 0), first, grown + flush);
    steps := first + (grown + flush);
  }

  // ------------------------------------------------------------------------ shutdown

  lemma ReceiveWhileClosing(s: State, w: nat)
    requires HasWorker(s, w) && s.workers[w].phase.Closing? && s.channel != []
    ensures var s' := Run(s, [Receive(w)] + [Enrich(w, "", "")]);
            && HasWorker(s', w) && s'.workers[w].phase.Closing? && s'.channel == s.channel[1..]
            && |s'.workers[w].batch| == |s.workers[w].batch| + 1
  {
    RunOne(s, Receive(w));
    RunThen(s, [Receive(w)], Enrich(w, "", ""));
    hide Run;
  }

  /** The shutdown loop takes all the channel holds into one batch. */
  lemma {:induction false} DrainsAll(s: State, w: nat) returns (steps: seq<Step>)
    requires HasWorker(s, w) && s.workers[w].phase.Closing?
    ensures CleanRun(steps)
    ensures var s' := Run(s, steps);
            && HasWorker(s', w) && s'.workers[w].phase.Closing? && s'.channel == []
            && |s'.workers[w].batch| == |s.workers[w].batch| + |s.channel|
    decreases |s.channel|
  {
    if s.channel == [] {
      steps := [];
    } else {
      hide Run;
      ReceiveWhileClosing(s, w);
      var first := [Receive(w)] + [Enrich(w, "", "")];
      var rest := DrainsAll(Run(s, first), w);
      RunMore(s, first, rest);
      steps := first + rest;
    }
  }

  /** With n clicks in the channel when it stops, a worker can come to flush n rows at once: up to 10000, with
      130000 parameters. */
  lemma LastFlushOf(click: ClickEvent, n: nat) returns (steps: seq<Step>)
    requires 0 < n <= CHANNEL_CAPACITY
    ensures CleanRun(steps)
    ensures var s := Reached(true, 0, steps); Phases(s, 0) == Flushing(true) && |s.workers[0].batch| == n
  {
    hide Run, Reached;
    var first := FilledChannel(click, n);
    ReachNext(true, 0, first, Stop);
    ReachNext(true, 0, first + [Stop], BeginClose(0));
    var closing := first + [Stop] + [BeginClose(0)];
    var s := Reached(true, 0, closing);
    var drain := DrainsAll(s, 0);
    RunMore(Init(true, 0), closing, drain);
    ReachedIs(closing, drain);
    ReachNext(true, 0, closing + drain, FinishClose(0));
    steps := closing + drain + [FinishClose(0)];
  }

  lemma ReachedIs(first: seq<Step>, second: seq<Step>)
    ensures Reached(true, 0, first + second) == Run(Reached(true, 0, first), second)
  {
    RunMore(Init(true, 0), first, second);
  }
}
