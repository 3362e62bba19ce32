/** Shutdown: the drain loop ends, and nothing the stream accepted is lost by it. */
module PipelineShutdown {
  import opened Domain
  import opened Pipeline
  import opened PipelineInvariant
  import opened PipelineSafety
  import opened PipelineTheorems
  import opened PipelineTiming

  // ---------------------------------------------------------------- the order of closing

  /** A worker leaves its shutdown select only with the channel empty. */
  predicate LeftSelect(phase: Phase) {
    phase == Flushing(true) || phase == Acking(true) || phase.Exited?
  }

  predicate ShutdownInv(s: State) {
    && |s.workers| == 2
    && (s.stopped ==> s.pushing == [])
    && (!s.stopped ==> s.lost == multiset{} && !InShutdown(s.workers[0].phase) && !InShutdown(s.workers[1].phase))
    && (LeftSelect(s.workers[0].phase) || LeftSelect(s.workers[1].phase) ==> s.channel == [])
  }

  lemma PushShutdown(s: State, producer: nat, pushed: PushOutcome, trim: nat)
    requires ShutdownInv(s)
    ensures ShutdownInv(PushEffect(s, producer, pushed, trim))
  {
  }

  lemma InsertShutdown(s: State, w: nat, inserted: InsertOutcome)
    requires ShutdownInv(s)
    ensures ShutdownInv(InsertEffect(s, w, inserted))
  {
    hide Tags, HeldTags, CalculateFlushBackoff;
  }

  lemma ChannelShutdown(s: State, step: Step)
    requires ShutdownInv(s) && (step.Receive? || step.Enrich?)
    ensures ShutdownInv(Apply(s, step))
  {
  }

  lemma TickShutdown(s: State, w: nat)
    requires ShutdownInv(s)
    ensures ShutdownInv(TickEffect(s, w))
  {
  }

  lemma ReadShutdown(s: State, w: nat, ok: bool)
    requires ShutdownInv(s)
    ensures ShutdownInv(ReadEffect(s, w, ok))
  {
    hide ReadEffect;
    ReadPhase(s, w, ok);
  }

  /** A read is followed by a flush or by the main select. */
  lemma ReadPhase(s: State, w: nat, ok: bool)
    ensures var s' := ReadEffect(s, w, ok);
            s' == s || (Phases(s, w).Reading? && s' == SetWorker(s, w, s'.workers[w])
                        && (s'.workers[w].phase == Idle || s'.workers[w].phase == Flushing(false)))
  {
    hide Readable, Entries;
  }

  lemma AckShutdown(s: State, w: nat, applied: bool)
    requires ShutdownInv(s)
    ensures ShutdownInv(AckEffect(s, w, applied))
  {
  }

  lemma CloseShutdown(s: State, step: Step)
    requires ShutdownInv(s) && (step.BeginClose? || step.FinishClose? || step.Advance? || step.Offer? || step.Stop?)
    ensures ShutdownInv(Apply(s, step))
  {
  }

  lemma {:induction false} ReachedShutdown(hasRedis: bool, clock: int, steps: seq<Step>)
    ensures ShutdownInv(Reached(hasRedis, clock, steps))
    decreases |steps|
  {
    if steps != [] {
      var before, step := steps[..|steps| - 1], steps[|steps| - 1];
      ReachedShutdown(hasRedis, clock, before);
      StepShutdown(Reached(hasRedis, clock, before), step);
    }
  }

  lemma StepShutdown(s: State, step: Step)
    requires ShutdownInv(s)
    ensures ShutdownInv(Apply(s, step))
  {
    hide ShutdownInv, OfferEffect, PushEffect, ReceiveEffect, EnrichEffect, TickEffect, ReadEffect, InsertEffect,
         AckEffect, FinishCloseEffect;
    match step
    case Push(producer, pushed, trim) => PushShutdown(s, producer, pushed, trim);
    case Insert(w, inserted) => InsertShutdown(s, w, inserted);
    case Receive(_) => ChannelShutdown(s, step);
    case Enrich(_, _, _) => ChannelShutdown(s, step);
    case Tick(w) => TickShutdown(s, w);
    case Read(w, ok) => ReadShutdown(s, w, ok);
    case Ack(w, applied) => AckShutdown(s, w, applied);
    case _ => CloseShutdown(s, step);
  }

  // ------------------------------------------------------------- the drain loop ends

  /** An upper bound on the steps a worker in shutdown has left. */
  function Remaining(s: State, w: nat): nat {
    match Phases(s, w)
    case Closing => 3 + 2 * |s.channel|
    case Enriching(_, closing) => if closing then 4 + 2 * |s.channel| else 0
    case Flushing(closing) => if closing then 2 else 0
    case Acking(closing) => if closing then 1 else 0
    case _ => 0
  }

  predicate IsStepOf(step: Step, w: nat) {
    (step.Receive? || step.Enrich? || step.Tick? || step.Read? || step.Insert? || step.Ack? || step.BeginClose?
     || step.FinishClose?) && step.w == w
  }

  predicate Closed(s: State, w: nat) {
    s.stopped && HasWorker(s, w) && InShutdown(s.workers[w].phase)
  }

  predicate Closer(s: State, s': State, w: nat, own: bool) {
    && Closed(s', w)
    && Remaining(s', w) <= Remaining(s, w)
    && (own && s' != s ==> Remaining(s', w) < Remaining(s, w))
  }

  lemma ChannelCloser(s: State, step: Step, w: nat)
    requires Closed(s, w) && (step.Receive? || step.Enrich?)
    ensures Closer(s, Apply(s, step), w, IsStepOf(step, w))
  {
  }

  lemma InsertCloser(s: State, v: nat, inserted: InsertOutcome, w: nat)
    requires Closed(s, w)
    ensures Closer(s, InsertEffect(s, v, inserted), w, v == w)
  {
    hide Tags, HeldTags, CalculateFlushBackoff;
    var s' := InsertEffect(s, v, inserted);
    assert s'.channel == s.channel && s'.stopped == s.stopped;
    assert v != w ==> s'.workers[w] == s.workers[w];
  }

  lemma ReadCloser(s: State, v: nat, ok: bool, w: nat)
    requires Closed(s, w)
    ensures Closer(s, ReadEffect(s, v, ok), w, v == w)
  {
    hide Readable, Entries;
  }

  lemma AckCloser(s: State, v: nat, applied: bool, w: nat)
    requires Closed(s, w)
    ensures Closer(s, AckEffect(s, v, applied), w, v == w)
  {
  }

  lemma TickCloser(s: State, v: nat, w: nat)
    requires Closed(s, w)
    ensures Closer(s, TickEffect(s, v), w, v == w)
  {
  }

  lemma PushCloser(s: State, producer: nat, pushed: PushOutcome, trim: nat, w: nat)
    requires Closed(s, w)
    ensures Closer(s, PushEffect(s, producer, pushed, trim), w, false)
  {
  }

  lemma OtherCloser(s: State, step: Step, w: nat)
    requires Closed(s, w) && (step.BeginClose? || step.FinishClose? || step.Advance? || step.Offer? || step.Stop?)
    ensures Closer(s, Apply(s, step), w, IsStepOf(step, w))
  {
  }

  /** Its own steps bring a worker in shutdown closer to its exit; no other step sets it back. */
  lemma StepCloser(s: State, step: Step, w: nat)
    requires Closed(s, w)
    ensures Closer(s, Apply(s, step), w, IsStepOf(step, w))
  {
    hide Closer, Closed, OfferEffect, PushEffect, ReceiveEffect, EnrichEffect, TickEffect, ReadEffect, InsertEffect,
         AckEffect, FinishCloseEffect;
    match step
    case Push(producer, pushed, trim) => PushCloser(s, producer, pushed, trim, w);
    case Insert(v, inserted) => InsertCloser(s, v, inserted, w);
    case Receive(_) => ChannelCloser(s, step, w);
    case Enrich(_, _, _) => ChannelCloser(s, step, w);
    case Tick(v) => TickCloser(s, v, w);
    case Read(v, ok) => ReadCloser(s, v, ok, w);
    case Ack(v, applied) => AckCloser(s, v, applied, w);
    case _ => OtherCloser(s, step, w);
  }

  /** How many steps of a run are the given worker's and change something. */
  function OwnSteps(s: State, steps: seq<Step>, w: nat): nat
    decreases |steps|
  {
    if steps == [] then 0
    else
      var before, step := steps[..|steps| - 1], steps[|steps| - 1];
      OwnSteps(s, before, w) + if IsStepOf(step, w) && Apply(Run(s, before), step) != Run(s, before) then 1 else 0
  }

  /** A worker that has taken the done branch takes only boundedly many further steps, whatever the
      other goroutines do in between. */
  lemma {:induction false} DrainLoopEnds(s: State, steps: seq<Step>, w: nat)
    requires Closed(s, w)
    ensures Closed(Run(s, steps), w)
    ensures OwnSteps(s, steps, w) + Remaining(Run(s, steps), w) <= Remaining(s, w)
    decreases |steps|
  {
    hide Closed, Remaining, Apply;
    if steps != [] {
      var before, step := steps[..|steps| - 1], steps[|steps| - 1];
      DrainLoopEnds(s, before, w);
      StepCloser(Run(s, before), step, w);
    }
  }

  /** A worker in shutdown that has no steps left to take has exited. */
  lemma NothingRemains(s: State, w: nat)
    requires Closed(s, w)
    ensures Remaining(s, w) == 0 <==> Exits(s, w)
  {
  }

  /** In any run in which it has taken as many steps as it had left, whatever the others did, it has exited. */
  lemma ExitsWhenScheduled(s: State, steps: seq<Step>, w: nat)
    requires Closed(s, w) && OwnSteps(s, steps, w) >= Remaining(s, w)
    ensures Exits(Run(s, steps), w)
  {
    DrainLoopEnds(s, steps, w);
    NothingRemains(Run(s, steps), w);
  }

  predicate Exits(s: State, w: nat) {
    HasWorker(s, w) && s.workers[w].phase.Exited?
  }

  /** How the outside world answers a worker's next step. */
  datatype Outcomes = Outcomes(country: string, city: string, inserted: InsertOutcome, applied: bool)

  /** The step that a worker in shutdown takes next. */
  function NextStep(s: State, w: nat, o: Outcomes): Step {
    match Phases(s, w)
    case Enriching(_, _) => Enrich(w, o.country, o.city)
    case Flushing(_) => Insert(w, o.inserted)
    case Acking(_) => Ack(w, o.applied)
    case _ => if s.channel != [] then Receive(w) else FinishClose(w)
  }

  /** Until it has exited, such a worker has a step to take, whatever the outcome of the step. */
  lemma DrainNeverStuck(s: State, w: nat, o: Outcomes)
    requires Closed(s, w) && !Exits(s, w)
    ensures IsStepOf(NextStep(s, w, o), w) && Apply(s, NextStep(s, w, o)) != s
  {
    assert s.workers[w].phase == Phases(s, w);
    assert Apply(s, NextStep(s, w, o)).workers[w].phase != Phases(s, w);
  }

  /** Its next n steps, one after the other. */
  function NextSteps(s: State, w: nat, outcomes: nat -> Outcomes, n: nat): seq<Step> {
    if n == 0 then []
    else
      var before := NextSteps(s, w, outcomes, n - 1);
      before + [NextStep(Run(s, before), w, outcomes(n - 1))]
  }

  lemma OneStepMore(s: State, before: seq<Step>, step: Step, w: nat)
    ensures Run(s, before + [step]) == Apply(Run(s, before), step)
    ensures OwnSteps(s, before + [step], w)
         == OwnSteps(s, before, w) + if IsStepOf(step, w) && Apply(Run(s, before), step) != Run(s, before) then 1 else 0
  {
    assert (before + [step])[..|before|] == before;
  }

  lemma NextStepCounts(s: State, before: seq<Step>, w: nat, o: Outcomes)
    requires Closed(s, w)
    ensures var steps := before + [NextStep(Run(s, before), w, o)];
            OwnSteps(s, steps, w) == OwnSteps(s, before, w) + 1 || Exits(Run(s, steps), w)
  {
    hide Closed, Apply, NextStep, IsStepOf, Run, OwnSteps, Exits;
    var now := Run(s, before);
    var step := NextStep(now, w, o);
    OneStepMore(s, before, step, w);
    DrainLoopEnds(s, before, w);
    if Exits(now, w) { ExitIsFinal(now, step, w); } else { DrainNeverStuck(now, w, o); }
  }

  lemma {:induction false} EachStepCounts(s: State, w: nat, outcomes: nat -> Outcomes, n: nat)
    requires Closed(s, w)
    ensures OwnSteps(s, NextSteps(s, w, outcomes, n), w) >= n || Exits(Run(s, NextSteps(s, w, outcomes, n)), w)
  {
    hide Closed, Apply, NextStep, IsStepOf, Run, OwnSteps, Exits;
    if n > 0 {
      var before := NextSteps(s, w, outcomes, n - 1);
      EachStepCounts(s, w, outcomes, n - 1);
      NextStepCounts(s, before, w, outcomes(n - 1));
      if Exits(Run(s, before), w) { ExitStays(s, before, NextStep(Run(s, before), w, outcomes(n - 1)), w); }
    }
  }

  lemma ExitStays(s: State, before: seq<Step>, step: Step, w: nat)
    requires Closed(s, w) && Exits(Run(s, before), w)
    ensures Exits(Run(s, before + [step]), w)
  {
    hide Closed, Apply, Exits;
    OneStepMore(s, before, step, w);
    DrainLoopEnds(s, before, w);
    ExitIsFinal(Run(s, before), step, w);
  }

  lemma ExitIsFinal(s: State, step: Step, w: nat)
    requires Closed(s, w) && Exits(s, w)
    ensures Exits(Apply(s, step), w)
  {
    StepCloser(s, step, w);
    NothingRemains(s, w);
    NothingRemains(Apply(s, step), w);
  }

  /** Whatever the outcomes, the steps that a worker in shutdown has left lead to its exit. */
  lemma WorkerExits(s: State, w: nat, outcomes: nat -> Outcomes)
    requires Closed(s, w)
    ensures Exits(Run(s, NextSteps(s, w, outcomes, Remaining(s, w))), w)
  {
    hide Closed, Run, OwnSteps, Exits, Remaining, NextSteps;
    EachStepCounts(s, w, outcomes, Remaining(s, w));
    if OwnSteps(s, NextSteps(s, w, outcomes, Remaining(s, w)), w) >= Remaining(s, w) {
      ExitsWhenScheduled(s, NextSteps(s, w, outcomes, Remaining(s, w)), w);
    }
  }

  // ------------------------------------------------------------------ what is left

  /** Clicks the channel took never share an identity with clicks that overflowed, and a batch holds
      an overflowed click exactly as often as the worker holds its entry. */
  ghost predicate RouteInv(s: State) {
    && |s.workers| == 2
    && (forall t :: t in s.accepted ==> t < |s.offered|)
    && (forall i :: 0 <= i < |s.channel| ==> s.channel[i].tag in s.accepted)
    && (forall i :: 0 <= i < |s.pushing| ==> s.pushing[i].tag !in s.accepted)
    && (forall i :: 0 <= i < |s.issued| ==> s.issued[i].tag !in s.accepted)
    && (forall t :: t in s.lost ==> t in s.accepted)
    && RoutedBatch(s.accepted, s.issued, s.workers[0])
    && RoutedBatch(s.accepted, s.issued, s.workers[1])
  }

  ghost predicate RoutedBatch(accepted: set<nat>, issued: seq<Item>, k: Worker) {
    && (k.phase.Enriching? ==> k.phase.item.tag in accepted)
    && (forall i :: 0 <= i < |k.overflowIDs| ==> k.overflowIDs[i] < |issued|)
    && (forall t: nat :: t !in accepted ==> multiset(Tags(k.batch))[t] == HeldTags(issued, k)[t])
  }

  lemma SameEntries(issued: seq<Item>, item: Item, k: Worker)
    requires forall i :: 0 <= i < |k.overflowIDs| ==> k.overflowIDs[i] < |issued|
    ensures HeldTags(issued + [item], k) == HeldTags(issued, k)
  {
    assert Entries(issued + [item], k.overflowIDs) == Entries(issued, k.overflowIDs);
  }

  lemma RoutedGrows(accepted: set<nat>, t: nat, issued: seq<Item>, k: Worker)
    requires RoutedBatch(accepted, issued, k)
    ensures RoutedBatch(accepted + {t}, issued, k)
  {
  }

  lemma OfferRoutes(s: State, event: ClickEvent)
    requires RouteInv(s) && ContentInv(s)
    ensures RouteInv(OfferEffect(s, event))
  {
    hide RoutedBatch;
    RoutedGrows(s.accepted, |s.offered|, s.issued, s.workers[0]);
    RoutedGrows(s.accepted, |s.offered|, s.issued, s.workers[1]);
  }

  lemma StoreRoutes(s: State, item: Item, trim: nat)
    requires RouteInv(s) && trim <= |s.stream| && item.tag !in s.accepted
    ensures RouteInv(Store(s, item, trim))
  {
    SameEntries(s.issued, item, s.workers[0]);
    SameEntries(s.issued, item, s.workers[1]);
  }

  lemma PushRoutes(s: State, producer: nat, pushed: PushOutcome, trim: nat)
    requires RouteInv(s)
    ensures RouteInv(PushEffect(s, producer, pushed, trim))
  {
    if CanPush(s, producer, pushed, trim) {
      assert RouteInv(Taken(s, producer));
      if !pushed.Refused? { StoreRoutes(Taken(s, producer), s.pushing[producer], trim); }
    }
  }

  lemma WorkerRoutes(s: State, w: nat, k: Worker)
    requires RouteInv(s) && w < 2 && RoutedBatch(s.accepted, s.issued, k)
    ensures RouteInv(SetWorker(s, w, k))
  {
    hide RoutedBatch;
  }

  lemma PhaseRouted(accepted: set<nat>, issued: seq<Item>, k: Worker, k': Worker)
    requires RoutedBatch(accepted, issued, k) && k'.batch == k.batch && k'.overflowIDs == k.overflowIDs
    requires k'.phase.Enriching? ==> k'.phase.item.tag in accepted
    ensures RoutedBatch(accepted, issued, k')
  {
    hide Tags;
  }

  lemma ReceiveRoutes(s: State, w: nat)
    requires RouteInv(s)
    ensures RouteInv(ReceiveEffect(s, w))
  {
    hide RoutedBatch, Tags, HeldTags;
    var s' := ReceiveEffect(s, w);
    if s' != s {
      PhaseRouted(s.accepted, s.issued, s.workers[w], s'.workers[w]);
      WorkerRoutes(s, w, s'.workers[w]);
      TailRoutes(SetWorker(s, w, s'.workers[w]));
    }
  }

  lemma TailRoutes(s: State)
    requires RouteInv(s) && s.channel != []
    ensures RouteInv(s.(channel := s.channel[1..]))
  {
    hide RoutedBatch;
  }

  lemma EnrichedRouted(accepted: set<nat>, issued: seq<Item>, k: Worker, k': Worker, item: Item)
    requires RoutedBatch(accepted, issued, k) && item.tag in accepted && k'.batch == k.batch + [item]
    requires k'.overflowIDs == k.overflowIDs && !k'.phase.Enriching?
    ensures RoutedBatch(accepted, issued, k')
  {
    TagsConcat(k.batch, [item]);
    assert Tags([item]) == [item.tag];
    hide Tags, Entries;
  }

  lemma EnrichRoutes(s: State, w: nat, country: string, city: string)
    requires RouteInv(s)
    ensures RouteInv(EnrichEffect(s, w, country, city))
  {
    var s' := EnrichEffect(s, w, country, city);
    if s' != s {
      var k, k' := s.workers[w], s'.workers[w];
      assert k.phase.item.tag in s.accepted;
      hide RoutedBatch;
      EnrichedRouted(s.accepted, s.issued, k, k', k'.batch[|k.batch|]);
      WorkerRoutes(s, w, k');
    }
  }

  lemma PhaseRoutes(s: State, w: nat, phase: Phase)
    requires RouteInv(s) && HasWorker(s, w) && !phase.Enriching?
    ensures RouteInv(SetWorker(s, w, s.workers[w].(phase := phase)))
  {
    hide RoutedBatch;
    PhaseRouted(s.accepted, s.issued, s.workers[w], s.workers[w].(phase := phase));
    WorkerRoutes(s, w, s.workers[w].(phase := phase));
  }

  lemma LoadedRoutes(s: State, ids: seq<nat>)
    requires RouteInv(s) && s.workers[0].overflowIDs == []
    requires forall i :: 0 <= i < |ids| ==> ids[i] < |s.issued|
    ensures RouteInv(SetWorker(s, 0, Loaded(s.workers[0], s.issued, ids)))
  {
    var k := s.workers[0];
    TagsConcat(k.batch, Entries(s.issued, ids));
    assert k.overflowIDs + ids == ids;
    WorkerRoutes(s, 0, Loaded(k, s.issued, ids));
  }

  lemma ReadRoutes(s: State, w: nat, ok: bool)
    requires RouteInv(s) && Inv(s)
    ensures RouteInv(ReadEffect(s, w, ok))
  {
    hide RouteInv;
    if Phases(s, w).Reading? && |s.workers[w].batch| < FULL_BATCH {
      ReadIsLoad(s, w, ok);
      if ok {
        LoadedRoutes(s, Readable(s.stream, |s.workers[w].batch|));
      } else {
        PhaseRoutes(s, w, FlushIfAny(s.workers[w]).phase);
      }
    }
  }

  lemma EmptyRoutes(s: State, w: nat, k: Worker)
    requires RouteInv(s) && w < 2 && k.batch == [] && k.overflowIDs == [] && !k.phase.Enriching?
    ensures RouteInv(SetWorker(s, w, k))
  {
    WorkerRoutes(s, w, k);
  }

  lemma KeptRoutes(s: State, w: nat, k: Worker)
    requires RouteInv(s) && HasWorker(s, w) && !k.phase.Enriching?
    requires k.batch == s.workers[w].batch && k.overflowIDs == s.workers[w].overflowIDs
    ensures RouteInv(SetWorker(s, w, k))
  {
    hide RoutedBatch;
    PhaseRouted(s.accepted, s.issued, s.workers[w], k);
    WorkerRoutes(s, w, k);
  }

  lemma CarriedIsRouted(accepted: set<nat>, issued: seq<Item>, k: Worker, t: nat)
    requires RoutedBatch(accepted, issued, k) && t in multiset(Tags(k.batch)) - HeldTags(issued, k)
    ensures t in accepted
  {
    hide HeldTags, Tags;
  }

  lemma InsertRoutes(s: State, w: nat, inserted: InsertOutcome)
    requires RouteInv(s)
    ensures RouteInv(InsertEffect(s, w, inserted))
  {
    hide RoutedBatch, HeldTags, Tags;
    if Phases(s, w).Flushing? {
      var k := s.workers[w];
      if inserted.Committed? {
        PhaseRoutes(s, w, Acking(k.phase.closing));
      } else if k.phase.closing {
        EmptyRoutes(s, w, ExitedWorker(k));
        forall t | t in multiset(Tags(k.batch)) - HeldTags(s.issued, k) ensures t in s.accepted {
          CarriedIsRouted(s.accepted, s.issued, k, t);
        }
      } else {
        KeptRoutes(s, w, Failed(k, s.clock));
      }
    }
  }

  lemma AckRoutes(s: State, w: nat, applied: bool)
    requires RouteInv(s)
    ensures RouteInv(AckEffect(s, w, applied))
  {
    if Phases(s, w).Acking? {
      EmptyRoutes(s, w, AckEffect(s, w, applied).workers[w]);
    }
  }

  lemma TickRoutes(s: State, step: Step)
    requires RouteInv(s) && (step.Tick? || step.BeginClose?)
    ensures RouteInv(Apply(s, step))
  {
    var s' := Apply(s, step);
    if s' != s { PhaseRoutes(s, step.w, s'.workers[step.w].phase); }
  }

  lemma FinishRoutes(s: State, w: nat)
    requires RouteInv(s)
    ensures RouteInv(FinishCloseEffect(s, w))
  {
    if Phases(s, w).Closing? && s.channel == [] {
      if |s.workers[w].batch| > 0 {
        PhaseRoutes(s, w, Flushing(true));
      } else {
        EmptyRoutes(s, w, ExitedWorker(s.workers[w]));
      }
    }
  }

  lemma StepRoutes(s: State, step: Step)
    requires RouteInv(s) && Inv(s)
    ensures RouteInv(Apply(s, step))
  {
    hide OfferEffect, PushEffect, ReceiveEffect, EnrichEffect, TickEffect, ReadEffect, InsertEffect, AckEffect,
         FinishCloseEffect;
    match step
    case Advance(_) =>
    case Stop =>
    case Offer(event) => OfferRoutes(s, event);
    case Push(producer, pushed, trim) => PushRoutes(s, producer, pushed, trim);
    case Receive(w) => ReceiveRoutes(s, w);
    case Enrich(w, country, city) => EnrichRoutes(s, w, country, city);
    case Read(w, ok) => ReadRoutes(s, w, ok);
    case Insert(w, inserted) => InsertRoutes(s, w, inserted);
    case Ack(w, applied) => AckRoutes(s, w, applied);
    case FinishClose(w) => FinishRoutes(s, w);
    case _ => TickRoutes(s, step);
  }

  lemma {:induction false} ReachedRoutes(hasRedis: bool, clock: int, steps: seq<Step>)
    ensures RouteInv(Reached(hasRedis, clock, steps))
    decreases |steps|
  {
    if steps != [] {
      var before, step := steps[..|steps| - 1], steps[|steps| - 1];
      ReachedRoutes(hasRedis, clock, before);
      ReachedInv(hasRedis, clock, before);
      StepRoutes(Reached(hasRedis, clock, before), step);
    }
  }

  /** Only clicks the channel took, in a batch whose last flush failed, are ever lost; and only after
      Stop. A click the stream accepted is not among them. */
  lemma OnlyChannelClicksAreLost(hasRedis: bool, clock: int, steps: seq<Step>, t: nat)
    requires t in Reached(hasRedis, clock, steps).lost
    ensures var s := Reached(hasRedis, clock, steps);
            && s.stopped
            && t in s.accepted
            && (forall id :: 0 <= id < |s.issued| ==> s.issued[id].tag != t)
  {
    ReachedRoutes(hasRedis, clock, steps);
    ReachedShutdown(hasRedis, clock, steps);
  }

  /** Before Stop nothing is lost: every offered click is located. */
  lemma LocatedBeforeStop(hasRedis: bool, clock: int, steps: seq<Step>, t: nat)
    requires t < |Reached(hasRedis, clock, steps).offered| && !Reached(hasRedis, clock, steps).stopped
    ensures |Reached(hasRedis, clock, steps).workers| == 2 && Located(Reached(hasRedis, clock, steps), t)
  {
    hide Located;
    NothingVanishes(hasRedis, clock, steps, t);
    ReachedShutdown(hasRedis, clock, steps);
  }

  /** When both workers have exited the channel is empty, and every click is in the table, still in
      the stream, dropped, trimmed, or one of the channel's clicks in a failed last flush. */
  lemma AfterShutdown(hasRedis: bool, clock: int, steps: seq<Step>, t: nat)
    requires Phases(Reached(hasRedis, clock, steps), 0).Exited? && Phases(Reached(hasRedis, clock, steps), 1).Exited?
    requires t < |Reached(hasRedis, clock, steps).offered|
    ensures var s := Reached(hasRedis, clock, steps);
            && s.channel == [] && s.pushing == []
            && (t in Tags(s.table) || InStream(s, t) || t in s.dropped || WasTrimmed(s, t)
                || (t in s.lost && t in s.accepted))
  {
    hide Reached, Run;
    NothingVanishes(hasRedis, clock, steps, t);
    ReachedShutdown(hasRedis, clock, steps);
    ReachedLoops(hasRedis, clock, steps);
    if t in Reached(hasRedis, clock, steps).lost { OnlyChannelClicksAreLost(hasRedis, clock, steps, t); }
  }
}
