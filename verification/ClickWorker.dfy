/** The click worker's own code, proved to follow the step system of module Pipeline.

    Every outcome of the outside world is a parameter: what Redis and PostgreSQL answered, what the
    location lookup found, how much time passed. `Model` is the state of the step system that the
    fields stand for, and each method says which steps its call amounts to. */
module ClickWorkerCode {
  import opened Domain
  import opened Pipeline
  import opened PipelineInvariant

  /** The local variables of one `process` goroutine. */
  class Goroutine {
    const id: nat
    var batch: seq<Item>
    var overflowIDs: seq<nat>
    var consecutiveFlushFailures: nat
    var nextFlushAttempt: Option<int>
    ghost var failedAt: seq<int>
    var phase: Phase             // the program counter

    constructor (id: nat)
      ensures this.id == id && Local() == NewWorker()
    {
      this.id := id;
      batch, overflowIDs := [], [];
      consecutiveFlushFailures, nextFlushAttempt := 0, None;
      failedAt, phase := [], Idle;
    }

    /** What a worker remembers of a flush. */
    method AfterFlush(inserted: InsertOutcome, closing: bool, clock: int)
      modifies this
      ensures Local() == if inserted.Committed? then old(Local()).(phase := Acking(closing))
                         else if closing then ExitedWorker(old(Local()))
                         else Failed(old(Local()), clock)
      ensures phase == if inserted.Committed? then Acking(closing) else if closing then Exited else Idle
    {
      if inserted.Committed? {
        phase := Acking(closing);
      } else if closing {
        phase, batch, overflowIDs := Exited, [], [];
      } else {
        phase := Idle;
        consecutiveFlushFailures := consecutiveFlushFailures + 1;
        nextFlushAttempt := Some(clock + CalculateFlushBackoff(consecutiveFlushFailures));
        failedAt := failedAt + [clock];
      }
    }

    /** A successful flush leaves an empty batch and no failures. */
    method Reset(closing: bool)
      modifies this
      ensures Local() == if closing then ExitedWorker(old(Local())) else NewWorker()
      ensures phase == if closing then Exited else Idle
    {
      batch, overflowIDs := [], [];
      if closing {
        phase := Exited;
      } else {
        consecutiveFlushFailures, nextFlushAttempt := 0, None;
        failedAt, phase := [], Idle;
      }
    }

    ghost function Local(): Worker
      reads this
    {
      Worker(phase, batch, overflowIDs, consecutiveFlushFailures, nextFlushAttempt, failedAt)
    }
  }

  /** What woke the main select, with the outcomes of the calls that follow. */
  datatype Wake =
    | Event(country: string, city: string, lookup: nat, inserted: InsertOutcome, insertion: nat, applied: bool)
    | Ticker(read: bool, inserted: InsertOutcome, insertion: nat, applied: bool)
    | Report
    | Done(geo: nat -> (string, string), inserted: InsertOutcome, insertion: nat, applied: bool)

  // ---------------------------------------------------- the branches as step sequences

  function FlushSteps(s: State, w: nat, inserted: InsertOutcome, insertion: nat, applied: bool): State {
    Apply(Apply(Apply(s, Advance(insertion)), Insert(w, inserted)), Ack(w, applied))
  }

  function EventSteps(s: State, w: nat, country: string, city: string, lookup: nat): State {
    Apply(Apply(Apply(s, Receive(w)), Advance(lookup)), Enrich(w, country, city))
  }

  function TickSteps(s: State, w: nat, read: bool): State {
    Apply(Apply(s, Tick(w)), Read(w, read))
  }

  /** Receiving and locating the clicks in the channel one after the other until it is empty. */
  function DrainSteps(s: State, w: nat, geo: nat -> (string, string)): State
    decreases |s.channel|
  {
    if s.channel == [] || !Phases(s, w).Closing? then s
    else
      var found := geo(s.channel[0].tag);
      DrainSteps(Apply(Apply(s, Receive(w)), Enrich(w, found.0, found.1)), w, geo)
  }

  function DoneSteps(s: State, w: nat, geo: nat -> (string, string), inserted: InsertOutcome, insertion: nat,
                     applied: bool): State {
    FlushSteps(Apply(DrainSteps(Apply(s, BeginClose(w)), w, geo), FinishClose(w)), w, inserted, insertion, applied)
  }

  function WakeSteps(s: State, w: nat, wake: Wake): State {
    match wake
    case Event(country, city, lookup, inserted, insertion, applied) =>
      FlushSteps(EventSteps(s, w, country, city, lookup), w, inserted, insertion, applied)
    case Ticker(read, inserted, insertion, applied) =>
      FlushSteps(TickSteps(s, w, read), w, inserted, insertion, applied)
    case Report => s
    case Done(geo, inserted, insertion, applied) => DoneSteps(s, w, geo, inserted, insertion, applied)
  }

  /** The select cannot choose a branch that is not ready. */
  predicate Ready(s: State, wake: Wake) {
    (wake.Event? ==> s.channel != []) && (wake.Done? ==> s.stopped)
  }

  class ClickWorker {
    const hasRedis: bool
    const workers: seq<Goroutine>
    var eventChan: seq<Item>
    var done: bool
    var droppedEvents: nat

    // the outside world: the clock, the Redis stream and the click_events table
    var clock: int
    var issued: seq<Item>
    var stream: seq<nat>
    var clickEvents: seq<Item>
    var offered: seq<ClickEvent>
    var pushing: seq<Item>       // the clicks of Enqueue calls that found the channel full

    ghost var accepted: set<nat>
    ghost var acked: set<nat>
    ghost var trimmed: set<nat>
    ghost var dropped: seq<nat>
    ghost var miscounted: seq<nat>
    ghost var lost: multiset<nat>

    constructor (hasRedis: bool, clock: int)
      ensures Valid() && Model() == Init(hasRedis, clock) && fresh(workers[0]) && fresh(workers[1])
    {
      var first := new Goroutine(0);
      var second := new Goroutine(1);
      this.hasRedis := hasRedis;
      this.workers := [first, second];
      this.clock := clock;
      eventChan, done, droppedEvents := [], false, 0;
      issued, stream, clickEvents, offered := [], [], [], [];
      pushing, accepted, acked, trimmed, dropped, miscounted, lost := [], {}, {}, {}, [], [], multiset{};
      new;
      InitInv(hasRedis, clock);
    }

    ghost predicate Shape()
      reads this, workers
    {
      && |workers| == 2
      && workers[0] != workers[1]
      && workers[0].id == 0 && workers[1].id == 1
    }

    ghost predicate Valid()
      reads this, workers
    {
      Shape() && Inv(Model())
    }

    ghost function Model(): State
      requires Shape()
      reads this, workers
    {
      State(hasRedis, clock, done, offered, accepted, eventChan, pushing, [workers[0].Local(), workers[1].Local()],
            issued, stream, acked, trimmed, clickEvents, dropped, miscounted, droppedEvents, lost)
    }

    lemma LocalIs(p: Goroutine)
      requires Shape() && p in workers
      ensures HasWorker(Model(), p.id) && Model().workers[p.id] == p.Local() && Phases(Model(), p.id) == p.phase
    {
    }

    /** Changing one goroutine's variables changes that worker of the model. */
    twostate lemma OnlyWorker(p: Goroutine)
      requires old(Shape()) && p in workers
      requires unchanged(this)
      requires forall q :: q in workers && q != p ==> unchanged(q)
      ensures Shape() && Model() == SetWorker(old(Model()), p.id, p.Local())
    {
      assert workers[0] in workers && workers[1] in workers;
      assert p == workers[p.id];
      assert workers[1 - p.id].Local() == old(workers[1 - p.id].Local());
      assert Model().workers == old(Model()).workers[p.id := p.Local()];
    }

    /** Changing the table, the stream and what is recorded of them leaves the rest of the model. */
    twostate lemma OnlyStores()
      requires old(Shape()) && unchanged(workers)
      requires unchanged(this`clock, this`issued, this`offered, this`eventChan, this`done, this`droppedEvents)
      requires unchanged(this`pushing, this`accepted, this`trimmed, this`dropped, this`miscounted)
      ensures Shape() && Model() == old(Model()).(table := clickEvents, lost := lost, stream := stream, acked := acked)
    {
      assert workers[0] in workers && workers[1] in workers;
      assert workers[0].Local() == old(workers[0].Local()) && workers[1].Local() == old(workers[1].Local());
    }

    // ----------------------------------------------------------------- producers

    method PushOverflowEvent(item: Item, pushed: PushOutcome, trim: nat) returns (ok: bool)
      requires Shape() && Possible(pushed, trim)
      modifies this`issued, this`stream, this`trimmed
      ensures ok <==> hasRedis && pushed.Stored?
      ensures Model() == if hasRedis && !pushed.Refused? then Store(old(Model()), item, trim) else old(Model())
    {
      if !hasRedis {
        return false;
      }
      if !pushed.Refused? {
        trimmed := trimmed + (set i | 0 <= i < trim :: stream[i]);
        stream := stream[trim..] + [|issued|];
        issued := issued + [item];
      }
      return pushed.Stored?;
    }

    /** The non-blocking send. A click it does not take is in the producer's hands. */
    method TrySend(event: ClickEvent) returns (item: Item, sent: bool)
      requires Valid() && !done
      modifies this`offered, this`eventChan, this`accepted, this`pushing
      ensures Valid() && Model() == Apply(old(Model()), Offer(event))
      ensures pushing == old(pushing) + if sent then [] else [item]
    {
      hide Inv;
      StepKeepsInv(Model(), Offer(event));
      item := Item(|offered|, event);
      sent := |eventChan| < CHANNEL_CAPACITY;
      offered := offered + [event];
      if sent {
        eventChan := eventChan + [item];
        accepted := accepted + {item.tag};
      } else {
        pushing := pushing + [item];
      }
      assert Model() == Apply(old(Model()), Offer(event));
    }

    method CountDropped(item: Item, ghost stored: bool)
      requires Shape()
      modifies this`droppedEvents, this`dropped, this`miscounted
      ensures Model() == if stored then Counted(old(Model())).(miscounted := old(miscounted) + [item.tag])
                         else Drop(old(Model()), item.tag)
    {
      droppedEvents := (droppedEvents + 1) % TWO_TO_THE_64;
      if stored {
        miscounted := miscounted + [item.tag];
      } else {
        dropped := dropped + [item.tag];
      }
    }

    /** The outcome of a push: without Redis it is refused. */
    predicate Possible(pushed: PushOutcome, trim: nat)
      reads this`stream
    {
      (pushed.Refused? ==> trim == 0) && (trim > 0 ==> |stream| + 1 - trim >= STREAM_CAP)
    }

    /** A producer's click goes to the stream or is counted as dropped. */
    method SendToOverflow(producer: nat, pushed: PushOutcome, trim: nat)
      requires Valid() && producer < |pushing| && Possible(pushed, trim)
      modifies this`issued, this`stream, this`trimmed, this`pushing, this`droppedEvents, this`dropped, this`miscounted
      ensures Valid() && pushing == old(pushing[..producer] + pushing[producer + 1..])
      ensures Model() == Apply(old(Model()), if hasRedis then Push(producer, pushed, trim)
                               else Push(producer, Refused, 0))
    {
      hide Inv, Store, Drop, Counted;
      StepKeepsInv(Model(), if hasRedis then Push(producer, pushed, trim) else Push(producer, Refused, 0));
      assert CanPush(Model(), producer, if hasRedis then pushed else Refused, if hasRedis then trim else 0);
      var item := pushing[producer];
      pushing := pushing[..producer] + pushing[producer + 1..];
      assert Model() == Taken(old(Model()), producer);
      var ok := PushOverflowEvent(item, pushed, trim);
      if !ok {
        CountDropped(item, hasRedis && pushed.StoredUnconfirmed?);
      }
    }

    /** The channel takes the click, or else the stream, or else it is counted as dropped. */
    method Enqueue(event: ClickEvent, pushed: PushOutcome, trim: nat)
      requires Valid() && !done && pushing == [] && Possible(pushed, trim)
      modifies this
      ensures Valid() && pushing == []
      ensures Model() == Apply(Apply(old(Model()), Offer(event)),
                               if hasRedis then Push(0, pushed, trim) else Push(0, Refused, 0))
    {
      hide Inv, OfferEffect;
      var item, sent := TrySend(event);
      if !sent {
        SendToOverflow(0, pushed, trim);
      }
    }

    /** close(w.done). */
    method CloseDone()
      requires Valid() && pushing == []
      modifies this`done
      ensures Valid() && Model() == Apply(old(Model()), Pipeline.Stop)
    {
      ghost var s := Model();
      StepKeepsInv(s, Pipeline.Stop);
      done := true;
    }
  
    // ------------------------------------------------------------------- workers

    /** The receive from the channel. */
    method TakeEvent(p: Goroutine) returns (item: Item)
      requires Valid() && p in workers && (p.phase.Idle? || p.phase.Closing?) && eventChan != []
      modifies this`eventChan, p`phase
      ensures Valid() && Model() == Apply(old(Model()), Receive(p.id))
      ensures item == old(eventChan[0]) && p.phase == Enriching(item, old(p.phase.Closing?))
      ensures eventChan == old(eventChan[1..])
    {
      hide Inv;
      StepKeepsInv(Model(), Receive(p.id));
      item := eventChan[0];
      p.phase := Enriching(item, p.phase.Closing?);
      OnlyWorker(p);
      eventChan := eventChan[1..];
    }

    method Wait(elapsed: nat)
      requires Valid()
      modifies this`clock
      ensures Valid() && Model() == Apply(old(Model()), Advance(elapsed))
    {
      hide Inv;
      StepKeepsInv(Model(), Advance(elapsed));
      clock := clock + elapsed;
    }

    /** The event with its location joins the batch; the main loop then flushes a full batch unless a
        backoff is pending. */
    method AppendEvent(p: Goroutine, item: Item, country: string, city: string, closing: bool) returns (full: bool)
      requires Valid() && p in workers && p.phase == Enriching(item, closing)
      modifies p`batch, p`phase
      ensures Valid() && Model() == Apply(old(Model()), Enrich(p.id, country, city))
      ensures p.phase == if full then Flushing(false) else if closing then Closing else Idle
      ensures |p.batch| == |old(p.batch)| + 1 && (closing ==> !full)
      ensures var last := p.batch[|p.batch| - 1];
              last.tag == item.tag && last.event.country == country && last.event.city == city
    {
      hide Inv;
      StepKeepsInv(Model(), Enrich(p.id, country, city));
      LocalIs(p);
      ghost var k' := EnrichEffect(Model(), p.id, country, city).workers[p.id];
      var event := item.event.(country := country, city := city);
      p.batch := p.batch + [item.(event := event)];
      full := !closing && |p.batch| >= 100 && (p.nextFlushAttempt.None? || p.nextFlushAttempt.value <= clock);
      p.phase := if full then Flushing(false) else if closing then Closing else Idle;
      OnlyWorker(p);
      assert p.Local() == k';
    }

    /** Entries at the head of the stream join the batch, each with its id. */
    method DrainOverflowIntoBatch(p: Goroutine, ok: bool)
      requires Shape() && p in workers && forall i :: 0 <= i < |stream| ==> stream[i] < |issued|
      modifies p`batch, p`overflowIDs
      ensures var taken := if !hasRedis || |old(p.batch)| >= 100 || |old(p.overflowIDs)| > 0 || !ok then []
                           else Readable(stream, |old(p.batch)|);
              && p.overflowIDs == old(p.overflowIDs) + taken
              && p.batch == old(p.batch) + Entries(issued, taken)
    {
      if !hasRedis || |p.batch| >= 100 || |p.overflowIDs| > 0 {
        return;
      }
      var remaining := 100 - |p.batch|;
      if !ok {
        return;
      }
      var entries := if |stream| <= remaining then stream else stream[..remaining];
      for i := 0 to |entries|
        invariant p.overflowIDs == old(p.overflowIDs) + entries[..i]
        invariant p.batch == old(p.batch) + Entries(issued, entries[..i])
      {
        assert entries[..i + 1] == entries[..i] + [entries[i]];
        p.batch := p.batch + [issued[entries[i]]];
        p.overflowIDs := p.overflowIDs + [entries[i]];
      }
    }
  
    /** A tick outside any backoff; worker 0 then reads the stream if its batch has room and it holds no entry. */
    method BeginTick(p: Goroutine)
      requires Valid() && p in workers && p.phase.Idle?
      modifies p`phase
      ensures Valid() && Model() == Apply(old(Model()), Tick(p.id))
      ensures !p.phase.Enriching? && !p.phase.Acking? && !InClosing(p.phase)
      ensures p.phase.Reading? ==> |p.batch| < 100
    {
      hide Inv;
      StepKeepsInv(Model(), Tick(p.id));
      LocalIs(p);
      if p.nextFlushAttempt.Some? && clock < p.nextFlushAttempt.value {
        return;
      }
      if p.id == 0 && hasRedis && |p.batch| < 100 && |p.overflowIDs| == 0 {
        p.phase := Reading;
      } else {
        p.phase := if |p.batch| > 0 then Flushing(false) else Idle;
      }
      OnlyWorker(p);
    }

    method ReadStream(p: Goroutine, ok: bool)
      requires Valid() && p in workers && p.phase.Reading? && |p.batch| < 100
      modifies p
      ensures Valid() && Model() == Apply(old(Model()), Read(p.id, ok))
      ensures p.phase == if |p.batch| > 0 then Flushing(false) else Idle
    {
      hide Inv, Readable;
      StepKeepsInv(Model(), Read(p.id, ok));
      StreamIsIssued(Model());
      LocalIs(p);
      ReadingHoldsNone(Model(), p.id);
      ghost var k := p.Local();
      DrainOverflowIntoBatch(p, ok);
      p.phase := if |p.batch| > 0 then Flushing(false) else Idle;
      OnlyWorker(p);
      assert p.Local() == if ok then Loaded(k, issued, Readable(stream, |k.batch|)) else FlushIfAny(k);
    }

    /** The tick branch up to its flush: worker 0 drains the stream, then what there is is flushed. */
    method PrepareTick(p: Goroutine, read: bool) returns (flush: bool)
      requires Valid() && p in workers && p.phase.Idle?
      modifies p
      ensures Valid() && Model() == TickSteps(old(Model()), p.id, read)
      ensures p.phase == if flush then Flushing(false) else Idle
    {
      hide Inv, TickEffect, ReadEffect;
      BeginTick(p);
      LocalIs(p);
      if p.phase.Reading? {
        ReadStream(p, read);
      } else {
        NotReading(Model(), p.id, read);
      }
      flush := p.phase.Flushing?;
    }

    /** BatchInsert; its answer may hide that the rows were stored. */
    method Flush(batch: seq<Item>, inserted: InsertOutcome) returns (ok: bool)
      modifies this`clickEvents
      ensures clickEvents == if inserted.Rejected? then old(clickEvents) else old(clickEvents) + batch
      ensures ok <==> inserted.Committed?
    {
      if !inserted.Rejected? {
        clickEvents := clickEvents + batch;
      }
      return inserted.Committed?;
    }

    /** A failed flush starts a backoff, or ends a worker that is shutting down. */
    method FlushBatch(p: Goroutine, inserted: InsertOutcome, closing: bool) returns (ok: bool)
      requires Valid() && p in workers && p.phase == Flushing(closing)
      modifies this`clickEvents, this`lost, p
      ensures Valid() && Model() == Apply(old(Model()), Insert(p.id, inserted))
      ensures ok <==> inserted.Committed?
      ensures p.phase == if ok then Acking(closing) else if closing then Exited else Idle
    {
      hide Inv, InsertEffect, HeldTags, Tags, Failed, ExitedWorker, SetWorker;
      ghost var s, k := Model(), p.Local();
      StepKeepsInv(s, Insert(p.id, inserted));
      LocalIs(p);
      InsertIs(s, p.id, inserted);
      ghost var s' := InsertEffect(s, p.id, inserted);
      assert Apply(s, Insert(p.id, inserted)) == s';
      hide Apply, HasWorker, Phases;
      var batch := p.batch;
      p.AfterFlush(inserted, closing, clock);
      assert p.Local() == s'.workers[p.id];
      OnlyWorker(p);
      label moved:
      lost := if closing && !inserted.Committed? then lost + (multiset(Tags(k.batch)) - HeldTags(issued, k)) else lost;
      ok := Flush(batch, inserted);
      OnlyStores@moved();
      assert Model() == s';
    }

    /** XDEL, if there is anything to acknowledge. */
    method AckOverflowEntries(ids: seq<nat>, applied: bool)
      requires Shape()
      modifies this`stream, this`acked
      ensures stream == if hasRedis && applied then Without(old(stream), ids) else old(stream)
      ensures acked == if hasRedis && applied then old(acked) + (set i | 0 <= i < |ids| :: ids[i]) else old(acked)
    {
      if !hasRedis || |ids| == 0 {
        WithoutNone(stream, []);
        return;
      }
      if applied {
        stream := Without(stream, ids);
        acked := acked + (set i | 0 <= i < |ids| :: ids[i]);
      }
    }

    /** After a successful flush: acknowledge, then start over with an empty batch, or exit. */
    method AckAndReset(p: Goroutine, applied: bool, closing: bool)
      requires Valid() && p in workers && p.phase == Acking(closing)
      modifies this`stream, this`acked, p
      ensures Valid() && Model() == Apply(old(Model()), Ack(p.id, applied))
      ensures p.phase == if closing then Exited else Idle
    {
      hide Inv, AckEffect, Without, ExitedWorker, NewWorker, SetWorker;
      ghost var s := Model();
      StepKeepsInv(s, Ack(p.id, applied));
      LocalIs(p);
      AckIs(s, p.id, applied);
      var ids := p.overflowIDs;
      p.Reset(closing);
      OnlyWorker(p);
      label moved:
      AckOverflowEntries(ids, applied);
      OnlyStores@moved();
    }

    method FlushAndAck(p: Goroutine, inserted: InsertOutcome, insertion: nat, applied: bool, flush: bool, closing: bool)
      requires Valid() && p in workers
      requires p.phase == if flush then Flushing(closing) else if closing then Exited else Idle
      modifies this, p
      ensures Valid() && Model() == FlushSteps(old(Model()), p.id, inserted, insertion, applied)
      ensures p.phase == if closing then Exited else Idle
      ensures eventChan == old(eventChan) && done == old(done) && pushing == old(pushing)
    {
      hide Inv, AckEffect, InsertEffect;
      Wait(insertion);
      if flush {
        var ok := FlushBatch(p, inserted, closing);
        if ok {
          AckAndReset(p, applied, closing);
        } else {
          NoAck(Model(), p.id, applied);
        }
      } else {
        NoFlush(Model(), p.id, inserted, applied);
      }
    }

    /** The receive branch of the main select. */
    method OnEvent(p: Goroutine, country: string, city: string, lookup: nat, inserted: InsertOutcome, insertion: nat,
                   applied: bool)
      requires Valid() && p in workers && p.phase.Idle? && eventChan != []
      modifies this, p
      ensures Valid() && p.phase.Idle? && done == old(done) && pushing == old(pushing)
      ensures Model() == FlushSteps(EventSteps(old(Model()), p.id, country, city, lookup), p.id, inserted, insertion,
                                    applied)
    {
      hide Inv, ReceiveEffect, EnrichEffect, FlushSteps;
      var item := TakeEvent(p);
      Wait(lookup);
      var full := AppendEvent(p, item, country, city, false);
      assert Model() == EventSteps(old(Model()), p.id, country, city, lookup);
      FlushAndAck(p, inserted, insertion, applied, full, false);
    }

    /** The ticker branch of the main select. */
    method OnTick(p: Goroutine, read: bool, inserted: InsertOutcome, insertion: nat, applied: bool)
      requires Valid() && p in workers && p.phase.Idle?
      modifies this, p
      ensures Valid() && p.phase.Idle? && done == old(done) && pushing == old(pushing)
      ensures Model() == FlushSteps(TickSteps(old(Model()), p.id, read), p.id, inserted, insertion, applied)
    {
      hide Inv, TickSteps, FlushSteps;
      var flush := PrepareTick(p, read);
      FlushAndAck(p, inserted, insertion, applied, flush, false);
    }

    /** One round of the inner loop of the done branch. */
    method DrainOne(p: Goroutine, geo: nat -> (string, string))
      requires Valid() && p in workers && p.phase.Closing? && eventChan != []
      modifies this`eventChan, p
      ensures Valid() && p.phase.Closing? && |eventChan| < |old(eventChan)|
      ensures var found := geo(old(eventChan[0]).tag);
              Model() == Apply(Apply(old(Model()), Receive(p.id)), Enrich(p.id, found.0, found.1))
    {
      hide Inv, ReceiveEffect, EnrichEffect;
      var item := TakeEvent(p);
      var found := geo(item.tag);
      var full := AppendEvent(p, item, found.0, found.1, true);
    }

    method DrainChannel(p: Goroutine, geo: nat -> (string, string))
      requires Valid() && p in workers && p.phase.Closing?
      modifies this`eventChan, p
      ensures Valid() && p.phase.Closing? && eventChan == []
      ensures Model() == DrainSteps(old(Model()), p.id, geo)
    {
      hide Inv, Apply, DrainSteps;
      while eventChan != []
        invariant Valid() && p.phase.Closing?
        invariant DrainSteps(Model(), p.id, geo) == DrainSteps(old(Model()), p.id, geo)
        decreases |eventChan|
      {
        LocalIs(p);
        DrainUnfolds(Model(), p.id, geo);
        DrainOne(p, geo);
      }
      LocalIs(p);
      DrainUnfolds(Model(), p.id, geo);
    }

    /** The done branch: empty the channel into the batch, flush once, exit. */
    method OnDone(p: Goroutine, geo: nat -> (string, string), inserted: InsertOutcome, insertion: nat, applied: bool)
      requires Valid() && p in workers && p.phase.Idle? && done
      modifies this, p
      ensures Valid() && p.phase.Exited? && eventChan == [] && pushing == old(pushing)
      ensures Model() == DoneSteps(old(Model()), p.id, geo, inserted, insertion, applied)
    {
      hide Inv, FlushSteps, FinishCloseEffect, DrainSteps;
      StartClosing(p);
      DrainChannel(p, geo);
      var flush := FinishClosing(p);
      FlushAndAck(p, inserted, insertion, applied, flush, true);
    }

    method StartClosing(p: Goroutine)
      requires Valid() && p in workers && p.phase.Idle? && done
      modifies p`phase
      ensures Valid() && p.phase.Closing? && Model() == Apply(old(Model()), BeginClose(p.id))
    {
      hide Inv;
      StepKeepsInv(Model(), BeginClose(p.id));
      p.phase := Closing;
      OnlyWorker(p);
    }

    method FinishClosing(p: Goroutine) returns (flush: bool)
      requires Valid() && p in workers && p.phase.Closing? && eventChan == []
      modifies p
      ensures Valid() && Model() == Apply(old(Model()), FinishClose(p.id))
      ensures p.phase == if flush then Flushing(true) else Exited
    {
      hide Inv;
      StepKeepsInv(Model(), FinishClose(p.id));
      LocalIs(p);
      flush := |p.batch| > 0;
      if flush {
        p.phase := Flushing(true);
      } else {
        p.phase, p.batch, p.overflowIDs := Exited, [], [];
      }
      OnlyWorker(p);
    }

    /** The main loop, woken as `wakes` says; a wake-up whose branch is not ready does not happen. */
    method Process(p: Goroutine, wakes: seq<Wake>)
      requires Valid() && p in workers && p.phase.Idle?
      modifies this, p
      ensures Valid() && Model() == LoopSteps(old(Model()), p.id, wakes)
    {
      hide Inv, WakeSteps;
      for i := 0 to |wakes|
        invariant Valid() && p.phase.Idle?
        invariant LoopSteps(Model(), p.id, wakes[i..]) == LoopSteps(old(Model()), p.id, wakes)
      {
        LocalIs(p);
        LoopUnfolds(Model(), p.id, wakes[i..]);
        assert wakes[i..][1..] == wakes[i + 1..];
        ghost var s := Model();
        match wakes[i]
        case Event(country, city, lookup, inserted, insertion, applied) =>
          if eventChan != [] {
            OnEvent(p, country, city, lookup, inserted, insertion, applied);
            assert Model() == WakeSteps(s, p.id, wakes[i]) by { WakeIs(s, p.id, wakes[i]); }
          }
        case Ticker(read, inserted, insertion, applied) =>
          OnTick(p, read, inserted, insertion, applied);
          assert Model() == WakeSteps(s, p.id, wakes[i]) by { WakeIs(s, p.id, wakes[i]); }
        case Report =>
          WakeIs(s, p.id, wakes[i]);
        case Done(geo, inserted, insertion, applied) =>
          if done {
            OnDone(p, geo, inserted, insertion, applied);
            assert Model() == WakeSteps(s, p.id, wakes[i]) by { WakeIs(s, p.id, wakes[i]); }
            LocalIs(p);
            LoopEnds(Model(), p.id, wakes[i + 1..]);
            return;
          }
      }
      assert wakes[|wakes|..] == [];
    }

    // ------------------------------------------------------------- any interleaving

    /** The next atomic section of the goroutine or producer that the step names, if that is where it stands. */
    method Act(step: Step)
      requires Valid()
      modifies this, workers
      ensures Valid() && Model() == Apply(old(Model()), step)
    {
      hide Inv, OfferEffect, PushEffect, ReceiveEffect, EnrichEffect, TickEffect, ReadEffect, InsertEffect, AckEffect,
           FinishCloseEffect;
      match step
      case Advance(elapsed) => Wait(elapsed);
      case Offer(event) =>
        if !done {
          var item, sent := TrySend(event);
        } else {
          NothingOffered(Model(), event);
        }
      case Push(producer, pushed, trim) => ActPush(producer, pushed, trim);
      case Stop =>
        if |pushing| == 0 { CloseDone(); }
      case _ => ActWorker(step);
    }

    method ActWorker(step: Step)
      requires Valid() && !step.Advance? && !step.Offer? && !step.Push? && !step.Stop?
      modifies this, workers
      ensures Valid() && Model() == Apply(old(Model()), step)
    {
      hide Inv, Apply;
      if step.w >= 2 {
        NoSuchWorker(Model(), step);
        return;
      }
      LocalIs(workers[step.w]);
      if step.Receive? || step.Enrich? || step.Tick? || step.Read? {
        ActMain(workers[step.w], step);
      } else {
        ActFlush(workers[step.w], step);
      }
    }

    method ActPush(producer: nat, pushed: PushOutcome, trim: nat)
      requires Valid()
      modifies this
      ensures Valid() && Model() == Apply(old(Model()), Push(producer, pushed, trim))
    {
      hide Inv, Store, Drop, Counted;
      if producer < |pushing| && (hasRedis || pushed.Refused?) && Possible(pushed, trim) {
        SendToOverflow(producer, pushed, trim);
      }
    }

    method ActMain(p: Goroutine, step: Step)
      requires Valid() && p in workers && (step.Receive? || step.Enrich? || step.Tick? || step.Read?) && step.w == p.id
      modifies this, p
      ensures Valid() && Model() == Apply(old(Model()), step)
    {
      hide Inv;
      LocalIs(p);
      match step
      case Receive(_) =>
        if (p.phase.Idle? || p.phase.Closing?) && eventChan != [] { var item := TakeEvent(p); }
      case Enrich(_, country, city) =>
        if p.phase.Enriching? { var full := AppendEvent(p, p.phase.item, country, city, p.phase.closing); }
      case Tick(_) =>
        if p.phase.Idle? { BeginTick(p); }
      case Read(_, ok) =>
        if p.phase.Reading? && |p.batch| < 100 { ReadStream(p, ok); }
    }

    method ActFlush(p: Goroutine, step: Step)
      requires Valid() && p in workers && (step.Insert? || step.Ack? || step.BeginClose? || step.FinishClose?)
               && step.w == p.id
      modifies this, p
      ensures Valid() && Model() == Apply(old(Model()), step)
    {
      hide Inv, Without, Tags, HeldTags;
      LocalIs(p);
      match step
      case Insert(_, inserted) =>
        if p.phase.Flushing? { var ok := FlushBatch(p, inserted, p.phase.closing); }
      case Ack(_, applied) =>
        if p.phase.Acking? { AckAndReset(p, applied, p.phase.closing); }
      case BeginClose(_) =>
        if p.phase.Idle? && done { StartClosing(p); }
      case FinishClose(_) =>
        if p.phase.Closing? && eventChan == [] { var flush := FinishClosing(p); }
    }

    /** However producers, workers and the clock take turns, section by section, the code's state is that of
        the run of the step system. */
    method Interleave(steps: seq<Step>)
      requires Valid()
      modifies this, workers
      ensures Valid() && Model() == Run(old(Model()), steps)
    {
      hide Inv, Apply;
      for i := 0 to |steps|
        invariant Valid() && Model() == Run(old(Model()), steps[..i])
      {
        assert steps[..i + 1][..i] == steps[..i];
        Act(steps[i]);
      }
      assert steps[..|steps|] == steps;
    }

    /** Closes the channel `done` and waits. `meanwhile` is what goes on during the wait, which is over when both
        goroutines have exited. */
    method Stop(meanwhile: seq<Step>) returns (over: bool)
      requires Valid() && pushing == []
      modifies this, workers
      ensures Valid() && Model() == Run(Apply(old(Model()), Pipeline.Stop), meanwhile)
      ensures over <==> Phases(Model(), 0).Exited? && Phases(Model(), 1).Exited?
    {
      hide Inv, Run, Apply;
      CloseDone();
      Interleave(meanwhile);
      LocalIs(workers[0]);
      LocalIs(workers[1]);
      over := workers[0].phase.Exited? && workers[1].phase.Exited?;
    }
  }

  lemma NothingOffered(s: State, event: ClickEvent)
    requires s.stopped
    ensures Apply(s, Offer(event)) == s
  {
  }

  lemma NoSuchWorker(s: State, step: Step)
    requires !step.Advance? && !step.Offer? && !step.Push? && !step.Stop? && step.w >= 2
    ensures Apply(s, step) == s
  {
  }

  /** The main loop as a sequence of wake-ups; it ends with the done branch. */
  function LoopSteps(s: State, w: nat, wakes: seq<Wake>): State
    decreases |wakes|
  {
    if wakes == [] || !Phases(s, w).Idle? then s
    else LoopSteps(if Ready(s, wakes[0]) then WakeSteps(s, w, wakes[0]) else s, w, wakes[1..])
  }

  lemma DrainUnfolds(s: State, w: nat, geo: nat -> (string, string))
    requires Phases(s, w).Closing?
    ensures s.channel == [] ==> DrainSteps(s, w, geo) == s
    ensures s.channel != [] ==>
              var found := geo(s.channel[0].tag);
              DrainSteps(s, w, geo) == DrainSteps(Apply(Apply(s, Receive(w)), Enrich(w, found.0, found.1)), w, geo)
  {
  }

  lemma LoopUnfolds(s: State, w: nat, wakes: seq<Wake>)
    requires wakes != [] && Phases(s, w).Idle?
    ensures LoopSteps(s, w, wakes)
            == LoopSteps(if Ready(s, wakes[0]) then WakeSteps(s, w, wakes[0]) else s, w, wakes[1..])
  {
  }

  lemma LoopEnds(s: State, w: nat, wakes: seq<Wake>)
    requires !Phases(s, w).Idle?
    ensures LoopSteps(s, w, wakes) == s
  {
  }

  lemma WakeIs(s: State, w: nat, wake: Wake)
    ensures wake.Event? ==>
              WakeSteps(s, w, wake) ==
              FlushSteps(EventSteps(s, w, wake.country, wake.city, wake.lookup), w, wake.inserted, wake.insertion,
                         wake.applied)
    ensures wake.Ticker? ==>
              WakeSteps(s, w, wake) ==
              FlushSteps(TickSteps(s, w, wake.read), w, wake.inserted, wake.insertion, wake.applied)
    ensures wake.Done? ==>
              WakeSteps(s, w, wake) == DoneSteps(s, w, wake.geo, wake.inserted, wake.insertion, wake.applied)
    ensures wake.Report? ==> WakeSteps(s, w, wake) == s
  {
  }

  predicate InClosing(phase: Phase) {
    phase.Closing? || phase.Exited? || phase == Flushing(true)
  }

  lemma NotReading(s: State, w: nat, read: bool)
    requires !Phases(s, w).Reading?
    ensures Apply(s, Read(w, read)) == s
  {
  }

  /** With Redis only worker 0 reads, and only while it holds no entry. */
  lemma ReadingHoldsNone(s: State, w: nat)
    requires Inv(s) && Phases(s, w).Reading?
    ensures w == 0 && s.hasRedis && s.workers[0].overflowIDs == []
  {
  }

  /** What a flush makes of its worker, and what it changes besides. */
  lemma InsertIs(s: State, w: nat, inserted: InsertOutcome)
    requires Phases(s, w).Flushing?
    ensures var k, s' := s.workers[w], InsertEffect(s, w, inserted);
            var left := k.phase.closing && !inserted.Committed?;
            && s' == SetWorker(s, w, s'.workers[w])
                     .(table := if inserted.Rejected? then s.table else s.table + k.batch,
                       lost := if left then s.lost + (multiset(Tags(k.batch)) - HeldTags(s.issued, k)) else s.lost)
            && s'.workers[w] == if inserted.Committed? then k.(phase := Acking(k.phase.closing))
                                else if left then ExitedWorker(k)
                                else Failed(k, s.clock)
  {
    hide Tags, HeldTags;
  }

  lemma AckIs(s: State, w: nat, applied: bool)
    requires Phases(s, w).Acking?
    ensures var k, s' := s.workers[w], AckEffect(s, w, applied);
            && s' == SetWorker(s, w, s'.workers[w])
                     .(stream := if s.hasRedis && applied then Without(s.stream, k.overflowIDs) else s.stream,
                       acked := if s.hasRedis && applied
                           then s.acked + (set i | 0 <= i < |k.overflowIDs| :: k.overflowIDs[i]) else s.acked)
            && s'.workers[w] == if k.phase.closing then ExitedWorker(k) else NewWorker()
  {
    hide Without;
  }

  lemma NoAck(s: State, w: nat, applied: bool)
    requires !Phases(s, w).Acking?
    ensures Apply(s, Ack(w, applied)) == s
  {
  }

  lemma NoFlush(s: State, w: nat, inserted: InsertOutcome, applied: bool)
    requires !Phases(s, w).Acking? && !Phases(s, w).Flushing?
    ensures Apply(s, Insert(w, inserted)) == s && Apply(s, Ack(w, applied)) == s
  {
  }

  lemma StreamIsIssued(s: State)
    requires Inv(s)
    ensures forall i :: 0 <= i < |s.stream| ==> s.stream[i] < |s.issued|
  {
    assert forall i :: 0 <= i < |s.stream| ==> s.stream[i] in s.stream;
  }

  // ------------------------------------------- the code's runs are runs of the step system

  lemma FlushIsRun(hasRedis: bool, clock: int, before: seq<Step>, w: nat, inserted: InsertOutcome, insertion: nat,
                   applied: bool)
    returns (steps: seq<Step>)
    ensures Reached(hasRedis, clock, steps)
            == FlushSteps(Reached(hasRedis, clock, before), w, inserted, insertion, applied)
  {
    hide Apply, Reached;
    ReachNext(hasRedis, clock, before, Advance(insertion));
    steps := before + [Advance(insertion)];
    ReachNext(hasRedis, clock, steps, Insert(w, inserted));
    steps := steps + [Insert(w, inserted)];
    ReachNext(hasRedis, clock, steps, Ack(w, applied));
    steps := steps + [Ack(w, applied)];
  }

  lemma {:induction false} DrainIsRun(hasRedis: bool, clock: int, before: seq<Step>, w: nat,
                                      geo: nat -> (string, string))
    returns (steps: seq<Step>)
    ensures Reached(hasRedis, clock, steps) == DrainSteps(Reached(hasRedis, clock, before), w, geo)
    decreases |Reached(hasRedis, clock, before).channel|
  {
    hide Reached, EnrichEffect;
    var s := Reached(hasRedis, clock, before);
    if s.channel == [] || !Phases(s, w).Closing? {
      steps := before;
    } else {
      var found := geo(s.channel[0].tag);
      ReachNext(hasRedis, clock, before, Receive(w));
      ReachNext(hasRedis, clock, before + [Receive(w)], Enrich(w, found.0, found.1));
      EnrichKeepsChannel(Apply(s, Receive(w)), w, found.0, found.1);
      steps := DrainIsRun(hasRedis, clock, before + [Receive(w)] + [Enrich(w, found.0, found.1)], w, geo);
    }
  }

  lemma EnrichKeepsChannel(s: State, w: nat, country: string, city: string)
    ensures Apply(s, Enrich(w, country, city)).channel == s.channel
  {
  }

  lemma WakeIsRun(hasRedis: bool, clock: int, before: seq<Step>, w: nat, wake: Wake) returns (steps: seq<Step>)
    ensures Reached(hasRedis, clock, steps) == WakeSteps(Reached(hasRedis, clock, before), w, wake)
  {
    hide Apply, Reached, DrainSteps, FlushSteps;
    match wake
    case Event(country, city, lookup, inserted, insertion, applied) =>
      ReachNext(hasRedis, clock, before, Receive(w));
      ReachNext(hasRedis, clock, before + [Receive(w)], Advance(lookup));
      ReachNext(hasRedis, clock, before + [Receive(w)] + [Advance(lookup)], Enrich(w, country, city));
      steps := FlushIsRun(hasRedis, clock, before + [Receive(w)] + [Advance(lookup)] + [Enrich(w, country, city)], w,
                          inserted, insertion, applied);
    case Ticker(read, inserted, insertion, applied) =>
      ReachNext(hasRedis, clock, before, Tick(w));
      ReachNext(hasRedis, clock, before + [Tick(w)], Read(w, read));
      steps := FlushIsRun(hasRedis, clock, before + [Tick(w)] + [Read(w, read)], w, inserted, insertion, applied);
    case Report =>
      steps := before;
    case Done(geo, inserted, insertion, applied) =>
      ReachNext(hasRedis, clock, before, BeginClose(w));
      steps := DrainIsRun(hasRedis, clock, before + [BeginClose(w)], w, geo);
      ReachNext(hasRedis, clock, steps, FinishClose(w));
      steps := FlushIsRun(hasRedis, clock, steps + [FinishClose(w)], w, inserted, insertion, applied);
  }

  /** Whatever wakes it, a goroutine's main loop takes steps of the step system only; here with nothing in
      between. */
  lemma {:induction false} LoopIsRun(hasRedis: bool, clock: int, before: seq<Step>, w: nat, wakes: seq<Wake>)
      returns (steps: seq<Step>)
    ensures Reached(hasRedis, clock, steps) == LoopSteps(Reached(hasRedis, clock, before), w, wakes)
    decreases |wakes|
  {
    hide Reached, WakeSteps;
    var s := Reached(hasRedis, clock, before);
    if wakes == [] || !Phases(s, w).Idle? {
      steps := before;
    } else {
      steps := before;
      if Ready(s, wakes[0]) { steps := WakeIsRun(hasRedis, clock, before, w, wakes[0]); }
      steps := LoopIsRun(hasRedis, clock, steps, w, wakes[1..]);
    }
  }
}
