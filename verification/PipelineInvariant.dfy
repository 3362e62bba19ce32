/** What every step of the pipeline keeps, whatever the outcomes. */
module PipelineInvariant {
  import opened Domain
  import opened Pipeline

  predicate Increasing(ids: seq<nat>) {
    forall i, j :: 0 <= i < j < |ids| ==> ids[i] < ids[j]
  }

  /** The stream holds, in order, exactly the issued entries that were neither acknowledged nor trimmed. */
  ghost predicate StreamInv(issued: seq<Item>, stream: seq<nat>, acked: set<nat>, trimmed: set<nat>) {
    && Increasing(stream)
    && (forall id :: id in stream ==> id < |issued| && id !in acked && id !in trimmed)
    && (forall id :: 0 <= id < |issued| ==> id in stream || id in acked || id in trimmed)
    && (forall id :: id in acked || id in trimmed ==> id < |issued|)
  }

  /** The held ids are the overflow entries at positions off, off+1, ... of the batch. */
  ghost predicate HeldAt(issued: seq<Item>, k: Worker, off: nat) {
    && off + |k.overflowIDs| <= |k.batch|
    && forall i :: 0 <= i < |k.overflowIDs| ==>
                     && k.overflowIDs[i] < |issued|
                     && k.batch[off + i] == issued[k.overflowIDs[i]]
  }

  /** A worker's overflow ids name distinct batch positions that hold those entries' clicks, none of
      them acknowledged yet, and it reads the stream only when it holds none. */
  ghost predicate HoldingInv(issued: seq<Item>, acked: set<nat>, k: Worker) {
    && Increasing(k.overflowIDs)
    && (k.phase.Reading? ==> k.overflowIDs == [])
    && (forall id :: id in k.overflowIDs ==> id !in acked)
    && exists off: nat :: HeldAt(issued, k, off)
  }

  /** A batch being acknowledged is in the table. */
  ghost predicate BatchSafe(table: seq<Item>, k: Worker) {
    k.phase.Acking? ==> forall i :: 0 <= i < |k.batch| ==> k.batch[i] in table
  }

  /** Every acknowledged entry is in the table, unmodified. */
  ghost predicate AckedSafe(issued: seq<Item>, acked: set<nat>, table: seq<Item>) {
    forall id :: id in acked ==> id < |issued| && issued[id] in table
  }

  predicate Untouched(offered: seq<ClickEvent>, item: Item) {
    item.tag < |offered| && item.event == offered[item.tag]
  }

  predicate Genuine(offered: seq<ClickEvent>, item: Item) {
    item.tag < |offered| && SameClick(item.event, offered[item.tag])
  }

  predicate AllUntouched(offered: seq<ClickEvent>, items: seq<Item>) {
    forall i :: 0 <= i < |items| ==> Untouched(offered, items[i])
  }

  predicate AllGenuine(offered: seq<ClickEvent>, items: seq<Item>) {
    forall i :: 0 <= i < |items| ==> Genuine(offered, items[i])
  }

  predicate WorkerGenuine(offered: seq<ClickEvent>, k: Worker) {
    && AllGenuine(offered, k.batch)
    && (k.phase.Enriching? ==> Untouched(offered, k.phase.item))
  }

  predicate DroppedInv(s: State) {
    && (forall i :: 0 <= i < |s.dropped| ==> s.dropped[i] < |s.offered|)
    && s.droppedEvents == (|s.dropped| + |s.miscounted|) % TWO_TO_THE_64
  }

  /** Every click anywhere is the offered one, up to the location a worker looked up; clicks that
      only passed through the stream are unmodified. */
  predicate ContentInv(s: State)
    requires |s.workers| == 2
  {
    && AllUntouched(s.offered, s.channel)
    && AllUntouched(s.offered, s.pushing)
    && AllUntouched(s.offered, s.issued)
    && AllGenuine(s.offered, s.table)
    && WorkerGenuine(s.offered, s.workers[0])
    && WorkerGenuine(s.offered, s.workers[1])
    && DroppedInv(s)
  }

  ghost predicate Inv(s: State) {
    && |s.workers| == 2
    && (!s.hasRedis ==> s.workers[0].overflowIDs == [] && !s.workers[0].phase.Reading?)
    && StreamInv(s.issued, s.stream, s.acked, s.trimmed)
    && HoldingInv(s.issued, s.acked, s.workers[0])
    && s.workers[1].overflowIDs == []
    && !s.workers[1].phase.Reading?
    && BatchSafe(s.table, s.workers[0])
    && BatchSafe(s.table, s.workers[1])
    && AckedSafe(s.issued, s.acked, s.table)
    && ContentInv(s)
  }

  lemma InitInv(hasRedis: bool, clock: int)
    ensures Inv(Init(hasRedis, clock))
  {
    assert HeldAt([], NewWorker(), 0);
  }

  lemma OfferKeepsInv(s: State, event: ClickEvent)
    requires Inv(s)
    ensures Inv(OfferEffect(s, event))
  {
    var s' := OfferEffect(s, event);
    assert AllUntouched(s'.offered, s.channel) && AllUntouched(s'.offered, s.pushing);
    hide StreamInv, HoldingInv, BatchSafe, AckedSafe;
  }

  lemma StoreKeepsHolding(issued: seq<Item>, acked: set<nat>, k: Worker, item: Item)
    requires HoldingInv(issued, acked, k)
    ensures HoldingInv(issued + [item], acked, k)
  {
    var off: nat :| HeldAt(issued, k, off);
    assert HeldAt(issued + [item], k, off);
  }

  /** The stream cap takes the oldest entries. */
  lemma TrimKeepsStream(issued: seq<Item>, stream: seq<nat>, acked: set<nat>, trimmed: set<nat>, trim: nat)
    requires trim <= |stream| && StreamInv(issued, stream, acked, trimmed)
    ensures StreamInv(issued, stream[trim..], acked, trimmed + (set i | 0 <= i < trim :: stream[i]))
  {
    var kept, cut := stream[trim..], set i | 0 <= i < trim :: stream[i];
    forall id | id in kept ensures id in stream && id !in cut {
      var i :| 0 <= i < |kept| && kept[i] == id;
      assert stream[i + trim] == id;
    }
    forall id | id in stream ensures id in kept || id in cut {
      var i :| 0 <= i < |stream| && stream[i] == id;
      assert i >= trim ==> kept[i - trim] == id;
    }
  }

  lemma AppendKeepsStream(issued: seq<Item>, stream: seq<nat>, acked: set<nat>, trimmed: set<nat>, item: Item)
    requires StreamInv(issued, stream, acked, trimmed)
    ensures StreamInv(issued + [item], stream + [|issued|], acked, trimmed)
  {
    var longer := stream + [|issued|];
    assert forall i :: 0 <= i < |stream| ==> longer[i] == stream[i] && stream[i] in stream;
    assert longer[|stream|] == |issued|;
    assert forall id :: id in longer <==> id in stream || id == |issued|;
  }

  lemma StoreKeepsStream(s: State, item: Item, trim: nat)
    requires trim <= |s.stream| && StreamInv(s.issued, s.stream, s.acked, s.trimmed)
    ensures var s' := Store(s, item, trim); StreamInv(s'.issued, s'.stream, s'.acked, s'.trimmed)
  {
    TrimKeepsStream(s.issued, s.stream, s.acked, s.trimmed, trim);
    AppendKeepsStream(s.issued, s.stream[trim..], s.acked, s.trimmed + (set i | 0 <= i < trim :: s.stream[i]), item);
  }

  lemma TakenKeepsInv(s: State, producer: nat)
    requires Inv(s) && producer < |s.pushing|
    ensures Inv(Taken(s, producer))
  {
    hide StreamInv, HoldingInv, BatchSafe, AckedSafe, WorkerGenuine, AllGenuine;
  }

  lemma StoreKeepsInv(s: State, item: Item, trim: nat)
    requires Inv(s) && s.hasRedis && trim <= |s.stream| && Untouched(s.offered, item)
    ensures Inv(Store(s, item, trim))
  {
    StoreKeepsStream(s, item, trim);
    StoreKeepsHolding(s.issued, s.acked, s.workers[0], item);
    assert AckedSafe(s.issued + [item], s.acked, s.table);
    hide StreamInv, HoldingInv, BatchSafe, AckedSafe, WorkerGenuine, AllGenuine;
  }

  lemma CountWraps(count: nat)
    ensures (count % TWO_TO_THE_64 + 1) % TWO_TO_THE_64 == (count + 1) % TWO_TO_THE_64
  {
  }

  lemma DropKeepsCount(s: State, tag: nat)
    requires DroppedInv(s) && tag < |s.offered|
    ensures DroppedInv(Drop(s, tag))
    ensures DroppedInv(Counted(s).(miscounted := s.miscounted + [tag]))
  {
    CountWraps(|s.dropped| + |s.miscounted|);
  }

  lemma DropKeepsInv(s: State, tag: nat)
    requires Inv(s) && tag < |s.offered|
    ensures Inv(Drop(s, tag))
    ensures Inv(Counted(s).(miscounted := s.miscounted + [tag]))
  {
    DropKeepsCount(s, tag);
    hide StreamInv, HoldingInv, BatchSafe, AckedSafe, WorkerGenuine, AllGenuine, AllUntouched, DroppedInv;
  }

  lemma PushKeepsInv(s: State, producer: nat, pushed: PushOutcome, trim: nat)
    requires Inv(s)
    ensures Inv(PushEffect(s, producer, pushed, trim))
  {
    if CanPush(s, producer, pushed, trim) {
      var item := s.pushing[producer];
      assert Untouched(s.offered, item);
      TakenKeepsInv(s, producer);
      var s1 := Taken(s, producer);
      if pushed.Refused? {
        DropKeepsInv(s1, item.tag);
      } else {
        StoreKeepsInv(s1, item, trim);
        DropKeepsInv(Store(s1, item, trim), item.tag);
      }
      hide Inv, Drop, Store, Counted;
    }
  }

  /** Replacing a worker by one that is well-formed by itself keeps the invariant. */
  lemma WorkerKeepsInv(s: State, w: nat, k: Worker)
    requires Inv(s) && HasWorker(s, w)
    requires w == 0 ==> HoldingInv(s.issued, s.acked, k)
    requires w == 1 || !s.hasRedis ==> k.overflowIDs == [] && !k.phase.Reading?
    requires BatchSafe(s.table, k) && WorkerGenuine(s.offered, k)
    ensures Inv(SetWorker(s, w, k))
  {
  }

  lemma HoldingMoves(issued: seq<Item>, acked: set<nat>, k: Worker, k': Worker)
    requires HoldingInv(issued, acked, k)
    requires k.batch <= k'.batch && k'.overflowIDs == k.overflowIDs
    requires k'.phase.Reading? ==> k'.overflowIDs == []
    ensures HoldingInv(issued, acked, k')
  {
    var off: nat :| HeldAt(issued, k, off);
    assert HeldAt(issued, k', off);
  }

  lemma HoldingNothing(issued: seq<Item>, acked: set<nat>, k: Worker)
    requires k.overflowIDs == []
    ensures HoldingInv(issued, acked, k)
  {
    assert HeldAt(issued, k, 0);
  }

  lemma ReceiveKeepsInv(s: State, w: nat)
    requires Inv(s)
    ensures Inv(ReceiveEffect(s, w))
  {
    var s' := ReceiveEffect(s, w);
    if s' != s {
      if w == 0 { HoldingMoves(s.issued, s.acked, s.workers[w], s'.workers[w]); }
      WorkerKeepsInv(s, w, s'.workers[w]);
    }
  }

  lemma EnrichKeepsInv(s: State, w: nat, country: string, city: string)
    requires Inv(s)
    ensures Inv(EnrichEffect(s, w, country, city))
  {
    var s' := EnrichEffect(s, w, country, city);
    if s' != s {
      if w == 0 { HoldingMoves(s.issued, s.acked, s.workers[w], s'.workers[w]); }
      WorkerKeepsInv(s, w, s'.workers[w]);
    }
  }

  lemma PhaseKeepsInv(s: State, w: nat, phase: Phase)
    requires Inv(s) && HasWorker(s, w)
    requires !phase.Acking? && !phase.Enriching?
    requires phase.Reading? ==> s.hasRedis && w == 0 && s.workers[0].overflowIDs == []
    ensures Inv(SetWorker(s, w, s.workers[w].(phase := phase)))
  {
    var k := s.workers[w].(phase := phase);
    if w == 0 { HoldingMoves(s.issued, s.acked, s.workers[w], k); }
    WorkerKeepsInv(s, w, k);
  }

  lemma LoadedHolding(issued: seq<Item>, stream: seq<nat>, acked: set<nat>, trimmed: set<nat>, k: Worker, ids: seq<nat>)
    requires StreamInv(issued, stream, acked, trimmed) && k.overflowIDs == [] && ids <= stream
    ensures forall i :: 0 <= i < |ids| ==> ids[i] < |issued|
    ensures HoldingInv(issued, acked, Loaded(k, issued, ids))
  {
    assert forall i :: 0 <= i < |ids| ==> ids[i] == stream[i] && ids[i] in stream;
    assert HeldAt(issued, Loaded(k, issued, ids), |k.batch|);
  }

  lemma LoadedGenuine(offered: seq<ClickEvent>, issued: seq<Item>, k: Worker, ids: seq<nat>)
    requires AllUntouched(offered, issued) && WorkerGenuine(offered, k)
    requires forall i :: 0 <= i < |ids| ==> ids[i] < |issued|
    ensures WorkerGenuine(offered, Loaded(k, issued, ids))
  {
  }

  lemma LoadedHolds(s: State, ids: seq<nat>)
    requires Inv(s) && s.workers[0].overflowIDs == [] && ids <= s.stream
    ensures forall i :: 0 <= i < |ids| ==> ids[i] < |s.issued|
    ensures var k := Loaded(s.workers[0], s.issued, ids);
            HoldingInv(s.issued, s.acked, k) && WorkerGenuine(s.offered, k) && BatchSafe(s.table, k)
  {
    hide StreamInv, HoldingInv, WorkerGenuine, AllUntouched, Entries;
    LoadedHolding(s.issued, s.stream, s.acked, s.trimmed, s.workers[0], ids);
    LoadedGenuine(s.offered, s.issued, s.workers[0], ids);
  }

  lemma ReadKeepsInv(s: State, w: nat, ok: bool)
    requires Inv(s)
    ensures Inv(ReadEffect(s, w, ok))
  {
    if Phases(s, w).Reading? && |s.workers[w].batch| < FULL_BATCH {
      var k := s.workers[0];
      var ids := Readable(s.stream, |k.batch|);
      LoadedHolds(s, ids);
      if ok {
        WorkerKeepsInv(s, 0, Loaded(k, s.issued, ids));
      } else {
        PhaseKeepsInv(s, w, FlushIfAny(k).phase);
      }
    }
  }

  lemma TableGrows(s: State, rows: seq<Item>)
    requires Inv(s) && AllGenuine(s.offered, rows)
    ensures Inv(s.(table := s.table + rows))
  {
    var table := s.table + rows;
    assert BatchSafe(table, s.workers[0]) && BatchSafe(table, s.workers[1]);
    assert AckedSafe(s.issued, s.acked, table);
  }

  lemma StoppedWorkerKeepsInv(s: State, w: nat, lost: multiset<nat>)
    requires Inv(s) && HasWorker(s, w)
    ensures Inv(SetWorker(s, w, ExitedWorker(s.workers[w])).(lost := lost))
  {
    var k := ExitedWorker(s.workers[w]);
    HoldingNothing(s.issued, s.acked, k);
    WorkerKeepsInv(s, w, k);
  }

  lemma FailedWorkerKeepsInv(s: State, w: nat)
    requires Inv(s) && HasWorker(s, w)
    ensures Inv(SetWorker(s, w, Failed(s.workers[w], s.clock)))
  {
    var k := Failed(s.workers[w], s.clock);
    if w == 0 { HoldingMoves(s.issued, s.acked, s.workers[w], k); }
    WorkerKeepsInv(s, w, k);
  }

  lemma AckingWorkerKeepsInv(s: State, w: nat, closing: bool)
    requires Inv(s) && HasWorker(s, w)
    requires forall i :: 0 <= i < |s.workers[w].batch| ==> s.workers[w].batch[i] in s.table
    ensures Inv(SetWorker(s, w, s.workers[w].(phase := Acking(closing))))
  {
    var k := s.workers[w].(phase := Acking(closing));
    if w == 0 { HoldingMoves(s.issued, s.acked, s.workers[w], k); }
    WorkerKeepsInv(s, w, k);
  }

  lemma InsertKeepsInv(s: State, w: nat, inserted: InsertOutcome)
    requires Inv(s)
    ensures Inv(InsertEffect(s, w, inserted))
  {
    if Phases(s, w).Flushing? {
      var k := s.workers[w];
      var s1 := s.(table := if inserted.Rejected? then s.table else s.table + k.batch);
      TableGrows(s, k.batch);
      if inserted.Committed? {
        AckingWorkerKeepsInv(s1, w, k.phase.closing);
      } else if k.phase.closing {
        StoppedWorkerKeepsInv(s1, w, s.lost + (multiset(Tags(k.batch)) - HeldTags(s.issued, k)));
      } else {
        FailedWorkerKeepsInv(s1, w);
      }
    }
  }

  lemma {:induction false} WithoutKeepsOrder(stream: seq<nat>, ids: seq<nat>)
    requires Increasing(stream)
    ensures Increasing(Without(stream, ids))
  {
    if stream != [] {
      WithoutKeepsOrder(stream[1..], ids);
      var rest := Without(stream[1..], ids);
      assert forall i :: 0 <= i < |rest| ==> rest[i] in rest;
    }
  }

  lemma AckKeepsInv(s: State, w: nat, applied: bool)
    requires Inv(s)
    ensures Inv(AckEffect(s, w, applied))
  {
    var s' := AckEffect(s, w, applied);
    if Phases(s, w).Acking? {
      var off: nat :| HeldAt(s.issued, s.workers[0], off);
      if w == 0 {
        assert HeldAt(s.issued, s'.workers[0], 0);
      } else {
        assert HeldAt(s.issued, s'.workers[0], off);
      }
      if s.hasRedis && applied {
        WithoutKeepsOrder(s.stream, s.workers[w].overflowIDs);
      }
    }
  }

  lemma FinishCloseKeepsInv(s: State, w: nat)
    requires Inv(s)
    ensures Inv(FinishCloseEffect(s, w))
  {
    if Phases(s, w).Closing? && s.channel == [] {
      var k := s.workers[w];
      if |k.batch| > 0 {
        PhaseKeepsInv(s, w, Flushing(true));
      } else {
        var off: nat :| HeldAt(s.issued, s.workers[0], off);
        assert HeldAt(s.issued, FinishCloseEffect(s, w).workers[0], off);
      }
    }
  }

  lemma TickKeepsInv(s: State, w: nat)
    requires Inv(s)
    ensures Inv(TickEffect(s, w))
  {
    if TickEffect(s, w) != s { PhaseKeepsInv(s, w, TickEffect(s, w).workers[w].phase); }
  }

  lemma StopKeepsInv(s: State, step: Step)
    requires Inv(s) && (step.Advance? || step.Stop?)
    ensures Inv(Apply(s, step))
  {
    hide StreamInv, HoldingInv, BatchSafe, AckedSafe, AllUntouched, AllGenuine;
  }

  lemma StepKeepsInv(s: State, step: Step)
    requires Inv(s)
    ensures Inv(Apply(s, step))
  {
    hide Inv, OfferEffect, PushEffect, ReceiveEffect, EnrichEffect, TickEffect, ReadEffect, InsertEffect, AckEffect,
         FinishCloseEffect;
    match step
    case Advance(_) => StopKeepsInv(s, step);
    case Offer(event) => OfferKeepsInv(s, event);
    case Push(producer, pushed, trim) => PushKeepsInv(s, producer, pushed, trim);
    case Receive(w) => ReceiveKeepsInv(s, w);
    case Enrich(w, country, city) => EnrichKeepsInv(s, w, country, city);
    case Tick(w) => TickKeepsInv(s, w);
    case Read(w, ok) => ReadKeepsInv(s, w, ok);
    case Insert(w, inserted) => InsertKeepsInv(s, w, inserted);
    case Ack(w, applied) => AckKeepsInv(s, w, applied);
    case Stop => StopKeepsInv(s, step);
    case BeginClose(w) =>
      if Apply(s, step) != s { PhaseKeepsInv(s, w, Closing); }
    case FinishClose(w) => FinishCloseKeepsInv(s, w);
  }

  lemma {:induction false} ReachedInv(hasRedis: bool, clock: int, steps: seq<Step>)
    ensures Inv(Reached(hasRedis, clock, steps))
    decreases |steps|
  {
    if steps == [] {
      InitInv(hasRedis, clock);
    } else {
      ReachedInv(hasRedis, clock, steps[..|steps| - 1]);
      StepKeepsInv(Reached(hasRedis, clock, steps[..|steps| - 1]), steps[|steps| - 1]);
    }
  }
}
