/** Click ingestion as a step system.

    Producers offer clicks, two workers move them into the click_events table through private
    batches, and a Redis stream takes what the channel cannot hold. Each step is one atomic action
    of one goroutine, labelled with the outcome the outside world gave it. A step that is not
    enabled leaves the state unchanged, so every sequence of steps is a run and covers every
    interleaving of producers, workers, failures and shutdown. */
module Pipeline {
  import opened Domain

  const CHANNEL_CAPACITY := 10000
  const FULL_BATCH := 100
  const STREAM_CAP := 100000
  const TWO_TO_THE_64 := 0x1_0000_0000_0000_0000

  /** A click together with the number of the Enqueue call that offered it: its identity. */
  datatype Item = Item(tag: nat, event: ClickEvent)

  /** Where a worker's goroutine stands. `closing` tells the shutdown loop from the main loop. */
  datatype Phase =
    | Idle                                   // at the main select
    | Enriching(item: Item, closing: bool)   // received an event, looking up its location
    | Reading                                // about to read the overflow stream
    | Flushing(closing: bool)                // inside BatchInsert
    | Acking(closing: bool)                  // BatchInsert returned nil, XDEL not yet sent
    | Closing                                // at the shutdown select
    | Exited

  /** The local variables of one `process` goroutine. `failedAt` is history: when each flush of the
      current streak of failures failed. */
  datatype Worker = Worker(
    phase: Phase,
    batch: seq<Item>,
    overflowIDs: seq<nat>,
    failures: nat,
    next: Option<int>,
    failedAt: seq<int>)

  datatype PushOutcome = Stored | Refused | StoredUnconfirmed
  datatype InsertOutcome = Committed | Rejected | CommittedUnconfirmed

  /** `issued[id]` is the click stored in the stream under `id`; `stream` lists the ids still there.
      `offered`, `accepted`, `issued`, `acked`, `trimmed`, `dropped`, `miscounted` and `lost` are history. */
  datatype State = State(
    hasRedis: bool,
    clock: int,
    stopped: bool,
    offered: seq<ClickEvent>,
    accepted: set<nat>,        // clicks the channel took
    channel: seq<Item>,
    pushing: seq<Item>,        // clicks held by producers that found the channel full
    workers: seq<Worker>,
    issued: seq<Item>,
    stream: seq<nat>,
    acked: set<nat>,           // ids named by an XDEL that took effect
    trimmed: set<nat>,         // ids removed by the stream cap
    table: seq<Item>,
    dropped: seq<nat>,         // clicks neither the channel nor the stream took
    miscounted: seq<nat>,      // clicks counted as dropped although the stream took them
    droppedEvents: nat,        // the counter that is logged
    lost: multiset<nat>)       // clicks of a final batch whose flush returned false

  datatype Step =
    | Advance(elapsed: nat)
    | Offer(event: ClickEvent)
    | Push(producer: nat, pushed: PushOutcome, trim: nat)
    | Receive(w: nat)
    | Enrich(w: nat, country: string, city: string)
    | Tick(w: nat)
    | Read(w: nat, ok: bool)
    | Insert(w: nat, inserted: InsertOutcome)
    | Ack(w: nat, applied: bool)
    | Stop
    | BeginClose(w: nat)
    | FinishClose(w: nat)

  /** The wait after the given number of consecutive flush failures, in milliseconds. */
  function CalculateFlushBackoff(failures: int): int {
    if failures <= 1 then 200
    else if failures == 2 then 500
    else if failures == 3 then 1000
    else if failures == 4 then 2000
    else 5000
  }

  function NewWorker(): Worker {
    Worker(Idle, [], [], 0, None, [])
  }

  function Init(hasRedis: bool, clock: int): State {
    State(hasRedis, clock, false, [], {}, [], [], [NewWorker(), NewWorker()], [], [], {}, {}, [], [], [], 0, multiset{})
  }

  /** No backoff is pending at the given time. */
  predicate Due(next: Option<int>, clock: int) {
    next.None? || next.value <= clock
  }

  predicate HasWorker(s: State, w: nat) {
    w < 2 && |s.workers| == 2
  }

  function Phases(s: State, w: nat): Phase {
    if HasWorker(s, w) then s.workers[w].phase else Exited
  }

  /** The clicks stored under the given ids, in order. */
  function Entries(issued: seq<Item>, ids: seq<nat>): (items: seq<Item>)
    requires forall i :: 0 <= i < |ids| ==> ids[i] < |issued|
    ensures |items| == |ids|
    ensures forall i :: 0 <= i < |ids| ==> items[i] == issued[ids[i]]
  {
    seq(|ids|, i requires 0 <= i < |ids| => issued[ids[i]])
  }

  function Tags(items: seq<Item>): (tags: seq<nat>)
    ensures |tags| == |items|
    ensures forall i :: 0 <= i < |items| ==> tags[i] == items[i].tag
  {
    seq(|items|, i requires 0 <= i < |items| => items[i].tag)
  }

  /** The oldest entries that XRANGE returns for the room left in the batch. */
  function Readable(stream: seq<nat>, batchSize: nat): (ids: seq<nat>)
    requires batchSize < FULL_BATCH
    ensures ids <= stream && |ids| <= FULL_BATCH - batchSize
  {
    if |stream| <= FULL_BATCH - batchSize then stream else stream[..FULL_BATCH - batchSize]
  }

  /** `stream` without the given ids: the effect of XDEL. */
  function Without(stream: seq<nat>, ids: seq<nat>): (rest: seq<nat>)
    ensures forall id :: id in rest <==> id in stream && id !in ids
  {
    if stream == [] then []
    else if stream[0] in ids then Without(stream[1..], ids)
    else [stream[0]] + Without(stream[1..], ids)
  }

  // ---------------------------------------------------------------- producers

  function OfferEffect(s: State, event: ClickEvent): (r: State)
    ensures |r.workers| == |s.workers|
  {
    if s.stopped then s
    else
      var item := Item(|s.offered|, event);
      var s := s.(offered := s.offered + [event]);
      if |s.channel| < CHANNEL_CAPACITY then s.(channel := s.channel + [item], accepted := s.accepted + {item.tag})
      else s.(pushing := s.pushing + [item])
  }

  /** XADD trims only while at least STREAM_CAP entries remain. */
  predicate CanPush(s: State, producer: nat, pushed: PushOutcome, trim: nat) {
    && producer < |s.pushing|
    && (!s.hasRedis ==> pushed.Refused?)
    && (pushed.Refused? ==> trim == 0)
    && (trim > 0 ==> |s.stream| + 1 - trim >= STREAM_CAP)
  }

  function Counted(s: State): State {
    s.(droppedEvents := (s.droppedEvents + 1) % TWO_TO_THE_64)
  }

  function Drop(s: State, tag: nat): State {
    Counted(s).(dropped := s.dropped + [tag])
  }

  function Store(s: State, item: Item, trim: nat): State
    requires trim <= |s.stream|
  {
    s.(issued := s.issued + [item],
       stream := s.stream[trim..] + [|s.issued|],
       trimmed := s.trimmed + (set i | 0 <= i < trim :: s.stream[i]))
  }

  function Taken(s: State, producer: nat): State
    requires producer < |s.pushing|
  {
    s.(pushing := s.pushing[..producer] + s.pushing[producer + 1..])
  }

  function PushEffect(s: State, producer: nat, pushed: PushOutcome, trim: nat): (r: State)
    ensures |r.workers| == |s.workers|
  {
    if !CanPush(s, producer, pushed, trim) then s
    else
      var item := s.pushing[producer];
      var s := Taken(s, producer);
      match pushed
      case Stored => Store(s, item, trim)
      case Refused => Drop(s, item.tag)
      case StoredUnconfirmed => Counted(Store(s, item, trim)).(miscounted := s.miscounted + [item.tag])
  }

  // ------------------------------------------------------------------ workers

  function SetWorker(s: State, w: nat, k: Worker): State
    requires HasWorker(s, w)
  {
    s.(workers := s.workers[w := k])
  }

  function ReceiveEffect(s: State, w: nat): (r: State)
    ensures |r.workers| == |s.workers|
  {
    if (Phases(s, w).Idle? || Phases(s, w).Closing?) && s.channel != [] then
      SetWorker(s, w, s.workers[w].(phase := Enriching(s.channel[0], s.workers[w].phase.Closing?)))
      .(channel := s.channel[1..])
    else s
  }

  function EnrichEffect(s: State, w: nat, country: string, city: string): (r: State)
    ensures |r.workers| == |s.workers|
  {
    if Phases(s, w).Enriching? then
      var k := s.workers[w];
      var item := k.phase.item;
      var batch := k.batch + [item.(event := item.event.(country := country, city := city))];
      var phase :=
        if k.phase.closing then Closing
        else if |batch| >= FULL_BATCH && Due(k.next, s.clock) then Flushing(false)
        else Idle;
      SetWorker(s, w, k.(batch := batch, phase := phase))
    else s
  }

  function FlushIfAny(k: Worker): Worker {
    k.(phase := if |k.batch| > 0 then Flushing(false) else Idle)
  }

  function TickEffect(s: State, w: nat): (r: State)
    ensures |r.workers| == |s.workers|
  {
    if Phases(s, w).Idle? && Due(s.workers[w].next, s.clock) then
      var k := s.workers[w];
      if w == 0 && s.hasRedis && |k.batch| < FULL_BATCH && k.overflowIDs == [] then
        SetWorker(s, w, k.(phase := Reading))
      else
        SetWorker(s, w, FlushIfAny(k))
    else s
  }

  function Loaded(k: Worker, issued: seq<Item>, ids: seq<nat>): Worker
    requires forall i :: 0 <= i < |ids| ==> ids[i] < |issued|
  {
    FlushIfAny(k.(batch := k.batch + Entries(issued, ids), overflowIDs := k.overflowIDs + ids))
  }

  function ReadEffect(s: State, w: nat, ok: bool): (r: State)
    ensures |r.workers| == |s.workers|
  {
    if Phases(s, w).Reading? && |s.workers[w].batch| < FULL_BATCH then
      var k := s.workers[w];
      var ids := Readable(s.stream, |k.batch|);
      if ok && (forall i :: 0 <= i < |ids| ==> ids[i] < |s.issued|) then
        SetWorker(s, w, Loaded(k, s.issued, ids))
      else
        SetWorker(s, w, FlushIfAny(k))
    else s
  }

  function HeldTags(issued: seq<Item>, k: Worker): multiset<nat> {
    if forall i :: 0 <= i < |k.overflowIDs| ==> k.overflowIDs[i] < |issued|
    then multiset(Tags(Entries(issued, k.overflowIDs)))
    else multiset{}
  }

  function ExitedWorker(k: Worker): Worker {
    k.(phase := Exited, batch := [], overflowIDs := [])
  }

  function Failed(k: Worker, clock: int): Worker {
    k.(phase := Idle,
       failures := k.failures + 1,
       next := Some(clock + CalculateFlushBackoff(k.failures + 1)),
       failedAt := k.failedAt + [clock])
  }

  function InsertEffect(s: State, w: nat, inserted: InsertOutcome): (r: State)
    ensures |r.workers| == |s.workers|
  {
    if Phases(s, w).Flushing? then
      var k := s.workers[w];
      var s := s.(table := if inserted.Rejected? then s.table else s.table + k.batch);
      if inserted.Committed? then
        SetWorker(s, w, k.(phase := Acking(k.phase.closing)))
      else if k.phase.closing then
        SetWorker(s, w, ExitedWorker(k)).(lost := s.lost + (multiset(Tags(k.batch)) - HeldTags(s.issued, k)))
      else
        SetWorker(s, w, Failed(k, s.clock))
    else s
  }

  function AckEffect(s: State, w: nat, applied: bool): (r: State)
    ensures |r.workers| == |s.workers|
  {
    if Phases(s, w).Acking? then
      var k := s.workers[w];
      var s := if s.hasRedis && applied
               then s.(stream := Without(s.stream, k.overflowIDs),
                       acked := s.acked + (set i | 0 <= i < |k.overflowIDs| :: k.overflowIDs[i]))
               else s;
      SetWorker(s, w, if k.phase.closing then ExitedWorker(k) else NewWorker())
    else s
  }

  function FinishCloseEffect(s: State, w: nat): (r: State)
    ensures |r.workers| == |s.workers|
  {
    if Phases(s, w).Closing? && s.channel == [] then
      var k := s.workers[w];
      SetWorker(s, w, if |k.batch| > 0 then k.(phase := Flushing(true)) else ExitedWorker(k))
    else s
  }

  function Apply(s: State, step: Step): (r: State)
    ensures |r.workers| == |s.workers|
  {
    match step
    case Advance(elapsed) => s.(clock := s.clock + elapsed)
    case Offer(event) => OfferEffect(s, event)
    case Push(producer, pushed, trim) => PushEffect(s, producer, pushed, trim)
    case Receive(w) => ReceiveEffect(s, w)
    case Enrich(w, country, city) => EnrichEffect(s, w, country, city)
    case Tick(w) => TickEffect(s, w)
    case Read(w, ok) => ReadEffect(s, w, ok)
    case Insert(w, inserted) => InsertEffect(s, w, inserted)
    case Ack(w, applied) => AckEffect(s, w, applied)
    case Stop => if s.pushing == [] then s.(stopped := true) else s
    case BeginClose(w) => if Phases(s, w).Idle? && s.stopped then SetWorker(s, w, s.workers[w].(phase := Closing))
        else s
    case FinishClose(w) => FinishCloseEffect(s, w)
  }

  function Run(s: State, steps: seq<Step>): State
    decreases |steps|
  {
    if steps == [] then s else Apply(Run(s, steps[..|steps| - 1]), steps[|steps| - 1])
  }

  /** The state after the given steps of a freshly started process. */
  function Reached(hasRedis: bool, clock: int, steps: seq<Step>): State {
    Run(Init(hasRedis, clock), steps)
  }

  lemma ReachNext(hasRedis: bool, clock: int, before: seq<Step>, step: Step)
    ensures Reached(hasRedis, clock, before + [step]) == Apply(Reached(hasRedis, clock, before), step)
  {
    assert (before + [step])[..|before|] == before;
  }

  lemma {:induction false} RunMore(s: State, first: seq<Step>, second: seq<Step>)
    ensures Run(s, first + second) == Run(Run(s, first), second)
    decreases |second|
  {
    hide Apply;
    if second == [] {
      assert first + second == first;
    } else {
      var n := |second| - 1;
      RunMore(s, first, second[..n]);
      assert (first + second)[..|first + second| - 1] == first + second[..n];
    }
  }

  lemma RunThen(s: State, steps: seq<Step>, step: Step)
    ensures Run(s, steps + [step]) == Apply(Run(s, steps), step)
  {
    assert (steps + [step])[..|steps|] == steps;
  }

  lemma RunOne(s: State, step: Step)
    ensures Run(s, [step]) == Apply(s, step)
  {
    assert [step][..0] == [];
    assert Run(s, []) == s;
  }

  lemma RunThree(s: State, a: Step, b: Step, c: Step)
    ensures Run(s, [a] + [b] + [c]) == Apply(Apply(Apply(s, a), b), c)
  {
    hide Run, Apply;
    RunOne(s, a);
    RunThen(s, [a], b);
    RunThen(s, [a] + [b], c);
  }

  lemma {:induction false} WithoutNone(stream: seq<nat>, ids: seq<nat>)
    requires forall i :: 0 <= i < |stream| ==> stream[i] !in ids
    ensures Without(stream, ids) == stream
  {
    if stream != [] { WithoutNone(stream[1..], ids); }
  }
}
