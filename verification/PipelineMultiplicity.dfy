/** How often a click can be stored: a bound for every run and for every sequence of processes. */
module PipelineMultiplicity {
  import opened Domain
  import opened Pipeline
  import opened PipelineInvariant
  import opened PipelineSafety
  import opened PipelineTiming
  import opened PipelineTheorems

  // ------------------------------------------------- the steps that may store a click again

  /** The clicks of the entries that worker 0 holds while they are still in the stream. */
  function HeldInStream(s: State): set<nat>
    requires |s.workers| == 2
  {
    set id | id in s.workers[0].overflowIDs && id in s.stream && id < |s.issued| :: s.issued[id].tag
  }

  /** The clicks that a step leaves to be stored again: those of an insert whose success is not reported, which
      is retried, and the entries still in the stream that an acknowledgement did not remove. What a worker in
      shutdown leaves in the stream is stored again only by a later process, if there is one. */
  function Harm(s: State, step: Step, later: bool): multiset<nat> {
    match step
    case Insert(w, inserted) =>
      if !inserted.CommittedUnconfirmed? || !Phases(s, w).Flushing? then multiset{}
      else if !Phases(s, w).closing then multiset(Tags(s.workers[w].batch))
      else if later && w == 0 then multiset(HeldInStream(s))
      else multiset{}
    case Ack(w, applied) =>
      if w == 0 && Phases(s, 0).Acking? && !(s.hasRedis && applied) && (later || !Phases(s, 0).closing)
      then multiset(HeldInStream(s))
      else multiset{}
    case _ => multiset{}
  }

  /** Over a run from the given state. */
  function Harms(s: State, steps: seq<Step>, later: bool): multiset<nat>
    decreases |steps|
  {
    if steps == [] then multiset{}
    else
      var n := |steps| - 1;
      Harms(s, steps[..n], later) + Harm(Run(s, steps[..n]), steps[n], later)
  }

  /** The same for one process, as a guard on the step. */
  predicate Harmful(s: State, step: Step) {
    match step
    case Insert(w, inserted) => inserted.CommittedUnconfirmed? && Phases(s, w) == Flushing(false)
    case Ack(w, applied) =>
      && w == 0 && !applied && s.hasRedis && Phases(s, 0) == Acking(false)
      && exists id :: id in s.workers[0].overflowIDs && id in s.stream
    case _ => false
  }

  predicate HarmlessFrom(s: State, steps: seq<Step>) {
    forall k :: 0 <= k < |steps| ==> !Harmful(Run(s, steps[..k]), steps[k])
  }

  predicate HarmlessRun(hasRedis: bool, clock: int, steps: seq<Step>) {
    forall k :: 0 <= k < |steps| ==> !Harmful(Reached(hasRedis, clock, steps[..k]), steps[k])
  }

  // ------------------------------------------------------- where a click can be stored from

  /** The clicks of stream entries that nobody holds. */
  function Unread(issued: seq<Item>, stream: seq<nat>, held: seq<nat>): set<nat> {
    set id | id in stream && id < |issued| && id !in held :: issued[id].tag
  }

  /** Those that can still be read: after worker 0 began its shutdown, only by a later process. */
  function Free(s: State, later: bool): set<nat>
    requires |s.workers| == 2
  {
    if !later && InShutdown(s.workers[0].phase) then {} else Unread(s.issued, s.stream, s.workers[0].overflowIDs)
  }

  function Moving(s: State): multiset<nat>
    requires |s.workers| == 2
  {
    Queued(s) + CarriedByAll(s.workers) + multiset(Tags(s.table))
  }

  /** The rows a click has and those it can still get without harm. */
  function Live(s: State, later: bool): multiset<nat>
    requires |s.workers| == 2
  {
    Moving(s) + multiset(Free(s, later))
  }

  ghost predicate Bounded(s: State, later: bool, harms: multiset<nat>) {
    |s.workers| == 2 && forall t: nat :: Live(s, later)[t] <= (if t < |s.offered| then 1 else 0) + harms[t]
  }

  // --------------------------------------------------- an entry is issued once

  /** The clicks that producers are pushing, or have pushed, to the stream. */
  function Pushed(s: State): multiset<nat> {
    multiset(Tags(s.pushing)) + multiset(Tags(s.issued))
  }

  ghost predicate IssuedOnce(s: State) {
    forall t: nat :: Pushed(s)[t] <= if t < |s.offered| then 1 else 0
  }

  lemma IssuedOnceIsDistinct(s: State)
    requires IssuedOnce(s)
    ensures DistinctEntries(s.issued)
  {
    forall t: nat ensures multiset(Tags(s.issued))[t] <= 1 {
      assert Pushed(s)[t] <= 1;
    }
    OnceIsDistinct(s.issued);
  }

  lemma OnceIsDistinct(items: seq<Item>)
    requires forall t: nat :: multiset(Tags(items))[t] <= 1
    ensures DistinctEntries(items)
  {
    forall i, j | 0 <= i < j < |items| ensures items[i].tag != items[j].tag {
      if items[i].tag == items[j].tag { Twice(items, i, j); }
    }
  }

  lemma Twice(items: seq<Item>, i: nat, j: nat)
    requires i < j < |items| && items[i].tag == items[j].tag
    ensures multiset(Tags(items))[items[i].tag] >= 2
  {
    TagsSplit(items, j);
    InTags(items[..j] + items[j + 1..], (items[..j] + items[j + 1..])[i]);
  }

  lemma OfferAddsOne(s: State, event: ClickEvent)
    ensures Pushed(OfferEffect(s, event)) <= Pushed(s) + if s.stopped then multiset{} else multiset{|s.offered|}
    ensures |OfferEffect(s, event).offered| == |s.offered| + if s.stopped then 0 else 1
  {
    var item := Item(|s.offered|, event);
    TagsConcat(s.pushing, [item]);
    assert Tags([item]) == [item.tag];
    hide Tags;
  }

  lemma OfferIssuedOnce(s: State, event: ClickEvent)
    requires IssuedOnce(s)
    ensures IssuedOnce(OfferEffect(s, event))
  {
    hide OfferEffect, Pushed;
    OfferAddsOne(s, event);
    var s', added := OfferEffect(s, event), if s.stopped then multiset{} else multiset{|s.offered|};
    forall t: nat ensures Pushed(s')[t] <= if t < |s'.offered| then 1 else 0 {
      assert Pushed(s')[t] <= (Pushed(s) + added)[t] && Pushed(s)[t] <= if t < |s.offered| then 1 else 0;
    }
  }

  lemma PushIssuedOnce(s: State, producer: nat, pushed: PushOutcome, trim: nat)
    requires IssuedOnce(s)
    ensures IssuedOnce(PushEffect(s, producer, pushed, trim))
  {
    if CanPush(s, producer, pushed, trim) {
      var item, s' := s.pushing[producer], PushEffect(s, producer, pushed, trim);
      TagsSplit(s.pushing, producer);
      TagsConcat(s.issued, [item]);
      assert Tags([item]) == [item.tag];
      assert s'.pushing == s.pushing[..producer] + s.pushing[producer + 1..] && s'.offered == s.offered;
      assert s'.issued == if pushed.Refused? then s.issued else s.issued + [item];
      hide Tags, PushEffect;
      assert Pushed(s') <= Pushed(s);
    }
  }

  lemma StepIssuedOnce(s: State, step: Step)
    requires IssuedOnce(s)
    ensures IssuedOnce(Apply(s, step))
  {
    hide IssuedOnce, OfferEffect, PushEffect;
    match step
    case Offer(event) => OfferIssuedOnce(s, event);
    case Push(producer, pushed, trim) => PushIssuedOnce(s, producer, pushed, trim);
    case _ =>
      SamePushes(s, step);
      SameIsIssuedOnce(s, Apply(s, step));
  }

  lemma SamePushes(s: State, step: Step)
    requires !step.Offer? && !step.Push?
    ensures var s' := Apply(s, step); s'.pushing == s.pushing && s'.issued == s.issued && s'.offered == s.offered
  {
    hide Tags, HeldTags, Without, Entries, Readable, Loaded, Failed, ExitedWorker, FlushIfAny, HasWorker;
    match step
    case Receive(_) =>
    case Enrich(_, _, _) =>
    case Insert(_, _) =>
    case Ack(_, _) =>
    case Read(_, _) =>
    case _ =>
  }

  lemma SameIsIssuedOnce(s: State, s': State)
    requires IssuedOnce(s) && s'.pushing == s.pushing && s'.issued == s.issued && s'.offered == s.offered
    ensures IssuedOnce(s')
  {
    assert Pushed(s') == Pushed(s);
  }

  // ------------------------------------------------------------- what a step adds

  lemma UnionIsLess(a: set<nat>, b: set<nat>, c: set<nat>)
    requires a <= b + c
    ensures multiset(a) <= multiset(b) + multiset(c)
  {
  }

  lemma SumIsLess(a: multiset<nat>, a': multiset<nat>, b: multiset<nat>, b': multiset<nat>, loss: multiset<nat>,
                  gain: multiset<nat>, extra: multiset<nat>, harm: multiset<nat>)
    requires a' + loss == a + gain && b' <= b + extra && gain + extra <= loss + harm
    ensures a' + b' <= a + b + harm
  {
    forall t ensures (a' + b')[t] <= (a + b + harm)[t] {
      assert (a' + loss)[t] == (a + gain)[t] && b'[t] <= (b + extra)[t] && (gain + extra)[t] <= (loss + harm)[t];
    }
  }

  /** What the goroutines and the table lose and gain, and what becomes free, in all. */
  lemma LiveChange(s: State, s': State, later: bool, loss: multiset<nat>, gain: multiset<nat>, extra: set<nat>,
                   harm: multiset<nat>)
    requires |s.workers| == 2 && |s'.workers| == 2 && Moving(s') + loss == Moving(s) + gain
    requires Free(s', later) <= Free(s, later) + extra && gain + multiset(extra) <= loss + harm
    ensures Live(s', later) <= Live(s, later) + harm
  {
    hide Moving, Free;
    UnionIsLess(Free(s', later), Free(s, later), extra);
    SumIsLess(Moving(s), Moving(s'), multiset(Free(s, later)), multiset(Free(s', later)), loss, gain, multiset(extra),
              harm);
  }

  lemma PlacesIsMoving(s: State)
    requires |s.workers| == 2
    ensures Places(s) == Moving(s) + Aside(s)
  {
  }

  lemma Cancel(a: multiset<nat>, b: multiset<nat>, c: multiset<nat>)
    requires a + c == b + c
    ensures a == b
  {
    forall t ensures a[t] == b[t] { assert (a + c)[t] == (b + c)[t]; }
  }

  /** Steps that only move clicks between goroutines. */
  lemma MovesOnly(s: State, s': State, later: bool)
    requires |s.workers| == 2 && |s'.workers| == 2 && Places(s') == Places(s) && Aside(s') == Aside(s)
    requires s'.issued == s.issued && s'.stream == s.stream && s'.workers[0].overflowIDs == s.workers[0].overflowIDs
    requires InShutdown(s.workers[0].phase) ==> InShutdown(s'.workers[0].phase)
    ensures Live(s', later) <= Live(s, later)
  {
    hide Queued, CarriedByAll, Aside, Unread, Moving, Live, Places;
    PlacesIsMoving(s);
    PlacesIsMoving(s');
    Cancel(Moving(s'), Moving(s), Aside(s));
    LiveChange(s, s', later, multiset{}, multiset{}, {}, multiset{});
    assert Live(s, later) + multiset{} == Live(s, later);
  }

  /** What such a step leaves alone. */
  predicate Undisturbed(s: State, s': State)
    requires |s.workers| == 2
  {
    && |s'.workers| == 2
    && s'.issued == s.issued && s'.stream == s.stream && s'.acked == s.acked && s'.lost == s.lost
       && s'.dropped == s.dropped
    && s'.workers[0].overflowIDs == s.workers[0].overflowIDs
    && (InShutdown(s.workers[0].phase) ==> InShutdown(s'.workers[0].phase))
  }

  lemma MovesUndisturbed(s: State, s': State, later: bool)
    requires |s.workers| == 2 && Undisturbed(s, s') && Places(s') == Places(s)
    ensures Live(s', later) <= Live(s, later)
  {
    hide Places, Live;
    MovesOnly(s, s', later);
  }

  lemma ReceiveUndisturbed(s: State, w: nat)
    requires |s.workers| == 2
    ensures Undisturbed(s, ReceiveEffect(s, w))
  {
  }

  lemma EnrichUndisturbed(s: State, w: nat, country: string, city: string)
    requires |s.workers| == 2
    ensures Undisturbed(s, EnrichEffect(s, w, country, city))
  {
  }

  lemma ClockUndisturbed(s: State, step: Step)
    requires |s.workers| == 2 && (step.Advance? || step.Stop? || step.Tick? || step.BeginClose?)
    ensures Undisturbed(s, Apply(s, step))
  {
  }

  lemma FinishUndisturbed(s: State, w: nat)
    requires Inv(s)
    ensures Undisturbed(s, FinishCloseEffect(s, w))
  {
    var off: nat :| HeldAt(s.issued, s.workers[0], off);
  }

  lemma OfferAside(s: State, event: ClickEvent, later: bool)
    requires |s.workers| == 2
    ensures Aside(OfferEffect(s, event)) == Aside(s) && Free(OfferEffect(s, event), later) == Free(s, later)
  {
  }

  lemma OfferMoving(s: State, event: ClickEvent)
    requires |s.workers| == 2
    ensures Moving(OfferEffect(s, event)) == Moving(s) + if s.stopped then multiset{} else multiset{|s.offered|}
  {
    hide Aside, Moving, Places;
    var s', m := OfferEffect(s, event), if s.stopped then multiset{} else multiset{|s.offered|};
    if !s.stopped { OfferPlaces(s, event); }
    OfferAside(s, event, true);
    hide OfferEffect;
    PlacesIsMoving(s);
    PlacesIsMoving(s');
    assert Moving(s') + Aside(s) == Moving(s) + m + Aside(s);
    Cancel(Moving(s'), Moving(s) + m, Aside(s));
  }

  lemma OfferLive(s: State, event: ClickEvent, later: bool)
    requires |s.workers| == 2
    ensures Live(OfferEffect(s, event), later) <= Live(s, later) + if s.stopped then multiset{}
            else multiset{|s.offered|}
  {
    hide Aside, Moving, Places, Live, Free, OfferEffect;
    var m := if s.stopped then multiset{} else multiset{|s.offered|};
    OfferMoving(s, event);
    OfferAside(s, event, later);
    LiveChange(s, OfferEffect(s, event), later, multiset{}, m, {}, m);
  }

  lemma StoredUnread(issued: seq<Item>, stream: seq<nat>, held: seq<nat>, item: Item, trim: nat)
    requires trim <= |stream|
    ensures Unread(issued + [item], stream[trim..] + [|issued|], held) <= Unread(issued, stream, held) + {item.tag}
  {
    var longer := stream[trim..] + [|issued|];
    forall t | t in Unread(issued + [item], longer, held) ensures t in Unread(issued, stream, held) + {item.tag} {
      var id :| id in longer && id < |issued| + 1 && id !in held && (issued + [item])[id].tag == t;
      if id != |issued| {
        assert id in stream[trim..];
        assert (issued + [item])[id] == issued[id];
      }
    }
  }

  lemma PushMoves(s: State, producer: nat, pushed: PushOutcome, trim: nat, later: bool)
    requires |s.workers| == 2 && CanPush(s, producer, pushed, trim)
    ensures var s', t := PushEffect(s, producer, pushed, trim), s.pushing[producer].tag;
            && |s'.workers| == 2 && s'.workers == s.workers && s'.table == s.table
               && Queued(s) == Queued(s') + multiset{t}
            && Free(s', later) <= Free(s, later) + {t}
  {
    TagsSplit(s.pushing, producer);
    StoredUnread(s.issued, s.stream, s.workers[0].overflowIDs, s.pushing[producer], trim);
    hide Unread, Tags;
  }

  lemma PushLive(s: State, producer: nat, pushed: PushOutcome, trim: nat, later: bool)
    requires |s.workers| == 2
    ensures Live(PushEffect(s, producer, pushed, trim), later) <= Live(s, later)
  {
    hide Queued, CarriedByAll, Free, Live, Tags;
    if CanPush(s, producer, pushed, trim) {
      hide PushEffect;
      var s', t := PushEffect(s, producer, pushed, trim), s.pushing[producer].tag;
      PushMoves(s, producer, pushed, trim, later);
      LiveChange(s, s', later, multiset{t}, multiset{}, {t}, multiset{});
      assert Live(s, later) + multiset{} == Live(s, later);
    }
  }

  lemma ReadUnread(issued: seq<Item>, stream: seq<nat>, ids: seq<nat>)
    requires DistinctEntries(issued) && Increasing(ids)
    requires forall i :: 0 <= i < |ids| ==> ids[i] < |issued| && ids[i] in stream
    ensures multiset(Unread(issued, stream, ids)) + multiset(Tags(Entries(issued, ids)))
            == multiset(Unread(issued, stream, []))
  {
    EntryTagsAreASet(issued, ids);
    var taken := set i | 0 <= i < |ids| :: issued[ids[i]].tag;
    assert forall i :: 0 <= i < |ids| ==> ids[i] in ids;
    assert Unread(issued, stream, []) == Unread(issued, stream, ids) + taken;
    assert Unread(issued, stream, ids) !! taken;
  }

  lemma FreeIs(s: State, later: bool)
    requires |s.workers| == 2 && !InShutdown(s.workers[0].phase)
    ensures Free(s, later) == Unread(s.issued, s.stream, s.workers[0].overflowIDs)
  {
  }

  lemma PrefixOfStream(s: State, ids: seq<nat>)
    requires Inv(s) && s.workers[0].phase.Reading? && ids <= s.stream
    ensures Increasing(ids) && forall i :: 0 <= i < |ids| ==> ids[i] < |s.issued| && ids[i] in s.stream
    ensures s.workers[0].overflowIDs == []
  {
    assert forall i :: 0 <= i < |ids| ==> ids[i] == s.stream[i] && ids[i] in s.stream;
  }

  lemma LoadedHoldsIDs(k: Worker, issued: seq<Item>, ids: seq<nat>)
    requires k.overflowIDs == [] && forall i :: 0 <= i < |ids| ==> ids[i] < |issued|
    ensures Loaded(k, issued, ids).overflowIDs == ids && !InShutdown(Loaded(k, issued, ids).phase)
  {
  }

  lemma LoadedFree(s: State, ids: seq<nat>, later: bool)
    requires Inv(s) && DistinctEntries(s.issued) && s.workers[0].phase.Reading? && ids <= s.stream
    requires forall i :: 0 <= i < |ids| ==> ids[i] < |s.issued|
    ensures multiset(Free(SetWorker(s, 0, Loaded(s.workers[0], s.issued, ids)), later))
            + multiset(Tags(Entries(s.issued, ids)))
         == multiset(Free(s, later))
  {
    InvHasTwo(s);
    hide Inv, Free, Unread, Tags, Entries, Loaded, DistinctEntries, Increasing;
    PrefixOfStream(s, ids);
    LoadedHoldsIDs(s.workers[0], s.issued, ids);
    FreeIs(s, later);
    FreeIs(SetWorker(s, 0, Loaded(s.workers[0], s.issued, ids)), later);
    ReadUnread(s.issued, s.stream, ids);
  }

  lemma LoadedLive(s: State, ids: seq<nat>, later: bool)
    requires Inv(s) && DistinctEntries(s.issued) && s.workers[0].phase.Reading? && ids <= s.stream
    requires forall i :: 0 <= i < |ids| ==> ids[i] < |s.issued|
    ensures Live(SetWorker(s, 0, Loaded(s.workers[0], s.issued, ids)), later) <= Live(s, later)
  {
    var s' := SetWorker(s, 0, Loaded(s.workers[0], s.issued, ids));
    LoadedCarried(s, ids);
    LoadedFree(s, ids, later);
    hide Inv, Free, CarriedByAll, Loaded, Tags, Entries, DistinctEntries;
    assert Queued(s') == Queued(s) && s'.table == s.table;
    assert s'.workers == s.workers[0 := Loaded(s.workers[0], s.issued, ids)];
    hide SetWorker, Queued;
  }

  lemma ReadLive(s: State, w: nat, ok: bool, later: bool)
    requires Inv(s) && DistinctEntries(s.issued)
    ensures Live(ReadEffect(s, w, ok), later) <= Live(s, later)
  {
    hide Live, DistinctEntries, Places;
    if Phases(s, w).Reading? && |s.workers[w].batch| < FULL_BATCH {
      ReadIsLoad(s, w, ok);
      if ok {
        LoadedLive(s, Readable(s.stream, |s.workers[w].batch|), later);
      } else {
        PhasePlaces(s, 0, FlushIfAny(s.workers[0]).phase);
        MovesUndisturbed(s, ReadEffect(s, w, ok), later);
      }
    }
  }

  // ------------------------------------------------------------------- inserts

  lemma CommitLive(s: State, w: nat, later: bool)
    requires |s.workers| == 2 && Phases(s, w).Flushing?
    ensures Live(InsertEffect(s, w, Committed), later) <= Live(s, later)
  {
    hide Live, Places;
    CommitPlaces(s, w);
    MovesUndisturbed(s, InsertEffect(s, w, Committed), later);
  }

  lemma Regroup(q: multiset<nat>, c: multiset<nat>, c': multiset<nat>, d: multiset<nat>, d': multiset<nat>,
                loss: multiset<nat>, gain: multiset<nat>)
    requires c == c' + loss && d' == d + gain
    ensures q + c' + d' + loss == q + c + d + gain
  {
  }

  lemma RetryMoving(s: State, w: nat, inserted: InsertOutcome)
    requires |s.workers| == 2 && Phases(s, w) == Flushing(false) && !inserted.Committed?
    ensures Moving(InsertEffect(s, w, inserted)) == Moving(s) + if inserted.Rejected? then multiset{}
            else multiset(Tags(s.workers[w].batch))
  {
    var k, s' := s.workers[w], InsertEffect(s, w, inserted);
    var gain := if inserted.Rejected? then multiset{} else multiset(Tags(k.batch));
    GaveAway(s.workers, w, s'.workers[w], multiset{});
    TagsConcat(s.table, k.batch);
    assert Queued(s') == Queued(s) && s'.workers == s.workers[w := s'.workers[w]];
    assert s'.table == if inserted.Rejected? then s.table else s.table + k.batch;
    assert multiset(Tags(s'.table)) == multiset(Tags(s.table)) + gain;
    hide Queued, CarriedByAll, InsertEffect, Tags;
    Regroup(Queued(s), CarriedByAll(s.workers), CarriedByAll(s'.workers), multiset(Tags(s.table)),
            multiset(Tags(s'.table)), multiset{}, gain);
  }

  lemma RetryFree(s: State, w: nat, inserted: InsertOutcome, later: bool)
    requires |s.workers| == 2 && Phases(s, w) == Flushing(false) && !inserted.Committed?
    ensures Free(InsertEffect(s, w, inserted), later) == Free(s, later)
  {
    hide Tags, HeldTags;
  }

  lemma RetryLive(s: State, w: nat, inserted: InsertOutcome, later: bool)
    requires |s.workers| == 2 && Phases(s, w) == Flushing(false) && !inserted.Committed?
    ensures Live(InsertEffect(s, w, inserted), later) <= Live(s, later) + Harm(s, Insert(w, inserted), later)
  {
    hide Moving, Free, InsertEffect, Tags, Live;
    var harm := Harm(s, Insert(w, inserted), later);
    RetryMoving(s, w, inserted);
    RetryFree(s, w, inserted, later);
    LiveChange(s, InsertEffect(s, w, inserted), later, multiset{}, harm, {}, harm);
  }

  lemma UnreadSplits(issued: seq<Item>, stream: seq<nat>, held: seq<nat>)
    ensures Unread(issued, stream, []) <= Unread(issued, stream, held)
            + (set id | id in held && id in stream && id < |issued| :: issued[id].tag)
  {
  }

  /** What becomes unheld is at most what was held in the stream. */
  lemma ReleasedFree(s: State, s': State, later: bool)
    requires |s.workers| == 2 && |s'.workers| == 2 && s'.issued == s.issued && s'.stream == s.stream
    requires s'.workers[0].overflowIDs == [] || s'.workers[0] == s.workers[0]
    requires InShutdown(s.workers[0].phase) ==> InShutdown(s'.workers[0].phase)
    ensures Free(s', later) <= Free(s, later) + HeldInStream(s)
    ensures s'.workers[0] == s.workers[0] || (!later && InShutdown(s'.workers[0].phase)) ==>
            Free(s', later) <= Free(s, later)
  {
    UnreadSplits(s.issued, s.stream, s.workers[0].overflowIDs);
  }

  lemma HeldIsInBatch(s: State)
    requires Inv(s) && IssuedOnce(s)
    ensures multiset(HeldInStream(s)) <= multiset(Tags(s.workers[0].batch))
  {
    var k := s.workers[0];
    var off: nat :| HeldAt(s.issued, k, off);
    forall t | t in HeldInStream(s) ensures t in Tags(k.batch) {
      var id :| id in k.overflowIDs && id in s.stream && id < |s.issued| && s.issued[id].tag == t;
      var i :| 0 <= i < |k.overflowIDs| && k.overflowIDs[i] == id;
      InTags(k.batch, k.batch[off + i]);
    }
  }

  lemma LastFlushMoving(s: State, w: nat, inserted: InsertOutcome)
    requires |s.workers| == 2 && Phases(s, w) == Flushing(true) && !inserted.Committed?
    ensures var tags := multiset(Tags(s.workers[w].batch));
            Moving(InsertEffect(s, w, inserted)) + tags == Moving(s) + if inserted.Rejected? then multiset{} else tags
  {
    var k, s' := s.workers[w], InsertEffect(s, w, inserted);
    var tags := multiset(Tags(k.batch));
    var gain := if inserted.Rejected? then multiset{} else tags;
    GaveAway(s.workers, w, s'.workers[w], tags);
    TagsConcat(s.table, k.batch);
    assert Queued(s') == Queued(s) && s'.workers == s.workers[w := s'.workers[w]];
    assert s'.table == if inserted.Rejected? then s.table else s.table + k.batch;
    assert multiset(Tags(s'.table)) == multiset(Tags(s.table)) + gain;
    hide Queued, CarriedByAll, InsertEffect, Tags;
    Regroup(Queued(s), CarriedByAll(s.workers), CarriedByAll(s'.workers), multiset(Tags(s.table)),
            multiset(Tags(s'.table)), tags, gain);
  }

  lemma LastFlushFree(s: State, w: nat, inserted: InsertOutcome, later: bool)
    requires Inv(s) && Phases(s, w) == Flushing(true) && !inserted.Committed?
    ensures Free(InsertEffect(s, w, inserted), later) <= Free(s, later) + if w == 0 && later then HeldInStream(s)
            else {}
  {
    var s' := InsertEffect(s, w, inserted);
    assert s'.issued == s.issued && s'.stream == s.stream;
    assert w == 1 ==> s'.workers[0] == s.workers[0];
    assert w == 0 ==> InShutdown(s'.workers[0].phase) && s'.workers[0].overflowIDs == [];
    hide Inv, InsertEffect, Free, HeldInStream;
    ReleasedFree(s, s', later);
  }

  /** A last flush that fails gives up the batch, or stores it, and releases the entries that were held. */
  lemma LastFlushLive(s: State, w: nat, inserted: InsertOutcome, later: bool)
    requires Inv(s) && IssuedOnce(s) && Phases(s, w) == Flushing(true) && !inserted.Committed?
    ensures Live(InsertEffect(s, w, inserted), later) <= Live(s, later) + Harm(s, Insert(w, inserted), later)
  {
    InvHasTwo(s);
    HeldIsInBatch(s);
    hide Inv, IssuedOnce, InsertEffect, Moving, Free, HeldInStream, Tags, Live;
    var tags := multiset(Tags(s.workers[w].batch));
    LastFlushMoving(s, w, inserted);
    LastFlushFree(s, w, inserted, later);
    LiveChange(s, InsertEffect(s, w, inserted), later, tags, if inserted.Rejected? then multiset{} else tags,
               if w == 0 && later then HeldInStream(s) else {}, Harm(s, Insert(w, inserted), later));
  }

  lemma InsertLive(s: State, w: nat, inserted: InsertOutcome, later: bool)
    requires Inv(s) && IssuedOnce(s)
    ensures Live(InsertEffect(s, w, inserted), later) <= Live(s, later) + Harm(s, Insert(w, inserted), later)
  {
    hide Live, Inv, IssuedOnce, Harm;
    if Phases(s, w).Flushing? {
      if inserted.Committed? {
        CommitLive(s, w, later);
      } else if Phases(s, w).closing {
        LastFlushLive(s, w, inserted, later);
      } else {
        RetryLive(s, w, inserted, later);
      }
    }
  }

  // ---------------------------------------------------------------- acknowledgements

  lemma AckMoving(s: State, w: nat, applied: bool)
    requires |s.workers| == 2
    ensures Moving(AckEffect(s, w, applied)) == Moving(s)
  {
    if Phases(s, w).Acking? {
      var k, s' := s.workers[w], AckEffect(s, w, applied);
      assert Carried(s'.workers[w]) == Carried(k) == [];
      WorkerSet(s.workers, w, s'.workers[w]);
      assert s'.workers == s.workers[w := s'.workers[w]];
      assert Queued(s') == Queued(s) && s'.table == s.table;
      hide Queued, Carried, AckEffect;
    }
  }

  /** With worker 1 nothing is held; with worker 0 an acknowledgement that takes effect removes the entries it
      releases. */
  lemma AckFree(s: State, w: nat, applied: bool, later: bool)
    requires Inv(s) && Phases(s, w).Acking?
    ensures var s' := AckEffect(s, w, applied);
            Free(s', later) <= Free(s, later) + if Harm(s, Ack(w, applied), later) == multiset{} then {}
                else HeldInStream(s)
  {
    var s', held := AckEffect(s, w, applied), s.workers[0].overflowIDs;
    if s.hasRedis && applied {
      assert w == 1 ==> Without(s.stream, []) == s.stream by { WithoutNone(s.stream, []); }
      assert Unread(s.issued, Without(s.stream, held), []) <= Unread(s.issued, s.stream, held);
    } else {
      ReleasedFree(s, s', later);
    }
  }

  lemma AckLive(s: State, w: nat, applied: bool, later: bool)
    requires Inv(s)
    ensures Live(AckEffect(s, w, applied), later) <= Live(s, later) + Harm(s, Ack(w, applied), later)
  {
    InvHasTwo(s);
    hide Moving, Free, HeldInStream, Inv, AckEffect, Live;
    if Phases(s, w).Acking? {
      var harm := Harm(s, Ack(w, applied), later);
      AckMoving(s, w, applied);
      AckFree(s, w, applied, later);
      LiveChange(s, AckEffect(s, w, applied), later, multiset{}, multiset{}, if harm == multiset{} then {}
                 else HeldInStream(s), harm);
    } else {
      NotAcking(s, w, applied);
    }
  }

  lemma NotAcking(s: State, w: nat, applied: bool)
    requires !Phases(s, w).Acking?
    ensures AckEffect(s, w, applied) == s
  {
  }

  // ------------------------------------------------------------------ every step

  lemma ReceiveLive(s: State, w: nat, later: bool)
    requires |s.workers| == 2
    ensures Live(ReceiveEffect(s, w), later) <= Live(s, later)
  {
    hide Live, Places, Undisturbed, ReceiveEffect;
    ReceivePlaces(s, w);
    ReceiveUndisturbed(s, w);
    MovesUndisturbed(s, ReceiveEffect(s, w), later);
  }

  lemma EnrichLive(s: State, w: nat, country: string, city: string, later: bool)
    requires |s.workers| == 2
    ensures Live(EnrichEffect(s, w, country, city), later) <= Live(s, later)
  {
    hide Live, Places, Undisturbed, EnrichEffect;
    EnrichPlaces(s, w, country, city);
    EnrichUndisturbed(s, w, country, city);
    MovesUndisturbed(s, EnrichEffect(s, w, country, city), later);
  }

  lemma FinishLive(s: State, w: nat, later: bool)
    requires Inv(s)
    ensures Live(FinishCloseEffect(s, w), later) <= Live(s, later)
  {
    hide Live, Places, Undisturbed, FinishCloseEffect;
    InvHasTwo(s);
    FinishCloseExact(s, w);
    FinishUndisturbed(s, w);
    MovesUndisturbed(s, FinishCloseEffect(s, w), later);
  }

  lemma ClockLive(s: State, step: Step, later: bool)
    requires |s.workers| == 2 && (step.Advance? || step.Stop? || step.Tick? || step.BeginClose?)
    ensures Live(Apply(s, step), later) <= Live(s, later)
  {
    hide Live, Places, Undisturbed;
    if step.Tick? || step.BeginClose? {
      PhaseStepPlaces(s, step, Apply(s, step));
    } else { ClockPlaces(s, Apply(s, step)); }
    hide Apply;
    ClockUndisturbed(s, step);
    MovesUndisturbed(s, Apply(s, step), later);
  }

  /** Steps of a worker that only move clicks, or the clock's. */
  lemma WorkerMoves(s: State, step: Step, later: bool)
    requires |s.workers| == 2 && Inv(s)
    requires step.Receive? || step.Enrich? || step.FinishClose? || step.Advance? || step.Stop? || step.Tick?
             || step.BeginClose?
    ensures Live(Apply(s, step), later) <= Live(s, later)
  {
    hide Inv, Live, ReceiveEffect, EnrichEffect, FinishCloseEffect;
    if step.Receive? {
      ReceiveLive(s, step.w, later);
    } else if step.Enrich? {
      EnrichLive(s, step.w, step.country, step.city, later);
    } else if step.FinishClose? {
      FinishLive(s, step.w, later);
    } else {
      ClockLive(s, step, later);
    }
  }

  /** Steps between the producers, the stream and worker 0. */
  lemma StreamMoves(s: State, step: Step, later: bool)
    requires |s.workers| == 2 && Inv(s) && IssuedOnce(s) && (step.Push? || step.Read?)
    ensures Live(Apply(s, step), later) <= Live(s, later)
  {
    hide Inv, Live, IssuedOnce, DistinctEntries, PushEffect, ReadEffect;
    if step.Push? {
      PushLive(s, step.producer, step.pushed, step.trim, later);
    } else {
      IssuedOnceIsDistinct(s);
      ReadLive(s, step.w, step.ok, later);
    }
  }

  /** Steps that may do harm. */
  lemma StepHarms(s: State, step: Step, later: bool)
    requires |s.workers| == 2 && Inv(s) && IssuedOnce(s) && (step.Insert? || step.Ack?)
    ensures Live(Apply(s, step), later) <= Live(s, later) + Harm(s, step, later)
  {
    hide Inv, Live, IssuedOnce, Harm, InsertEffect, AckEffect;
    if step.Insert? { InsertLive(s, step.w, step.inserted, later); } else { AckLive(s, step.w, step.applied, later); }
  }

  /** A step adds a click when it is offered, and repeats one only by harm. */
  lemma StepLive(s: State, step: Step, s': State, later: bool)
    requires Inv(s) && IssuedOnce(s) && s' == Apply(s, step)
    ensures |s.workers| == |s'.workers| == 2
    ensures Live(s', later) <= Live(s, later) + Harm(s, step, later)
                              + if step.Offer? && !s.stopped then multiset{|s.offered|} else multiset{}
  {
    InvHasTwo(s);
    hide Inv, IssuedOnce, Live, Harm, Apply;
    if step.Insert? || step.Ack? {
      StepHarms(s, step, later);
    } else if step.Offer? {
      StepOffers(s, step, later);
    } else if step.Push? || step.Read? {
      StreamMoves(s, step, later);
    } else {
      WorkerMoves(s, step, later);
    }
  }

  lemma StepOffers(s: State, step: Step, later: bool)
    requires |s.workers| == 2 && step.Offer?
    ensures Live(Apply(s, step), later) <= Live(s, later) + if s.stopped then multiset{} else multiset{|s.offered|}
  {
    hide Live, OfferEffect;
    OfferLive(s, step.event, later);
  }

  lemma InvHasTwo(s: State)
    requires Inv(s)
    ensures |s.workers| == 2
  {
  }

  lemma OfferedIs(s: State, step: Step)
    ensures Apply(s, step).offered == if step.Offer? && !s.stopped then s.offered + [step.event] else s.offered
  {
  }

  lemma StepBounded(s: State, step: Step, s': State, later: bool, harms: multiset<nat>)
    requires Inv(s) && IssuedOnce(s) && s' == Apply(s, step) && Bounded(s, later, harms)
    ensures Bounded(s', later, harms + Harm(s, step, later))
  {
    StepLive(s, step, s', later);
    OfferedIs(s, step);
    hide Inv, IssuedOnce, Live, Harm, Apply;
  }

  lemma {:induction false} RunBounded(s: State, steps: seq<Step>, later: bool, harms: multiset<nat>)
    requires Inv(s) && IssuedOnce(s) && Bounded(s, later, harms)
    ensures Inv(Run(s, steps)) && IssuedOnce(Run(s, steps))
            && Bounded(Run(s, steps), later, harms + Harms(s, steps, later))
    decreases |steps|
  {
    hide Inv, IssuedOnce, Bounded, Apply, Harm;
    if steps == [] {
      assert harms + multiset{} == harms;
    } else {
      var n := |steps| - 1;
      var before := Run(s, steps[..n]);
      RunBounded(s, steps[..n], later, harms);
      StepKeepsInv(before, steps[n]);
      StepIssuedOnce(before, steps[n]);
      StepBounded(before, steps[n], Run(s, steps), later, harms + Harms(s, steps[..n], later));
      assert harms + Harms(s, steps[..n], later) + Harm(before, steps[n], later) == harms + Harms(s, steps, later);
    }
  }

  lemma StartsBounded(hasRedis: bool, clock: int, later: bool)
    ensures Inv(Init(hasRedis, clock)) && IssuedOnce(Init(hasRedis, clock))
            && Bounded(Init(hasRedis, clock), later, multiset{})
  {
    InitInv(hasRedis, clock);
  }

  /** In any run a click has at most one row, and one more for each time an insert of it succeeded without
      being reported before shutdown, or an acknowledgement left its entry in the stream. */
  lemma RowsBounded(hasRedis: bool, clock: int, steps: seq<Step>, t: nat)
    ensures multiset(Tags(Reached(hasRedis, clock, steps).table))[t] <= 1
            + Harms(Init(hasRedis, clock), steps, false)[t]
  {
    var s := Reached(hasRedis, clock, steps);
    StartsBounded(hasRedis, clock, false);
    hide Inv, IssuedOnce, Harms;
    RunBounded(Init(hasRedis, clock), steps, false, multiset{});
    assert Live(s, false)[t] >= multiset(Tags(s.table))[t];
  }

  // ----------------------------------------------------------------- at most once

  predicate StoredTwice(s: State) {
    exists i, j :: 0 <= i < j < |s.table| && s.table[i].tag == s.table[j].tag
  }

  /** Reachable states have a batch to insert, and acknowledge nothing without Redis. */
  lemma HarmIffHarmful(s: State, step: Step)
    requires Inv(s) && BothLoop(s)
    ensures Harm(s, step, false) != multiset{} <==> Harmful(s, step)
  {
    match step
    case Insert(w, inserted) =>
      if Phases(s, w) == Flushing(false) { assert Tags(s.workers[w].batch)[0] in multiset(Tags(s.workers[w].batch)); }
    case Ack(w, applied) =>
      if w == 0 && Phases(s, 0) == Acking(false) { HeldIffStreamed(s); }
    case _ =>
  }

  lemma HeldIffStreamed(s: State)
    requires Inv(s)
    ensures HeldInStream(s) != {} <==> exists id :: id in s.workers[0].overflowIDs && id in s.stream
  {
    if id :| id in s.workers[0].overflowIDs && id in s.stream {
      assert s.issued[id].tag in HeldInStream(s);
    }
  }

  lemma {:induction false} HarmlessHasNoHarms(s: State, steps: seq<Step>)
    requires Inv(s) && BothLoop(s) && HarmlessFrom(s, steps)
    ensures Harms(s, steps, false) == multiset{}
    decreases |steps|
  {
    hide Inv, BothLoop, Harm, Harmful;
    if steps != [] {
      var n := |steps| - 1;
      var before := steps[..n];
      forall k | 0 <= k < n ensures !Harmful(Run(s, before[..k]), before[k]) {
        assert before[..k] == steps[..k] && before[k] == steps[k];
      }
      HarmlessHasNoHarms(s, before);
      RunKeepsInv(s, before);
      RunLoops(s, before);
      HarmIffHarmful(Run(s, before), steps[n]);
    }
  }

  /** In a state whose clicks can have one row each, without harm no click gets two. */
  lemma HarmlessIsOnce(s: State, steps: seq<Step>)
    requires Inv(s) && IssuedOnce(s) && BothLoop(s) && Bounded(s, false, multiset{}) && HarmlessFrom(s, steps)
    ensures TableOnce(Run(s, steps)) && Inv(Run(s, steps)) && IssuedOnce(Run(s, steps))
  {
    hide Inv, IssuedOnce, BothLoop, Harms, HarmlessFrom, Live;
    HarmlessHasNoHarms(s, steps);
    RunBounded(s, steps, false, multiset{});
    var s' := Run(s, steps);
    hide Run;
    forall t: nat ensures multiset(Tags(s'.table))[t] <= if t < |s'.offered| then 1 else 0 {
      TableIsLive(s', t);
      assert Live(s', false)[t] <= (if t < |s'.offered| then 1 else 0) + (multiset{} + multiset{})[t];
    }
  }

  lemma TableIsLive(s: State, t: nat)
    requires |s.workers| == 2
    ensures multiset(Tags(s.table))[t] <= Live(s, false)[t]
  {
  }

  /** No offered click has two rows, and there are no others. */
  ghost predicate TableOnce(s: State) {
    forall t: nat :: multiset(Tags(s.table))[t] <= if t < |s.offered| then 1 else 0
  }

  lemma OnceIsNotTwice(s: State)
    requires TableOnce(s)
    ensures !StoredTwice(s) && forall i, j :: 0 <= i < j < |s.table| ==> s.table[i].tag != s.table[j].tag
  {
    OnceIsDistinct(s.table);
  }

  /** Without a harmful step no click is stored twice. */
  lemma AtMostOnce(hasRedis: bool, clock: int, steps: seq<Step>)
    requires HarmlessRun(hasRedis, clock, steps)
    ensures var s := Reached(hasRedis, clock, steps);
            forall i, j :: 0 <= i < j < |s.table| ==> s.table[i].tag != s.table[j].tag
  {
    StartsBounded(hasRedis, clock, false);
    HarmlessRunIsFrom(hasRedis, clock, steps);
    hide Inv, IssuedOnce, Bounded, HarmlessRun, HarmlessFrom;
    RunLoops(Init(hasRedis, clock), []);
    HarmlessIsOnce(Init(hasRedis, clock), steps);
    OnceIsNotTwice(Reached(hasRedis, clock, steps));
  }

  lemma HarmlessRunIsFrom(hasRedis: bool, clock: int, steps: seq<Step>)
    ensures HarmlessRun(hasRedis, clock, steps) <==> HarmlessFrom(Init(hasRedis, clock), steps)
  {
    hide Harmful;
  }

  // ------------------------------------------------------------- over several processes

  /** A process that stops between an insert and its acknowledgement leaves the entries in the stream. */
  function CrashHarm(s: State): multiset<nat>
    requires |s.workers| == 2
  {
    if s.workers[0].phase.Acking? then multiset(HeldInStream(s)) else multiset{}
  }

  ghost function LivesHarm(clock: int, lives: seq<Life>): multiset<nat>
    decreases |lives|
  {
    if lives == [] then multiset{}
    else
      var n := |lives| - 1;
      var s := Lives(clock, lives[..n]);
      LivesHarm(clock, lives[..n])
      + (if |s.workers| == 2 then CrashHarm(s) else multiset{})
      + Harms(Restarted(s, lives[n].hasRedis), lives[n].steps, true)
  }

  lemma RestartMoving(s: State, hasRedis: bool)
    requires |s.workers| == 2
    ensures Moving(Restarted(s, hasRedis)) + (Queued(s) + CarriedByAll(s.workers)) == Moving(s)
  {
  }

  lemma RestartFree(s: State, hasRedis: bool)
    requires |s.workers| == 2
    ensures Free(Restarted(s, hasRedis), true) <= Free(s, true) + HeldInStream(s)
  {
    UnreadSplits(s.issued, s.stream, s.workers[0].overflowIDs);
  }

  /** What worker 0 holds in the stream it carries, unless it is about to acknowledge it. */
  lemma HeldIsCarried(s: State)
    requires Inv(s) && IssuedOnce(s)
    ensures multiset(HeldInStream(s)) <= CarriedByAll(s.workers) + CrashHarm(s)
  {
    HeldIsInBatch(s);
    hide HeldInStream, Inv, IssuedOnce;
    assert !s.workers[0].phase.Acking? ==> multiset(Tags(s.workers[0].batch)) <= multiset(Carried(s.workers[0]));
  }

  lemma RestartBounded(s: State, hasRedis: bool, harms: multiset<nat>)
    requires Inv(s) && IssuedOnce(s) && Bounded(s, true, harms)
    ensures IssuedOnce(Restarted(s, hasRedis)) && Bounded(Restarted(s, hasRedis), true, harms + CrashHarm(s))
  {
    var s' := Restarted(s, hasRedis);
    RestartMoving(s, hasRedis);
    RestartFree(s, hasRedis);
    HeldIsCarried(s);
    assert s'.offered == s.offered && |s'.workers| == 2;
    assert IssuedOnce(s') by { assert Pushed(s') <= Pushed(s); }
    hide Inv, IssuedOnce, Moving, Free, HeldInStream, CrashHarm, Queued, CarriedByAll, Live, Restarted;
    LiveChange(s, s', true, Queued(s) + CarriedByAll(s.workers), multiset{}, HeldInStream(s), CrashHarm(s));
  }

  lemma {:induction false} LivesBounded(clock: int, lives: seq<Life>)
    ensures var s := Lives(clock, lives); Inv(s) && IssuedOnce(s) && Bounded(s, true, LivesHarm(clock, lives))
    decreases |lives|
  {
    hide Inv, IssuedOnce, Bounded, Restarted, Run, Harms, CrashHarm;
    if lives == [] {
      StartsBounded(false, clock, true);
    } else {
      var n := |lives| - 1;
      var s, life := Lives(clock, lives[..n]), lives[n];
      LivesBounded(clock, lives[..n]);
      InvHasTwo(s);
      RestartKeepsInv(s, life.hasRedis);
      RestartBounded(s, life.hasRedis, LivesHarm(clock, lives[..n]));
      RunBounded(Restarted(s, life.hasRedis), life.steps, true, LivesHarm(clock, lives[..n]) + CrashHarm(s));
    }
  }

  /** Over any processes a click has at most one row, and one more for each harm to it, counting what a process
      leaves unacknowledged when it stops. */
  lemma RowsBoundedAcrossRestarts(clock: int, lives: seq<Life>, t: nat)
    ensures multiset(Tags(Lives(clock, lives).table))[t] <= 1 + LivesHarm(clock, lives)[t]
  {
    var s := Lives(clock, lives);
    LivesBounded(clock, lives);
    hide Inv, IssuedOnce, Lives, LivesHarm;
    assert Live(s, true)[t] >= multiset(Tags(s.table))[t];
  }
}
