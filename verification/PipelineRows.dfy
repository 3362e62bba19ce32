/** What the rows hold: an overflowed click as it was offered, any other one with the location found for it. */
module PipelineRows {
  import opened Domain
  import opened Pipeline
  import opened PipelineInvariant
  import opened PipelineShutdown

  /** The items are as they were offered, but for those that came through the channel. */
  predicate AsOffered(offered: seq<ClickEvent>, accepted: set<nat>, items: seq<Item>) {
    forall i :: 0 <= i < |items| ==> items[i].tag in accepted || Untouched(offered, items[i])
  }

  predicate RowsInv(s: State) {
    && |s.workers| == 2
    && AsOffered(s.offered, s.accepted, s.table)
    && AsOffered(s.offered, s.accepted, s.workers[0].batch)
    && AsOffered(s.offered, s.accepted, s.workers[1].batch)
  }

  lemma OfferedLater(s: State, event: ClickEvent, items: seq<Item>)
    requires AsOffered(s.offered, s.accepted, items)
    ensures AsOffered(OfferEffect(s, event).offered, OfferEffect(s, event).accepted, items)
  {
  }

  lemma OfferRows(s: State, event: ClickEvent)
    requires RowsInv(s)
    ensures RowsInv(OfferEffect(s, event))
  {
    OfferedLater(s, event, s.table);
    OfferedLater(s, event, s.workers[0].batch);
    OfferedLater(s, event, s.workers[1].batch);
    hide AsOffered;
  }

  lemma SetRows(s: State, w: nat, k: Worker)
    requires RowsInv(s) && w < 2 && AsOffered(s.offered, s.accepted, k.batch)
    ensures RowsInv(SetWorker(s, w, k))
  {
    hide AsOffered;
  }

  lemma EnrichRows(s: State, w: nat, country: string, city: string)
    requires RowsInv(s) && RouteInv(s)
    ensures RowsInv(EnrichEffect(s, w, country, city))
  {
    if Phases(s, w).Enriching? {
      assert s.workers[w].phase.item.tag in s.accepted;
      hide RouteInv;
      SetRows(s, w, EnrichEffect(s, w, country, city).workers[w]);
    }
  }

  lemma LoadedRows(s: State, ids: seq<nat>, k: Worker)
    requires AllUntouched(s.offered, s.issued) && AsOffered(s.offered, s.accepted, k.batch)
    requires forall i :: 0 <= i < |ids| ==> ids[i] < |s.issued|
    ensures AsOffered(s.offered, s.accepted, Loaded(k, s.issued, ids).batch)
  {
  }

  lemma ReadRows(s: State, w: nat, ok: bool)
    requires RowsInv(s) && Inv(s)
    ensures RowsInv(ReadEffect(s, w, ok))
  {
    if Phases(s, w).Reading? && |s.workers[w].batch| < FULL_BATCH {
      var k, ids := s.workers[w], Readable(s.stream, |s.workers[w].batch|);
      assert AllUntouched(s.offered, s.issued);
      hide AllUntouched, AsOffered, Loaded, Readable, Inv;
      if ok && forall i :: 0 <= i < |ids| ==> ids[i] < |s.issued| {
        LoadedRows(s, ids, k);
        SetRows(s, w, Loaded(k, s.issued, ids));
      } else {
        SetRows(s, w, FlushIfAny(k));
      }
    }
  }

  lemma InsertRows(s: State, w: nat, inserted: InsertOutcome)
    requires RowsInv(s)
    ensures RowsInv(InsertEffect(s, w, inserted))
  {
    hide Tags, HeldTags;
    if Phases(s, w).Flushing? {
      assert AsOffered(s.offered, s.accepted, s.table + s.workers[w].batch);
      assert AsOffered(s.offered, s.accepted, []);
      hide AsOffered;
    }
  }

  /** Every other step leaves each batch as it was, or empties it. */
  lemma OtherRows(s: State, step: Step)
    requires RowsInv(s) && (step.Receive? || step.Tick? || step.Ack? || step.BeginClose? || step.FinishClose?)
    ensures RowsInv(Apply(s, step))
  {
    assert AsOffered(s.offered, s.accepted, []);
    hide AsOffered, Without;
  }

  lemma ProducerRows(s: State, step: Step)
    requires RowsInv(s) && (step.Push? || step.Advance? || step.Stop?)
    ensures RowsInv(Apply(s, step))
  {
    hide AsOffered;
  }

  lemma StepRows(s: State, step: Step)
    requires RowsInv(s) && Inv(s) && RouteInv(s)
    ensures RowsInv(Apply(s, step))
  {
    hide RowsInv, Inv, RouteInv, OfferEffect, EnrichEffect, ReadEffect, InsertEffect;
    if step.Offer? {
      OfferRows(s, step.event);
    } else if step.Enrich? {
      EnrichRows(s, step.w, step.country, step.city);
    } else if step.Read? {
      ReadRows(s, step.w, step.ok);
    } else if step.Insert? {
      InsertRows(s, step.w, step.inserted);
    } else if step.Push? || step.Advance? || step.Stop? {
      ProducerRows(s, step);
    } else {
      OtherRows(s, step);
    }
  }

  lemma {:induction false} ReachedRows(hasRedis: bool, clock: int, steps: seq<Step>)
    ensures RowsInv(Reached(hasRedis, clock, steps))
    decreases |steps|
  {
    if steps != [] {
      hide RowsInv, Inv, RouteInv, Apply;
      var before, step := steps[..|steps| - 1], steps[|steps| - 1];
      ReachedRows(hasRedis, clock, before);
      ReachedInv(hasRedis, clock, before);
      ReachedRoutes(hasRedis, clock, before);
      StepRows(Reached(hasRedis, clock, before), step);
    }
  }

  /** A row differs from the offered click only if the channel took the click, and then only in country and
      city; the row of a click that overflowed is the click as it was offered, without a location. */
  lemma OverflowRowsAreAsOffered(hasRedis: bool, clock: int, steps: seq<Step>)
    ensures var s := Reached(hasRedis, clock, steps);
            forall i :: 0 <= i < |s.table| && s.table[i].tag !in s.accepted ==>
              s.table[i].tag < |s.offered| && s.table[i].event == s.offered[s.table[i].tag]
  {
    ReachedRows(hasRedis, clock, steps);
  }

  // ------------------------------------------------------------ the clicks of the channel

  predicate Carries(s: State, item: Item) {
    |s.workers| == 2 && (item in s.table || item in s.workers[0].batch || item in s.workers[1].batch)
  }

  /** The step gives the location with which the worker's click became the item. */
  predicate LocatesAs(s: State, step: Step, item: Item) {
    && step.Enrich? && Phases(s, step.w).Enriching?
    && s.workers[step.w].phase.item.tag == item.tag
    && item.tag < |s.offered|
    && item.event.country == step.country
    && item.event.city == step.city
    && item.event == s.offered[item.tag].(country := item.event.country, city := item.event.city)
  }

  ghost predicate WasLocated(hasRedis: bool, clock: int, steps: seq<Step>, item: Item) {
    exists k :: 0 <= k < |steps| && LocatesAs(Reached(hasRedis, clock, steps[..k]), steps[k], item)
  }

  lemma EnrichCarries(s: State, w: nat, country: string, city: string, item: Item)
    requires Inv(s) && Carries(EnrichEffect(s, w, country, city), item)
    ensures Carries(s, item) || LocatesAs(s, Enrich(w, country, city), item)
  {
    if Phases(s, w).Enriching? {
      var k, s' := s.workers[w], EnrichEffect(s, w, country, city);
      assert Untouched(s.offered, k.phase.item);
      hide Inv;
      assert s'.workers[w].batch[..|k.batch|] == k.batch;
    }
  }

  lemma ReadCarries(s: State, w: nat, ok: bool, item: Item)
    requires |s.workers| == 2 && Carries(ReadEffect(s, w, ok), item)
    ensures Carries(s, item) || item in s.issued
  {
    hide Readable;
  }

  lemma InsertCarries(s: State, w: nat, inserted: InsertOutcome, item: Item)
    requires |s.workers| == 2 && Carries(InsertEffect(s, w, inserted), item)
    ensures Carries(s, item)
  {
    hide Tags, HeldTags;
  }

  lemma AckCarries(s: State, w: nat, applied: bool, item: Item)
    requires |s.workers| == 2 && Carries(AckEffect(s, w, applied), item)
    ensures Carries(s, item)
  {
    hide Without;
  }

  lemma FlushCarries(s: State, step: Step, item: Item)
    requires |s.workers| == 2 && (step.Insert? || step.Ack?) && Carries(Apply(s, step), item)
    ensures Carries(s, item)
  {
    hide Carries, InsertEffect, AckEffect;
    if step.Insert? {
      InsertCarries(s, step.w, step.inserted, item);
    } else { AckCarries(s, step.w, step.applied, item); }
  }

  lemma OtherCarries(s: State, step: Step, item: Item)
    requires |s.workers| == 2 && !step.Enrich? && !step.Read? && !step.Insert? && !step.Ack?
    requires Carries(Apply(s, step), item)
    ensures Carries(s, item)
  {
  }

  /** An item that a step puts into a batch or the table was there, or comes from the stream or from the worker
      that has just located it. */
  lemma StepCarries(s: State, step: Step, item: Item)
    requires Inv(s) && |s.workers| == 2 && Carries(Apply(s, step), item)
    ensures Carries(s, item) || item in s.issued || LocatesAs(s, step, item)
  {
    hide Inv, Carries, LocatesAs, EnrichEffect, ReadEffect;
    if step.Enrich? {
      EnrichCarries(s, step.w, step.country, step.city, item);
    } else if step.Read? {
      ReadCarries(s, step.w, step.ok, item);
    } else if step.Insert? || step.Ack? {
      FlushCarries(s, step, item);
    } else {
      OtherCarries(s, step, item);
    }
  }

  /** Whether the channel took a click is settled when it is offered. */
  lemma AcceptedBefore(s: State, step: Step, item: Item)
    requires Inv(s) && Carries(s, item) && item.tag in Apply(s, step).accepted
    ensures item.tag in s.accepted
  {
    if step.Offer? {
      assert Genuine(s.offered, item);
    } else {
      AcceptedSame(s, step);
    }
  }

  lemma AcceptedSame(s: State, step: Step)
    requires !step.Offer?
    ensures Apply(s, step).accepted == s.accepted
  {
  }

  lemma StreamIsNotAccepted(s: State, step: Step, item: Item)
    requires Inv(s) && RouteInv(s) && item in s.issued
    ensures item.tag !in Apply(s, step).accepted
  {
    if step.Offer? {
      assert Untouched(s.offered, item);
    } else {
      AcceptedSame(s, step);
    }
  }

  lemma LocatedLater(hasRedis: bool, clock: int, steps: seq<Step>, item: Item)
    requires steps != [] && WasLocated(hasRedis, clock, steps[..|steps| - 1], item)
    ensures WasLocated(hasRedis, clock, steps, item)
  {
    hide Reached, LocatesAs;
    var before := steps[..|steps| - 1];
    var k :| 0 <= k < |before| && LocatesAs(Reached(hasRedis, clock, before[..k]), before[k], item);
    assert before[..k] == steps[..k] && before[k] == steps[k];
  }

  lemma {:induction false} CarriedWasLocated(hasRedis: bool, clock: int, steps: seq<Step>, item: Item)
    requires Carries(Reached(hasRedis, clock, steps), item) && item.tag in Reached(hasRedis, clock, steps).accepted
    ensures WasLocated(hasRedis, clock, steps, item)
    decreases |steps|
  {
    hide Inv, RouteInv, Apply, LocatesAs;
    if steps != [] {
      var before, step := steps[..|steps| - 1], steps[|steps| - 1];
      var s := Reached(hasRedis, clock, before);
      ReachedInv(hasRedis, clock, before);
      ReachedRoutes(hasRedis, clock, before);
      ReachedRows(hasRedis, clock, before);
      StepCarries(s, step, item);
      if item in s.issued { StreamIsNotAccepted(s, step, item); }
      if Carries(s, item) {
        AcceptedBefore(s, step, item);
        CarriedWasLocated(hasRedis, clock, before, item);
        LocatedLater(hasRedis, clock, steps, item);
      }
    }
  }

  /** The row of a click that the channel took has the country and the city that were found for it, in these
      columns, when a worker had received it; all its other fields are as offered. */
  lemma ChannelRowsAreLocated(hasRedis: bool, clock: int, steps: seq<Step>, i: nat)
    requires i < |Reached(hasRedis, clock, steps).table|
    requires Reached(hasRedis, clock, steps).table[i].tag in Reached(hasRedis, clock, steps).accepted
    ensures var row := Reached(hasRedis, clock, steps).table[i];
            exists k :: 0 <= k < |steps| && LocatesAs(Reached(hasRedis, clock, steps[..k]), steps[k], row)
  {
    ReachedRows(hasRedis, clock, steps);
    CarriedWasLocated(hasRedis, clock, steps, Reached(hasRedis, clock, steps).table[i]);
  }

  // ------------------------------------------------------------- the order of the channel

  predicate InOrder(items: seq<Item>) {
    forall i, j :: 0 <= i < j < |items| ==> items[i].tag < items[j].tag
  }

  lemma StepKeepsOrder(s: State, step: Step)
    requires InOrder(s.channel) && AllUntouched(s.offered, s.channel)
    ensures InOrder(Apply(s, step).channel)
  {
    hide Tags, HeldTags, Without, Entries, Readable, AllUntouched;
    if step.Offer? {
      OfferKeepsOrder(s, step.event);
    } else if !step.Receive? {
      ChannelSame(s, step);
    }
  }

  lemma OfferKeepsOrder(s: State, event: ClickEvent)
    requires InOrder(s.channel) && AllUntouched(s.offered, s.channel)
    ensures InOrder(OfferEffect(s, event).channel)
  {
  }

  lemma ChannelSame(s: State, step: Step)
    requires !step.Offer? && !step.Receive?
    ensures Apply(s, step).channel == s.channel
  {
    hide Tags, HeldTags, Without, Entries, Readable;
  }

  lemma {:induction false} ReachedOrder(hasRedis: bool, clock: int, steps: seq<Step>)
    ensures InOrder(Reached(hasRedis, clock, steps).channel)
    decreases |steps|
  {
    hide Inv, Apply, InOrder;
    if steps == [] {
      assert InOrder([]) by { NothingInOrder(); }
    } else {
      var before, step := steps[..|steps| - 1], steps[|steps| - 1];
      ReachedOrder(hasRedis, clock, before);
      ReachedInv(hasRedis, clock, before);
      ChannelUntouched(Reached(hasRedis, clock, before));
      StepKeepsOrder(Reached(hasRedis, clock, before), step);
    }
  }

  lemma NothingInOrder()
    ensures InOrder([])
  {
  }

  lemma ChannelUntouched(s: State)
    requires Inv(s)
    ensures AllUntouched(s.offered, s.channel)
  {
  }

  /** A worker receives the oldest click in the channel, and leaves the others. */
  lemma ReceivesTheOldest(hasRedis: bool, clock: int, steps: seq<Step>, w: nat)
    requires var s := Reached(hasRedis, clock, steps);
             (Phases(s, w).Idle? || Phases(s, w).Closing?) && s.channel != []
    ensures var s := Reached(hasRedis, clock, steps);
            var s' := Apply(s, Receive(w));
            && Phases(s', w).Enriching?
            && multiset(s.channel) == multiset(s'.channel) + multiset{Phases(s', w).item}
            && forall i :: 0 <= i < |s'.channel| ==> Phases(s', w).item.tag < s'.channel[i].tag
  {
    ReachedOrder(hasRedis, clock, steps);
    var s := Reached(hasRedis, clock, steps);
    hide Reached;
    assert s.channel == [s.channel[0]] + s.channel[1..];
  }

  // ------------------------------------------------------------- what the bounds let in

  lemma {:induction false} ChannelIsBounded(hasRedis: bool, clock: int, steps: seq<Step>)
    ensures |Reached(hasRedis, clock, steps).channel| <= 10000
    decreases |steps|
  {
    if steps != [] {
      hide Apply;
      var before, step := steps[..|steps| - 1], steps[|steps| - 1];
      ChannelIsBounded(hasRedis, clock, before);
      ChannelGrows(Reached(hasRedis, clock, before), step);
    }
  }

  lemma ChannelGrows(s: State, step: Step)
    requires |s.channel| <= 10000
    ensures |Apply(s, step).channel| <= 10000
  {
    hide Tags, HeldTags, Without, Entries, Readable;
    if !step.Offer? && !step.Receive? { ChannelSame(s, step); }
  }

  /** The channel takes an offered click exactly while it holds fewer than 10000; the producer of any other is left to
      push it to the stream. */
  lemma ChannelTakesUnlessFull(hasRedis: bool, clock: int, steps: seq<Step>, event: ClickEvent)
    requires !Reached(hasRedis, clock, steps).stopped
    ensures var s := Reached(hasRedis, clock, steps);
            var s', item := Apply(s, Offer(event)), Item(|s.offered|, event);
            && s'.offered == s.offered + [event]
            && (if |s.channel| < 10000 then s'.channel == s.channel + [item] && s'.pushing == s.pushing
                else s'.channel == s.channel && s'.pushing == s.pushing + [item])
            && (item.tag in s'.accepted <==> |s.channel| < 10000)
  {
    hide Reached;
    var s := Reached(hasRedis, clock, steps);
    ReachedRoutes(hasRedis, clock, steps);
    assert |s.offered| !in s.accepted;
    hide RouteInv;
  }

  /** A push trims the stream only while 100000 entries remain, and its own entry comes last. */
  lemma StreamKeepsTheNewest(s: State, producer: nat, pushed: PushOutcome, trim: nat)
    requires CanPush(s, producer, pushed, trim) && !pushed.Refused?
    ensures var s' := Apply(s, Push(producer, pushed, trim));
            && s'.stream == s.stream[trim..] + [|s.issued|]
            && s'.issued == s.issued + [s.pushing[producer]]
            && (trim > 0 ==> |s'.stream| >= 100000)
  {
  }
}
