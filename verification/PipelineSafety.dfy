/** Where every click is, in every run: in some place always, and in exactly one in a clean run. */
module PipelineSafety {
  import opened Domain
  import opened Pipeline
  import opened PipelineInvariant

  // ------------------------------------------------------- where a click can be

  /** The clicks a worker's goroutine holds. A batch that BatchInsert has just stored is in the table. */
  function Carried(k: Worker): seq<nat> {
    (if k.phase.Enriching? then [k.phase.item.tag] else []) + (if k.phase.Acking? then [] else Tags(k.batch))
  }

  /** Issued entries that no worker holds and no XDEL has removed: in the stream, or trimmed from it. */
  ghost function Waiting(issued: seq<Item>, acked: set<nat>, held: seq<nat>): set<nat> {
    set id | 0 <= id < |issued| && id !in acked && id !in held :: issued[id].tag
  }

  function Queued(s: State): multiset<nat> {
    multiset(Tags(s.channel)) + multiset(Tags(s.pushing))
  }

  function CarriedByAll(workers: seq<Worker>): multiset<nat>
    requires |workers| == 2
  {
    multiset(Carried(workers[0])) + multiset(Carried(workers[1]))
  }

  ghost function Aside(s: State): multiset<nat>
    requires |s.workers| == 2
  {
    s.lost + multiset(s.dropped) + multiset(Waiting(s.issued, s.acked, s.workers[0].overflowIDs))
  }

  /** How often each click occurs, over all the places it can be. */
  ghost function Places(s: State): multiset<nat>
    requires |s.workers| == 2
  {
    Queued(s) + CarriedByAll(s.workers) + multiset(Tags(s.table)) + Aside(s)
  }

  /** Every offered click is in exactly one place. */
  ghost predicate Exact(s: State)
    requires |s.workers| == 2
  {
    forall t: nat :: Places(s)[t] == if t < |s.offered| then 1 else 0
  }

  predicate DistinctEntries(issued: seq<Item>) {
    forall i, j :: 0 <= i < j < |issued| ==> issued[i].tag != issued[j].tag
  }

  /** A failed flush inserts nothing, and every XDEL takes effect. */
  predicate Clean(step: Step) {
    match step
    case Insert(_, inserted) => !inserted.CommittedUnconfirmed?
    case Ack(_, applied) => applied
    case _ => true
  }

  predicate CleanRun(steps: seq<Step>) {
    forall i :: 0 <= i < |steps| ==> Clean(steps[i])
  }

  // ------------------------------------------------------------- small facts

  lemma TagsConcat(a: seq<Item>, b: seq<Item>)
    ensures Tags(a + b) == Tags(a) + Tags(b)
  {
  }

  lemma TagsSplit(items: seq<Item>, i: nat)
    requires i < |items|
    ensures multiset(Tags(items)) == multiset(Tags(items[..i] + items[i + 1..])) + multiset{items[i].tag}
    ensures i == 0 ==> multiset(Tags(items)) == multiset(Tags(items[1..])) + multiset{items[0].tag}
  {
    assert items[..0] + items[1..] == items[1..];
    assert items == items[..i] + [items[i]] + items[i + 1..];
    TagsConcat(items[..i], items[i + 1..]);
    TagsConcat(items[..i] + [items[i]], items[i + 1..]);
    TagsConcat(items[..i], [items[i]]);
    assert Tags([items[i]]) == [items[i].tag];
  }

  lemma InTags(items: seq<Item>, item: Item)
    requires item in items
    ensures item.tag in Tags(items)
  {
    var i :| 0 <= i < |items| && items[i] == item;
    assert Tags(items)[i] == item.tag;
  }

  /** The tags of entries with increasing ids form a set. */
  lemma {:induction false} EntryTagsAreASet(issued: seq<Item>, ids: seq<nat>)
    requires DistinctEntries(issued) && Increasing(ids)
    requires forall i :: 0 <= i < |ids| ==> ids[i] < |issued|
    ensures multiset(Tags(Entries(issued, ids))) == multiset(set i | 0 <= i < |ids| :: issued[ids[i]].tag)
  {
    if ids != [] {
      var n := |ids| - 1;
      var last := issued[ids[n]];
      EntryTagsAreASet(issued, ids[..n]);
      EntrySetGrows(issued, ids);
      hide Increasing, DistinctEntries;
      assert Entries(issued, ids) == Entries(issued, ids[..n]) + [last];
      TagsConcat(Entries(issued, ids[..n]), [last]);
      assert Tags([last]) == [last.tag];
    }
  }

  lemma EntrySetGrows(issued: seq<Item>, ids: seq<nat>)
    requires ids != [] && DistinctEntries(issued) && Increasing(ids)
    requires forall i :: 0 <= i < |ids| ==> ids[i] < |issued|
    ensures var n := |ids| - 1;
            var before := set i | 0 <= i < n :: issued[ids[..n][i]].tag;
            && issued[ids[n]].tag !in before
            && (set i | 0 <= i < |ids| :: issued[ids[i]].tag) == before + {issued[ids[n]].tag}
  {
  }

  /** Taking ids into a worker's hands moves exactly their clicks out of the waiting set. */
  lemma HoldMovesTags(issued: seq<Item>, acked: set<nat>, ids: seq<nat>)
    requires DistinctEntries(issued) && Increasing(ids)
    requires forall i :: 0 <= i < |ids| ==> ids[i] < |issued| && ids[i] !in acked
    ensures multiset(Waiting(issued, acked, []))
            == multiset(Waiting(issued, acked, ids)) + multiset(Tags(Entries(issued, ids)))
  {
    EntryTagsAreASet(issued, ids);
    var taken := set i | 0 <= i < |ids| :: issued[ids[i]].tag;
    var rest := Waiting(issued, acked, ids);
    assert forall i :: 0 <= i < |ids| ==> ids[i] in ids;
    assert Waiting(issued, acked, []) == rest + taken;
    assert rest !! taken;
  }

  lemma HeldTagsInBatch(s: State)
    requires Inv(s)
    ensures HeldTags(s.issued, s.workers[0]) <= multiset(Tags(s.workers[0].batch))
  {
    var k := s.workers[0];
    var off: nat :| HeldAt(s.issued, k, off);
    var n := |k.overflowIDs|;
    var pre, mid, post := k.batch[..off], k.batch[off..off + n], k.batch[off + n..];
    assert k.batch == pre + mid + post;
    TagsConcat(pre, mid);
    TagsConcat(pre + mid, post);
    assert mid == Entries(s.issued, k.overflowIDs);
  }

  lemma WorkerSet(workers: seq<Worker>, w: nat, k: Worker)
    requires |workers| == 2 && w < 2
    ensures CarriedByAll(workers[w := k]) + multiset(Carried(workers[w]))
            == CarriedByAll(workers) + multiset(Carried(k))
  {
    hide Carried;
  }

  /** Moving m from one of three places to another leaves the sum alone. */
  lemma Moved(a: multiset<nat>, b: multiset<nat>, a': multiset<nat>, b': multiset<nat>, c: multiset<nat>,
              d: multiset<nat>, m: multiset<nat>)
    requires a == a' + m && b' == b + m
    ensures a + b + c + d == a' + b' + c + d
    ensures b + a + c + d == b' + a' + c + d
    ensures c + a + b + d == c + a' + b' + d
    ensures c + a + d + b == c + a' + d + b'
    ensures c + b + d + a == c + b' + d + a'
  {
  }

  lemma Gained(workers: seq<Worker>, w: nat, k: Worker, m: multiset<nat>)
    requires |workers| == 2 && w < 2 && multiset(Carried(k)) == multiset(Carried(workers[w])) + m
    ensures CarriedByAll(workers[w := k]) == CarriedByAll(workers) + m
  {
    WorkerSet(workers, w, k);
  }

  lemma GaveAway(workers: seq<Worker>, w: nat, k: Worker, m: multiset<nat>)
    requires |workers| == 2 && w < 2 && multiset(Carried(workers[w])) == multiset(Carried(k)) + m
    ensures CarriedByAll(workers) == CarriedByAll(workers[w := k]) + m
  {
    WorkerSet(workers, w, k);
  }

  // ------------------------------------------- steps that only move clicks around

  lemma OfferPlaces(s: State, event: ClickEvent)
    requires |s.workers| == 2 && !s.stopped
    ensures Places(OfferEffect(s, event)) == Places(s) + multiset{|s.offered|}
  {
    var item := Item(|s.offered|, event);
    TagsConcat(s.channel, [item]);
    TagsConcat(s.pushing, [item]);
    assert Tags([item]) == [item.tag];
    assert Queued(OfferEffect(s, event)) == Queued(s) + multiset{item.tag};
  }

  lemma ReceivePlaces(s: State, w: nat)
    requires |s.workers| == 2
    ensures Places(ReceiveEffect(s, w)) == Places(s)
  {
    var s' := ReceiveEffect(s, w);
    if s' != s {
      var item, k' := s.channel[0], s'.workers[w];
      var m := multiset{item.tag};
      assert Queued(s) == Queued(s') + m by { TagsSplit(s.channel, 0); }
      assert multiset(Carried(k')) == multiset(Carried(s.workers[w])) + m;
      Gained(s.workers, w, k', m);
      assert Aside(s') == Aside(s);
      Moved(Queued(s), CarriedByAll(s.workers), Queued(s'), CarriedByAll(s'.workers), multiset(Tags(s.table)), Aside(s),
            m);
    }
  }

  lemma EnrichPlaces(s: State, w: nat, country: string, city: string)
    requires |s.workers| == 2
    ensures Places(EnrichEffect(s, w, country, city)) == Places(s)
  {
    var s' := EnrichEffect(s, w, country, city);
    if s' != s {
      var k, k' := s.workers[w], s'.workers[w];
      var item := k'.batch[|k.batch|];
      assert k'.batch == k.batch + [item];
      TagsConcat(k.batch, [item]);
      assert Tags([item]) == [k.phase.item.tag];
      assert Carried(k') == Tags(k.batch) + [k.phase.item.tag];
      assert multiset(Carried(k')) == multiset(Carried(k));
      WorkerSet(s.workers, w, k');
      assert CarriedByAll(s'.workers) == CarriedByAll(s.workers);
      assert Aside(s') == Aside(s);
    }
  }

  predicate Plain(phase: Phase) {
    !phase.Acking? && !phase.Enriching?
  }

  lemma PhasePlaces(s: State, w: nat, phase: Phase)
    requires HasWorker(s, w)
    requires Plain(phase) && Plain(s.workers[w].phase)
    ensures Places(SetWorker(s, w, s.workers[w].(phase := phase))) == Places(s)
  {
    var s' := SetWorker(s, w, s.workers[w].(phase := phase));
    WorkerSet(s.workers, w, s'.workers[w]);
    assert Aside(s') == Aside(s);
  }

  // ------------------------------------------------------ steps with an outcome

  lemma CommitPlaces(s: State, w: nat)
    requires Phases(s, w).Flushing?
    ensures Places(InsertEffect(s, w, Committed)) == Places(s)
  {
    var s', k := InsertEffect(s, w, Committed), s.workers[w];
    var m := multiset(Tags(k.batch));
    assert multiset(Tags(s'.table)) == multiset(Tags(s.table)) + m by { TagsConcat(s.table, k.batch); }
    GaveAway(s.workers, w, s'.workers[w], m);
    assert Aside(s') == Aside(s);
    assert Queued(s') == Queued(s);
    Moved(CarriedByAll(s.workers), multiset(Tags(s.table)), CarriedByAll(s'.workers), multiset(Tags(s'.table)),
          Queued(s), Aside(s), m);
  }

  lemma AckWaiting(s: State, w: nat)
    requires Inv(s) && Phases(s, w).Acking?
    ensures var s' := AckEffect(s, w, true);
            Waiting(s'.issued, s'.acked, s'.workers[0].overflowIDs)
                == Waiting(s.issued, s.acked, s.workers[0].overflowIDs)
  {
    var k, s' := s.workers[w], AckEffect(s, w, true);
    if w == 0 {
      var off: nat :| HeldAt(s.issued, k, off);
      assert k.overflowIDs != [] ==> k.overflowIDs[0] < |s.issued|;
      assert s'.workers[0].overflowIDs == [];
      assert forall id :: id in s'.acked <==> id in s.acked || id in k.overflowIDs;
    }
  }

  lemma AckPlaces(s: State, w: nat)
    requires Inv(s)
    ensures Places(AckEffect(s, w, true)) == Places(s)
  {
    if Phases(s, w).Acking? {
      var k, s' := s.workers[w], AckEffect(s, w, true);
      AckWaiting(s, w);
      assert Carried(s'.workers[w]) == Carried(k) == [];
      WorkerSet(s.workers, w, s'.workers[w]);
      assert s'.workers == s.workers[w := s'.workers[w]];
    }
  }

  lemma LoadedCarried(s: State, ids: seq<nat>)
    requires |s.workers| == 2 && s.workers[0].phase.Reading?
    requires forall i :: 0 <= i < |ids| ==> ids[i] < |s.issued|
    ensures CarriedByAll(s.workers[0 := Loaded(s.workers[0], s.issued, ids)])
         == CarriedByAll(s.workers) + multiset(Tags(Entries(s.issued, ids)))
  {
    var k := s.workers[0];
    TagsConcat(k.batch, Entries(s.issued, ids));
    Gained(s.workers, 0, Loaded(k, s.issued, ids), multiset(Tags(Entries(s.issued, ids))));
  }

  lemma LoadedAside(s: State, ids: seq<nat>)
    requires |s.workers| == 2 && DistinctEntries(s.issued) && s.workers[0].overflowIDs == []
    requires StreamInv(s.issued, s.stream, s.acked, s.trimmed) && ids <= s.stream
    ensures forall i :: 0 <= i < |ids| ==> ids[i] < |s.issued|
    ensures Aside(s) == Aside(SetWorker(s, 0, Loaded(s.workers[0], s.issued, ids)))
            + multiset(Tags(Entries(s.issued, ids)))
  {
    assert forall i :: 0 <= i < |ids| ==> ids[i] == s.stream[i] && ids[i] in s.stream;
    HoldMovesTags(s.issued, s.acked, ids);
    var s' := SetWorker(s, 0, Loaded(s.workers[0], s.issued, ids));
    assert s.workers[0].overflowIDs + ids == ids;
    assert s'.workers[0].overflowIDs == ids && s'.lost == s.lost && s'.dropped == s.dropped && s'.issued == s.issued
        && s'.acked == s.acked;
    hide Tags, Waiting, DistinctEntries, StreamInv, Entries, Loaded, SetWorker;
  }

  lemma LoadedPlaces(s: State, ids: seq<nat>)
    requires Inv(s) && DistinctEntries(s.issued) && s.workers[0].phase.Reading? && ids <= s.stream
    ensures forall i :: 0 <= i < |ids| ==> ids[i] < |s.issued|
    ensures Places(SetWorker(s, 0, Loaded(s.workers[0], s.issued, ids))) == Places(s)
  {
    LoadedAside(s, ids);
    LoadedCarried(s, ids);
    var s' := SetWorker(s, 0, Loaded(s.workers[0], s.issued, ids));
    assert Queued(s') == Queued(s);
    Moved(Aside(s), CarriedByAll(s.workers), Aside(s'), CarriedByAll(s'.workers), Queued(s), multiset(Tags(s.table)),
          multiset(Tags(Entries(s.issued, ids))));
  }

  lemma ReadIsLoad(s: State, w: nat, ok: bool)
    requires Inv(s) && Phases(s, w).Reading? && |s.workers[w].batch| < FULL_BATCH
    ensures w == 0 && s.workers[0].overflowIDs == []
    ensures var ids := Readable(s.stream, |s.workers[w].batch|);
            && (forall i :: 0 <= i < |ids| ==> ids[i] < |s.issued|)
            && ReadEffect(s, w, ok) == SetWorker(s, 0, if ok then Loaded(s.workers[0], s.issued, ids)
                                                 else FlushIfAny(s.workers[0]))
  {
    LoadedHolds(s, Readable(s.stream, |s.workers[w].batch|));
  }

  lemma ReadPlaces(s: State, w: nat, ok: bool)
    requires Inv(s) && DistinctEntries(s.issued)
    ensures Places(ReadEffect(s, w, ok)) == Places(s)
  {
    hide Places, DistinctEntries, HoldingInv, StreamInv;
    if Phases(s, w).Reading? && |s.workers[w].batch| < FULL_BATCH {
      ReadIsLoad(s, w, ok);
      if ok {
        LoadedPlaces(s, Readable(s.stream, |s.workers[w].batch|));
      } else {
        PhasePlaces(s, 0, FlushIfAny(s.workers[0]).phase);
      }
    }
  }

  lemma HeldReturn(s: State)
    requires Inv(s) && DistinctEntries(s.issued)
    ensures multiset(Waiting(s.issued, s.acked, []))
         == multiset(Waiting(s.issued, s.acked, s.workers[0].overflowIDs)) + HeldTags(s.issued, s.workers[0])
  {
    var k := s.workers[0];
    var off: nat :| HeldAt(s.issued, k, off);
    assert forall i :: 0 <= i < |k.overflowIDs| ==> k.overflowIDs[i] in k.overflowIDs;
    HoldMovesTags(s.issued, s.acked, k.overflowIDs);
  }

  lemma HeldPart(s: State, w: nat)
    requires Inv(s) && HasWorker(s, w)
    ensures HeldTags(s.issued, s.workers[w]) <= multiset(Tags(s.workers[w].batch))
    ensures w == 1 ==> HeldTags(s.issued, s.workers[w]) == multiset{}
  {
    if w == 0 { HeldTagsInBatch(s); }
  }

  lemma LastFlushAside(s: State, w: nat)
    requires Inv(s) && DistinctEntries(s.issued) && Phases(s, w) == Flushing(true)
    ensures Aside(InsertEffect(s, w, Rejected)) == Aside(s) + multiset(Tags(s.workers[w].batch))
  {
    var k, s' := s.workers[w], InsertEffect(s, w, Rejected);
    var tags, held := multiset(Tags(k.batch)), HeldTags(s.issued, k);
    HeldPart(s, w);
    assert (tags - held) + held == tags;
    if w == 0 { HeldReturn(s); }
  }

  /** A worker that exits after a failed flush loses the clicks it received from the channel; the
      entries it held are again only waiting. */
  lemma LastFlushFailsPlaces(s: State, w: nat)
    requires Inv(s) && DistinctEntries(s.issued) && Phases(s, w) == Flushing(true)
    ensures Places(InsertEffect(s, w, Rejected)) == Places(s)
  {
    LastFlushAside(s, w);
    var s' := InsertEffect(s, w, Rejected);
    var tags := multiset(Tags(s.workers[w].batch));
    GaveAway(s.workers, w, s'.workers[w], tags);
    assert Queued(s') == Queued(s);
    Moved(CarriedByAll(s.workers), Aside(s), CarriedByAll(s'.workers), Aside(s'), Queued(s), multiset(Tags(s.table)),
          tags);
  }

  // ------------------------------------------------------- leaving the producer

  lemma TakenPlaces(s: State, producer: nat)
    requires |s.workers| == 2 && producer < |s.pushing|
    ensures Places(s) == Places(Taken(s, producer)) + multiset{s.pushing[producer].tag}
  {
    TagsSplit(s.pushing, producer);
    assert Queued(s) == Queued(Taken(s, producer)) + multiset{s.pushing[producer].tag};
    assert Aside(Taken(s, producer)) == Aside(s);
  }

  lemma DropPlaces(s: State, tag: nat)
    requires |s.workers| == 2
    ensures Places(Drop(s, tag)) == Places(s) + multiset{tag}
  {
    var s' := Drop(s, tag);
    assert Aside(s') == Aside(s) + multiset{tag};
    assert Queued(s') == Queued(s);
  }

  lemma CountPlaces(s: State, s': State)
    requires |s.workers| == 2 && s' == s.(droppedEvents := s'.droppedEvents, miscounted := s'.miscounted)
    ensures Places(s') == Places(s)
  {
  }

  lemma StoredWaits(issued: seq<Item>, acked: set<nat>, held: seq<nat>, item: Item)
    requires forall id :: id in acked || id in held ==> id < |issued|
    ensures Waiting(issued + [item], acked, held) == Waiting(issued, acked, held) + {item.tag}
  {
    var before, after := Waiting(issued, acked, held), Waiting(issued + [item], acked, held);
    assert (issued + [item])[|issued|] == item;
    forall t ensures t in after <==> t in before + {item.tag} {
      if t in before {
        var id :| 0 <= id < |issued| && id !in acked && id !in held && issued[id].tag == t;
        assert (issued + [item])[id] == issued[id];
      }
    }
  }

  lemma StoreWaits(s: State, item: Item, trim: nat)
    requires Inv(s) && trim <= |s.stream|
    ensures Waiting(Store(s, item, trim).issued, s.acked, s.workers[0].overflowIDs)
         == Waiting(s.issued, s.acked, s.workers[0].overflowIDs) + {item.tag}
  {
    var off: nat :| HeldAt(s.issued, s.workers[0], off);
    StoredWaits(s.issued, s.acked, s.workers[0].overflowIDs, item);
  }

  lemma StorePlaces(s: State, item: Item, trim: nat)
    requires |s.workers| == 2 && trim <= |s.stream|
    requires Waiting(Store(s, item, trim).issued, s.acked, s.workers[0].overflowIDs)
          == Waiting(s.issued, s.acked, s.workers[0].overflowIDs) + {item.tag}
    ensures Places(s) <= Places(Store(s, item, trim))
    ensures item.tag in Places(Store(s, item, trim))
    ensures item.tag !in Waiting(s.issued, s.acked, s.workers[0].overflowIDs)
            ==> Places(Store(s, item, trim)) == Places(s) + multiset{item.tag}
  {
    var s', waiting := Store(s, item, trim), Waiting(s.issued, s.acked, s.workers[0].overflowIDs);
    assert multiset(waiting) <= multiset(waiting + {item.tag});
    assert item.tag in multiset(waiting + {item.tag});
    assert item.tag !in waiting ==> multiset(waiting + {item.tag}) == multiset(waiting) + multiset{item.tag};
    assert Queued(s') == Queued(s);
  }

  /** In an exact state a click still in a producer's hands was never stored in the stream. */
  lemma PushedIsFresh(s: State, producer: nat)
    requires Inv(s) && Exact(s) && producer < |s.pushing|
    ensures forall id :: 0 <= id < |s.issued| ==> s.issued[id].tag != s.pushing[producer].tag
  {
    var item, k := s.pushing[producer], s.workers[0];
    InTags(s.pushing, item);
    assert Queued(s)[item.tag] >= 1;
    assert Places(s)[item.tag] <= 1;
    forall id | 0 <= id < |s.issued| ensures s.issued[id].tag != item.tag {
      if id in s.acked {
        InTags(s.table, s.issued[id]);
      } else if id in k.overflowIDs {
        var off: nat :| HeldAt(s.issued, k, off);
        var i :| 0 <= i < |k.overflowIDs| && k.overflowIDs[i] == id;
        assert k.batch[off + i] == s.issued[id];
        InTags(k.batch, s.issued[id]);
        if k.phase.Acking? { InTags(s.table, s.issued[id]); }
      } else {
        assert s.issued[id].tag in Waiting(s.issued, s.acked, k.overflowIDs);
      }
    }
  }

  // ----------------------------------------------------------- at least once

  lemma PushCovers(s: State, producer: nat, pushed: PushOutcome, trim: nat, t: nat)
    requires |s.workers| == 2 && Inv(s) && t in Places(s)
    ensures t in Places(PushEffect(s, producer, pushed, trim))
  {
    hide Places, Waiting;
    if CanPush(s, producer, pushed, trim) {
      var item, s1 := s.pushing[producer], Taken(s, producer);
      TakenPlaces(s, producer);
      if pushed.Refused? {
        DropPlaces(s1, item.tag);
      } else {
        StoreWaits(s, item, trim);
        StorePlaces(s1, item, trim);
        CountPlaces(Store(s1, item, trim), PushEffect(s, producer, pushed, trim));
      }
    }
  }

  lemma EntryTag(issued: seq<Item>, ids: seq<nat>, t: nat)
    requires forall i :: 0 <= i < |ids| ==> ids[i] < |issued|
    requires t in Tags(Entries(issued, ids))
    ensures exists id :: id in ids && issued[id].tag == t
  {
    var i :| 0 <= i < |ids| && Tags(Entries(issued, ids))[i] == t;
    assert ids[i] in ids;
  }

  /** A click that was only waiting, and no longer is, is among the entries now held. */
  lemma HeldOrWaiting(issued: seq<Item>, acked: set<nat>, ids: seq<nat>, t: nat)
    requires forall i :: 0 <= i < |ids| ==> ids[i] < |issued|
    requires t in Waiting(issued, acked, [])
    ensures t in Waiting(issued, acked, ids) || t in Tags(Entries(issued, ids))
  {
    var id :| 0 <= id < |issued| && id !in acked && issued[id].tag == t;
    if id in ids {
      assert issued[id] in Entries(issued, ids);
      InTags(Entries(issued, ids), issued[id]);
    }
  }

  lemma LoadedCovers(s: State, ids: seq<nat>)
    requires |s.workers| == 2 && s.workers[0].phase.Reading? && s.workers[0].overflowIDs == []
    requires forall i :: 0 <= i < |ids| ==> ids[i] < |s.issued|
    ensures forall t :: t in Places(s) ==> t in Places(SetWorker(s, 0, Loaded(s.workers[0], s.issued, ids)))
  {
    var s' := SetWorker(s, 0, Loaded(s.workers[0], s.issued, ids));
    LoadedCarried(s, ids);
    assert Queued(s') == Queued(s);
    assert s'.workers[0].overflowIDs == ids;
    forall t | t in Waiting(s.issued, s.acked, [])
      ensures t in CarriedByAll(s'.workers) || t in Waiting(s.issued, s.acked, ids)
    {
      HeldOrWaiting(s.issued, s.acked, ids, t);
    }
  }

  lemma ReadCovers(s: State, w: nat, ok: bool)
    requires Inv(s)
    ensures forall t :: t in Places(s) ==> t in Places(ReadEffect(s, w, ok))
  {
    if Phases(s, w).Reading? && |s.workers[w].batch| < FULL_BATCH {
      ReadIsLoad(s, w, ok);
      if ok {
        LoadedCovers(s, Readable(s.stream, |s.workers[w].batch|));
      } else {
        PhasePlaces(s, w, FlushIfAny(s.workers[w]).phase);
      }
    }
  }

  lemma HeldIsWaiting(s: State, t: nat)
    requires Inv(s) && t in HeldTags(s.issued, s.workers[0])
    ensures t in Waiting(s.issued, s.acked, [])
  {
    var k := s.workers[0];
    var off: nat :| HeldAt(s.issued, k, off);
    EntryTag(s.issued, k.overflowIDs, t);
  }

  /** What InsertEffect does for a failing last flush to the clicks set aside. */
  lemma LastFlushLeaves(s: State, w: nat, inserted: InsertOutcome)
    requires |s.workers| == 2 && Phases(s, w) == Flushing(true) && !inserted.Committed?
    ensures var k, s' := s.workers[w], InsertEffect(s, w, inserted);
            && s'.lost == s.lost + (multiset(Tags(k.batch)) - HeldTags(s.issued, k))
            && s'.dropped == s.dropped && s'.issued == s.issued && s'.acked == s.acked
            && (w == 0 ==> s'.workers[0].overflowIDs == [])
            && (w == 1 ==> s'.workers[0].overflowIDs == s.workers[0].overflowIDs)
  {
    hide HeldTags, Tags;
  }

  lemma WaitingGrows(issued: seq<Item>, acked: set<nat>, ids: seq<nat>)
    ensures Waiting(issued, acked, ids) <= Waiting(issued, acked, [])
  {
  }

  lemma LastFlushAsideCovers(s: State, w: nat, inserted: InsertOutcome)
    requires Inv(s) && Phases(s, w) == Flushing(true) && !inserted.Committed?
    ensures forall t :: t in multiset(Tags(s.workers[w].batch)) || t in Aside(s) ==>
            t in Aside(InsertEffect(s, w, inserted))
  {
    var k, s' := s.workers[w], InsertEffect(s, w, inserted);
    LastFlushLeaves(s, w, inserted);
    WaitingGrows(s.issued, s.acked, s.workers[0].overflowIDs);
    HeldPart(s, w);
    forall t | t in HeldTags(s.issued, k) ensures t in Waiting(s'.issued, s'.acked, s'.workers[0].overflowIDs) {
      HeldIsWaiting(s, t);
    }
    hide Inv, InsertEffect, Waiting, HeldTags, Tags;
  }

  /** Emptying one place of m covers every click, if another one has all of m. */
  lemma CoversMove(a: multiset<nat>, b: multiset<nat>, b': multiset<nat>, c: multiset<nat>, c': multiset<nat>,
                   d: multiset<nat>, d': multiset<nat>, m: multiset<nat>)
    requires b == b' + m && c <= c' && forall t :: t in m || t in d ==> t in d'
    ensures forall t :: t in a + b + c + d ==> t in a + b' + c' + d'
  {
  }

  /** Whatever a failing last flush leaves behind is lost or waiting. */
  lemma LastFlushCovers(s: State, w: nat, inserted: InsertOutcome)
    requires Inv(s) && Phases(s, w) == Flushing(true) && !inserted.Committed?
    ensures forall t :: t in Places(s) ==> t in Places(InsertEffect(s, w, inserted))
  {
    var k, s' := s.workers[w], InsertEffect(s, w, inserted);
    LastFlushAsideCovers(s, w, inserted);
    GaveAway(s.workers, w, s'.workers[w], multiset(Tags(k.batch)));
    TagsConcat(s.table, k.batch);
    assert Queued(s') == Queued(s);
    assert s'.workers == s.workers[w := s'.workers[w]];
    assert multiset(Tags(s.table)) <= multiset(Tags(s'.table));
    hide Inv, InsertEffect, Queued, CarriedByAll, Aside, Tags;
    CoversMove(Queued(s), CarriedByAll(s.workers), CarriedByAll(s'.workers), multiset(Tags(s.table)),
               multiset(Tags(s'.table)),
               Aside(s), Aside(s'), multiset(Tags(k.batch)));
  }

  lemma RetryCovers(s: State, w: nat, inserted: InsertOutcome)
    requires |s.workers| == 2 && Phases(s, w) == Flushing(false) && !inserted.Committed?
    ensures Places(s) <= Places(InsertEffect(s, w, inserted))
    ensures inserted.Rejected? ==> Places(InsertEffect(s, w, inserted)) == Places(s)
  {
    var k, s' := s.workers[w], InsertEffect(s, w, inserted);
    WorkerSet(s.workers, w, s'.workers[w]);
    TagsConcat(s.table, k.batch);
    assert Queued(s') == Queued(s) && Aside(s') == Aside(s);
    assert CarriedByAll(s'.workers) == CarriedByAll(s.workers);
  }

  lemma UnackedPlaces(s: State, w: nat)
    requires |s.workers| == 2 && Phases(s, w).Acking?
    ensures Places(s) <= Places(AckEffect(s, w, false))
  {
    var s' := AckEffect(s, w, false);
    GaveAway(s.workers, w, s'.workers[w], multiset{});
    assert Waiting(s.issued, s.acked, s.workers[0].overflowIDs)
        <= Waiting(s.issued, s.acked, s'.workers[0].overflowIDs);
    assert Aside(s) <= Aside(s');
    assert Queued(s') == Queued(s);
  }

  lemma AckCovers(s: State, w: nat, applied: bool, t: nat)
    requires Inv(s) && t in Places(s)
    ensures t in Places(AckEffect(s, w, applied))
  {
    hide Places;
    if applied {
      AckPlaces(s, w);
    } else if Phases(s, w).Acking? {
      UnackedPlaces(s, w);
    }
  }

  lemma FinishCloseExact(s: State, w: nat)
    requires |s.workers| == 2 && Inv(s)
    ensures Places(FinishCloseEffect(s, w)) == Places(s)
  {
    if Phases(s, w).Closing? && s.channel == [] {
      var k, s' := s.workers[w], FinishCloseEffect(s, w);
      if |k.batch| > 0 {
        PhasePlaces(s, w, Flushing(true));
      } else {
        var off: nat :| HeldAt(s.issued, s.workers[0], off);
        Gained(s.workers, w, s'.workers[w], multiset{});
        assert Aside(s') == Aside(s);
        assert Queued(s') == Queued(s);
      }
    }
  }

  lemma InsertCovers(s: State, w: nat, inserted: InsertOutcome, t: nat)
    requires Inv(s) && t in Places(s)
    ensures t in Places(InsertEffect(s, w, inserted))
  {
    if Phases(s, w).Flushing? {
      if inserted.Committed? {
        CommitPlaces(s, w);
      } else if Phases(s, w).closing {
        LastFlushCovers(s, w, inserted);
      } else {
        RetryCovers(s, w, inserted);
      }
    }
  }

  lemma PhaseStepPlaces(s: State, step: Step, s': State)
    requires |s.workers| == 2 && s' == Apply(s, step)
    requires step.Tick? || step.BeginClose?
    ensures Places(s') == Places(s)
  {
    hide Places;
    if s' != s { PhasePlaces(s, step.w, s'.workers[step.w].phase); }
  }

  lemma ClockPlaces(s: State, s': State)
    requires |s.workers| == 2 && s' == s.(clock := s'.clock, stopped := s'.stopped)
    ensures Places(s') == Places(s)
  {
  }

  lemma OfferCovers(s: State, event: ClickEvent)
    requires |s.workers| == 2
    ensures Places(s) <= Places(OfferEffect(s, event))
  {
    hide Places;
    if !s.stopped { OfferPlaces(s, event); }
  }

  /** No step loses sight of a click. */
  lemma StepCovers(s: State, step: Step, s': State, t: nat)
    requires |s.workers| == 2 && Inv(s) && s' == Apply(s, step) && t in Places(s)
    ensures |s'.workers| == 2 && t in Places(s')
  {
    hide Places, Inv, OfferEffect, PushEffect, ReceiveEffect, EnrichEffect, TickEffect, ReadEffect, InsertEffect,
         AckEffect, FinishCloseEffect;
    match step
    case Advance(_) => ClockPlaces(s, s');
    case Stop => ClockPlaces(s, s');
    case Offer(event) => OfferCovers(s, event);
    case Push(producer, pushed, trim) => PushCovers(s, producer, pushed, trim, t);
    case Receive(w) => ReceivePlaces(s, w);
    case Enrich(w, country, city) => EnrichPlaces(s, w, country, city);
    case Read(w, ok) => ReadCovers(s, w, ok);
    case Insert(w, inserted) => InsertCovers(s, w, inserted, t);
    case Ack(w, applied) => AckCovers(s, w, applied, t);
    case FinishClose(w) => FinishCloseExact(s, w);
    case _ => PhaseStepPlaces(s, step, s');
  }

  lemma OfferedGrows(s: State, step: Step, s': State)
    requires s' == Apply(s, step) && |s.workers| == 2
    ensures |s.offered| <= |s'.offered| <= |s.offered| + 1
    ensures |s'.offered| > |s.offered| ==> step.Offer? && !s.stopped
  {
  }

  lemma {:induction false} ReachedCovered(hasRedis: bool, clock: int, steps: seq<Step>, t: nat)
    requires t < |Reached(hasRedis, clock, steps).offered|
    ensures |Reached(hasRedis, clock, steps).workers| == 2 && t in Places(Reached(hasRedis, clock, steps))
    decreases |steps|
  {
    hide Places, Inv, Apply;
    ReachedTwo(hasRedis, clock, steps);
    if steps != [] {
      var before, step := steps[..|steps| - 1], steps[|steps| - 1];
      var s, s' := Reached(hasRedis, clock, before), Reached(hasRedis, clock, steps);
      ReachedTwo(hasRedis, clock, before);
      if t < |s.offered| {
        ReachedCovered(hasRedis, clock, before, t);
        ReachedInv(hasRedis, clock, before);
        StepCovers(s, step, s', t);
      } else {
        NewClick(s, step, t);
      }
    }
  }

  lemma {:induction false} ReachedTwo(hasRedis: bool, clock: int, steps: seq<Step>)
    ensures |Reached(hasRedis, clock, steps).workers| == 2
    decreases |steps|
  {
    hide Apply;
    if steps != [] { ReachedTwo(hasRedis, clock, steps[..|steps| - 1]); }
  }

  lemma NewClick(s: State, step: Step, t: nat)
    requires |s.workers| == 2 && |s.offered| <= t < |Apply(s, step).offered|
    ensures t in Places(Apply(s, step))
  {
    hide Places;
    OfferedGrows(s, step, Apply(s, step));
    OfferPlaces(s, step.event);
  }

  // ------------------------------------------------------------ exactly once

  lemma PushExact(s: State, producer: nat, pushed: PushOutcome, trim: nat)
    requires |s.workers| == 2 && Inv(s) && Exact(s)
    ensures Places(PushEffect(s, producer, pushed, trim)) == Places(s)
  {
    hide Places, Exact;
    if CanPush(s, producer, pushed, trim) {
      var item, s1 := s.pushing[producer], Taken(s, producer);
      TakenPlaces(s, producer);
      if pushed.Refused? {
        DropPlaces(s1, item.tag);
      } else {
        PushedIsFresh(s, producer);
        StoreWaits(s, item, trim);
        StorePlaces(s1, item, trim);
        CountPlaces(Store(s1, item, trim), PushEffect(s, producer, pushed, trim));
      }
    }
  }

  lemma EntriesStayDistinct(s: State, step: Step)
    requires |s.workers| == 2 && Inv(s) && Exact(s) && DistinctEntries(s.issued)
    ensures DistinctEntries(Apply(s, step).issued)
  {
    hide Places, Exact, Inv, OfferEffect, ReceiveEffect, EnrichEffect, TickEffect, ReadEffect, InsertEffect, AckEffect,
         FinishCloseEffect;
    if step.Push? && CanPush(s, step.producer, step.pushed, step.trim) {
      PushedIsFresh(s, step.producer);
    } else {
      IssuedUnchanged(s, step);
    }
  }

  lemma IssuedUnchanged(s: State, step: Step)
    requires step.Push? ==> !CanPush(s, step.producer, step.pushed, step.trim)
    ensures Apply(s, step).issued == s.issued
  {
  }

  lemma InsertExact(s: State, w: nat, inserted: InsertOutcome)
    requires |s.workers| == 2 && Inv(s) && DistinctEntries(s.issued) && !inserted.CommittedUnconfirmed?
    ensures Places(InsertEffect(s, w, inserted)) == Places(s)
  {
    hide Places, Inv;
    if Phases(s, w).Flushing? {
      if inserted.Committed? {
        CommitPlaces(s, w);
      } else if Phases(s, w).closing {
        LastFlushFailsPlaces(s, w);
      } else {
        RetryCovers(s, w, inserted);
      }
    }
  }

  /** A clean step other than Offer moves clicks but neither copies nor loses any. */
  lemma StepExact(s: State, step: Step, s': State)
    requires |s.workers| == 2 && Inv(s) && Exact(s) && DistinctEntries(s.issued)
    requires Clean(step) && !step.Offer? && s' == Apply(s, step)
    ensures |s'.workers| == 2 && Places(s') == Places(s)
  {
    hide Places, Exact, Inv, PushEffect, ReceiveEffect, EnrichEffect, TickEffect, ReadEffect, InsertEffect, AckEffect,
         FinishCloseEffect;
    match step
    case Advance(_) => ClockPlaces(s, s');
    case Stop => ClockPlaces(s, s');
    case Push(producer, pushed, trim) => PushExact(s, producer, pushed, trim);
    case Receive(w) => ReceivePlaces(s, w);
    case Enrich(w, country, city) => EnrichPlaces(s, w, country, city);
    case Tick(w) => PhaseStepPlaces(s, step, s');
    case Read(w, ok) => ReadPlaces(s, w, ok);
    case Insert(w, inserted) => InsertExact(s, w, inserted);
    case Ack(w, applied) => AckPlaces(s, w);
    case BeginClose(w) => PhaseStepPlaces(s, step, s');
    case FinishClose(w) => FinishCloseExact(s, w);
  }

  lemma ExactSame(s: State, s': State)
    requires |s.workers| == 2 && |s'.workers| == 2
    requires Exact(s) && s'.offered == s.offered && Places(s') == Places(s)
    ensures Exact(s')
  {
  }

  lemma OneMore(before: multiset<nat>, after: multiset<nat>, n: nat)
    requires forall t: nat :: before[t] == if t < n then 1 else 0
    requires after == before + multiset{n}
    ensures forall t: nat :: after[t] == if t < n + 1 then 1 else 0
  {
  }

  lemma OfferExact(s: State, event: ClickEvent)
    requires |s.workers| == 2 && Exact(s)
    ensures Exact(OfferEffect(s, event))
  {
    hide Places;
    if !s.stopped {
      OfferPlaces(s, event);
      OneMore(Places(s), Places(OfferEffect(s, event)), |s.offered|);
    }
  }

  lemma OfferedSame(s: State, step: Step)
    requires !step.Offer?
    ensures Apply(s, step).offered == s.offered
  {
  }

  lemma {:induction false} ReachedExact(hasRedis: bool, clock: int, steps: seq<Step>)
    requires CleanRun(steps)
    ensures var s := Reached(hasRedis, clock, steps); |s.workers| == 2 && DistinctEntries(s.issued) && Exact(s)
    decreases |steps|
  {
    hide Inv, Places, Exact;
    if steps == [] {
      InitExact(hasRedis, clock);
    } else {
      var before, step := steps[..|steps| - 1], steps[|steps| - 1];
      var s, s' := Reached(hasRedis, clock, before), Reached(hasRedis, clock, steps);
      ReachedInv(hasRedis, clock, before);
      ReachedExact(hasRedis, clock, before);
      EntriesStayDistinct(s, step);
      if step.Offer? {
        OfferExact(s, step.event);
      } else {
        StepExact(s, step, s');
        OfferedSame(s, step);
        ExactSame(s, s');
      }
    }
  }

  lemma InitExact(hasRedis: bool, clock: int)
    ensures Exact(Init(hasRedis, clock))
  {
  }
}
