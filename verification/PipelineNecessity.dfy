/** At-most-once fails exactly with harm: after a harmful step there is always a run, clean from there on, that
    stores a click twice. */
module PipelineNecessity {
  import opened Domain
  import opened Pipeline
  import opened PipelineInvariant
  import opened PipelineTiming
  import opened PipelineTheorems
  import opened PipelineSafety
  import opened PipelineMultiplicity

  /** Every step is clean, or is the given one. */
  predicate CleanBut(steps: seq<Step>, exception: Step) {
    forall i :: 0 <= i < |steps| ==> Clean(steps[i]) || steps[i] == exception
  }

  // --------------------------------------------------------- a reply that is lost

  lemma Received(click: ClickEvent) returns (steps: seq<Step>, item: Item)
    ensures CleanRun(steps)
    ensures var s := Reached(false, 0, steps);
            |s.workers| == 2 && s.workers[0] == NewWorker().(batch := [item]) && !s.hasRedis && !s.stopped
                && s.clock == 0 && s.table == []
  {
    item := Item(0, click.(country := "", city := ""));
    steps := [Offer(click)] + [Receive(0)] + [Enrich(0, "", "")];
    ReachNext(false, 0, [], Offer(click));
    assert [] + [Offer(click)] == [Offer(click)];
    ReachNext(false, 0, [Offer(click)], Receive(0));
    ReachNext(false, 0, [Offer(click)] + [Receive(0)], Enrich(0, "", ""));
    assert Reached(false, 0, [Offer(click)]).channel == [Item(0, click)];
  }

  /** An insert that takes place but is reported as failed is retried: the click is stored twice. */
  lemma LostReplyStoresTwice(click: ClickEvent) returns (steps: seq<Step>)
    ensures CleanBut(steps, Insert(0, CommittedUnconfirmed))
    ensures StoredTwice(Reached(false, 0, steps))
  {
    hide Reached, Run;
    var item;
    steps, item := Received(click);
    ReachNext(false, 0, steps, Tick(0));
    steps := steps + [Tick(0)];
    ReachNext(false, 0, steps, Insert(0, CommittedUnconfirmed));
    steps := steps + [Insert(0, CommittedUnconfirmed)];
    var failed := NewWorker().(batch := [item], failures := 1, next := Some(200), failedAt := [0]);
    assert Reached(false, 0, steps).workers[0] == failed && Reached(false, 0, steps).table == [item];
    steps := Retried(steps, item, failed);
    var s := Reached(false, 0, steps);
    assert s.table[0].tag == s.table[1].tag;
  }

  lemma Retried(before: seq<Step>, item: Item, failed: Worker) returns (steps: seq<Step>)
    requires failed == NewWorker().(batch := [item], failures := 1, next := Some(200), failedAt := [0])
    requires CleanBut(before, Insert(0, CommittedUnconfirmed))
    requires var s := Reached(false, 0, before);
             |s.workers| == 2 && s.workers[0] == failed && !s.hasRedis && s.clock == 0 && s.table == [item]
    ensures CleanBut(steps, Insert(0, CommittedUnconfirmed))
    ensures Reached(false, 0, steps).table == [item, item]
  {
    ReachNext(false, 0, before, Advance(200));
    steps := before + [Advance(200)];
    ReachNext(false, 0, steps, Tick(0));
    steps := steps + [Tick(0)];
    assert Phases(Reached(false, 0, steps), 0) == Flushing(false);
    ReachNext(false, 0, steps, Insert(0, Committed));
    steps := steps + [Insert(0, Committed)];
  }

  // ------------------------------------------------- an acknowledgement that is lost

  predicate Fresh(s: State) {
    && s.workers == [NewWorker(), NewWorker()]
    && s.hasRedis && !s.stopped && s.pushing == []
    && s.issued == [] && s.stream == [] && s.table == []
  }

  /** Producers can fill the channel before a worker moves. */
  lemma {:induction false} FilledChannel(click: ClickEvent, n: nat) returns (steps: seq<Step>)
    requires n <= CHANNEL_CAPACITY
    ensures CleanRun(steps) && Fresh(Reached(true, 0, steps)) && |Reached(true, 0, steps).channel| == n
  {
    if n == 0 {
      steps := [];
    } else {
      var before := FilledChannel(click, n - 1);
      steps := before + [Offer(click)];
      ReachNext(true, 0, before, Offer(click));
    }
  }

  /** One click waits in the stream and worker 0 holds nothing. */
  predicate Pending(s: State, item: Item) {
    && |s.workers| == 2 && s.workers[0] == NewWorker()
    && s.hasRedis && s.issued == [item] && s.stream == [0]
  }

  lemma Overflowed(click: ClickEvent) returns (steps: seq<Step>, item: Item)
    ensures CleanRun(steps)
    ensures Pending(Reached(true, 0, steps), item) && Reached(true, 0, steps).table == []
  {
    var before := FilledChannel(click, CHANNEL_CAPACITY);
    item := Item(|Reached(true, 0, before).offered|, click);
    ReachNext(true, 0, before, Offer(click));
    steps := before + [Offer(click)];
    assert Reached(true, 0, steps).pushing == [item];
    ReachNext(true, 0, steps, Push(0, Stored, 0));
    steps := steps + [Push(0, Stored, 0)];
  }

  lemma Drained(before: seq<Step>, item: Item) returns (steps: seq<Step>)
    requires CleanBut(before, Ack(0, false)) && Pending(Reached(true, 0, before), item)
    ensures CleanBut(steps, Ack(0, false)) && Pending(Reached(true, 0, steps), item)
    ensures Reached(true, 0, steps).table == Reached(true, 0, before).table + [item]
  {
    ReachNext(true, 0, before, Tick(0));
    steps := before + [Tick(0)];
    ReachNext(true, 0, steps, Read(0, true));
    steps := steps + [Read(0, true)];
    assert Reached(true, 0, steps).workers[0]
        == NewWorker().(phase := Flushing(false), batch := [item], overflowIDs := [0]);
    steps := Unacked(steps, item);
  }

  lemma Unacked(before: seq<Step>, item: Item) returns (steps: seq<Step>)
    requires CleanBut(before, Ack(0, false))
    requires var s := Reached(true, 0, before);
             && |s.workers| == 2 && s.hasRedis && s.issued == [item] && s.stream == [0]
             && s.workers[0] == NewWorker().(phase := Flushing(false), batch := [item], overflowIDs := [0])
    ensures CleanBut(steps, Ack(0, false)) && Pending(Reached(true, 0, steps), item)
    ensures Reached(true, 0, steps).table == Reached(true, 0, before).table + [item]
  {
    ReachNext(true, 0, before, Insert(0, Committed));
    steps := before + [Insert(0, Committed)];
    ReachNext(true, 0, steps, Ack(0, false));
    steps := steps + [Ack(0, false)];
  }

  /** An overflowed click whose acknowledgement fails is read again: it is stored twice. */
  lemma LostAckStoresTwice(click: ClickEvent) returns (steps: seq<Step>)
    ensures CleanBut(steps, Ack(0, false))
    ensures StoredTwice(Reached(true, 0, steps))
  {
    hide Pending;
    var item;
    steps, item := Overflowed(click);
    steps := Drained(steps, item);
    steps := Drained(steps, item);
    var s := Reached(true, 0, steps);
    assert s.table[0].tag == s.table[1].tag;
  }

  // ------------------------------------------------------- after any harmful step

  lemma {:induction false} WithoutHead(stream: seq<nat>, ids: seq<nat>, n: nat)
    requires n <= |stream| && (forall i :: 0 <= i < n ==> stream[i] in ids) && forall i :: n <= i < |stream| ==>
             stream[i] !in ids
    ensures Without(stream, ids) == stream[n..]
  {
    if n == 0 {
      WithoutNone(stream, ids);
      assert stream[0..] == stream;
    } else {
      assert stream[0] in ids;
      WithoutHead(stream[1..], ids, n - 1);
      assert stream[1..][n - 1..] == stream[n..];
    }
  }

  lemma WithoutPrefix(stream: seq<nat>, n: nat)
    requires Increasing(stream) && n <= |stream|
    ensures Without(stream, stream[..n]) == stream[n..]
  {
    var ids := stream[..n];
    forall i | 0 <= i < n ensures stream[i] in ids { assert ids[i] == stream[i]; }
    assert forall i :: n <= i < |stream| ==> stream[i] !in ids;
    WithoutHead(stream, ids, n);
  }

  /** Steps that worker 0, at the start of a batch, takes to read the stream and store what it read. */
  function ReadAndStore(): seq<Step> {
    [Tick(0)] + [Read(0, true)] + [Insert(0, Committed)]
  }

  /** Worker 0 at the start of a batch, with something to read. */
  ghost predicate CanReadStream(s: State) {
    && Inv(s) && s.hasRedis && s.workers[0] == NewWorker() && s.stream != []
  }

  /** Worker 0 as it is when it has stored what it read, and has yet to acknowledge it. */
  function BatchStored(s: State, ids: seq<nat>): State
    requires HasWorker(s, 0) && forall i :: 0 <= i < |ids| ==> ids[i] < |s.issued|
  {
    SetWorker(s, 0, Worker(Acking(false), Entries(s.issued, ids), ids, 0, None, [])).(table := s.table
        + Entries(s.issued, ids))
  }

  lemma TickReads(s: State)
    requires HasWorker(s, 0) && s.hasRedis && s.workers[0] == NewWorker()
    ensures Apply(s, Tick(0)) == SetWorker(s, 0, NewWorker().(phase := Reading))
  {
  }

  lemma ReadLoads(s: State, ids: seq<nat>)
    requires HasWorker(s, 0) && s.workers[0] == NewWorker().(phase := Reading) && ids == Readable(s.stream, 0)
             && ids != []
    requires forall i :: 0 <= i < |ids| ==> ids[i] < |s.issued|
    ensures Apply(s, Read(0, true))
            == SetWorker(s, 0, Worker(Flushing(false), Entries(s.issued, ids), ids, 0, None, []))
  {
    assert Loaded(s.workers[0], s.issued, ids) == Worker(Flushing(false), Entries(s.issued, ids), ids, 0, None, []);
    hide Readable, Entries, Loaded;
  }

  lemma InsertStores(s: State, ids: seq<nat>)
    requires HasWorker(s, 0) && forall i :: 0 <= i < |ids| ==> ids[i] < |s.issued|
    requires s.workers[0] == Worker(Flushing(false), Entries(s.issued, ids), ids, 0, None, [])
    ensures Apply(s, Insert(0, Committed)) == BatchStored(s, ids)
  {
    hide Entries;
  }

  lemma PrefixIsIssued(s: State)
    requires CanReadStream(s)
    ensures HasWorker(s, 0) && Readable(s.stream, 0) != []
    ensures forall i :: 0 <= i < |Readable(s.stream, 0)| ==> Readable(s.stream, 0)[i] < |s.issued|
  {
    var ids := Readable(s.stream, 0);
    assert forall i :: 0 <= i < |ids| ==> ids[i] == s.stream[i] && ids[i] in s.stream;
  }

  lemma ReadAndStoreIs(s: State)
    requires CanReadStream(s)
    ensures var ids := Readable(s.stream, 0);
            && HasWorker(s, 0) && ids != []
            && (forall i :: 0 <= i < |ids| ==> ids[i] < |s.issued|)
            && Run(s, ReadAndStore()) == BatchStored(s, ids)
  {
    var ids := Readable(s.stream, 0);
    PrefixIsIssued(s);
    RunThree(s, Tick(0), Read(0, true), Insert(0, Committed));
    TickReads(s);
    hide Inv, Run, Readable, Entries, Apply;
    ReadLoads(SetWorker(s, 0, NewWorker().(phase := Reading)), ids);
    InsertStores(SetWorker(s, 0, Worker(Flushing(false), Entries(s.issued, ids), ids, 0, None, [])), ids);
    SetTwice(s, ids);
  }

  lemma SetTwice(s: State, ids: seq<nat>)
    requires HasWorker(s, 0) && forall i :: 0 <= i < |ids| ==> ids[i] < |s.issued|
    ensures forall k, k' :: SetWorker(SetWorker(s, 0, k), 0, k') == SetWorker(s, 0, k')
    ensures forall k :: BatchStored(SetWorker(s, 0, k), ids) == BatchStored(s, ids)
  {
  }

  /** One batch: the entries at the head of the stream get rows and leave it. */
  lemma OneBatch(s: State)
    requires CanReadStream(s)
    ensures var s' := Run(s, ReadAndStore() + [Ack(0, true)]);
            var ids := Readable(s.stream, 0);
            && |ids| > 0 && (forall i :: 0 <= i < |ids| ==> ids[i] < |s.issued|)
            && Inv(s') && s'.hasRedis && s'.workers[0] == NewWorker() && s'.issued == s.issued
            && s'.stream == s.stream[|ids|..] && s'.table == s.table + Entries(s.issued, ids)
  {
    ReadAndStoreIs(s);
    RunKeepsInv(s, ReadAndStore());
    RunThen(s, ReadAndStore(), Ack(0, true));
    StepKeepsInv(BatchStored(s, Readable(s.stream, 0)), Ack(0, true));
    AckEmpties(s);
    hide Inv, Run, Apply;
  }

  lemma CleanConcat(first: seq<Step>, second: seq<Step>)
    requires CleanRun(first) && CleanRun(second)
    ensures CleanRun(first + second)
  {
  }

  /** What one batch stores is the head of the stream; the rest of it can be read next. */
  lemma BatchIsHead(s: State, p: nat)
    requires CanReadStream(s) && p < |s.stream|
    ensures var s', n := Run(s, ReadAndStore() + [Ack(0, true)]), |Readable(s.stream, 0)|;
            && s.stream[p] < |s.issued| && 0 < n && s'.issued == s.issued
            && |s'.table| == |s.table| + n && s.table <= s'.table && CleanRun(ReadAndStore() + [Ack(0, true)])
            && (p < n ==> s'.table[|s.table| + p] == s.issued[s.stream[p]])
            && (p >= n ==> CanReadStream(s') && p - n < |s'.stream| && s'.stream[p - n] == s.stream[p])
  {
    hide Run, Readable;
    OneBatch(s);
    HeadIsIssued(s, p);
    hide Inv;
  }

  lemma HeadIsIssued(s: State, p: nat)
    requires CanReadStream(s) && p < |s.stream|
    ensures s.stream[p] < |s.issued| && Readable(s.stream, 0) <= s.stream
  {
    assert s.stream[p] in s.stream;
  }

  /** Reading on from the start of the stream, worker 0 stores any given entry in it once more. */
  lemma {:induction false} Reread(s: State, p: nat) returns (more: seq<Step>, j: nat)
    requires CanReadStream(s) && p < |s.stream|
    ensures s.stream[p] < |s.issued|
    ensures CleanRun(more) && s.table <= Run(s, more).table
    ensures |s.table| <= j < |Run(s, more).table| && Run(s, more).table[j] == s.issued[s.stream[p]]
    decreases p
  {
    hide CanReadStream, Run, Readable, CleanRun, ReadAndStore;
    var first, n := ReadAndStore() + [Ack(0, true)], |Readable(s.stream, 0)|;
    BatchIsHead(s, p);
    if p < n {
      more, j := first, |s.table| + p;
    } else {
      var rest;
      rest, j := Reread(Run(s, first), p - n);
      more := first + rest;
      CleanConcat(first, rest);
      RunMore(s, first, rest);
    }
  }

  lemma AckResets(s: State, ids: seq<nat>)
    requires HasWorker(s, 0) && s.hasRedis && forall i :: 0 <= i < |ids| ==> ids[i] < |s.issued|
    ensures var s' := Apply(BatchStored(s, ids), Ack(0, true));
            && s'.hasRedis && s'.workers[0] == NewWorker() && s'.issued == s.issued
            && s'.table == s.table + Entries(s.issued, ids) && s'.stream == Without(s.stream, ids)
  {
    hide Without, Entries;
  }

  lemma AckEmpties(s: State)
    requires CanReadStream(s)
    ensures var ids := Readable(s.stream, 0);
            && HasWorker(s, 0) && (forall i :: 0 <= i < |ids| ==> ids[i] < |s.issued|)
            && var s' := Apply(BatchStored(s, ids), Ack(0, true));
               && s'.hasRedis && s'.workers[0] == NewWorker() && s'.issued == s.issued
               && s'.table == s.table + Entries(s.issued, ids) && s'.stream == s.stream[|ids|..]
  {
    hide Without, Entries, Apply, BatchStored;
    PrefixIsIssued(s);
    var ids := Readable(s.stream, 0);
    assert ids == s.stream[..|ids|] && Increasing(s.stream);
    AckResets(s, ids);
    WithoutPrefix(s.stream, |ids|);
  }

  /** Two rows for the click. */
  predicate Again(s: State, t: nat) {
    exists i, j :: 0 <= i < j < |s.table| && s.table[i].tag == t && s.table[j].tag == t
  }

  /** An entry that is stored and still in the stream can be stored again. */
  lemma EntryAgain(s: State, id: nat) returns (more: seq<Step>)
    requires CanReadStream(s) && id in s.stream && id < |s.issued| && s.issued[id].tag in Tags(s.table)
    ensures CleanRun(more) && Again(Run(s, more), s.issued[id].tag)
  {
    var p :| 0 <= p < |s.stream| && s.stream[p] == id;
    var i :| 0 <= i < |s.table| && Tags(s.table)[i] == s.issued[id].tag;
    var j;
    more, j := Reread(s, p);
    assert Run(s, more).table[i] == s.table[i];
  }

  /** A batch that is stored, but not reported to be, is stored again when its backoff is over. */
  lemma BatchAgain(s: State, w: nat, t: nat) returns (more: seq<Step>)
    requires HasWorker(s, w) && s.workers[w].phase.Idle? && t in Tags(s.workers[w].batch) && t in Tags(s.table)
    ensures CleanRun(more) && Again(Run(s, more), t)
  {
    var next := s.workers[w].next;
    var wait: nat := if next.Some? && next.value > s.clock then next.value - s.clock else 0;
    more := [Advance(wait)] + ([Tick(w)] + [Read(w, false)] + [Insert(w, Committed)]);
    RunRetry(s, w, wait);
    hide Run;
    TwoRows(Run(s, more), s.table, s.workers[w].batch, t);
  }

  lemma AdvanceIs(s: State, wait: nat)
    ensures Apply(s, Advance(wait)) == s.(clock := s.clock + wait)
  {
  }

  lemma RunRetry(s: State, w: nat, wait: nat)
    requires HasWorker(s, w) && s.workers[w].phase.Idle? && |s.workers[w].batch| > 0
             && Due(s.workers[w].next, s.clock + wait)
    ensures Run(s, [Advance(wait)] + ([Tick(w)] + [Read(w, false)] + [Insert(w, Committed)])).table
            == s.table + s.workers[w].batch
  {
    hide Run, Apply;
    var s1 := s.(clock := s.clock + wait);
    AdvanceIs(s, wait);
    RunMore(s, [Advance(wait)], [Tick(w)] + [Read(w, false)] + [Insert(w, Committed)]);
    RunOne(s, Advance(wait));
    RunThree(s1, Tick(w), Read(w, false), Insert(w, Committed));
    TickThenFlush(s1, w);
  }

  lemma TwoRows(s: State, table: seq<Item>, batch: seq<Item>, t: nat)
    requires s.table == table + batch && t in Tags(table) && t in Tags(batch)
    ensures Again(s, t)
  {
    var a :| 0 <= a < |batch| && Tags(batch)[a] == t;
    var i :| 0 <= i < |table| && Tags(table)[i] == t;
    var j := |table| + a;
    assert s.table[i].tag == t && s.table[j].tag == t;
  }

  lemma TickThenFlush(s: State, w: nat)
    requires HasWorker(s, w) && s.workers[w].phase.Idle? && |s.workers[w].batch| > 0 && Due(s.workers[w].next, s.clock)
    ensures Apply(Apply(Apply(s, Tick(w)), Read(w, false)), Insert(w, Committed)).table == s.table + s.workers[w].batch
  {
    var k := s.workers[w];
    var s2 := Apply(Apply(s, Tick(w)), Read(w, false));
    assert s2.table == s.table && s2.workers[w].batch == k.batch && s2.workers[w].phase == Flushing(false);
  }

  /** After a harmful step every click it harmed can be stored twice, with nothing else going wrong. */
  lemma HarmRepeats(s: State, step: Step, t: nat) returns (more: seq<Step>)
    requires Inv(s) && t in Harm(s, step, false)
    ensures CleanRun(more) && Again(Run(Apply(s, step), more), t)
  {
    var s' := Apply(s, step);
    match step
    case Insert(w, inserted) =>
      InsertHarms(s, w, t);
      more := BatchAgain(s', w, t);
    case Ack(w, applied) =>
      StepKeepsInv(s, step);
      var id := AckHarms(s, applied, false, t);
      InTags(s'.table, s'.issued[id]);
      more := EntryAgain(s', id);
  }

  lemma InsertHarms(s: State, w: nat, t: nat)
    requires Phases(s, w) == Flushing(false) && t in Tags(s.workers[w].batch)
    ensures var s' := Apply(s, Insert(w, CommittedUnconfirmed));
            HasWorker(s', w) && s'.workers[w].phase.Idle? && t in Tags(s'.workers[w].batch) && t in Tags(s'.table)
  {
    TagsConcat(s.table, s.workers[w].batch);
  }

  /** What is acknowledged is in the table. */
  lemma AckingIsStored(s: State, id: nat)
    requires Inv(s) && s.workers[0].phase.Acking? && id in s.workers[0].overflowIDs
    ensures id < |s.issued| && s.issued[id] in s.table
  {
    var k := s.workers[0];
    var off: nat :| HeldAt(s.issued, k, off);
    var i :| 0 <= i < |k.overflowIDs| && k.overflowIDs[i] == id;
    assert k.batch[off + i] == s.issued[id];
  }

  lemma AckHarms(s: State, applied: bool, later: bool, t: nat) returns (id: nat)
    requires Inv(s) && t in Harm(s, Ack(0, applied), later)
    ensures var s' := Apply(s, Ack(0, applied));
            && id < |s'.issued| && s'.issued[id].tag == t && id in s'.stream && s'.issued[id] in s'.table
            && (!later ==> s'.hasRedis && s'.workers[0] == NewWorker())
  {
    id :| id in s.workers[0].overflowIDs && id in s.stream && id < |s.issued| && s.issued[id].tag == t;
    AckingIsStored(s, id);
  }

  /** No click can be stored twice, whatever clean steps follow any part of the run, exactly when no step of the
      run is harmful. */
  lemma AtMostOnceIff(hasRedis: bool, clock: int, steps: seq<Step>)
    ensures (forall k, more :: 0 <= k <= |steps| && CleanRun(more) ==>
             !StoredTwice(Run(Reached(hasRedis, clock, steps[..k]), more)))
       <==> HarmlessRun(hasRedis, clock, steps)
  {
    hide Run, Reached, CleanRun, StoredTwice, Harmful;
    if HarmlessRun(hasRedis, clock, steps) {
      forall k, more | 0 <= k <= |steps| && CleanRun(more)
          ensures !StoredTwice(Run(Reached(hasRedis, clock, steps[..k]), more)) {
        HarmlessThenClean(hasRedis, clock, steps, k, more);
      }
    } else {
      var k :| 0 <= k < |steps| && Harmful(Reached(hasRedis, clock, steps[..k]), steps[k]);
      var more := HarmfulThenClean(hasRedis, clock, steps, k);
    }
  }

  lemma HarmlessExtends(hasRedis: bool, clock: int, steps: seq<Step>, k: nat, more: seq<Step>)
    requires HarmlessRun(hasRedis, clock, steps) && k <= |steps| && CleanRun(more)
    ensures HarmlessRun(hasRedis, clock, steps[..k] + more)
  {
    hide Reached, Harmful, Clean;
    var all := steps[..k] + more;
    forall i | 0 <= i < |all| ensures !Harmful(Reached(hasRedis, clock, all[..i]), all[i]) {
      if i < k {
        assert all[..i] == steps[..i] && all[i] == steps[i];
      } else {
        CleanIsHarmless(Reached(hasRedis, clock, all[..i]), more[i - k]);
      }
    }
  }

  lemma HarmlessThenClean(hasRedis: bool, clock: int, steps: seq<Step>, k: nat, more: seq<Step>)
    requires HarmlessRun(hasRedis, clock, steps) && k <= |steps| && CleanRun(more)
    ensures !StoredTwice(Run(Reached(hasRedis, clock, steps[..k]), more))
  {
    hide HarmlessRun, Run, CleanRun, StoredTwice;
    RunMore(Init(hasRedis, clock), steps[..k], more);
    HarmlessExtends(hasRedis, clock, steps, k, more);
    NotTwice(hasRedis, clock, steps[..k] + more);
  }

  lemma NotTwice(hasRedis: bool, clock: int, steps: seq<Step>)
    requires HarmlessRun(hasRedis, clock, steps)
    ensures !StoredTwice(Reached(hasRedis, clock, steps))
  {
    hide HarmlessRun, Reached;
    AtMostOnce(hasRedis, clock, steps);
  }

  lemma CleanIsHarmless(s: State, step: Step)
    requires Clean(step)
    ensures !Harmful(s, step)
  {
  }

  lemma HarmfulThenClean(hasRedis: bool, clock: int, steps: seq<Step>, k: nat) returns (more: seq<Step>)
    requires k < |steps| && Harmful(Reached(hasRedis, clock, steps[..k]), steps[k])
    ensures k + 1 <= |steps| && CleanRun(more) && StoredTwice(Run(Reached(hasRedis, clock, steps[..k + 1]), more))
  {
    var s := Reached(hasRedis, clock, steps[..k]);
    ReachedInv(hasRedis, clock, steps[..k]);
    ReachedLoops(hasRedis, clock, steps[..k]);
    HarmIffHarmful(s, steps[k]);
    assert steps[..k + 1] == steps[..k] + [steps[k]];
    ReachNext(hasRedis, clock, steps[..k], steps[k]);
    var t :| t in Harm(s, steps[k], false);
    hide Inv, BothLoop, Reached, Harm, Harmful;
    more := HarmRepeats(s, steps[k], t);
  }

  // -------------------------------------------------------------- after a restart

  lemma RestartReads(s: State, id: nat)
    requires Inv(s) && id in s.stream
    ensures CanReadStream(Restarted(s, true))
  {
    RestartKeepsInv(s, true);
  }

  /** A process that stops between an insert and its acknowledgement leaves clicks that the next one, with
      nothing else going wrong, stores again. */
  lemma CrashRepeats(s: State, t: nat) returns (more: seq<Step>)
    requires Inv(s) && t in CrashHarm(s)
    ensures CleanRun(more) && Again(Run(Restarted(s, true), more), t)
  {
    var id :| id in s.workers[0].overflowIDs && id in s.stream && id < |s.issued| && s.issued[id].tag == t;
    AckingIsStored(s, id);
    RestartReads(s, id);
    InTags(s.table, s.issued[id]);
    more := EntryAgain(Restarted(s, true), id);
  }

  /** So does a worker that ends without having removed from the stream what it stored. */
  lemma ShutdownRepeats(s: State, step: Step, t: nat) returns (more: seq<Step>)
    requires Inv(s) && t in Harm(s, step, true) && t !in Harm(s, step, false)
    ensures CleanRun(more) && Again(Run(Restarted(Apply(s, step), true), more), t)
  {
    var s', id := Apply(s, step), 0;
    StepKeepsInv(s, step);
    match step {
      case Insert(w, inserted) =>
        id :| id in s.workers[0].overflowIDs && id in s.stream && id < |s.issued| && s.issued[id].tag == t;
        LastFlushStores(s, id);
      case Ack(w, applied) =>
        id := AckHarms(s, applied, true, t);
    }
    RestartReads(s', id);
    InTags(s'.table, s'.issued[id]);
    more := EntryAgain(Restarted(s', true), id);
  }

  lemma LastFlushStores(s: State, id: nat)
    requires Inv(s) && Phases(s, 0) == Flushing(true) && id in s.workers[0].overflowIDs && id in s.stream
    ensures var s' := Apply(s, Insert(0, CommittedUnconfirmed));
            id in s'.stream && id < |s'.issued| && s'.issued == s.issued && s'.issued[id] in s'.table
  {
    var k := s.workers[0];
    var off: nat :| HeldAt(s.issued, k, off);
    var i :| 0 <= i < |k.overflowIDs| && k.overflowIDs[i] == id;
    assert k.batch[off + i] == s.issued[id];
    assert k.batch[off + i] in s.table + k.batch;
  }
}
