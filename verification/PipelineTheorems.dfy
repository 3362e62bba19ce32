/** The pipeline's promises, each for every run: any clicks, any interleaving, any outcomes. */
module PipelineTheorems {
  import opened Pipeline
  import opened PipelineInvariant
  import opened PipelineSafety

  predicate InStream(s: State, t: nat) {
    exists id :: id in s.stream && id < |s.issued| && s.issued[id].tag == t
  }

  predicate WasTrimmed(s: State, t: nat) {
    exists id :: id in s.trimmed && id < |s.issued| && s.issued[id].tag == t
  }

  predicate WithWorker(k: Worker, t: nat) {
    t in Tags(k.batch) || (k.phase.Enriching? && k.phase.item.tag == t)
  }

  /** Click t is in one of the named places, was counted as dropped, or was trimmed by the stream cap. */
  predicate Located(s: State, t: nat)
    requires |s.workers| == 2
  {
    || t in Tags(s.channel)
    || t in Tags(s.pushing)
    || WithWorker(s.workers[0], t)
    || WithWorker(s.workers[1], t)
    || InStream(s, t)
    || t in Tags(s.table)
    || t in s.dropped
    || WasTrimmed(s, t)
  }

  lemma PlacesAreLocations(s: State, t: nat)
    requires |s.workers| == 2 && t in Places(s)
    requires StreamInv(s.issued, s.stream, s.acked, s.trimmed)
    ensures Located(s, t) || t in s.lost
  {
    if t in Waiting(s.issued, s.acked, s.workers[0].overflowIDs) {
      var id :| 0 <= id < |s.issued| && id !in s.acked && s.issued[id].tag == t;
      assert id in s.stream || id in s.trimmed;
    }
  }

  /** No flush failure, backoff, lost acknowledgement or interleaving makes a click vanish. */
  lemma NothingVanishes(hasRedis: bool, clock: int, steps: seq<Step>, t: nat)
    requires t < |Reached(hasRedis, clock, steps).offered|
    ensures var s := Reached(hasRedis, clock, steps);
            |s.workers| == 2 && (Located(s, t) || t in s.lost)
  {
    hide Places, Located;
    ReachedCovered(hasRedis, clock, steps, t);
    ReachedInv(hasRedis, clock, steps);
    PlacesAreLocations(Reached(hasRedis, clock, steps), t);
  }

  /** With no hidden effect, each offered click is in exactly one place, once. */
  lemma ConservedExactly(hasRedis: bool, clock: int, steps: seq<Step>, t: nat)
    requires CleanRun(steps)
    ensures var s := Reached(hasRedis, clock, steps);
            |s.workers| == 2 && Places(s)[t] == if t < |s.offered| then 1 else 0
  {
    ReachedExact(hasRedis, clock, steps);
  }

  /** Crash safety: only entries already in the table are acknowledged, so wherever the process
      stops, an entry the stream accepted and did not trim is in the stream or in the table. */
  lemma CrashSafe(hasRedis: bool, clock: int, steps: seq<Step>)
    ensures var s := Reached(hasRedis, clock, steps);
            && (forall id :: id in s.acked ==> id < |s.issued| && s.issued[id] in s.table)
            && (forall id :: 0 <= id < |s.issued| && id !in s.trimmed ==> id in s.stream || s.issued[id] in s.table)
  {
    ReachedInv(hasRedis, clock, steps);
  }

  /** The counter is the number of clicks dropped plus those that the stream took without saying so,
      modulo 2^64. */
  lemma CounterIsExact(hasRedis: bool, clock: int, steps: seq<Step>)
    ensures var s := Reached(hasRedis, clock, steps);
            && s.droppedEvents == (|s.dropped| + |s.miscounted|) % TWO_TO_THE_64
            && (forall i :: 0 <= i < |s.dropped| ==> s.dropped[i] < |s.offered|)
  {
    ReachedInv(hasRedis, clock, steps);
  }

  /** A new process finds the stream and the table as they were, with or without a connection to Redis of
      its own; all else is gone with the old one. */
  function Restarted(s: State, hasRedis: bool): State {
    s.(hasRedis := hasRedis, stopped := false, channel := [], pushing := [], workers := [NewWorker(), NewWorker()],
       dropped := [], miscounted := [], droppedEvents := 0)
  }

  /** The life of one process: whether it reached Redis when it started, and its steps until it stopped. */
  datatype Life = Life(hasRedis: bool, steps: seq<Step>)

  /** Processes one after the other, each stopped at an arbitrary point of its run. */
  function Lives(clock: int, lives: seq<Life>): State
    decreases |lives|
  {
    if lives == [] then Init(false, clock)
    else
      var n := |lives| - 1;
      Run(Restarted(Lives(clock, lives[..n]), lives[n].hasRedis), lives[n].steps)
  }

  lemma RestartKeepsInv(s: State, hasRedis: bool)
    requires Inv(s)
    ensures Inv(Restarted(s, hasRedis))
  {
    HoldingNothing(s.issued, s.acked, NewWorker());
    hide StreamInv, HoldingInv, AckedSafe, Untouched, Genuine;
  }

  lemma {:induction false} RunKeepsInv(s: State, steps: seq<Step>)
    requires Inv(s)
    ensures Inv(Run(s, steps))
    decreases |steps|
  {
    hide Inv, Apply;
    if steps != [] {
      RunKeepsInv(s, steps[..|steps| - 1]);
      StepKeepsInv(Run(s, steps[..|steps| - 1]), steps[|steps| - 1]);
    }
  }

  lemma {:induction false} LivesKeepInv(clock: int, lives: seq<Life>)
    ensures Inv(Lives(clock, lives))
    decreases |lives|
  {
    hide Inv, Restarted, Run;
    if lives == [] {
      InitInv(false, clock);
    } else {
      var n := |lives| - 1;
      var before := Lives(clock, lives[..n]);
      LivesKeepInv(clock, lives[..n]);
      RestartKeepsInv(before, lives[n].hasRedis);
      RunKeepsInv(Restarted(before, lives[n].hasRedis), lives[n].steps);
    }
  }

  /** Over any number of crashes and restarts, with and without Redis: an entry the stream accepted and did
      not trim is in the stream or in the table. */
  lemma CrashSafeAcrossRestarts(clock: int, lives: seq<Life>)
    ensures var s := Lives(clock, lives);
            && (forall id :: id in s.acked ==> id < |s.issued| && s.issued[id] in s.table)
            && (forall id :: 0 <= id < |s.issued| && id !in s.trimmed ==> id in s.stream || s.issued[id] in s.table)
  {
    LivesKeepInv(clock, lives);
  }

  /** Each stored row is an offered click; only its country and city may differ. */
  lemma RowsAreGenuine(hasRedis: bool, clock: int, steps: seq<Step>)
    ensures var s := Reached(hasRedis, clock, steps);
            forall i :: 0 <= i < |s.table| ==>
              && s.table[i].tag < |s.offered|
              && s.table[i].event == s.offered[s.table[i].tag].(country := s.table[i].event.country,
                                                                city := s.table[i].event.city)
  {
    ReachedInv(hasRedis, clock, steps);
  }
}
