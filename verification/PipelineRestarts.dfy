/** At-most-once over any number of processes, one after the other: exactly when it holds. */
module PipelineRestarts {
  import opened Pipeline
  import opened PipelineInvariant
  import opened PipelineSafety
  import opened PipelineTiming
  import opened PipelineTheorems
  import opened PipelineMultiplicity
  import opened PipelineNecessity

  /** The state after i steps of process j. */
  function Part(clock: int, lives: seq<Life>, j: nat, i: nat): State
    requires j < |lives| && i <= |lives[j].steps|
  {
    Run(Restarted(Lives(clock, lives[..j]), lives[j].hasRedis), lives[j].steps[..i])
  }

  /** An entry is still in the stream although its click has a row. */
  predicate LeftStored(s: State) {
    exists id :: id in s.stream && id < |s.issued| && s.issued[id].tag in Tags(s.table)
  }

  /** No step is harmful and no process, at the point where it stopped, left a stored entry in the stream. */
  predicate HarmlessLives(clock: int, lives: seq<Life>) {
    forall j :: 0 <= j < |lives| ==> HarmlessLife(clock, lives, j)
  }

  predicate HarmlessLife(clock: int, lives: seq<Life>, j: nat)
    requires j < |lives|
  {
    && HarmlessFrom(Restarted(Lives(clock, lives[..j]), lives[j].hasRedis), lives[j].steps)
    && !LeftStored(Lives(clock, lives[..j + 1]))
  }

  /** Continuing any process after any of its steps, and starting another after any process, with nothing going
      wrong from there on, never stores a click twice. */
  ghost predicate NeverTwice(clock: int, lives: seq<Life>) {
    && (forall j, i, more :: 0 <= j < |lives| && 0 <= i <= |lives[j].steps| && CleanRun(more) ==>
          !StoredTwice(Run(Part(clock, lives, j, i), more)))
    && (forall j, hasRedis, more :: 0 <= j <= |lives| && CleanRun(more) ==>
          !StoredTwice(Run(Restarted(Lives(clock, lives[..j]), hasRedis), more)))
  }

  // ---------------------------------------------------------------- harmless is enough

  lemma RestartIsOnce(s: State, hasRedis: bool)
    requires Inv(s) && IssuedOnce(s) && TableOnce(s) && !LeftStored(s)
    ensures var s' := Restarted(s, hasRedis);
            Inv(s') && IssuedOnce(s') && BothLoop(s') && Bounded(s', false, multiset{})
  {
    RestartKeepsInv(s, hasRedis);
    RestartIsLive(s, hasRedis);
    RestartLoops(s, hasRedis);
    RestartIssuedOnce(s, hasRedis);
    hide Inv, IssuedOnce, BothLoop, Live, Unread, LeftStored, TableOnce;
    var s' := Restarted(s, hasRedis);
    forall t: nat ensures Live(s', false)[t] <= (if t < |s'.offered| then 1 else 0) + multiset{}[t] { OneOfTwo(s, t); }
  }

  lemma RestartIssuedOnce(s: State, hasRedis: bool)
    requires IssuedOnce(s)
    ensures IssuedOnce(Restarted(s, hasRedis))
  {
    assert Pushed(Restarted(s, hasRedis)) <= Pushed(s);
  }

  lemma RestartIsLive(s: State, hasRedis: bool)
    ensures Live(Restarted(s, hasRedis), false) == multiset(Tags(s.table)) + multiset(Unread(s.issued, s.stream, []))
  {
  }

  /** A click has a row or an entry in the stream, not both. */
  lemma OneOfTwo(s: State, t: nat)
    requires Inv(s) && TableOnce(s) && !LeftStored(s)
    ensures (multiset(Tags(s.table)) + multiset(Unread(s.issued, s.stream, [])))[t] <= if t < |s.offered| then 1 else 0
  {
    if t in Unread(s.issued, s.stream, []) {
      var id :| id in s.stream && id < |s.issued| && s.issued[id].tag == t;
      assert Untouched(s.offered, s.issued[id]);
      assert t !in Tags(s.table);
    }
  }

  lemma ShorterLives(clock: int, lives: seq<Life>)
    requires lives != [] && HarmlessLives(clock, lives)
    ensures HarmlessLives(clock, lives[..|lives| - 1])
  {
    hide Lives, HarmlessFrom, LeftStored;
    var before := lives[..|lives| - 1];
    forall j | 0 <= j < |before| ensures HarmlessLife(clock, before, j) {
      assert HarmlessLife(clock, lives, j);
      assert before[..j] == lives[..j] && before[..j + 1] == lives[..j + 1];
    }
  }

  lemma {:induction false} LivesAreOnce(clock: int, lives: seq<Life>)
    requires HarmlessLives(clock, lives)
    ensures var s := Lives(clock, lives); Inv(s) && IssuedOnce(s) && TableOnce(s) && !LeftStored(s)
    decreases |lives|
  {
    hide Inv, IssuedOnce, TableOnce, BothLoop, Bounded, HarmlessFrom, LeftStored, Restarted, Run;
    if lives == [] {
      NoLives(clock);
    } else {
      var n := |lives| - 1;
      ShorterLives(clock, lives);
      LivesAreOnce(clock, lives[..n]);
      assert HarmlessLife(clock, lives, n) && lives[..n + 1] == lives;
      RestartIsOnce(Lives(clock, lives[..n]), lives[n].hasRedis);
      HarmlessIsOnce(Restarted(Lives(clock, lives[..n]), lives[n].hasRedis), lives[n].steps);
    }
  }

  lemma NoLives(clock: int)
    ensures var s := Init(false, clock); Inv(s) && IssuedOnce(s) && TableOnce(s) && !LeftStored(s)
  {
    StartsBounded(false, clock, false);
  }

  lemma HarmlessPrefix(clock: int, lives: seq<Life>, j: nat)
    requires HarmlessLives(clock, lives) && j <= |lives|
    ensures HarmlessLives(clock, lives[..j])
    decreases |lives| - j
  {
    hide HarmlessLives;
    if j == |lives| {
      assert lives[..j] == lives;
    } else {
      HarmlessPrefix(clock, lives, j + 1);
      ShorterLives(clock, lives[..j + 1]);
      assert lives[..j + 1][..j] == lives[..j];
    }
  }

  lemma CleanExtends(s: State, steps: seq<Step>, i: nat, more: seq<Step>)
    requires HarmlessFrom(s, steps) && i <= |steps| && CleanRun(more)
    ensures HarmlessFrom(s, steps[..i] + more)
  {
    hide Run, Harmful, Clean;
    var all := steps[..i] + more;
    forall k | 0 <= k < |all| ensures !Harmful(Run(s, all[..k]), all[k]) {
      if k < i {
        assert all[..k] == steps[..k] && all[k] == steps[k];
      } else {
        CleanIsHarmless(Run(s, all[..k]), more[k - i]);
      }
    }
  }

  lemma OnceFrom(s: State, hasRedis: bool, steps: seq<Step>, i: nat, more: seq<Step>)
    requires Inv(s) && IssuedOnce(s) && TableOnce(s) && !LeftStored(s)
    requires HarmlessFrom(Restarted(s, hasRedis), steps) && i <= |steps| && CleanRun(more)
    ensures !StoredTwice(Run(Run(Restarted(s, hasRedis), steps[..i]), more))
  {
    hide Inv, IssuedOnce, TableOnce, BothLoop, Bounded, HarmlessFrom, LeftStored, Restarted, Run, StoredTwice;
    var s' := Restarted(s, hasRedis);
    RestartIsOnce(s, hasRedis);
    CleanExtends(s', steps, i, more);
    HarmlessIsOnce(s', steps[..i] + more);
    OnceIsNotTwice(Run(s', steps[..i] + more));
    RunMore(s', steps[..i], more);
  }

  lemma HarmlessIsNeverTwice(clock: int, lives: seq<Life>)
    requires HarmlessLives(clock, lives)
    ensures NeverTwice(clock, lives)
  {
    hide Inv, IssuedOnce, TableOnce, HarmlessFrom, LeftStored, Restarted, Run, StoredTwice, CleanRun, Lives;
    forall j, i, more | 0 <= j < |lives| && 0 <= i <= |lives[j].steps| && CleanRun(more)
      ensures !StoredTwice(Run(Part(clock, lives, j, i), more))
    {
      HarmlessPrefix(clock, lives, j);
      LivesAreOnce(clock, lives[..j]);
      assert HarmlessLife(clock, lives, j);
      OnceFrom(Lives(clock, lives[..j]), lives[j].hasRedis, lives[j].steps, i, more);
    }
    forall j, hasRedis, more | 0 <= j <= |lives| && CleanRun(more)
      ensures !StoredTwice(Run(Restarted(Lives(clock, lives[..j]), hasRedis), more))
    {
      HarmlessPrefix(clock, lives, j);
      LivesAreOnce(clock, lives[..j]);
      NextIsOnce(Lives(clock, lives[..j]), hasRedis, more);
    }
  }

  lemma NextIsOnce(s: State, hasRedis: bool, more: seq<Step>)
    requires Inv(s) && IssuedOnce(s) && TableOnce(s) && !LeftStored(s) && CleanRun(more)
    ensures !StoredTwice(Run(Restarted(s, hasRedis), more))
  {
    hide Inv, IssuedOnce, TableOnce, LeftStored, Restarted, StoredTwice;
    assert HarmlessFrom(Restarted(s, hasRedis), []);
    OnceFrom(s, hasRedis, [], 0, more);
    assert Run(Restarted(s, hasRedis), [][..0]) == Restarted(s, hasRedis);
  }

  // -------------------------------------------------------------------- and needed

  /** A harmful step of a process can be repeated by the same process. */
  lemma HarmfulStepIsTold(clock: int, lives: seq<Life>, j: nat, i: nat) returns (more: seq<Step>)
    requires j < |lives| && i < |lives[j].steps| && Harmful(Part(clock, lives, j, i), lives[j].steps[i])
    ensures CleanRun(more) && StoredTwice(Run(Part(clock, lives, j, i + 1), more))
  {
    hide Inv, BothLoop, Harm, Harmful, Lives, Restarted, Run, Apply;
    var life, start := lives[j], Restarted(Lives(clock, lives[..j]), lives[j].hasRedis);
    var s := Part(clock, lives, j, i);
    LivesKeepInv(clock, lives[..j]);
    RestartKeepsInv(Lives(clock, lives[..j]), life.hasRedis);
    RestartLoops(Lives(clock, lives[..j]), life.hasRedis);
    RunKeepsInv(start, life.steps[..i]);
    RunLoops(start, life.steps[..i]);
    HarmIffHarmful(s, life.steps[i]);
    var t :| t in Harm(s, life.steps[i], false);
    more := HarmRepeats(s, life.steps[i], t);
    assert life.steps[..i + 1] == life.steps[..i] + [life.steps[i]];
    RunThen(start, life.steps[..i], life.steps[i]);
  }

  lemma RestartLoops(s: State, hasRedis: bool)
    ensures BothLoop(Restarted(s, hasRedis))
  {
  }

  /** A stored entry left in the stream can be stored again by the next process. */
  lemma LeftIsTold(s: State) returns (more: seq<Step>)
    requires Inv(s) && LeftStored(s)
    ensures CleanRun(more) && StoredTwice(Run(Restarted(s, true), more))
  {
    var id :| id in s.stream && id < |s.issued| && s.issued[id].tag in Tags(s.table);
    RestartReads(s, id);
    hide Inv, Run;
    more := EntryAgain(Restarted(s, true), id);
  }

  lemma HarmIsTold(clock: int, lives: seq<Life>, j: nat)
    requires j < |lives| && !HarmlessLife(clock, lives, j)
    ensures !NeverTwice(clock, lives)
  {
    hide Inv, Lives, Restarted, Run, StoredTwice, CleanRun, LeftStored, Harmful;
    if LeftStored(Lives(clock, lives[..j + 1])) {
      LivesKeepInv(clock, lives[..j + 1]);
      var more := LeftIsTold(Lives(clock, lives[..j + 1]));
    } else {
      var i := FindHarmful(Restarted(Lives(clock, lives[..j]), lives[j].hasRedis), lives[j].steps);
      var more := HarmfulStepIsTold(clock, lives, j, i);
      var after := i + 1;
      assert StoredTwice(Run(Part(clock, lives, j, after), more));
    }
  }

  lemma FindHarmful(s: State, steps: seq<Step>) returns (i: nat)
    requires !HarmlessFrom(s, steps)
    ensures i < |steps| && Harmful(Run(s, steps[..i]), steps[i])
  {
    hide Run, Harmful;
    i :| 0 <= i < |steps| && Harmful(Run(s, steps[..i]), steps[i]);
  }

  /** At-most-once over any processes, and whatever clean steps or processes follow any part of them, holds exactly
      when no step is harmful and no process stops with a stored entry still in the stream. */
  lemma AtMostOnceAcrossRestartsIff(clock: int, lives: seq<Life>)
    ensures NeverTwice(clock, lives) <==> HarmlessLives(clock, lives)
  {
    hide NeverTwice, HarmlessLife;
    if HarmlessLives(clock, lives) {
      HarmlessIsNeverTwice(clock, lives);
    } else {
      var j :| 0 <= j < |lives| && !HarmlessLife(clock, lives, j);
      HarmIsTold(clock, lives, j);
    }
  }
}
