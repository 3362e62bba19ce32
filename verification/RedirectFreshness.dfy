/** Exactly when every answer, from the cache or not, is one of its call's own time. */
module RedirectFreshness {
  import opened Domain
  import opened Redirects

  /** The change takes effect. */
  predicate TakesEffect(s: State, step: Step)
    requires s.history != []
  {
    step.Change? && Accepts(Present(s), step.m) && IsNewID(s.history, step.m)
  }

  /** What a call holds about its hash is true of the tables: the answer it is to store, or the source whose
      link it is to read, if there still is such a link. */
  predicate HoldsTrue(db: DB, call: Call) {
    match call.phase
    case Storing(a) => Answers(db, call.hash, a)
    case QueryParent(id, link) => link in db.links ==> SourceServes(db, call.hash, id)
    case _ => true
  }

  /** All that is cached or under way about the hash is true of the tables. */
  predicate HeldTrue(db: DB, s: State, hash: string) {
    && (hash in s.cache ==> Answers(db, hash, s.cache[hash]))
    && forall c :: 0 <= c < |s.calls| && s.calls[c].hash == hash ==> HoldsTrue(db, s.calls[c])
  }

  /** The step makes nothing false that is cached or under way about the hash. */
  predicate Respects(s: State, step: Step, hash: string)
    requires s.history != []
  {
    TakesEffect(s, step) ==> HeldTrue(Mutated(Present(s), step.m), s, hash)
  }

  predicate AllRespect(steps: seq<Step>, hash: string) {
    forall k :: 0 <= k < |steps| ==> Respects(Run(Init(), steps[..k]), steps[k], hash)
  }

  predicate TrueDuringCall(history: seq<DB>, call: Call) {
    match call.phase
    case Returned(Some(a), _) => WasAnswer(history, call.begun, call.hash, a)
    case _ => true
  }

  /** Every answer returned for the hash was the database's own at some moment during the call. */
  predicate TrueDuringCalls(s: State, hash: string) {
    forall c :: 0 <= c < |s.calls| && s.calls[c].hash == hash ==> TrueDuringCall(s.history, s.calls[c])
  }

  predicate Current(s: State, hash: string) {
    s.history != [] && HeldTrue(Present(s), s, hash) && TrueDuringCalls(s, hash)
  }

  predicate CurrentCall(history: seq<DB>, call: Call)
    requires history != []
  {
    HoldsTrue(history[|history| - 1], call) && TrueDuringCall(history, call)
  }

  // ---------------------------------------------------------- the guard is enough

  lemma TrueDuringLonger(history: seq<DB>, db: DB, call: Call)
    requires TrueDuringCall(history, call)
    ensures TrueDuringCall(history + [db], call)
  {
    match call.phase
    case Returned(Some(a), _) => LongerHistory(history, db, call.begun, call.hash, a, "", "");
    case _ =>
  }

  lemma ChangeKeepsCurrent(s: State, m: Mutation, hash: string)
    requires Current(s, hash) && Respects(s, Change(m), hash)
    ensures Current(Apply(s, Change(m)), hash)
  {
    hide HoldsTrue, TrueDuringCall, Answers, Mutated;
    if TakesEffect(s, Change(m)) {
      var db, s' := Mutated(Present(s), m), Apply(s, Change(m));
      assert s'.history[|s.history|] == db;
      forall c | 0 <= c < |s.calls| && s.calls[c].hash == hash ensures TrueDuringCall(s'.history, s.calls[c]) {
        TrueDuringLonger(s.history, db, s.calls[c]);
      }
    }
  }

  lemma InvHasHistory(s: State)
    requires Inv(s)
    ensures s.history != []
  {
  }

  /** A source whose link a call is to read belongs to that link, if the source is still there. */
  lemma SourceKeepsLink(s: State, c: nat)
    requires Inv(s) && c < |s.calls| && s.calls[c].phase.QueryParent?
    ensures var id, link := s.calls[c].phase.source, s.calls[c].phase.parent;
            id in Present(s).sources ==> Present(s).sources[id].link == link
  {
    var call := s.calls[c];
    assert CallInv(s.history, call);
    var i :| call.begun <= i < |s.history| && SourceServes(s.history[i], call.hash, call.phase.source)
             && s.history[i].sources[call.phase.source].link == call.phase.parent;
    assert SameRows(s.history[i], Present(s));
  }

  /** The link that the call reads is its source's, and serves the hash with it. */
  lemma ParentIsCurrent(s: State, c: nat, hash: string)
    requires Inv(s) && AllUnambiguous(s.history) && c < |s.calls| && s.calls[c].hash == hash
             && s.calls[c].phase.QueryParent?
    requires HoldsTrue(Present(s), s.calls[c]) && s.calls[c].phase.parent in Present(s).links
    ensures var link := s.calls[c].phase.parent;
            Answers(Present(s), hash, Answer(Present(s).links[link].url, link, Some(s.calls[c].phase.source)))
  {
    SourceKeepsLink(s, c);
    hide Inv;
    assert s.history[|s.history| - 1] == Present(s);
    assert Unambiguous(Present(s));
    assert SourceServes(Present(s), hash, s.calls[c].phase.source);
  }

  lemma FoundIsCurrent(s: State, hash: string, id: string)
    requires s.history != [] && LinkServes(Present(s), hash, id)
    ensures Answers(Present(s), hash, Answer(Present(s).links[id].url, id, None))
  {
  }

  lemma AnswerIsTrue(s: State, call: Call, a: Answer, cached: bool)
    requires s.history != [] && call.begun < |s.history| && Answers(Present(s), call.hash, a)
    ensures CurrentCall(s.history, call.(phase := Storing(a)))
            && CurrentCall(s.history, call.(phase := Returned(Some(a), cached)))
  {
    assert Answers(s.history[|s.history| - 1], call.hash, a);
  }

  lemma InvBegun(s: State, c: nat)
    requires Inv(s) && c < |s.calls|
    ensures s.calls[c].begun < |s.history|
  {
    assert CallInv(s.history, s.calls[c]);
  }

  /** A read or a write to the cache leaves the call current. */
  lemma ReadIsCurrent(s: State, step: Step, hash: string)
    requires Inv(s) && Current(s, hash) && AllUnambiguous(s.history) && CanRead(s, step) && s.calls[step.c].hash == hash
    ensures CurrentCall(s.history, s.calls[step.c].(phase := NextPhase(s, step)))
  {
    hide Inv, Answers, AllUnambiguous, WasAnswer;
    var call := s.calls[step.c];
    InvBegun(s, step.c);
    assert HoldsTrue(Present(s), call) && TrueDuringCall(s.history, call);
    match step
    case Get(_, hit) =>
      if hit { AnswerIsTrue(s, call, s.cache[hash], true); }
    case ReadLink(_, found) =>
      if found.Some? {
        FoundIsCurrent(s, hash, found.value);
        AnswerIsTrue(s, call, NextPhase(s, step).answer, false);
      }
    case ReadSource(_, found) =>
    case ReadParent(_, ok) =>
      if ok {
        ParentIsCurrent(s, step.c, hash);
        AnswerIsTrue(s, call, NextPhase(s, step).answer, false);
      }
    case Set(_, _) => AnswerIsTrue(s, call, call.phase.answer, false);
  }

  lemma ReadChangesOne(s: State, step: Step)
    requires s.history != [] && CanRead(s, step)
    ensures var s', call := Apply(s, step), s.calls[step.c];
            && s'.history == s.history
            && s'.calls == s.calls[step.c := call.(phase := NextPhase(s, step))]
            && (s'.cache == s.cache || (call.phase.Storing? && s'.cache == s.cache[call.hash := call.phase.answer]))
  {
  }

  lemma StoringIsCurrent(db: DB, call: Call)
    requires HoldsTrue(db, call) && call.phase.Storing?
    ensures Answers(db, call.hash, call.phase.answer)
  {
  }

  lemma ReplacedIsCurrent(s: State, s': State, c: nat, call: Call, hash: string)
    requires Current(s, hash) && c < |s.calls| && call.hash == s.calls[c].hash
    requires s'.history == s.history && s'.calls == s.calls[c := call]
    requires call.hash == hash ==> CurrentCall(s.history, call)
    requires hash in s'.cache ==> Answers(Present(s), hash, s'.cache[hash])
    ensures Current(s', hash)
  {
    hide Answers, HoldsTrue, TrueDuringCall;
  }

  lemma ReadKeepsCurrent(s: State, step: Step, hash: string)
    requires Inv(s) && Current(s, hash) && AllUnambiguous(s.history) && CanRead(s, step)
    ensures Current(Apply(s, step), hash)
  {
    hide NextPhase, CurrentCall, HoldsTrue, TrueDuringCall, Apply, Answers, AllUnambiguous, Inv;
    var call := s.calls[step.c];
    ReadChangesOne(s, step);
    if call.hash == hash {
      ReadIsCurrent(s, step, hash);
      if call.phase.Storing? { StoringIsCurrent(Present(s), call); }
    }
    ReplacedIsCurrent(s, Apply(s, step), step.c, call.(phase := NextPhase(s, step)), hash);
  }

  lemma StepKeepsCurrent(s: State, step: Step, hash: string)
    requires Inv(s) && Current(s, hash) && Respects(s, step, hash) && AllUnambiguous(Apply(s, step).history)
    ensures Current(Apply(s, step), hash)
  {
    if step.Change? {
      hide Inv, Current, Respects, AllUnambiguous;
      ChangeKeepsCurrent(s, step.m, hash);
    } else if step.Evict? || step.Begin? {
      IdleStepKeepsCurrent(s, step, hash);
    } else if CanRead(s, step) {
      hide Inv, Current, Respects, CanRead;
      ReadKeepsCurrent(s, step, hash);
    }
  }

  lemma IdleStepKeepsCurrent(s: State, step: Step, hash: string)
    requires Current(s, hash) && (step.Evict? || step.Begin?)
    ensures Current(Apply(s, step), hash)
  {
    hide Answers;
  }

  lemma ShorterRespects(steps: seq<Step>, hash: string)
    requires steps != [] && AllRespect(steps, hash)
    ensures AllRespect(steps[..|steps| - 1], hash)
  {
    hide Run, Respects;
    var before := steps[..|steps| - 1];
    forall k | 0 <= k < |before| ensures Respects(Run(Init(), before[..k]), before[k], hash) {
      assert before[..k] == steps[..k] && before[k] == steps[k];
    }
  }

  lemma {:induction false} ReachedCurrent(steps: seq<Step>, hash: string)
    requires AllUnambiguous(Run(Init(), steps).history) && AllRespect(steps, hash)
    ensures Current(Run(Init(), steps), hash)
    decreases |steps|
  {
    hide Inv, Apply, Current, Respects;
    if steps == [] {
      InitIsCurrent(hash);
    } else {
      var n := |steps| - 1;
      HistoryGrows(Run(Init(), steps[..n]), steps[n]);
      ShorterRespects(steps, hash);
      ReachedCurrent(steps[..n], hash);
      ReachedInv(steps[..n]);
      StepKeepsCurrent(Run(Init(), steps[..n]), steps[n], hash);
    }
  }

  lemma InitIsCurrent(hash: string)
    ensures Current(Init(), hash)
  {
  }

  // ---------------------------------------------------------- the guard is needed

  /** A call that begins and hits a cached answer that the tables do not give. */
  lemma HitIsUntrue(s: State, hash: string) returns (more: seq<Step>)
    requires s.history != [] && hash in s.cache && !Answers(Present(s), hash, s.cache[hash])
    ensures NoChange(more) && !TrueDuringCalls(Run(s, more), hash)
  {
    var c, call := |s.calls|, Call(hash, |s.history| - 1, Lookup);
    more := [Begin(hash)] + [Get(c, true)];
    BeginIsRun(s, hash);
    LastCallSteps(s, call, Get(c, true), Returned(Some(s.cache[hash]), true));
    RunThen(s, [Begin(hash)], Get(c, true));
    var s' := Run(s, more);
    assert !TrueDuringCall(s'.history, s'.calls[c]);
  }

  /** A call that stores such an answer, before another one hits it. */
  lemma StoreIsUntrue(s: State, c: nat, hash: string) returns (more: seq<Step>)
    requires s.history != [] && c < |s.calls| && s.calls[c].hash == hash && s.calls[c].phase.Storing?
    requires !Answers(Present(s), hash, s.calls[c].phase.answer)
    ensures NoChange(more) && !TrueDuringCalls(Run(s, more), hash)
  {
    var s' := Apply(s, Set(c, true));
    var rest := HitIsUntrue(s', hash);
    more := [Set(c, true)] + rest;
    RunOne(s, Set(c, true));
    RunAppend(s, [Set(c, true)], rest);
  }

  /** A call that reads the link of a source that no longer serves the hash, before it stores the answer. */
  lemma ReadIsUntrue(s: State, c: nat, hash: string) returns (more: seq<Step>)
    requires s.history != [] && c < |s.calls| && s.calls[c].hash == hash && s.calls[c].phase.QueryParent?
    requires s.calls[c].phase.parent in Present(s).links && !SourceServes(Present(s), hash, s.calls[c].phase.source)
    ensures NoChange(more) && !TrueDuringCalls(Run(s, more), hash)
  {
    var s' := Apply(s, ReadParent(c, true));
    var rest := StoreIsUntrue(s', c, hash);
    more := [ReadParent(c, true)] + rest;
    RunOne(s, ReadParent(c, true));
    RunAppend(s, [ReadParent(c, true)], rest);
  }

  lemma FalseIsTold(s: State, hash: string) returns (more: seq<Step>)
    requires s.history != [] && !HeldTrue(Present(s), s, hash)
    ensures NoChange(more) && !TrueDuringCalls(Run(s, more), hash)
  {
    if hash in s.cache && !Answers(Present(s), hash, s.cache[hash]) {
      more := HitIsUntrue(s, hash);
    } else {
      var c :| 0 <= c < |s.calls| && s.calls[c].hash == hash && !HoldsTrue(Present(s), s.calls[c]);
      if s.calls[c].phase.Storing? { more := StoreIsUntrue(s, c, hash); } else { more := ReadIsUntrue(s, c, hash); }
    }
  }

  lemma DisrespectIsTold(steps: seq<Step>, k: nat, hash: string) returns (more: seq<Step>)
    requires k < |steps| && !Respects(Run(Init(), steps[..k]), steps[k], hash)
    ensures NoChange(more) && !TrueDuringCalls(Run(Run(Init(), steps[..k + 1]), more), hash)
  {
    hide HeldTrue, TrueDuringCalls;
    var s := Run(Init(), steps[..k]);
    assert steps[..k + 1] == steps[..k] + [steps[k]];
    RunThen(Init(), steps[..k], steps[k]);
    ChangeHolds(s, steps[k], hash);
    more := FalseIsTold(Apply(s, steps[k]), hash);
  }

  /** A change of the tables leaves what is held as it was. */
  lemma ChangeHolds(s: State, step: Step, hash: string)
    requires s.history != [] && TakesEffect(s, step)
    ensures var s' := Apply(s, step);
            Present(s') == Mutated(Present(s), step.m)
                && HeldTrue(Present(s'), s', hash) == HeldTrue(Mutated(Present(s), step.m), s, hash)
  {
  }

  lemma {:induction false} NoChangeRespects(steps: seq<Step>, k: nat, more: seq<Step>, hash: string)
    requires AllRespect(steps, hash) && k <= |steps| && NoChange(more)
    ensures AllRespect(steps[..k] + more, hash)
  {
    hide Run, HeldTrue;
    var all := steps[..k] + more;
    forall i | 0 <= i < |all| ensures Respects(Run(Init(), all[..i]), all[i], hash) {
      if i < k { assert all[..i] == steps[..i] && all[i] == steps[i]; } else { assert all[i] == more[i - k]; }
    }
  }

  lemma RespectIsTrue(steps: seq<Step>, k: nat, more: seq<Step>, hash: string)
    requires AllUnambiguous(Run(Init(), steps).history) && AllRespect(steps, hash) && k <= |steps| && NoChange(more)
    ensures TrueDuringCalls(Run(Run(Init(), steps[..k]), more), hash)
  {
    hide Run, AllRespect, TrueDuringCalls, Unambiguous;
    RunAppend(Init(), steps[..k], more);
    HistoryStays(Run(Init(), steps[..k]), more);
    PrefixHistory(steps, k);
    NoChangeRespects(steps, k, more, hash);
    ReachedCurrent(steps[..k] + more, hash);
  }

  /** While no hash is ambiguous: whatever calls come between and after the changes of the tables, all answers
      for the hash are true during their calls, exactly when no change made anything false that was cached or
      under way about the hash. */
  lemma CurrentIff(steps: seq<Step>, hash: string)
    requires AllUnambiguous(Run(Init(), steps).history)
    ensures (forall k, more :: 0 <= k <= |steps| && NoChange(more) ==>
               TrueDuringCalls(Run(Run(Init(), steps[..k]), more), hash))
       <==> AllRespect(steps, hash)
  {
    hide Run, TrueDuringCalls, NoChange, Respects;
    if AllRespect(steps, hash) {
      forall k, more | 0 <= k <= |steps| && NoChange(more)
          ensures TrueDuringCalls(Run(Run(Init(), steps[..k]), more), hash) {
        RespectIsTrue(steps, k, more, hash);
      }
    } else {
      var k :| 0 <= k < |steps| && !Respects(Run(Init(), steps[..k]), steps[k], hash);
      var more := DisrespectIsTold(steps, k, hash);
    }
  }

  // -------------------------------------------------- a discipline that meets the guard

  /** What the tables serve for the hash, they still serve. */
  predicate Spares(db: DB, db': DB, hash: string) {
    && (forall id :: id in db.links && LinkServes(db, hash, id) ==> LinkServes(db', hash, id))
    && (forall id :: id in db.sources && SourceServes(db, hash, id) ==> SourceServes(db', hash, id))
  }

  /** The hash is not cached, and no call for it has found a row without having returned yet. */
  predicate Unheld(s: State, hash: string) {
    && hash !in s.cache
    && forall c :: 0 <= c < |s.calls| && s.calls[c].hash == hash ==>
       !s.calls[c].phase.QueryParent? && !s.calls[c].phase.Storing?
  }

  /** The step takes nothing from the hash, or does so while the hash is not held: between an invalidation
      and the deletion it is for, no call reads the hash, and none that read it before is still under way. */
  predicate Considerate(s: State, step: Step, hash: string)
    requires s.history != []
  {
    TakesEffect(s, step) ==> Spares(Present(s), Mutated(Present(s), step.m), hash) || Unheld(s, hash)
  }

  lemma SparedAnswer(db: DB, db': DB, hash: string, a: Answer)
    requires Spares(db, db', hash) && SameRows(db, db') && Unambiguous(db') && Answers(db, hash, a)
    ensures Answers(db', hash, a)
  {
    match a.source
    case None => assert LinkServes(db', hash, a.link);
    case Some(sid) => assert SourceServes(db', hash, sid);
  }

  /** A link that a call is to read and that is gone does not come back: its id is never used again. */
  lemma GoneForGood(s: State, m: Mutation, c: nat)
    requires Inv(s) && TakesEffect(s, Change(m)) && c < |s.calls| && s.calls[c].phase.QueryParent?
    ensures s.calls[c].phase.parent in Mutated(Present(s), m).links ==> s.calls[c].phase.parent in Present(s).links
  {
    var call := s.calls[c];
    assert CallInv(s.history, call);
    var i :| call.begun <= i < |s.history| && SourceServes(s.history[i], call.hash, call.phase.source)
             && s.history[i].sources[call.phase.source].link == call.phase.parent;
    assert call.phase.parent in s.history[i].links;
  }

  lemma SparedCall(s: State, m: Mutation, c: nat)
    requires Inv(s) && TakesEffect(s, Change(m)) && c < |s.calls| && HoldsTrue(Present(s), s.calls[c])
    requires Spares(Present(s), Mutated(Present(s), m), s.calls[c].hash) && Unambiguous(Mutated(Present(s), m))
    requires SameRows(Present(s), Mutated(Present(s), m))
    ensures HoldsTrue(Mutated(Present(s), m), s.calls[c])
  {
    InvHasHistory(s);
    hide Mutated, Inv, SameRows, Unambiguous;
    var call := s.calls[c];
    match call.phase
    case Storing(a) => SparedAnswer(Present(s), Mutated(Present(s), m), call.hash, a);
    case QueryParent(id, link) => GoneForGood(s, m, c);
    case _ =>
  }

  /** While what is held is true, a considerate step respects it. */
  lemma ConsiderateRespects(s: State, step: Step, hash: string)
    requires Inv(s) && Current(s, hash) && Considerate(s, step, hash) && AllUnambiguous(Apply(s, step).history)
    ensures Respects(s, step, hash)
  {
    InvHasHistory(s);
    hide Inv, Mutated, HoldsTrue, SameRows, Answers, Unambiguous, Spares, Unheld;
    if TakesEffect(s, step) {
      var db := Mutated(Present(s), step.m);
      ChangeKeepsRows(s, step.m, |s.history| - 1);
      assert Apply(s, step).history[|s.history|] == db;
      if Unheld(s, hash) { UnheldIsTrue(s, db, hash); } else { SparedIsTrue(s, step.m, hash); }
    }
  }

  lemma SparedIsTrue(s: State, m: Mutation, hash: string)
    requires Inv(s) && Current(s, hash) && TakesEffect(s, Change(m)) && SameRows(Present(s), Mutated(Present(s), m))
    requires Spares(Present(s), Mutated(Present(s), m), hash) && Unambiguous(Mutated(Present(s), m))
    ensures HeldTrue(Mutated(Present(s), m), s, hash)
  {
    hide Inv, Mutated, HoldsTrue, SameRows, Answers, Unambiguous, Spares;
    var db := Mutated(Present(s), m);
    if hash in s.cache { SparedAnswer(Present(s), db, hash, s.cache[hash]); }
    forall c | 0 <= c < |s.calls| && s.calls[c].hash == hash ensures HoldsTrue(db, s.calls[c]) { SparedCall(s, m, c); }
  }

  lemma UnheldIsTrue(s: State, db: DB, hash: string)
    requires Unheld(s, hash)
    ensures HeldTrue(db, s, hash)
  {
  }

  predicate AllConsiderate(steps: seq<Step>, hash: string) {
    forall k :: 0 <= k < |steps| ==> Considerate(Run(Init(), steps[..k]), steps[k], hash)
  }

  lemma ShorterConsiderate(steps: seq<Step>, hash: string)
    requires steps != [] && AllConsiderate(steps, hash)
    ensures AllConsiderate(steps[..|steps| - 1], hash)
  {
    hide Run, Considerate;
    var before := steps[..|steps| - 1];
    forall k | 0 <= k < |before| ensures Considerate(Run(Init(), before[..k]), before[k], hash) {
      assert before[..k] == steps[..k] && before[k] == steps[k];
    }
  }

  lemma LongerRespects(steps: seq<Step>, hash: string)
    requires steps != [] && AllRespect(steps[..|steps| - 1], hash)
    requires Respects(Run(Init(), steps[..|steps| - 1]), steps[|steps| - 1], hash)
    ensures AllRespect(steps, hash)
  {
    hide Run, Respects;
    var n, before := |steps| - 1, steps[..|steps| - 1];
    forall k | 0 <= k < |steps| ensures Respects(Run(Init(), steps[..k]), steps[k], hash) {
      if k < n {
        assert Respects(Run(Init(), before[..k]), before[k], hash);
        assert before[..k] == steps[..k] && before[k] == steps[k];
      }
    }
  }

  lemma {:induction false} ConsiderateRunRespects(steps: seq<Step>, hash: string)
    requires AllUnambiguous(Run(Init(), steps).history) && AllConsiderate(steps, hash)
    ensures AllRespect(steps, hash)
    decreases |steps|
  {
    hide Inv, Apply, Current, Considerate, Respects;
    if steps != [] {
      var n := |steps| - 1;
      HistoryGrows(Run(Init(), steps[..n]), steps[n]);
      ShorterConsiderate(steps, hash);
      ConsiderateRunRespects(steps[..n], hash);
      ReachedCurrent(steps[..n], hash);
      ReachedInv(steps[..n]);
      ConsiderateRespects(Run(Init(), steps[..n]), steps[n], hash);
      LongerRespects(steps, hash);
    }
  }

  /** If every change of the tables was considerate of the hash, each answer returned for it, from the cache
      or not, was the database's own at some moment during the call. */
  lemma HitsAreCurrent(steps: seq<Step>, hash: string)
    requires AllUnambiguous(Run(Init(), steps).history) && AllConsiderate(steps, hash)
    ensures TrueDuringCalls(Run(Init(), steps), hash)
  {
    hide AllConsiderate, AllRespect, Run, AllUnambiguous, TrueDuringCalls;
    ConsiderateRunRespects(steps, hash);
    CurrentIff(steps, hash);
    RunNothing(Run(Init(), steps));
    assert steps[..|steps|] == steps && NoChange([]);
  }

  lemma RunNothing(s: State)
    requires s.history != []
    ensures Run(s, []) == s
  {
  }
}
