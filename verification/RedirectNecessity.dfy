/** Exactly when the answers of the redirect lookups are true, and two runs that show what can go wrong: with
    a hash that becomes ambiguous during a call, and with a late write to the cache. */
module RedirectNecessity {
  import opened Domain
  import opened Redirects

  function FirstLink(): LinkRow { LinkRow("u", "https://a", "h1", "", true) }
  function SecondLink(): LinkRow { LinkRow("u", "https://b", "h", "", true) }
  function Source(): SourceRow { SourceRow("1", "x", "h", true) }
  function OneLink(): DB { DB(map["1" := FirstLink()], map[]) }
  function TwoLinks(): DB { DB(map["1" := FirstLink(), "2" := SecondLink()], map[]) }
  function Collided(): DB { DB(map["1" := FirstLink(), "2" := SecondLink()], map["s" := Source()]) }

  /** A call that misses the cache reads the tables with the given changes made after its first read. */
  function CollidingSteps(): seq<Step> {
    [Change(InsertLink("1", FirstLink()))] + [Begin("h")] + [Get(0, false)] + [ReadLink(0, None)]
    + [Change(InsertLink("2", SecondLink()))] + [Change(InsertSource("s", Source()))]
    + [ReadSource(0, Some("s"))] + [ReadParent(0, true)] + [Set(0, true)]
  }

  function Wrong(): Answer { Answer("https://a", "1", Some("s")) }

  lemma CollisionBegins()
    ensures Run(Init(), CollidingSteps()[..4])
            == State([DB(map[], map[]), OneLink()], map[], [Call("h", 1, QuerySource)])
  {
    hide Run;
    var s0 := Init();
    var s1 := State([DB(map[], map[]), OneLink()], map[], []);
    var steps := CollidingSteps();
    assert Apply(s0, steps[0]) == s1;
    var s2 := State(s1.history, map[], [Call("h", 1, Lookup)]);
    assert Apply(s1, steps[1]) == s2;
    var s3 := State(s1.history, map[], [Call("h", 1, QueryLink)]);
    assert Apply(s2, steps[2]) == s3;
    assert steps[..1] == [steps[0]] && steps[..2] == steps[..1] + [steps[1]]
           && steps[..3] == steps[..2] + [steps[2]] && steps[..4] == steps[..3] + [steps[3]];
    RunOne(s0, steps[0]);
    RunThen(s0, steps[..1], steps[1]);
    RunThen(s0, steps[..2], steps[2]);
    RunThen(s0, steps[..3], steps[3]);
  }

  function CollidedHistory(): seq<DB> { [DB(map[], map[]), OneLink(), TwoLinks(), Collided()] }

  lemma CollisionChanges()
    ensures var s := Run(Init(), CollidingSteps()[..4]);
            Apply(Apply(s, CollidingSteps()[4]), CollidingSteps()[5])
                == State(CollidedHistory(), map[], [Call("h", 1, QuerySource)])
  {
    CollisionBegins();
    var s := State([DB(map[], map[]), OneLink()], map[], [Call("h", 1, QuerySource)]);
    var t := State([DB(map[], map[]), OneLink(), TwoLinks()], map[], [Call("h", 1, QuerySource)]);
    assert Apply(s, CollidingSteps()[4]) == t;
    assert Mutated(TwoLinks(), InsertSource("s", Source())) == Collided();
  }

  lemma CollisionReads()
    ensures Run(Init(), CollidingSteps())
            == State(CollidedHistory(), map["h" := Wrong()], [Call("h", 1, Returned(Some(Wrong()), false))])
  {
    CollisionChanges();
    hide Run, Apply;
    var steps, s0 := CollidingSteps(), Init();
    assert steps[..5] == steps[..4] + [steps[4]] && steps[..6] == steps[..5] + [steps[5]]
        && steps[..7] == steps[..6] + [steps[6]]
           && steps[..8] == steps[..7] + [steps[7]] && steps == steps[..8] + [steps[8]];
    RunThen(s0, steps[..4], steps[4]);
    RunThen(s0, steps[..5], steps[5]);
    RunThen(s0, steps[..6], steps[6]);
    RunThen(s0, steps[..7], steps[7]);
    RunThen(s0, steps[..8], steps[8]);
    CollisionLastReads();
  }

  lemma CollisionLastReads()
    ensures var s := State(CollidedHistory(), map[], [Call("h", 1, QuerySource)]);
            Apply(Apply(Apply(s, ReadSource(0, Some("s"))), ReadParent(0, true)), Set(0, true))
            == State(CollidedHistory(), map["h" := Wrong()], [Call("h", 1, Returned(Some(Wrong()), false))])
  {
    var s := State(CollidedHistory(), map[], [Call("h", 1, QuerySource)]);
    assert SourceServes(Collided(), "h", "s");
    var t := State(CollidedHistory(), map[], [Call("h", 1, QueryParent("s", "1"))]);
    assert Apply(s, ReadSource(0, Some("s"))) == t;
    assert Apply(t, ReadParent(0, true)) == State(CollidedHistory(), map[], [Call("h", 1, Storing(Wrong()))]);
  }

  /** When a link and a source get the same hash, an answer is returned that was never the database's own,
      although every read succeeded and the cache was empty. */
  lemma SharedHashMisleads()
    ensures var s := Run(Init(), CollidingSteps());
            && s.calls == [Call("h", 1, Returned(Some(Wrong()), false))]
            && !AllUnambiguous(s.history)
            && forall i :: 0 <= i < |s.history| ==> !Answers(s.history[i], "h", Wrong())
  {
    CollisionReads();
    assert LinkServes(Collided(), "h", "2") && SourceServes(Collided(), "h", "s");
    assert !Unambiguous(Collided()) by { assert "2" in Collided().links && "s" in Collided().sources; }
    assert CollidedHistory()[3] == Collided();
  }

  function LateStoreSteps(): seq<Step> {
    [Change(InsertLink("1", FirstLink()))] + [Begin("h1")] + [Get(0, false)] + [ReadLink(0, Some("1"))]
    + [Evict("h1")] + [Change(DeleteLink("1"))] + [Set(0, true)] + [Begin("h1")] + [Get(1, true)]
  }

  function Stale(): Answer { Answer("https://a", "1", None) }

  lemma LateStoreReads()
    ensures Run(Init(), LateStoreSteps()[..4])
            == State([DB(map[], map[]), OneLink()], map[], [Call("h1", 1, Storing(Stale()))])
  {
    hide Run;
    var s0, steps := Init(), LateStoreSteps();
    var s1 := State([DB(map[], map[]), OneLink()], map[], []);
    assert Apply(s0, steps[0]) == s1;
    var s2 := State(s1.history, map[], [Call("h1", 1, Lookup)]);
    assert Apply(s1, steps[1]) == s2;
    var s3 := State(s1.history, map[], [Call("h1", 1, QueryLink)]);
    assert Apply(s2, steps[2]) == s3;
    assert steps[..1] == [steps[0]] && steps[..2] == steps[..1] + [steps[1]]
           && steps[..3] == steps[..2] + [steps[2]] && steps[..4] == steps[..3] + [steps[3]];
    RunOne(s0, steps[0]);
    RunThen(s0, steps[..1], steps[1]);
    RunThen(s0, steps[..2], steps[2]);
    RunThen(s0, steps[..3], steps[3]);
    assert LinkServes(OneLink(), "h1", "1");
  }

  lemma LateStoreEnds()
    ensures var s := State([DB(map[], map[]), OneLink()], map[], [Call("h1", 1, Storing(Stale()))]);
            Apply(Apply(Apply(Apply(Apply(s, Evict("h1")), Change(DeleteLink("1"))), Set(0, true)), Begin("h1")),
                  Get(1, true))
            == State([DB(map[], map[]), OneLink(), DB(map[], map[])], map["h1" := Stale()],
                     [Call("h1", 1, Returned(Some(Stale()), false)), Call("h1", 2, Returned(Some(Stale()), true))])
  {
    var s := State([DB(map[], map[]), OneLink()], map[], [Call("h1", 1, Storing(Stale()))]);
    var history := [DB(map[], map[]), OneLink(), DB(map[], map[])];
    assert Mutated(OneLink(), DeleteLink("1")) == DB(map[], map[]);
    assert Apply(s, Evict("h1")) == s;
    var t := State(history, map[], s.calls);
    assert Apply(s, Change(DeleteLink("1"))) == t;
    var done := Call("h1", 1, Returned(Some(Stale()), false));
    var u := State(history, map["h1" := Stale()], [done]);
    assert Apply(t, Set(0, true)) == u;
    assert Apply(u, Begin("h1")) == State(history, u.cache, [done, Call("h1", 2, Lookup)]);
  }

  /** A call that stores its answer after the deletion's invalidation makes a later call, begun when the
      link is gone, answer with it: even with unambiguous hashes an answer is true of some moment only,
      not of the call's. */
  lemma LateStoreOutlivesDelete()
    ensures var s := Run(Init(), LateStoreSteps());
            && AllUnambiguous(s.history)
            && |s.calls| == 2 && s.calls[1] == Call("h1", 2, Returned(Some(Stale()), true))
            && forall i :: 2 <= i < |s.history| ==> !Answers(s.history[i], "h1", Stale())
  {
    LateStoreReads();
    LateStoreEnds();
    hide Run, Apply;
    var s0, steps := Init(), LateStoreSteps();
    assert steps[..5] == steps[..4] + [steps[4]] && steps[..6] == steps[..5] + [steps[5]]
        && steps[..7] == steps[..6] + [steps[6]]
           && steps[..8] == steps[..7] + [steps[7]] && steps == steps[..8] + [steps[8]];
    RunThen(s0, steps[..4], steps[4]);
    RunThen(s0, steps[..5], steps[5]);
    RunThen(s0, steps[..6], steps[6]);
    RunThen(s0, steps[..7], steps[7]);
    RunThen(s0, steps[..8], steps[8]);
  }

  // ----------------------------------------------------------- exactly when answers are true

  /** Every answer returned was the database's own at some moment, of the call unless the cache gave it. */
  ghost predicate Truthful(s: State) {
    forall c :: 0 <= c < |s.calls| ==> TruthfulCall(s.history, s.calls[c])
  }

  ghost predicate TruthfulCall(history: seq<DB>, call: Call) {
    match call.phase
    case Returned(Some(a), cached) => WasAnswer(history, if cached then 0 else call.begun, call.hash, a)
    case _ => true
  }

  /** Wherever a hash is ambiguous, a call whose link lookup fails returns the source's answer, which is no
      answer of the database at any moment of the call. */
  lemma AmbiguityMisleads(s: State, hash: string, id: string, sid: string) returns (steps: seq<Step>)
    requires s.history != [] && LinkServes(Present(s), hash, id) && SourceServes(Present(s), hash, sid)
    ensures NoChange(steps) && Run(s, steps).history == s.history
    ensures |Run(s, steps).calls| == |s.calls| + 1
    ensures var call := Run(s, steps).calls[|s.calls|];
            call.begun == |s.history| - 1 && call.hash == hash && !TruthfulCall(s.history, call)
  {
    var c, db := |s.calls|, Present(s);
    var link := db.sources[sid].link;
    var a := Answer(db.links[link].url, link, Some(sid));
    var call := Call(hash, |s.history| - 1, QuerySource);
    var first := NoLinkIsRun(s, hash);
    LastCallSteps(s, call, ReadSource(c, Some(sid)), QueryParent(sid, link));
    LastCallSteps(s, call.(phase := QueryParent(sid, link)), ReadParent(c, true), Storing(a));
    RunThen(s, first, ReadSource(c, Some(sid)));
    RunThen(s, first + [ReadSource(c, Some(sid))], ReadParent(c, true));
    var before := first + [ReadSource(c, Some(sid))] + [ReadParent(c, true)];
    assert Run(s, before) == s.(calls := s.calls + [call.(phase := Storing(a))]);
    SetIsLast(s, call.(phase := Storing(a)), a);
    RunThen(s, before, Set(c, false));
    steps := before + [Set(c, false)];
    assert !Answers(db, hash, a);
  }

  lemma SetIsLast(s: State, call: Call, a: Answer)
    requires s.history != [] && call.phase == Storing(a)
    ensures Apply(s.(calls := s.calls + [call]), Set(|s.calls|, false))
            == s.(calls := s.calls + [call.(phase := Returned(Some(a), false))])
  {
    var t := s.(calls := s.calls + [call]);
    assert t.calls[|s.calls| := call.(phase := Returned(Some(a), false))]
        == s.calls + [call.(phase := Returned(Some(a), false))];
  }

  /** Every moment of the history was the present after some number of the steps. */
  lemma {:induction false} WasPresent(steps: seq<Step>, i: nat) returns (k: nat)
    requires i < |Run(Init(), steps).history|
    ensures k <= |steps| && Run(Init(), steps[..k]).history == Run(Init(), steps).history[..i + 1]
    decreases |steps|
  {
    var now := Run(Init(), steps).history;
    if i == |now| - 1 {
      k := |steps|;
      assert steps[..k] == steps && now[..i + 1] == now;
    } else {
      var before := steps[..|steps| - 1];
      HistoryGrowsByOne(Run(Init(), before), steps[|steps| - 1]);
      k := WasPresent(before, i);
      assert before[..k] == steps[..k];
    }
  }

  lemma HistoryGrowsByOne(s: State, step: Step)
    requires s.history != []
    ensures Apply(s, step).history == s.history
            || (|Apply(s, step).history| == |s.history| + 1 && s.history <= Apply(s, step).history)
  {
  }

  lemma ReachedTruthful(steps: seq<Step>)
    requires AllUnambiguous(Run(Init(), steps).history)
    ensures Truthful(Run(Init(), steps))
  {
    ReachedInv(steps);
    var s := Run(Init(), steps);
    forall c | 0 <= c < |s.calls| ensures TruthfulCall(s.history, s.calls[c]) { assert CallInv(s.history, s.calls[c]); }
  }

  /** Over any changes of the tables: whatever calls and failures come between and after them, all answers
      are true exactly when no moment has a hash with both an active link and a source that serves it. */
  lemma TruthfulIff(steps: seq<Step>)
    ensures (forall k, more :: 0 <= k <= |steps| && NoChange(more) ==> Truthful(Run(Run(Init(), steps[..k]), more)))
       <==> AllUnambiguous(Run(Init(), steps).history)
  {
    hide Truthful, AllUnambiguous, Run, NoChange;
    if AllUnambiguous(Run(Init(), steps).history) {
      forall k, more | 0 <= k <= |steps| && NoChange(more) ensures Truthful(Run(Run(Init(), steps[..k]), more)) {
        UnambiguousIsTruthful(steps, k, more);
      }
    } else {
      var k, more := AmbiguousIsNot(steps);
    }
  }

  lemma UnambiguousIsTruthful(steps: seq<Step>, k: nat, more: seq<Step>)
    requires AllUnambiguous(Run(Init(), steps).history) && k <= |steps| && NoChange(more)
    ensures Truthful(Run(Run(Init(), steps[..k]), more))
  {
    hide Truthful, Unambiguous, Run;
    RunAppend(Init(), steps[..k], more);
    HistoryStays(Run(Init(), steps[..k]), more);
    PrefixHistory(steps, k);
    ReachedTruthful(steps[..k] + more);
  }

  lemma AmbiguousIsNot(steps: seq<Step>) returns (k: nat, more: seq<Step>)
    requires !AllUnambiguous(Run(Init(), steps).history)
    ensures k <= |steps| && NoChange(more) && !Truthful(Run(Run(Init(), steps[..k]), more))
  {
    hide Truthful, Unambiguous, Run;
    var history := Run(Init(), steps).history;
    var i :| 0 <= i < |history| && !Unambiguous(history[i]);
    k := WasPresent(steps, i);
    more := FindUntruth(Run(Init(), steps[..k]));
  }

  lemma FindUntruth(s: State) returns (steps: seq<Step>)
    requires s.history != [] && !Unambiguous(Present(s))
    ensures NoChange(steps) && !Truthful(Run(s, steps))
  {
    var db := Present(s);
    var id, sid :| id in db.links && sid in db.sources && LinkServes(db, db.sources[sid].hash, id)
        && SourceServes(db, db.sources[sid].hash, sid);
    steps := AmbiguityMisleads(s, db.sources[sid].hash, id, sid);
    assert !TruthfulCall(Run(s, steps).history, Run(s, steps).calls[|s.calls|]);
  }
}
