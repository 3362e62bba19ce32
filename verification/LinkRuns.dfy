/** Each operation, as the services perform it without interruption, is a run of the step system of Redirects:
    what holds of all its interleavings holds of the code's own order of reads and writes. */
module LinkRuns {
  import opened Domain
  import opened Redirects
  import opened LinkOperations

  /** The step system is where the services are. */
  predicate Shows(s: State, w: World) {
    s.history != [] && Present(s) == w.db && s.cache == w.cache && (w.client || w.cache == map[])
  }

  /** The row id that the operation may use is new. */
  predicate NewRow(s: State, op: Op) {
    match op
    case Create(_, _, _, _, _, id, _) => forall i :: 0 <= i < |s.history| ==> id !in s.history[i].links
    case CreateSource(_, _, _, _, _, id, _) => forall i :: 0 <= i < |s.history| ==> id !in s.history[i].sources
    case _ => true
  }

  /** Invalidations, in some order. */
  lemma {:induction false} EvictAll(s: State, hashes: set<string>) returns (steps: seq<Step>)
    requires s.history != []
    ensures Run(s, steps) == s.(cache := s.cache - hashes)
    decreases |hashes|
  {
    if hashes == {} {
      steps := [];
      assert s.cache - hashes == s.cache;
    } else {
      var hash :| hash in hashes;
      var before := EvictAll(s, hashes - {hash});
      steps := before + [Evict(hash)];
      RunThen(s, before, Evict(hash));
      assert s.cache - (hashes - {hash}) - {hash} == s.cache - hashes;
    }
  }

  /** The call that one Resolve leaves behind. */
  ghost function Finished(s: State, w: World, hash: string, io: Lookups): Call
    requires s.history != []
  {
    Call(hash, |s.history| - 1, Returned(Resolved(w, hash, io), Hits(w, hash, io)))
  }

  lemma ResolveFromCache(s: State, w: World, hash: string, io: Lookups)
    requires Shows(s, w) && Hits(w, hash, io)
    ensures Run(s, [Begin(hash)] + [Get(|s.calls|, true)]) == s.(calls := s.calls + [Finished(s, w, hash, io)])
  {
    var call := Call(hash, |s.history| - 1, Lookup);
    BeginIsRun(s, hash);
    LastCallSteps(s, call, Get(|s.calls|, true), Returned(Some(s.cache[hash]), true));
    hide Run, Apply;
    RunThen(s, [Begin(hash)], Get(|s.calls|, true));
  }

  /** Storing an answer, from the state in which the call holds it. */
  lemma StoreIsStep(s: State, w: World, call: Call, a: Answer, ok: bool)
    requires Shows(s, w) && call.phase == Storing(a)
    ensures Apply(s.(calls := s.calls + [call]), Set(|s.calls|, w.client && ok))
            == s.(calls := s.calls + [call.(phase := Returned(Some(a), false))],
                  cache := Stored(w, call.hash, a, ok).cache)
  {
    var t := s.(calls := s.calls + [call]);
    assert t.calls[|s.calls| := call.(phase := Returned(Some(a), false))]
        == s.calls + [call.(phase := Returned(Some(a), false))];
  }

  lemma ResolveFromLink(s: State, w: World, hash: string, io: Lookups, id: string) returns (steps: seq<Step>)
    requires Shows(s, w) && !Hits(w, hash, io) && io.link && FindLink(w.db, hash) == Some(id)
    ensures Run(s, steps) == s.(calls := s.calls + [Finished(s, w, hash, io)], cache := ResolveWorld(w, hash, io).cache)
  {
    MissIsRun(s, hash);
    var c, call := |s.calls|, Call(hash, |s.history| - 1, QueryLink);
    var first := [Begin(hash)] + [Get(c, false)];
    var a := Answer(w.db.links[id].url, id, None);
    LastCallSteps(s, call, ReadLink(c, Some(id)), Storing(a));
    RunThen(s, first, ReadLink(c, Some(id)));
    StoreIsStep(s, w, call.(phase := Storing(a)), a, io.store);
    steps := first + [ReadLink(c, Some(id))] + [Set(c, w.client && io.store)];
    RunThen(s, first + [ReadLink(c, Some(id))], Set(c, w.client && io.store));
  }

  lemma ResolveFromNothing(s: State, w: World, hash: string, io: Lookups) returns (steps: seq<Step>)
    requires Shows(s, w) && !Hits(w, hash, io) && !(io.link && FindLink(w.db, hash).Some?)
    requires !(io.source && FindSource(w.db, hash).Some?)
    ensures Run(s, steps) == s.(calls := s.calls + [Finished(s, w, hash, io)], cache := ResolveWorld(w, hash, io).cache)
  {
    var first := NoLinkIsRun(s, hash);
    var c := |s.calls|;
    LastCallSteps(s, Call(hash, |s.history| - 1, QuerySource), ReadSource(c, None), Returned(None, false));
    steps := first + [ReadSource(c, None)];
    RunThen(s, first, ReadSource(c, None));
  }

  lemma SourceIsRun(s: State, w: World, hash: string, sid: string) returns (steps: seq<Step>)
    requires Shows(s, w) && FindSource(w.db, hash) == Some(sid)
    ensures Run(s, steps) == s.(calls := s.calls
                                + [Call(hash, |s.history| - 1, QueryParent(sid, w.db.sources[sid].link))])
  {
    var first := NoLinkIsRun(s, hash);
    var c := |s.calls|;
    LastCallSteps(s, Call(hash, |s.history| - 1, QuerySource), ReadSource(c, Some(sid)),
                  QueryParent(sid, w.db.sources[sid].link));
    steps := first + [ReadSource(c, Some(sid))];
    RunThen(s, first, ReadSource(c, Some(sid)));
  }

  lemma ResolveFromSource(s: State, w: World, hash: string, io: Lookups, sid: string) returns (steps: seq<Step>)
    requires Shows(s, w) && !Hits(w, hash, io) && !(io.link && FindLink(w.db, hash).Some?)
    requires io.source && FindSource(w.db, hash) == Some(sid)
    ensures Run(s, steps) == s.(calls := s.calls + [Finished(s, w, hash, io)], cache := ResolveWorld(w, hash, io).cache)
  {
    var first := SourceIsRun(s, w, hash, sid);
    var c, id := |s.calls|, w.db.sources[sid].link;
    var call, a := Call(hash, |s.history| - 1, QueryParent(sid, id)), Answer(w.db.links[id].url, id, Some(sid));
    if io.parent {
      LastCallSteps(s, call, ReadParent(c, true), Storing(a));
      RunThen(s, first, ReadParent(c, true));
      StoreIsStep(s, w, call.(phase := Storing(a)), a, io.store);
      steps := first + [ReadParent(c, true)] + [Set(c, w.client && io.store)];
      RunThen(s, first + [ReadParent(c, true)], Set(c, w.client && io.store));
    } else {
      LastCallSteps(s, call, ReadParent(c, false), Returned(None, false));
      steps := first + [ReadParent(c, false)];
      RunThen(s, first, ReadParent(c, false));
    }
  }

  /** Resolve, uninterrupted, is a run of one call, with the same answer and the same effect on the cache. */
  lemma ResolveIsRun(s: State, w: World, hash: string, io: Lookups) returns (steps: seq<Step>)
    requires Shows(s, w)
    ensures Run(s, steps) == s.(calls := s.calls + [Finished(s, w, hash, io)], cache := ResolveWorld(w, hash, io).cache)
  {
    hide Run, Apply, Resolved, Shows;
    if Hits(w, hash, io) {
      steps := [Begin(hash)] + [Get(|s.calls|, true)];
      ResolveFromCache(s, w, hash, io);
      assert Shows(s, w);
      ShowsCache(s, w);
    } else if io.link && FindLink(w.db, hash).Some? {
      steps := ResolveFromLink(s, w, hash, io, FindLink(w.db, hash).value);
    } else if io.source && FindSource(w.db, hash).Some? {
      steps := ResolveFromSource(s, w, hash, io, FindSource(w.db, hash).value);
    } else {
      steps := ResolveFromNothing(s, w, hash, io);
    }
  }

  lemma ShowsCache(s: State, w: World)
    requires Shows(s, w)
    ensures s.cache == w.cache && s.history != [] && Present(s) == w.db
  {
  }

  /** A change of the tables that the constraints accept. */
  lemma WriteIsRun(s: State, w: World, m: Mutation, write: bool) returns (steps: seq<Step>)
    requires Shows(s, w) && (Accepts(w.db, m) ==> IsNewID(s.history, m))
    ensures var s' := Run(s, steps); Shows(s', Written(w, m, write)) && s'.calls == s.calls
  {
    if write && Accepts(w.db, m) {
      steps := [Change(m)];
      RunOne(s, Change(m));
    } else {
      steps := [];
    }
  }

  lemma UpdateIsRun(s: State, w: World, op: Op) returns (steps: seq<Step>)
    requires Shows(s, w) && op.Update?
    ensures var s' := Run(s, steps); Shows(s', UpdateWorld(w, op)) && s'.calls == s.calls
  {
    steps := [];
    if Refused(w.db, op.user, op.link, op.read).None? && op.write {
      var m := UpdateLink(op.link, op.title, op.active);
      var hash := w.db.links[op.link].hash;
      steps := [Change(m)];
      RunOne(s, Change(m));
      if !op.active && hash in op.cleared {
        steps := [Change(m)] + [Evict(hash)];
        RunThen(s, [Change(m)], Evict(hash));
      }
    }
  }

  lemma DeleteIsRun(s: State, w: World, op: Op) returns (steps: seq<Step>)
    requires Shows(s, w) && op.Delete?
    ensures var s' := Run(s, steps); Shows(s', DeleteWorld(w, op)) && s'.calls == s.calls
  {
    steps := [];
    if Refused(w.db, op.user, op.link, op.read).None? {
      var hashes := DeleteHashes(w.db, op.link, op.rows) * op.cleared;
      var first := EvictAll(s, hashes);
      var w1 := if w.client then w.(cache := w.cache - hashes) else w;
      assert Shows(Run(s, first), w1);
      var second := WriteIsRun(Run(s, first), w1, DeleteLink(op.link), op.write);
      steps := first + second;
      RunAppend(s, first, second);
    }
  }

  lemma DeleteSourceIsRun(s: State, w: World, op: Op) returns (steps: seq<Step>)
    requires Shows(s, w) && op.DeleteSource?
    ensures var s' := Run(s, steps); Shows(s', DeleteSourceWorld(w, op)) && s'.calls == s.calls
  {
    steps := [];
    if Refused(w.db, op.user, op.link, op.read).None? && op.rows.Some?
       && op.source in Listed(w.db, op.link, op.rows.value) {
      var hash := w.db.sources[op.source].hash;
      var first := EvictAll(s, if hash in op.cleared then {hash} else {});
      var w1 := Invalidated(w, hash, hash in op.cleared);
      assert Shows(Run(s, first), w1);
      var second := WriteIsRun(Run(s, first), w1, Mutation.DeleteSource(op.source), op.write);
      steps := first + second;
      RunAppend(s, first, second);
    }
  }

  /** Every operation is a run: it ends where the operation ends, and Resolve adds its finished call. */
  lemma OperationIsRun(s: State, w: World, op: Op) returns (steps: seq<Step>)
    requires Shows(s, w) && NewRow(s, op)
    ensures var s' := Run(s, steps);
            && Shows(s', Perform(w, op))
            && s'.calls == if op.Resolve? then s.calls + [Finished(s, w, op.hash, op.io)] else s.calls
  {
    match op
    case Resolve(hash, io) => steps := ResolveIsRun(s, w, hash, io);
    case Create(_, _, _, _, _, _, _) =>
      var h := UniqueHash(w.db, op.draws, 3);
      if op.valid && h.Ok? {
        steps := WriteIsRun(s, w, InsertLink(op.id, LinkRow(op.user, op.url, h.value, op.title, true)), op.write);
      } else {
        steps := [];
      }
    case Update(_, _, _, _, _, _, _) => steps := UpdateIsRun(s, w, op);
    case Delete(_, _, _, _, _, _) => steps := DeleteIsRun(s, w, op);
    case CreateSource(_, _, _, _, _, _, _) =>
      var h := UniqueSourceHash(w.db, op.draws, 5);
      if Refused(w.db, op.user, op.link, op.read).None? && h.Ok? {
        steps := WriteIsRun(s, w, InsertSource(op.id, SourceRow(op.link, op.name, h.value, true)), op.write);
      } else {
        steps := [];
      }
    case DeleteSource(_, _, _, _, _, _, _) => steps := DeleteSourceIsRun(s, w, op);
    case Expire(hash) =>
      steps := [Evict(hash)];
      RunOne(s, Evict(hash));
  }
}
