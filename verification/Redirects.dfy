/** Redirect lookups through the cache, as a step system over the database, the cache and any number of
    concurrent calls of Resolve. Every database statement and every cache command is one step. */
module Redirects {
  import opened Domain

  datatype LinkRow = LinkRow(user: string, url: string, hash: string, title: string, active: bool)
  datatype SourceRow = SourceRow(link: string, name: string, hash: string, active: bool)

  /** The tables links and source_links, by primary key. */
  datatype DB = DB(links: map<string, LinkRow>, sources: map<string, SourceRow>)

  datatype Answer = Answer(url: string, link: string, source: Option<string>)

  // ------------------------------------------------------------------ the lookups

  /** LinkRepo.GetByHash finds the link. */
  predicate LinkServes(db: DB, hash: string, id: string) {
    id in db.links && db.links[id].hash == hash && db.links[id].active
  }

  /** SourceLinkRepo.GetByHash finds the source: it and its link are active. */
  predicate SourceServes(db: DB, hash: string, id: string) {
    && id in db.sources && db.sources[id].hash == hash && db.sources[id].active
    && db.sources[id].link in db.links && db.links[db.sources[id].link].active
  }

  predicate NoLinkServes(db: DB, hash: string) {
    forall id :: id in db.links ==> !LinkServes(db, hash, id)
  }

  /** The database's own answer for a hash: the active link, or else the active source's link. */
  predicate Answers(db: DB, hash: string, a: Answer) {
    match a.source
    case None => LinkServes(db, hash, a.link) && db.links[a.link].url == a.url
    case Some(id) =>
      && NoLinkServes(db, hash)
      && SourceServes(db, hash, id)
      && db.sources[id].link == a.link && db.links[a.link].url == a.url
  }

  /** No hash is looked up successfully both as a link's and as a source's. No constraint of the schema
      says so. */
  predicate Unambiguous(db: DB) {
    forall id, sid :: id in db.links && sid in db.sources && LinkServes(db, db.sources[sid].hash, id) ==>
      !SourceServes(db, db.sources[sid].hash, sid)
  }

  predicate UniqueHashes(db: DB) {
    && (forall a, b :: a in db.links && b in db.links && a != b ==> db.links[a].hash != db.links[b].hash)
    && (forall a, b :: a in db.sources && b in db.sources && a != b ==> db.sources[a].hash != db.sources[b].hash)
  }

  lemma AnswerIsUnique(db: DB, hash: string, a: Answer, b: Answer)
    requires UniqueHashes(db) && Answers(db, hash, a) && Answers(db, hash, b)
    ensures a == b
  {
    assert a.source.None? ==> LinkServes(db, hash, a.link);
    assert b.source.None? ==> LinkServes(db, hash, b.link);
  }

  // --------------------------------------------------------------- the statements

  datatype Mutation =
    | InsertLink(newLink: string, row: LinkRow)
    | UpdateLink(link: string, title: string, active: bool)
    | DeleteLink(gone: string)
    | InsertSource(newSource: string, sourceRow: SourceRow)
    | DeleteSource(source: string)

  /** The constraints of the two tables. */
  predicate Accepts(db: DB, m: Mutation) {
    match m
    case InsertLink(id, row) =>
      id !in db.links && row.active && forall other :: other in db.links ==> db.links[other].hash != row.hash
    case InsertSource(id, row) =>
      && id !in db.sources && row.active && row.link in db.links
      && forall other :: other in db.sources ==>
           db.sources[other].hash != row.hash
               && !(db.sources[other].link == row.link && db.sources[other].name == row.name)
    case _ => true
  }

  /** Deleting a link deletes its sources; updating one touches only its title and its active flag. */
  function Mutated(db: DB, m: Mutation): (r: DB)
    requires Accepts(db, m)
  {
    match m
    case InsertLink(id, row) => db.(links := db.links[id := row])
    case UpdateLink(id, title, active) =>
      if id in db.links then db.(links := db.links[id := db.links[id].(title := title, active := active)]) else db
    case DeleteLink(id) => DB(db.links - {id}, map sid | sid in db.sources
                              && db.sources[sid].link != id :: db.sources[sid])
    case InsertSource(id, row) => db.(sources := db.sources[id := row])
    case DeleteSource(id) => db.(sources := db.sources - {id})
  }

  // --------------------------------------------------------------------- the calls

  datatype Phase =
    | Lookup
    | QueryLink
    | QuerySource
    | QueryParent(source: string, parent: string)
    | Storing(answer: Answer)
    | Returned(result: Option<Answer>, cached: bool)

  /** A call of Resolve; `begun` is the moment it started, as an index into the history. */
  datatype Call = Call(hash: string, begun: nat, phase: Phase)

  /** `history` lists the database after each change, the present one last. */
  datatype State = State(history: seq<DB>, cache: map<string, Answer>, calls: seq<Call>)

  datatype Step =
    | Change(m: Mutation)
    | Evict(hash: string)                            // an invalidation that took effect, or the end of the TTL
    | Begin(wanted: string)
    | Get(c: nat, hit: bool)                         // false: no entry, no client, or an error
    | ReadLink(c: nat, link: Option<string>)         // None: no row, or an error
    | ReadSource(c: nat, sourceFound: Option<string>)
    | ReadParent(c: nat, ok: bool)
    | Set(c: nat, stored: bool)

  function Present(s: State): DB
    requires s.history != []
  {
    s.history[|s.history| - 1]
  }

  /** Row ids are random UUIDs and are never used again. */
  predicate IsNewID(history: seq<DB>, m: Mutation) {
    match m
    case InsertLink(id, _) => forall i :: 0 <= i < |history| ==> id !in history[i].links
    case InsertSource(id, _) => forall i :: 0 <= i < |history| ==> id !in history[i].sources
    case _ => true
  }

  predicate CanRead(s: State, step: Step)
    requires s.history != []
  {
    match step
    case Get(c, hit) => c < |s.calls| && s.calls[c].phase.Lookup? && (hit ==> s.calls[c].hash in s.cache)
    case ReadLink(c, found) =>
      c < |s.calls| && s.calls[c].phase.QueryLink?
          && (found.Some? ==> LinkServes(Present(s), s.calls[c].hash, found.value))
    case ReadSource(c, found) =>
      c < |s.calls| && s.calls[c].phase.QuerySource?
          && (found.Some? ==> SourceServes(Present(s), s.calls[c].hash, found.value))
    case ReadParent(c, ok) =>
      c < |s.calls| && s.calls[c].phase.QueryParent? && (ok ==> s.calls[c].phase.parent in Present(s).links)
    case Set(c, _) => c < |s.calls| && s.calls[c].phase.Storing?
    case _ => false
  }

  /** What the call does next, given the answer it got. */
  function NextPhase(s: State, step: Step): Phase
    requires s.history != [] && CanRead(s, step)
  {
    var call, db := s.calls[step.c], Present(s);
    match step
    case Get(_, hit) => if hit then Returned(Some(s.cache[call.hash]), true) else QueryLink
    case ReadLink(_, found) =>
      (match found
       case Some(id) => Storing(Answer(db.links[id].url, id, None))
       case None => QuerySource)
    case ReadSource(_, found) =>
      (match found
       case Some(id) => QueryParent(id, db.sources[id].link)
       case None => Returned(None, false))
    case ReadParent(_, ok) =>
      if ok then Storing(Answer(db.links[call.phase.parent].url, call.phase.parent, Some(call.phase.source)))
      else Returned(None, false)
    case Set(_, _) => Returned(Some(call.phase.answer), false)
  }

  /** Only storing an answer changes the cache. */
  function NextCache(s: State, step: Step): map<string, Answer>
    requires s.history != [] && CanRead(s, step)
  {
    match step
    case Set(c, stored) => if stored then s.cache[s.calls[c].hash := s.calls[c].phase.answer] else s.cache
    case _ => s.cache
  }

  function Apply(s: State, step: Step): State
    requires s.history != []
  {
    match step
    case Change(m) =>
      if Accepts(Present(s), m) && IsNewID(s.history, m) then s.(history := s.history + [Mutated(Present(s), m)]) else s
    case Evict(hash) => s.(cache := s.cache - {hash})
    case Begin(hash) => s.(calls := s.calls + [Call(hash, |s.history| - 1, Lookup)])
    case _ =>
      if !CanRead(s, step) then s
      else
        s.(calls := s.calls[step.c := s.calls[step.c].(phase := NextPhase(s, step))], cache := NextCache(s, step))
  }

  function Init(): State {
    State([DB(map[], map[])], map[], [])
  }

  function Run(s: State, steps: seq<Step>): (r: State)
    requires s.history != []
    ensures r.history != []
    decreases |steps|
  {
    if steps == [] then s else Apply(Run(s, steps[..|steps| - 1]), steps[|steps| - 1])
  }

  // ------------------------------------------------------------------ what is kept

  /** A row's address never changes while its id is in use, nor do a source's hash and link. */
  predicate SameRows(a: DB, b: DB) {
    && (forall id :: id in a.links && id in b.links ==>
        a.links[id].url == b.links[id].url && a.links[id].hash == b.links[id].hash)
    && (forall id :: id in a.sources && id in b.sources ==>
        a.sources[id].hash == b.sources[id].hash && a.sources[id].link == b.sources[id].link)
  }

  /** The answer was the database's own at some moment from `since` on. */
  predicate WasAnswer(history: seq<DB>, since: nat, hash: string, a: Answer) {
    exists i :: since <= i < |history| && Answers(history[i], hash, a)
  }

  predicate SourceServed(history: seq<DB>, since: nat, hash: string, id: string, link: string) {
    exists i :: since <= i < |history| && SourceServes(history[i], hash, id) && history[i].sources[id].link == link
  }

  predicate CallInv(history: seq<DB>, call: Call) {
    && call.begun < |history|
    && match call.phase
       case QueryParent(id, link) => SourceServed(history, call.begun, call.hash, id, link)
       case Storing(a) => WasAnswer(history, call.begun, call.hash, a)
       case Returned(Some(a), cached) => WasAnswer(history, if cached then 0 else call.begun, call.hash, a)
       case _ => true
  }

  predicate Inv(s: State) {
    && s.history != []
    && (forall i, j :: 0 <= i < |s.history| && 0 <= j < |s.history| ==> SameRows(s.history[i], s.history[j]))
    && (forall hash :: hash in s.cache ==> WasAnswer(s.history, 0, hash, s.cache[hash]))
    && (forall c :: 0 <= c < |s.calls| ==> CallInv(s.history, s.calls[c]))
  }

  predicate AllUnambiguous(history: seq<DB>) {
    forall i :: 0 <= i < |history| ==> Unambiguous(history[i])
  }

  lemma LongerHistory(history: seq<DB>, db: DB, since: nat, hash: string, a: Answer, id: string, link: string)
    ensures WasAnswer(history, since, hash, a) ==> WasAnswer(history + [db], since, hash, a)
    ensures SourceServed(history, since, hash, id, link) ==> SourceServed(history + [db], since, hash, id, link)
  {
    var longer := history + [db];
    if WasAnswer(history, since, hash, a) {
      var i :| since <= i < |history| && Answers(history[i], hash, a);
      assert Answers(longer[i], hash, a);
    }
    if SourceServed(history, since, hash, id, link) {
      var i :| since <= i < |history| && SourceServes(history[i], hash, id) && history[i].sources[id].link == link;
      assert SourceServes(longer[i], hash, id);
    }
  }

  lemma ChangeKeepsRows(s: State, m: Mutation, i: nat)
    requires Inv(s) && Accepts(Present(s), m) && IsNewID(s.history, m) && i < |s.history|
    ensures SameRows(s.history[i], Mutated(Present(s), m)) && SameRows(Mutated(Present(s), m), s.history[i])
  {
    assert SameRows(s.history[i], Present(s));
  }

  lemma ChangeKeepsCall(history: seq<DB>, db: DB, call: Call)
    requires CallInv(history, call)
    ensures CallInv(history + [db], call)
  {
    match call.phase
    case QueryParent(id, link) => LongerHistory(history, db, call.begun, call.hash, Answer("", "", None), id, link);
    case Storing(a) => LongerHistory(history, db, call.begun, call.hash, a, "", "");
    case Returned(Some(a), cached) => LongerHistory(history, db, if cached then 0
                                                    else call.begun, call.hash, a, "", "");
    case _ =>
  }

  lemma ChangeKeepsInv(s: State, m: Mutation)
    requires Inv(s)
    ensures Inv(Apply(s, Change(m)))
  {
    hide SameRows, CallInv, WasAnswer;
    if Accepts(Present(s), m) && IsNewID(s.history, m) {
      var db := Mutated(Present(s), m);
      var s' := Apply(s, Change(m));
      assert SameRows(db, db) by { SameAsItself(db); }
      forall i | 0 <= i < |s.history| ensures SameRows(s.history[i], db) && SameRows(db, s.history[i]) {
        ChangeKeepsRows(s, m, i);
      }
      forall hash | hash in s.cache ensures WasAnswer(s'.history, 0, hash, s.cache[hash]) {
        LongerHistory(s.history, db, 0, hash, s.cache[hash], "", "");
      }
      forall c | 0 <= c < |s.calls| ensures CallInv(s'.history, s.calls[c]) {
        ChangeKeepsCall(s.history, db, s.calls[c]);
      }
    }
  }

  lemma SameAsItself(db: DB)
    ensures SameRows(db, db)
  {
  }

  /** With unambiguous hashes, what a read finds is the database's own answer, at this moment for a link,
      and at the moment the source was read for a source: its link's address never changes. */
  lemma ReadIsAnswer(s: State, step: Step)
    requires Inv(s) && AllUnambiguous(s.history) && CanRead(s, step)
    ensures CallInv(s.history, s.calls[step.c].(phase := NextPhase(s, step)))
  {
    var call, now := s.calls[step.c], |s.history| - 1;
    assert CallInv(s.history, call);
    match step
    case Get(_, hit) =>
      if hit { assert WasAnswer(s.history, 0, call.hash, s.cache[call.hash]); }
    case ReadLink(_, found) =>
      if found.Some? {
        assert Answers(s.history[now], call.hash, Answer(Present(s).links[found.value].url, found.value, None));
      }
    case ReadSource(_, found) =>
      if found.Some? { assert SourceServes(s.history[now], call.hash, found.value); }
    case ReadParent(_, ok) =>
      if ok { ParentIsAnswer(s, call); }
    case Set(_, _) =>
  }

  lemma ParentIsAnswer(s: State, call: Call)
    requires Inv(s) && AllUnambiguous(s.history) && CallInv(s.history, call)
    requires call.phase.QueryParent? && call.phase.parent in Present(s).links
    ensures WasAnswer(s.history, call.begun, call.hash,
                      Answer(Present(s).links[call.phase.parent].url, call.phase.parent, Some(call.phase.source)))
  {
    var id, link := call.phase.source, call.phase.parent;
    var i :| call.begun <= i < |s.history| && SourceServes(s.history[i], call.hash, id)
        && s.history[i].sources[id].link == link;
    assert SameRows(s.history[i], Present(s));
    assert Unambiguous(s.history[i]);
    assert Answers(s.history[i], call.hash, Answer(Present(s).links[link].url, link, Some(id)));
  }

  lemma ReadKeepsInv(s: State, step: Step)
    requires Inv(s) && AllUnambiguous(s.history) && CanRead(s, step)
    ensures Inv(Apply(s, step))
  {
    hide SameRows;
    ReadIsAnswer(s, step);
    var call, s' := s.calls[step.c], Apply(s, step);
    if step.Set? && step.stored {
      assert CallInv(s.history, call);
      var i :| call.begun <= i < |s.history| && Answers(s.history[i], call.hash, call.phase.answer);
    }
  }

  lemma StepKeepsInv(s: State, step: Step)
    requires Inv(s) && AllUnambiguous(s.history)
    ensures Inv(Apply(s, step))
  {
    match step
    case Change(m) => ChangeKeepsInv(s, m);
    case Evict(_) =>
    case Begin(_) =>
    case _ => if CanRead(s, step) { ReadKeepsInv(s, step); }
  }

  lemma HistoryGrows(s: State, step: Step)
    requires s.history != []
    ensures s.history <= Apply(s, step).history
  {
  }

  lemma {:induction false} ReachedInv(steps: seq<Step>)
    requires AllUnambiguous(Run(Init(), steps).history)
    ensures Inv(Run(Init(), steps))
    decreases |steps|
  {
    hide Inv, Apply;
    if steps == [] {
      InitInv();
    } else {
      var before, step := steps[..|steps| - 1], steps[|steps| - 1];
      HistoryGrows(Run(Init(), before), step);
      ReachedInv(before);
      StepKeepsInv(Run(Init(), before), step);
    }
  }

  lemma InitInv()
    ensures Inv(Init())
  {
  }

  /** Whatever runs concurrently, while no hash is ambiguous, an answer that Resolve returns was the
      database's own for that hash at some moment: a moment during the call, unless the cache gave it. */
  lemma ReturnedAnswersWereTrue(steps: seq<Step>, c: nat)
    requires var s := Run(Init(), steps);
             AllUnambiguous(s.history) && c < |s.calls| && s.calls[c].phase.Returned? && s.calls[c].phase.result.Some?
    ensures var s := Run(Init(), steps);
            exists i :: (if s.calls[c].phase.cached then 0 else s.calls[c].begun) <= i < |s.history|
                        && Answers(s.history[i], s.calls[c].hash, s.calls[c].phase.result.value)
  {
    ReachedInv(steps);
    assert CallInv(Run(Init(), steps).history, Run(Init(), steps).calls[c]);
  }

  // ------------------------------------------------------------ runs, piece by piece

  predicate NoChange(steps: seq<Step>) {
    forall i :: 0 <= i < |steps| ==> !steps[i].Change?
  }

  lemma {:induction false} RunAppend(s: State, first: seq<Step>, second: seq<Step>)
    requires s.history != []
    ensures Run(s, first + second) == Run(Run(s, first), second)
    decreases |second|
  {
    hide Apply;
    if second == [] {
      assert first + second == first;
    } else {
      var n := |second| - 1;
      RunAppend(s, first, second[..n]);
      assert (first + second)[..|first + second| - 1] == first + second[..n];
    }
  }

  lemma RunOne(s: State, step: Step)
    requires s.history != []
    ensures Run(s, [step]) == Apply(s, step)
  {
    assert Run(s, []) == s;
    assert [step][..0] == [];
  }

  lemma RunThen(s: State, steps: seq<Step>, step: Step)
    requires s.history != []
    ensures Run(s, steps + [step]) == Apply(Run(s, steps), step)
  {
    assert (steps + [step])[..|steps|] == steps;
  }

  lemma BeginIsRun(s: State, hash: string)
    requires s.history != []
    ensures Run(s, [Begin(hash)]) == s.(calls := s.calls + [Call(hash, |s.history| - 1, Lookup)])
  {
    RunOne(s, Begin(hash));
  }

  /** One step of a call that is last among the calls, if it leaves the cache alone. */
  lemma LastCallSteps(s: State, call: Call, step: Step, phase: Phase)
    requires s.history != []
    requires var t := s.(calls := s.calls + [call]);
             CanRead(t, step) && !step.Set? && step.c == |s.calls| && NextPhase(t, step) == phase
    ensures Apply(s.(calls := s.calls + [call]), step) == s.(calls := s.calls + [call.(phase := phase)])
  {
    var t := s.(calls := s.calls + [call]);
    assert t.calls[|s.calls| := call.(phase := phase)] == s.calls + [call.(phase := phase)];
  }

  /** After a miss, with the call last among the calls. */
  lemma MissIsRun(s: State, hash: string)
    requires s.history != []
    ensures Run(s, [Begin(hash)] + [Get(|s.calls|, false)])
            == s.(calls := s.calls + [Call(hash, |s.history| - 1, QueryLink)])
  {
    BeginIsRun(s, hash);
    LastCallSteps(s, Call(hash, |s.history| - 1, Lookup), Get(|s.calls|, false), QueryLink);
    hide Run, Apply;
    RunThen(s, [Begin(hash)], Get(|s.calls|, false));
  }

  /** The link was not found, or its read failed. */
  lemma NoLinkIsRun(s: State, hash: string) returns (steps: seq<Step>)
    requires s.history != []
    ensures Run(s, steps) == s.(calls := s.calls + [Call(hash, |s.history| - 1, QuerySource)]) && NoChange(steps)
  {
    MissIsRun(s, hash);
    var c, call := |s.calls|, Call(hash, |s.history| - 1, QueryLink);
    LastCallSteps(s, call, ReadLink(c, None), QuerySource);
    steps := [Begin(hash)] + [Get(c, false)] + [ReadLink(c, None)];
    RunThen(s, [Begin(hash)] + [Get(c, false)], ReadLink(c, None));
  }

  lemma {:induction false} HistoryStays(s: State, more: seq<Step>)
    requires s.history != [] && NoChange(more)
    ensures Run(s, more).history == s.history
    decreases |more|
  {
    if more != [] { HistoryStays(s, more[..|more| - 1]); }
  }

  lemma {:induction false} PrefixHistory(steps: seq<Step>, k: nat)
    requires k <= |steps|
    ensures Run(Init(), steps[..k]).history <= Run(Init(), steps).history
    decreases |steps|
  {
    if k == |steps| {
      assert steps[..k] == steps;
    } else {
      var before := steps[..|steps| - 1];
      PrefixHistory(before, k);
      assert before[..k] == steps[..k];
      HistoryGrows(Run(Init(), before), steps[|steps| - 1]);
    }
  }
}
