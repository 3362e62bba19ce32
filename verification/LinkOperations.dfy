/** The link operations and Resolve run one at a time: what each does to the tables and to the cache, whatever
    the database and Redis answer, and what a cache hit is then worth. */
module LinkOperations {
  import opened Domain
  import opened Redirects

  datatype World = World(db: DB, client: bool, cache: map<string, Answer>)

  datatype Reason = NoRows | StoreError | NotOwner | NotAccepted | BadURL | NoHash | NoGenerator | NoSuchSource
  datatype Result<T> = Ok(value: T) | Err(reason: Reason)

  /** A candidate of the hash generator, and whether the two availability reads succeed. */
  datatype Draw = Draw(hash: string, linkRead: bool, sourceRead: bool)

  /** Which statements and commands of one Resolve succeed. */
  datatype Lookups = Lookups(get: bool, link: bool, source: bool, parent: bool, store: bool)

  /** An operation with its arguments and the outcomes of its statements. `draws` is what the generator gives
      before it fails; `rows` the ids that a listing reads before it ends, None when it fails; `cleared` the
      hashes whose invalidation succeeds. */
  datatype Op =
    | Resolve(hash: string, io: Lookups)
    | Create(user: string, url: string, title: string, valid: bool, draws: seq<Draw>, id: string, write: bool)
    | Update(user: string, link: string, title: string, active: bool, read: bool, write: bool, cleared: set<string>)
    | Delete(user: string, link: string, read: bool, rows: Option<seq<string>>, cleared: set<string>, write: bool)
    | CreateSource(user: string, link: string, name: string, read: bool, draws: seq<Draw>, id: string, write: bool)
    | DeleteSource(user: string, link: string, source: string, read: bool, rows: Option<seq<string>>,
                   cleared: set<string>, write: bool)
    | Expire(hash: string)

  // --------------------------------------------------------------- lookups by hash

  ghost function FindLink(db: DB, hash: string): (r: Option<string>)
    ensures r.Some? ==> LinkServes(db, hash, r.value)
    ensures r.None? ==> NoLinkServes(db, hash)
  {
    if id :| LinkServes(db, hash, id) then Some(id) else None
  }

  predicate NoSourceServes(db: DB, hash: string) {
    forall id :: id in db.sources ==> !SourceServes(db, hash, id)
  }

  ghost function FindSource(db: DB, hash: string): (r: Option<string>)
    ensures r.Some? ==> SourceServes(db, hash, r.value)
    ensures r.None? ==> NoSourceServes(db, hash)
  {
    if id :| SourceServes(db, hash, id) then Some(id) else None
  }

  // --------------------------------------------------------------------- Resolve

  predicate Hits(w: World, hash: string, io: Lookups) {
    w.client && io.get && hash in w.cache
  }

  ghost function FromTables(db: DB, hash: string, io: Lookups): Option<Answer> {
    match if io.link then FindLink(db, hash) else None
    case Some(id) => Some(Answer(db.links[id].url, id, None))
    case None => FromSources(db, hash, io)
  }

  ghost function FromSources(db: DB, hash: string, io: Lookups): Option<Answer> {
    match if io.source then FindSource(db, hash) else None
    case Some(sid) => (var id := db.sources[sid].link; if io.parent then Some(Answer(db.links[id].url, id, Some(sid)))
                       else None)
    case None => None
  }

  ghost function Resolved(w: World, hash: string, io: Lookups): Option<Answer> {
    if Hits(w, hash, io) then Some(w.cache[hash]) else FromTables(w.db, hash, io)
  }

  ghost function ResolveWorld(w: World, hash: string, io: Lookups): World {
    if Hits(w, hash, io) then w
    else match FromTables(w.db, hash, io)
      case Some(a) => Stored(w, hash, a, io.store)
      case None => w
  }

  function Stored(w: World, hash: string, a: Answer, ok: bool): World {
    if w.client && ok then w.(cache := w.cache[hash := a]) else w
  }

  function Invalidated(w: World, hash: string, ok: bool): World {
    if w.client && ok then w.(cache := w.cache - {hash}) else w
  }

  // -------------------------------------------------------------------- new hashes

  /** generateUniqueHash: at most `left` more candidates. */
  function UniqueHash(db: DB, draws: seq<Draw>, left: nat): Result<string> {
    if left == 0 then Err(NoHash)
    else if draws == [] then Err(NoGenerator)
    else if !draws[0].linkRead then Err(StoreError)
    else if NoLinkServes(db, draws[0].hash) then Ok(draws[0].hash)
    else UniqueHash(db, draws[1..], left - 1)
  }

  /** generateUniqueSourceHash: at most `left` more candidates. */
  function UniqueSourceHash(db: DB, draws: seq<Draw>, left: nat): Result<string> {
    if left == 0 then Err(NoHash)
    else if draws == [] then Err(NoGenerator)
    else if !draws[0].linkRead then Err(StoreError)
    else if !NoLinkServes(db, draws[0].hash) then UniqueSourceHash(db, draws[1..], left - 1)
    else if !draws[0].sourceRead then Err(StoreError)
    else if !NoSourceServes(db, draws[0].hash) then UniqueSourceHash(db, draws[1..], left - 1)
    else Ok(draws[0].hash)
  }

  predicate LinkTakes(db: DB, d: Draw) { d.linkRead && NoLinkServes(db, d.hash) }
  predicate LinkPasses(db: DB, d: Draw) { d.linkRead && !NoLinkServes(db, d.hash) }
  predicate SourceTakes(db: DB, d: Draw) {
    d.linkRead && d.sourceRead && NoLinkServes(db, d.hash) && NoSourceServes(db, d.hash)
  }
  predicate SourcePasses(db: DB, d: Draw) {
    d.linkRead && (!NoLinkServes(db, d.hash) || (d.sourceRead && !NoSourceServes(db, d.hash)))
  }

  /** The hash is the first candidate, among the allowed number, that no active link has. */
  lemma {:induction false} UniqueHashIsFirstFree(db: DB, draws: seq<Draw>, left: nat, k: nat)
    requires k < |draws| && forall j :: 0 <= j < k ==> LinkPasses(db, draws[j])
    requires LinkTakes(db, draws[k])
    ensures UniqueHash(db, draws, left) == if k < left then Ok(draws[k].hash) else Err(NoHash)
  {
    if left > 0 && k > 0 {
      assert LinkPasses(db, draws[0]);
      forall j | 0 <= j < k - 1 ensures LinkPasses(db, draws[1..][j]) {
        var n := j + 1;
        assert LinkPasses(db, draws[n]);
      }
      UniqueHashIsFirstFree(db, draws[1..], left - 1, k - 1);
    }
  }

  /** The hash is the first candidate, among the allowed number, that no active link or source has. */
  lemma {:induction false} SourceHashIsFirstFree(db: DB, draws: seq<Draw>, left: nat, k: nat)
    requires k < |draws| && forall j :: 0 <= j < k ==> SourcePasses(db, draws[j])
    requires SourceTakes(db, draws[k])
    ensures UniqueSourceHash(db, draws, left) == if k < left then Ok(draws[k].hash) else Err(NoHash)
  {
    if left > 0 && k > 0 {
      assert SourcePasses(db, draws[0]);
      forall j | 0 <= j < k - 1 ensures SourcePasses(db, draws[1..][j]) {
        var n := j + 1;
        assert SourcePasses(db, draws[n]);
      }
      SourceHashIsFirstFree(db, draws[1..], left - 1, k - 1);
    }
  }

  /** Conversely, a hash is given only for such a candidate. */
  lemma {:induction false} UniqueHashIsFree(db: DB, draws: seq<Draw>, left: nat) returns (k: nat)
    requires UniqueHash(db, draws, left).Ok?
    ensures k < left && k < |draws| && LinkTakes(db, draws[k]) && draws[k].hash == UniqueHash(db, draws, left).value
    ensures forall j :: 0 <= j < k ==> LinkPasses(db, draws[j])
  {
    if NoLinkServes(db, draws[0].hash) {
      k := 0;
    } else {
      var m := UniqueHashIsFree(db, draws[1..], left - 1);
      k := m + 1;
      forall j | 0 <= j < k ensures LinkPasses(db, draws[j]) { if j > 0 { assert LinkPasses(db, draws[1..][j - 1]); } }
    }
  }

  lemma {:induction false} SourceHashIsFree(db: DB, draws: seq<Draw>, left: nat) returns (k: nat)
    requires UniqueSourceHash(db, draws, left).Ok?
    ensures k < left && k < |draws| && SourceTakes(db, draws[k])
            && draws[k].hash == UniqueSourceHash(db, draws, left).value
    ensures forall j :: 0 <= j < k ==> SourcePasses(db, draws[j])
  {
    if SourceTakes(db, draws[0]) {
      k := 0;
    } else {
      var m := SourceHashIsFree(db, draws[1..], left - 1);
      k := m + 1;
      forall j | 0 <= j < k ensures SourcePasses(db, draws[j]) {
        if j > 0 { assert SourcePasses(db, draws[1..][j - 1]); }
      }
    }
  }

  // ----------------------------------------------------- what each operation changes

  /** GetByID, then the comparison of owners. */
  function Refused(db: DB, user: string, link: string, read: bool): Option<Reason> {
    if !read then Some(StoreError)
    else if link !in db.links then Some(NoRows)
    else if db.links[link].user != user then Some(NotOwner)
    else None
  }

  /** A write that fails, or that a constraint refuses, leaves the tables as they were. */
  function Written(w: World, m: Mutation, write: bool): World {
    if write && Accepts(w.db, m) then w.(db := Mutated(w.db, m)) else w
  }

  /** The ids of the link's sources among the rows that the listing read, in its order. */
  function Listed(db: DB, link: string, rows: seq<string>): (r: seq<string>)
    ensures forall id :: id in r <==> id in rows && id in db.sources && db.sources[id].link == link
  {
    if rows == [] then []
    else
      var n := |rows| - 1;
      var before := Listed(db, link, rows[..n]);
      assert forall id :: id in rows <==> id in rows[..n] || id == rows[n];
      if rows[n] in db.sources && db.sources[rows[n]].link == link then before + [rows[n]] else before
  }

  /** The hashes that Delete invalidates: the link's own and those of the sources it listed. */
  function DeleteHashes(db: DB, link: string, rows: Option<seq<string>>): set<string>
    requires link in db.links
  {
    {db.links[link].hash} + (if rows.Some? then HashesOf(db, Listed(db, link, rows.value)) else {})
  }

  function HashesOf(db: DB, ids: seq<string>): set<string>
    requires forall id :: id in ids ==> id in db.sources
  {
    set id | id in ids :: db.sources[id].hash
  }

  function CreateWorld(w: World, op: Op): World
    requires op.Create?
  {
    var h := UniqueHash(w.db, op.draws, 3);
    if !op.valid || h.Err? then w
    else Written(w, InsertLink(op.id, LinkRow(op.user, op.url, h.value, op.title, true)), op.write)
  }

  function UpdateWorld(w: World, op: Op): World
    requires op.Update?
  {
    if Refused(w.db, op.user, op.link, op.read).Some? || !op.write then w
    else
      var hash := w.db.links[op.link].hash;
      var w1 := w.(db := Mutated(w.db, UpdateLink(op.link, op.title, op.active)));
      if op.active then w1 else Invalidated(w1, hash, hash in op.cleared)
  }

  function DeleteWorld(w: World, op: Op): World
    requires op.Delete?
  {
    if Refused(w.db, op.user, op.link, op.read).Some? then w
    else
      var w1 := if w.client then w.(cache := w.cache - DeleteHashes(w.db, op.link, op.rows) * op.cleared) else w;
      Written(w1, DeleteLink(op.link), op.write)
  }

  function CreateSourceWorld(w: World, op: Op): World
    requires op.CreateSource?
  {
    if Refused(w.db, op.user, op.link, op.read).Some? then w
    else
      var h := UniqueSourceHash(w.db, op.draws, 5);
      if h.Err? then w else Written(w, InsertSource(op.id, SourceRow(op.link, op.name, h.value, true)), op.write)
  }

  function DeleteSourceWorld(w: World, op: Op): World
    requires op.DeleteSource?
  {
    if Refused(w.db, op.user, op.link, op.read).Some? || op.rows.None?
       || op.source !in Listed(w.db, op.link, op.rows.value) then w
    else
      var hash := w.db.sources[op.source].hash;
      Written(Invalidated(w, hash, hash in op.cleared), Mutation.DeleteSource(op.source), op.write)
  }

  ghost function Perform(w: World, op: Op): World {
    match op
    case Resolve(hash, io) => ResolveWorld(w, hash, io)
    case Create(_, _, _, _, _, _, _) => CreateWorld(w, op)
    case Update(_, _, _, _, _, _, _) => UpdateWorld(w, op)
    case Delete(_, _, _, _, _, _) => DeleteWorld(w, op)
    case CreateSource(_, _, _, _, _, _, _) => CreateSourceWorld(w, op)
    case DeleteSource(_, _, _, _, _, _, _) => DeleteSourceWorld(w, op)
    case Expire(hash) => w.(cache := w.cache - {hash})
  }

  ghost function After(client: bool, ops: seq<Op>): World
    decreases |ops|
  {
    if ops == [] then World(DB(map[], map[]), client, map[])
    else Perform(After(client, ops[..|ops| - 1]), ops[|ops| - 1])
  }

  // --------------------------------------------------------------- what a hit is worth

  /** Sources belong to links, and nothing switches a source off. */
  predicate Sound(db: DB) {
    && UniqueHashes(db)
    && forall id :: id in db.sources ==> db.sources[id].link in db.links && db.sources[id].active
  }

  /** An entry for a link is the database's answer; one for a source would be if its link were active. */
  predicate EntryHolds(db: DB, hash: string, a: Answer) {
    match a.source
    case None => LinkServes(db, hash, a.link) && db.links[a.link].url == a.url
    case Some(sid) =>
      && sid in db.sources && db.sources[sid].hash == hash && db.sources[sid].link == a.link
      && a.link in db.links && db.links[a.link].url == a.url
  }

  predicate Coherent(w: World) {
    && Sound(w.db)
    && forall hash :: hash in w.cache ==> EntryHolds(w.db, hash, w.cache[hash])
  }

  /** Redis obeys the invalidations, and a listing reads every row: no other statement has to succeed. */
  predicate Smooth(db: DB, op: Op) {
    match op
    case Update(_, link, _, active, _, _, cleared) => !active && link in db.links ==> db.links[link].hash in cleared
    case Delete(_, link, _, rows, cleared, _) =>
      && (link in db.links ==> db.links[link].hash in cleared)
      && rows.Some?
      && forall id :: id in db.sources && db.sources[id].link == link ==>
         id in rows.value && db.sources[id].hash in cleared
    case DeleteSource(_, _, source, _, _, cleared, _) => source in db.sources ==> db.sources[source].hash in cleared
    case _ => true
  }

  predicate EntriesHold(db: DB, cache: map<string, Answer>) {
    forall hash :: hash in cache ==> EntryHolds(db, hash, cache[hash])
  }

  lemma MutatedIsSound(db: DB, m: Mutation)
    requires Sound(db) && Accepts(db, m)
    ensures Sound(Mutated(db, m))
  {
  }

  /** An insertion does not touch what the entries are about. */
  lemma InsertKeepsEntries(db: DB, m: Mutation, cache: map<string, Answer>)
    requires EntriesHold(db, cache) && Accepts(db, m) && (m.InsertLink? || m.InsertSource?)
    ensures EntriesHold(Mutated(db, m), cache)
  {
    forall hash | hash in cache ensures EntryHolds(Mutated(db, m), hash, cache[hash]) {
      assert EntryHolds(db, hash, cache[hash]);
    }
  }

  lemma ResolveKeeps(w: World, hash: string, io: Lookups)
    requires Coherent(w)
    ensures Coherent(ResolveWorld(w, hash, io))
  {
    var found := FromTables(w.db, hash, io);
    if !Hits(w, hash, io) && found.Some? {
      assert EntryHolds(w.db, hash, found.value);
    }
  }

  lemma UpdateKeeps(w: World, op: Op)
    requires op.Update? && Coherent(w) && (w.client || w.cache == map[]) && Smooth(w.db, op)
    ensures Coherent(UpdateWorld(w, op))
  {
    if !(Refused(w.db, op.user, op.link, op.read).Some? || !op.write) {
      var m, w' := UpdateLink(op.link, op.title, op.active), UpdateWorld(w, op);
      MutatedIsSound(w.db, m);
      assert w'.db == Mutated(w.db, m);
      forall hash | hash in w'.cache ensures EntryHolds(w'.db, hash, w'.cache[hash]) {
        assert EntryHolds(w.db, hash, w.cache[hash]);
      }
    }
  }

  lemma DeleteKeeps(w: World, op: Op)
    requires op.Delete? && Coherent(w) && (w.client || w.cache == map[]) && Smooth(w.db, op)
    ensures Coherent(DeleteWorld(w, op))
  {
    if Refused(w.db, op.user, op.link, op.read).None? && op.write {
      var w' := DeleteWorld(w, op);
      MutatedIsSound(w.db, DeleteLink(op.link));
      assert w'.db == Mutated(w.db, DeleteLink(op.link));
      forall hash | hash in w'.cache ensures EntryHolds(w'.db, hash, w'.cache[hash]) {
        assert EntryHolds(w.db, hash, w.cache[hash]);
        if w.cache[hash].link == op.link { DeletedIsCleared(w, op, hash); }
      }
    }
  }

  /** No entry left by the invalidations is about the link. */
  lemma DeletedIsCleared(w: World, op: Op, hash: string)
    requires op.Delete? && Coherent(w) && (w.client || w.cache == map[]) && Smooth(w.db, op)
    requires Refused(w.db, op.user, op.link, op.read).None? && hash in w.cache && w.cache[hash].link == op.link
    ensures hash in DeleteHashes(w.db, op.link, op.rows) * op.cleared
  {
    var a := w.cache[hash];
    assert EntryHolds(w.db, hash, a);
    if a.source.Some? {
      assert a.source.value in Listed(w.db, op.link, op.rows.value);
    }
  }

  lemma DeleteSourceKeeps(w: World, op: Op)
    requires op.DeleteSource? && Coherent(w) && (w.client || w.cache == map[]) && Smooth(w.db, op)
    ensures Coherent(DeleteSourceWorld(w, op))
  {
    var w', m := DeleteSourceWorld(w, op), Mutation.DeleteSource(op.source);
    MutatedIsSound(w.db, m);
    forall hash | hash in w'.cache ensures EntryHolds(w'.db, hash, w'.cache[hash]) {
      assert EntryHolds(w.db, hash, w.cache[hash]);
    }
  }

  lemma InsertKeeps(w: World, m: Mutation, write: bool)
    requires Coherent(w) && (m.InsertLink? || m.InsertSource?)
    ensures Coherent(Written(w, m, write))
  {
    if write && Accepts(w.db, m) {
      MutatedIsSound(w.db, m);
      InsertKeepsEntries(w.db, m, w.cache);
    }
  }

  lemma PerformKeeps(w: World, op: Op)
    requires Coherent(w) && (w.client || w.cache == map[]) && Smooth(w.db, op)
    ensures Coherent(Perform(w, op))
  {
    match op
    case Resolve(hash, io) => ResolveKeeps(w, hash, io);
    case Create(_, _, _, _, _, _, _) =>
      var h := UniqueHash(w.db, op.draws, 3);
      if h.Ok? { InsertKeeps(w, InsertLink(op.id, LinkRow(op.user, op.url, h.value, op.title, true)), op.write); }
    case Update(_, _, _, _, _, _, _) => UpdateKeeps(w, op);
    case Delete(_, _, _, _, _, _) => DeleteKeeps(w, op);
    case CreateSource(_, _, _, _, _, _, _) =>
      var h := UniqueSourceHash(w.db, op.draws, 5);
      if h.Ok? { InsertKeeps(w, InsertSource(op.id, SourceRow(op.link, op.name, h.value, true)), op.write); }
    case DeleteSource(_, _, _, _, _, _, _) => DeleteSourceKeeps(w, op);
    case Expire(_) =>
  }

  lemma NoClientNoCache(w: World, op: Op)
    requires w.client || w.cache == map[]
    ensures Perform(w, op).client == w.client && (w.client || Perform(w, op).cache == map[])
  {
  }

  /** Every operation was smooth when it ran. */
  ghost predicate AllSmooth(client: bool, ops: seq<Op>) {
    forall k :: 0 <= k < |ops| ==> Smooth(After(client, ops[..k]).db, ops[k])
  }

  lemma {:induction false} AfterIsCoherent(client: bool, ops: seq<Op>)
    requires AllSmooth(client, ops)
    ensures var w := After(client, ops); Coherent(w) && w.client == client && (client || w.cache == map[])
    decreases |ops|
  {
    hide Perform, Smooth, Coherent;
    if ops == [] {
      EmptyIsCoherent(client);
    } else {
      var before, op := ops[..|ops| - 1], ops[|ops| - 1];
      forall k | 0 <= k < |before| ensures Smooth(After(client, before[..k]).db, before[k]) {
        assert before[..k] == ops[..k] && before[k] == ops[k];
      }
      AfterIsCoherent(client, before);
      PerformKeeps(After(client, before), op);
      NoClientNoCache(After(client, before), op);
    }
  }

  lemma EmptyIsCoherent(client: bool)
    ensures Coherent(World(DB(map[], map[]), client, map[]))
  {
  }

  /** After any operations: an entry for a link is the database's own answer, and an entry for a source is
      exactly when the source's link is active and no active link has the hash. */
  lemma HitIsDatabaseAnswer(client: bool, ops: seq<Op>, hash: string)
    requires AllSmooth(client, ops) && hash in After(client, ops).cache
    ensures var w := After(client, ops);
            var a := w.cache[hash];
            && (a.source.None? ==> Answers(w.db, hash, a))
            && (a.source.Some? ==> a.link in w.db.links
                                   && (Answers(w.db, hash, a)
                                       <==> w.db.links[a.link].active && NoLinkServes(w.db, hash)))
  {
    AfterIsCoherent(client, ops);
    var w := After(client, ops);
    assert EntryHolds(w.db, hash, w.cache[hash]);
  }

  /** When the reads succeed, Resolve finds nothing only if the database has no answer, and what it finds is the
      database's own, unless it is a source whose link was switched off or whose hash an active link got: and
      only in the latter case does the database have another answer. */
  lemma ResolveIsLookup(client: bool, ops: seq<Op>, hash: string, io: Lookups)
    requires AllSmooth(client, ops) && io.link && io.source && io.parent
    ensures var db, r := After(client, ops).db, Resolved(After(client, ops), hash, io);
            && (r.None? ==> forall a :: !Answers(db, hash, a))
            && (r.Some? ==> r.value.link in db.links
                            && (Answers(db, hash, r.value)
                                <==> r.value.source.Some? ==> db.links[r.value.link].active && NoLinkServes(db, hash))
                            && ((forall a :: Answers(db, hash, a) ==> a == r.value)
                                <==> r.value.source.Some? ==> NoLinkServes(db, hash)))
  {
    AfterIsCoherent(client, ops);
    var w := After(client, ops);
    var r := Resolved(w, hash, io);
    if Hits(w, hash, io) {
      HitIsDatabaseAnswer(client, ops, hash);
      HitIsOnlyAnswer(w, hash);
    } else if r.Some? {
      assert Answers(w.db, hash, r.value);
      forall a | Answers(w.db, hash, a) ensures a == r.value { AnswerIsUnique(w.db, hash, a, r.value); }
    } else {
      forall a ensures !Answers(w.db, hash, a) {
        assert a.source.None? ==> !LinkServes(w.db, hash, a.link);
      }
    }
  }

  /** Another answer than the cached one is a link's, where a source's is cached. */
  lemma HitIsOnlyAnswer(w: World, hash: string)
    requires Coherent(w) && hash in w.cache
    ensures (forall a :: Answers(w.db, hash, a) ==> a == w.cache[hash])
            <==> w.cache[hash].source.Some? ==> NoLinkServes(w.db, hash)
  {
    var hit := w.cache[hash];
    assert EntryHolds(w.db, hash, hit);
    if hit.source.Some? && !NoLinkServes(w.db, hash) {
      var id :| id in w.db.links && LinkServes(w.db, hash, id);
      assert Answers(w.db, hash, Answer(w.db.links[id].url, id, None));
    } else {
      forall a | Answers(w.db, hash, a) ensures a == hit {
        assert a.source.None? ==> LinkServes(w.db, hash, a.link);
        assert hit.source.None? ==> LinkServes(w.db, hash, hit.link);
      }
    }
  }

  /** Switching a link off leaves the entries of its sources, for whose hashes the database then has no answer,
      unless another link serves them. */
  lemma UpdateLeavesSourceEntries(w: World, op: Op, hash: string)
    requires Coherent(w) && hash in w.cache && w.cache[hash].source.Some?
    requires op.Update? && op.link == w.cache[hash].link && !op.active && op.write
    requires Refused(w.db, op.user, op.link, op.read).None? && w.db.links[op.link].hash != hash
    ensures var w' := UpdateWorld(w, op);
            && hash in w'.cache && w'.cache[hash] == w.cache[hash] && !Answers(w'.db, hash, w.cache[hash])
            && (NoLinkServes(w.db, hash) <==> forall a :: !Answers(w'.db, hash, a))
  {
    var w' := UpdateWorld(w, op);
    var sid := w.cache[hash].source.value;
    assert EntryHolds(w.db, hash, w.cache[hash]);
    if NoLinkServes(w.db, hash) {
      forall a ensures !Answers(w'.db, hash, a) {
        assert a.source.None? && a.link in w'.db.links ==> !LinkServes(w.db, hash, a.link);
        assert a.source.Some? && SourceServes(w'.db, hash, a.source.value) ==> a.source == Some(sid);
      }
    } else {
      var id :| id in w.db.links && LinkServes(w.db, hash, id);
      assert Answers(w'.db, hash, Answer(w'.db.links[id].url, id, None));
    }
  }

  // --------------------------------------------------- what keeps hashes apart, and what does not

  /** No hash is both a link's and a source's. */
  predicate Disjoint(db: DB) {
    forall id, sid :: id in db.links && sid in db.sources ==> db.links[id].hash != db.sources[sid].hash
  }

  lemma DisjointIsUnambiguous(db: DB)
    requires Disjoint(db)
    ensures Unambiguous(db)
  {
  }

  /** Create checks its hash against active links only, and the table against links only: the hashes stay
      disjoint exactly when it inserts nothing or no source has the hash. */
  lemma CreateKeepsDisjointIff(w: World, op: Op)
    requires op.Create? && Disjoint(w.db)
    ensures var h := UniqueHash(w.db, op.draws, 3);
            Disjoint(CreateWorld(w, op).db) <==>
            || !op.valid || h.Err? || !op.write
            || !Accepts(w.db, InsertLink(op.id, LinkRow(op.user, op.url, h.value, op.title, true)))
            || forall sid :: sid in w.db.sources ==> w.db.sources[sid].hash != h.value
  {
    var w', h := CreateWorld(w, op), UniqueHash(w.db, op.draws, 3);
    if op.valid && h.Ok? && op.write
       && Accepts(w.db, InsertLink(op.id, LinkRow(op.user, op.url, h.value, op.title, true))) {
      assert op.id in w'.db.links && w'.db.links[op.id].hash == h.value && w'.db.sources == w.db.sources;
      assert forall id :: id in w'.db.links && id != op.id ==> id in w.db.links && w'.db.links[id] == w.db.links[id];
    }
  }

  /** CreateSource sees active rows only: the hashes stay disjoint exactly when it inserts nothing or no
      inactive link has the hash. */
  lemma CreateSourceKeepsDisjointIff(w: World, op: Op)
    requires op.CreateSource? && Disjoint(w.db)
    ensures var h := UniqueSourceHash(w.db, op.draws, 5);
            Disjoint(CreateSourceWorld(w, op).db) <==>
            || Refused(w.db, op.user, op.link, op.read).Some? || h.Err? || !op.write
            || !Accepts(w.db, InsertSource(op.id, SourceRow(op.link, op.name, h.value, true)))
            || forall id :: id in w.db.links && !w.db.links[id].active ==> w.db.links[id].hash != h.value
  {
    var w', h := CreateSourceWorld(w, op), UniqueSourceHash(w.db, op.draws, 5);
    if Refused(w.db, op.user, op.link, op.read).None? && h.Ok? && op.write
       && Accepts(w.db, InsertSource(op.id, SourceRow(op.link, op.name, h.value, true))) {
      var k := SourceHashIsFree(w.db, op.draws, 5);
      assert w'.db.links == w.db.links && op.id in w'.db.sources && w'.db.sources[op.id].hash == h.value;
      assert forall id :: id in w'.db.sources && id != op.id ==>
          id in w.db.sources && w'.db.sources[id] == w.db.sources[id];
      forall id | id in w.db.links && w.db.links[id].active ensures w.db.links[id].hash != h.value {
        assert !LinkServes(w.db, h.value, id);
      }
    }
  }

  /** What an operation may not do: create a link with the hash of a source that serves it, or switch on a link
      whose hash such a source has, or whose own sources have the hash of an active link. */
  predicate Separate(db: DB, op: Op) {
    match op
    case Create(user, url, title, valid, draws, id, write) =>
      var h := UniqueHash(db, draws, 3);
      || !valid || h.Err? || !write
      || !Accepts(db, InsertLink(id, LinkRow(user, url, h.value, title, true)))
      || NoSourceServes(db, h.value)
    case Update(user, link, _, active, read, write, _) =>
      || Refused(db, user, link, read).Some? || !write || !active
      || ((forall sid ::
             sid in db.sources && db.sources[sid].active
             && (db.sources[sid].link == link || SourceServes(db, db.sources[sid].hash, sid)) ==>
               db.sources[sid].hash != db.links[link].hash)
          && (forall sid :: sid in db.sources && db.sources[sid].active && db.sources[sid].link == link ==>
                NoLinkServes(db, db.sources[sid].hash)))
    case _ => true
  }

  lemma CreateSeparateIff(w: World, op: Op)
    requires op.Create? && Sound(w.db) && Unambiguous(w.db)
    ensures Unambiguous(CreateWorld(w, op).db) <==> Separate(w.db, op)
  {
    var db', h := CreateWorld(w, op).db, UniqueHash(w.db, op.draws, 3);
    if op.valid && h.Ok? && op.write
       && Accepts(w.db, InsertLink(op.id, LinkRow(op.user, op.url, h.value, op.title, true))) {
      assert db'.sources == w.db.sources && LinkServes(db', h.value, op.id);
      assert forall id :: id in db'.links && id != op.id ==> id in w.db.links && db'.links[id] == w.db.links[id];
      assert forall hash, sid :: SourceServes(db', hash, sid) <==> SourceServes(w.db, hash, sid);
      if !NoSourceServes(w.db, h.value) {
        var sid :| sid in w.db.sources && SourceServes(w.db, h.value, sid);
        assert SourceServes(db', db'.sources[sid].hash, sid);
      } else {
        assert forall sid :: sid in db'.sources ==> !SourceServes(db', h.value, sid);
        forall id, sid | id in db'.links && sid in db'.sources && LinkServes(db', db'.sources[sid].hash, id)
          ensures !SourceServes(db', db'.sources[sid].hash, sid)
        {
          assert id != op.id ==> LinkServes(w.db, w.db.sources[sid].hash, id);
        }
      }
    }
  }

  lemma UpdateSeparateIff(w: World, op: Op)
    requires op.Update? && Sound(w.db) && Unambiguous(w.db)
    ensures Unambiguous(UpdateWorld(w, op).db) <==> Separate(w.db, op)
  {
    if Refused(w.db, op.user, op.link, op.read).None? && op.write {
      var db, db', link := w.db, UpdateWorld(w, op).db, op.link;
      assert db'.sources == db.sources && db'.links.Keys == db.links.Keys;
      assert db'.links[link].active == op.active && db'.links[link].hash == db.links[link].hash;
      assert forall id :: id in db.links && id != link ==> db'.links[id] == db.links[id];
      assert forall hash, id :: id != link ==> (LinkServes(db', hash, id) <==> LinkServes(db, hash, id));
      assert forall hash, sid :: sid in db.sources && db.sources[sid].link != link ==>
          (SourceServes(db', hash, sid) <==> SourceServes(db, hash, sid));
      if op.active { SwitchedOnSeparateIff(w, op, db'); } else { SwitchedOffSeparate(db, db', link); }
    }
  }

  lemma SwitchedOffSeparate(db: DB, db': DB, link: string)
    requires Unambiguous(db) && link in db.links && db'.sources == db.sources && db'.links.Keys == db.links.Keys
             && !db'.links[link].active
    requires forall id :: id in db.links && id != link ==> db'.links[id] == db.links[id]
    ensures Unambiguous(db')
  {
    forall id, sid | id in db'.links && sid in db'.sources && LinkServes(db', db'.sources[sid].hash, id)
      ensures !SourceServes(db', db'.sources[sid].hash, sid)
    {
      assert LinkServes(db, db.sources[sid].hash, id);
    }
  }

  lemma SwitchedOnSeparateIff(w: World, op: Op, db': DB)
    requires op.Update? && Sound(w.db) && Unambiguous(w.db) && db' == UpdateWorld(w, op).db
    requires Refused(w.db, op.user, op.link, op.read).None? && op.write && op.active
    requires db'.sources == w.db.sources && db'.links.Keys == w.db.links.Keys
             && LinkServes(db', w.db.links[op.link].hash, op.link)
    requires forall hash, id :: id != op.link ==> (LinkServes(db', hash, id) <==> LinkServes(w.db, hash, id))
    requires forall hash, sid :: sid in w.db.sources && w.db.sources[sid].link != op.link ==>
             (SourceServes(db', hash, sid) <==> SourceServes(w.db, hash, sid))
    ensures Unambiguous(db') <==> Separate(w.db, op)
  {
    var db, link := w.db, op.link;
    var h := db.links[link].hash;
    if !Separate(db, op) {
      if sid :| sid in db.sources && db.sources[sid].active
                && (db.sources[sid].link == link || SourceServes(db, db.sources[sid].hash, sid))
                && db.sources[sid].hash == h {
        assert SourceServes(db', db'.sources[sid].hash, sid) && LinkServes(db', db'.sources[sid].hash, link);
      } else {
        var sid :| sid in db.sources && db.sources[sid].active && db.sources[sid].link == link
            && !NoLinkServes(db, db.sources[sid].hash);
        var id :| id in db.links && LinkServes(db, db.sources[sid].hash, id);
        assert SourceServes(db', db'.sources[sid].hash, sid) && LinkServes(db', db'.sources[sid].hash, id);
      }
    } else {
      forall id, sid | id in db'.links && sid in db'.sources && LinkServes(db', db'.sources[sid].hash, id)
        ensures !SourceServes(db', db'.sources[sid].hash, sid)
      {
        if id != link { assert LinkServes(db, db.sources[sid].hash, id); }
      }
    }
  }

  /** CreateSource does look for active links with the hash, so it never makes one ambiguous. */
  lemma CreateSourceStaysUnambiguous(w: World, op: Op)
    requires op.CreateSource? && Unambiguous(w.db)
    ensures Unambiguous(CreateSourceWorld(w, op).db)
  {
    var db', h := CreateSourceWorld(w, op).db, UniqueSourceHash(w.db, op.draws, 5);
    if db' != w.db {
      var hash := h.value;
      var k := SourceHashIsFree(w.db, op.draws, 5);
      forall id, sid | id in db'.links && sid in db'.sources && LinkServes(db', db'.sources[sid].hash, id)
        ensures !SourceServes(db', db'.sources[sid].hash, sid)
      {
        assert LinkServes(w.db, db'.sources[sid].hash, id);
        assert sid == op.id ==> !LinkServes(w.db, hash, id);
      }
    }
  }

  lemma DeleteStaysUnambiguous(db: DB, m: Mutation)
    requires Unambiguous(db) && (m.DeleteLink? || m.DeleteSource?)
    ensures Unambiguous(Mutated(db, m))
  {
    var db' := Mutated(db, m);
    forall id, sid | id in db'.links && sid in db'.sources && LinkServes(db', db'.sources[sid].hash, id)
      ensures !SourceServes(db', db'.sources[sid].hash, sid)
    {
      assert LinkServes(db, db.sources[sid].hash, id);
    }
  }

  /** An operation leaves all hashes unambiguous exactly when it is separate. */
  lemma KeepsUnambiguousIff(w: World, op: Op)
    requires Sound(w.db) && Unambiguous(w.db)
    ensures Unambiguous(Perform(w, op).db) <==> Separate(w.db, op)
  {
    hide Unambiguous, Sound;
    match op
    case Create(_, _, _, _, _, _, _) => CreateSeparateIff(w, op);
    case Update(_, _, _, _, _, _, _) => UpdateSeparateIff(w, op);
    case CreateSource(_, _, _, _, _, _, _) => CreateSourceStaysUnambiguous(w, op);
    case Delete(_, _, _, _, _, _) => DeleteStaysUnambiguous(w.db, DeleteLink(op.link));
    case DeleteSource(_, _, _, _, _, _, _) => DeleteStaysUnambiguous(w.db, Mutation.DeleteSource(op.source));
    case _ =>
  }

  lemma PerformIsSound(w: World, op: Op)
    requires Sound(w.db)
    ensures Sound(Perform(w, op).db)
  {
    hide Sound;
    forall m | Accepts(w.db, m) ensures Sound(Mutated(w.db, m)) { MutatedIsSound(w.db, m); }
  }

  lemma {:induction false} AfterIsSound(client: bool, ops: seq<Op>)
    ensures Sound(After(client, ops).db)
    decreases |ops|
  {
    if ops != [] {
      hide Perform, Sound;
      AfterIsSound(client, ops[..|ops| - 1]);
      PerformIsSound(After(client, ops[..|ops| - 1]), ops[|ops| - 1]);
    }
  }

  ghost predicate AlwaysUnambiguous(client: bool, ops: seq<Op>) {
    forall k :: 0 <= k <= |ops| ==> Unambiguous(After(client, ops[..k]).db)
  }

  ghost predicate AllSeparate(client: bool, ops: seq<Op>) {
    forall k :: 0 <= k < |ops| ==> Separate(After(client, ops[..k]).db, ops[k])
  }

  lemma LastMoment(client: bool, ops: seq<Op>)
    requires ops != []
    ensures AlwaysUnambiguous(client, ops)
            <==> AlwaysUnambiguous(client, ops[..|ops| - 1]) && Unambiguous(After(client, ops).db)
  {
    hide After, Unambiguous;
    var before := ops[..|ops| - 1];
    assert ops[..|ops|] == ops;
    if AlwaysUnambiguous(client, ops) {
      forall k | 0 <= k <= |before| ensures Unambiguous(After(client, before[..k]).db) {
        assert before[..k] == ops[..k];
      }
    }
    if AlwaysUnambiguous(client, before) && Unambiguous(After(client, ops).db) {
      forall k | 0 <= k <= |ops| ensures Unambiguous(After(client, ops[..k]).db) {
        if k < |ops| { assert before[..k] == ops[..k]; }
      }
    }
  }

  lemma LastOperation(client: bool, ops: seq<Op>)
    requires ops != []
    ensures var n := |ops| - 1;
            AllSeparate(client, ops) <==> AllSeparate(client, ops[..n]) && Separate(After(client, ops[..n]).db, ops[n])
  {
    hide After, Separate;
    var n, before := |ops| - 1, ops[..|ops| - 1];
    if AllSeparate(client, ops) {
      forall k | 0 <= k < n ensures Separate(After(client, before[..k]).db, before[k]) {
        assert before[..k] == ops[..k];
      }
    }
    if AllSeparate(client, before) && Separate(After(client, before).db, ops[n]) {
      forall k | 0 <= k < |ops| ensures Separate(After(client, ops[..k]).db, ops[k]) {
        if k < n { assert before[..k] == ops[..k] && before[k] == ops[k]; }
      }
    }
  }

  /** So the hashes were unambiguous all along exactly when every operation was separate. */
  lemma {:induction false} AlwaysUnambiguousIff(client: bool, ops: seq<Op>)
    ensures AlwaysUnambiguous(client, ops) <==> AllSeparate(client, ops)
    decreases |ops|
  {
    if ops == [] {
      EmptyIsUnambiguous(client);
      assert ops[..0] == [];
    } else {
      hide Unambiguous, Separate, Perform, Sound, AllSeparate;
      var n := |ops| - 1;
      AlwaysUnambiguousIff(client, ops[..n]);
      LastMoment(client, ops);
      LastOperation(client, ops);
      AfterIsSound(client, ops[..n]);
      if AlwaysUnambiguous(client, ops[..n]) {
        assert ops[..n][..n] == ops[..n];
        KeepsUnambiguousIff(After(client, ops[..n]), ops[n]);
      }
    }
  }

  lemma EmptyIsUnambiguous(client: bool)
    ensures Unambiguous(After(client, []).db)
  {
  }

  // ----------------------------------------------- a hash that the services give out twice

  const FIRST := LinkRow("u", "https://a", "h", "", true)
  const SECOND := LinkRow("u", "https://b", "g", "", true)
  const SOURCE := SourceRow("2", "x", "h", true)

  /** A link is created and switched off, a source of another link draws its hash, and the link is switched
      on again. */
  function GivenTwice(): seq<Op> {
    [Create("u", "https://a", "", true, [Draw("h", true, true)], "1", true)]
    + [Create("u", "https://b", "", true, [Draw("g", true, true)], "2", true)]
    + [Update("u", "1", "", false, true, true, {"h"})]
    + [CreateSource("u", "2", "x", true, [Draw("h", true, true)], "s", true)]
    + [Update("u", "1", "", true, true, true, {"h"})]
  }

  lemma AfterOne(client: bool, ops: seq<Op>, op: Op)
    ensures After(client, ops + [op]) == Perform(After(client, ops), op)
  {
    assert (ops + [op])[..|ops|] == ops;
  }

  lemma GivenTwiceLinks(client: bool)
    ensures After(client, GivenTwice()[..3])
            == World(DB(map["1" := FIRST.(active := false), "2" := SECOND], map[]), client, map[])
  {
    var ops := GivenTwice();
    assert ops[..1] == [] + [ops[0]] && ops[..2] == ops[..1] + [ops[1]] && ops[..3] == ops[..2] + [ops[2]];
    AfterOne(client, [], ops[0]);
    AfterOne(client, ops[..1], ops[1]);
    AfterOne(client, ops[..2], ops[2]);
    var w0 := World(DB(map[], map[]), client, map[]);
    assert Perform(w0, ops[0]) == World(DB(map["1" := FIRST], map[]), client, map[]);
    var w1 := World(DB(map["1" := FIRST], map[]), client, map[]);
    assert NoLinkServes(w1.db, "g");
    assert UniqueHash(w1.db, [Draw("g", true, true)], 3) == Ok("g");
    assert Perform(w1, ops[1]) == World(DB(map["1" := FIRST, "2" := SECOND], map[]), client, map[]);
  }

  lemma GivenTwiceSource(client: bool)
    ensures After(client, GivenTwice()[..4])
            == World(DB(map["1" := FIRST.(active := false), "2" := SECOND], map["s" := SOURCE]), client, map[])
  {
    var ops := GivenTwice();
    assert ops[..4] == ops[..3] + [ops[3]];
    GivenTwiceLinks(client);
    AfterOne(client, ops[..3], ops[3]);
    var db := After(client, ops[..3]).db;
    assert NoLinkServes(db, "h") && NoSourceServes(db, "h");
    assert UniqueSourceHash(db, [Draw("h", true, true)], 5) == Ok("h");
  }

  /** No statement or command fails, no hash is drawn that an active row has, and still the link and the source
      end with the same hash: first not disjoint, then ambiguous. */
  lemma ServicesGiveHashTwice(client: bool)
    ensures !Disjoint(After(client, GivenTwice()[..4]).db) && Unambiguous(After(client, GivenTwice()[..4]).db)
    ensures !Unambiguous(After(client, GivenTwice()).db)
  {
    var ops := GivenTwice();
    assert ops == ops[..4] + [ops[4]];
    GivenTwiceSource(client);
    AfterOne(client, ops[..4], ops[4]);
    hide After;
    var db := After(client, ops[..4]).db;
    assert "1" in db.links && "s" in db.sources;
    var db' := After(client, ops).db;
    assert LinkServes(db', "h", "1") && SourceServes(db', "h", "s");
  }
}
