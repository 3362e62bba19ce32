/** What the operations on links change, field by field, and whose: and that Resolve does fill the cache. */
module LinkEffects {
  import opened Domain
  import opened Redirects
  import opened LinkOperations

  // ------------------------------------------------------------------------- the cache

  /** With Redis working, the answer that Resolve gives is cached under its hash, and nothing else changes. */
  lemma ResolveFillsCache(w: World, hash: string, io: Lookups)
    requires w.client && io.store && Resolved(w, hash, io).Some?
    ensures var w' := Perform(w, Resolve(hash, io));
            && w'.db == w.db
            && hash in w'.cache && w'.cache[hash] == Resolved(w, hash, io).value
            && forall other :: other != hash ==>
                 (other in w'.cache <==> other in w.cache) && (other in w.cache ==> w'.cache[other] == w.cache[other])
  {
  }

  /** Without an answer or a working Redis, Resolve changes nothing. */
  lemma ResolveLeavesCache(w: World, hash: string, io: Lookups)
    requires Resolved(w, hash, io).None? || !w.client || Hits(w, hash, io) || !io.store
    ensures Perform(w, Resolve(hash, io)) == w
  {
  }

  /** The operation does not remove the hash's entry: it neither expires nor is invalidated, nor does a Resolve of
      it that cannot read the cache write another. */
  predicate LeavesEntry(op: Op, hash: string) {
    match op
    case Resolve(h, io) => h != hash || io.get || !io.store
    case Expire(h) => h != hash
    case Update(_, _, _, _, _, _, cleared) => hash !in cleared
    case Delete(_, _, _, _, cleared, _) => hash !in cleared
    case DeleteSource(_, _, _, _, _, cleared, _) => hash !in cleared
    case _ => true
  }

  lemma EntryStays(w: World, op: Op, hash: string)
    requires w.client && hash in w.cache && LeavesEntry(op, hash)
    ensures var w' := Perform(w, op); w'.client && hash in w'.cache && w'.cache[hash] == w.cache[hash]
  {
  }

  lemma {:induction false} EntryStaysAfter(client: bool, first: seq<Op>, more: seq<Op>, hash: string)
    requires After(client, first).client && hash in After(client, first).cache
    requires forall k :: 0 <= k < |more| ==> LeavesEntry(more[k], hash)
    ensures var w := After(client, first + more);
            w.client && hash in w.cache && w.cache[hash] == After(client, first).cache[hash]
    decreases |more|
  {
    hide Perform, LeavesEntry;
    if more == [] {
      assert first + more == first;
    } else {
      var n := |more| - 1;
      EntryStaysAfter(client, first, more[..n], hash);
      assert (first + more)[..|first + more| - 1] == first + more[..n];
      EntryStays(After(client, first + more[..n]), more[n], hash);
    }
  }

  /** An answer that Resolve cached it gives again, whatever the reads of the tables then do, as long as the entry
      is neither expired nor invalidated. */
  lemma AnswerIsRemembered(ops: seq<Op>, hash: string, io: Lookups, more: seq<Op>, again: Lookups)
    requires Resolved(After(true, ops), hash, io).Some? && io.store
    requires (forall k :: 0 <= k < |more| ==> LeavesEntry(more[k], hash)) && again.get
    ensures Resolved(After(true, ops + [Resolve(hash, io)] + more), hash, again) == Resolved(After(true, ops), hash, io)
  {
    NoClientNoCacheAfter(ops);
    ResolveFillsCache(After(true, ops), hash, io);
    AfterOne(true, ops, Resolve(hash, io));
    NoClientNoCacheAfter(ops + [Resolve(hash, io)]);
    hide After, Perform, FromTables, LeavesEntry;
    EntryStaysAfter(true, ops + [Resolve(hash, io)], more, hash);
  }

  lemma {:induction false} NoClientNoCacheAfter(ops: seq<Op>)
    ensures After(true, ops).client
    decreases |ops|
  {
    if ops != [] {
      hide Perform;
      NoClientNoCacheAfter(ops[..|ops| - 1]);
      NoClientNoCache(After(true, ops[..|ops| - 1]), ops[|ops| - 1]);
    }
  }

  // ----------------------------------------------------------------------- the tables

  predicate SameLinksBut(db: DB, db': DB, link: string) {
    && db.links.Keys - {link} == db'.links.Keys - {link}
    && forall id :: id in db.links && id != link ==> id in db'.links && db'.links[id] == db.links[id]
  }

  predicate SameSourcesBut(db: DB, db': DB, source: string) {
    && db.sources.Keys - {source} == db'.sources.Keys - {source}
    && forall id :: id in db.sources && id != source ==> id in db'.sources && db'.sources[id] == db.sources[id]
  }

  /** Entries only go, and only those of the given hashes. */
  predicate OnlyClears(w: World, w': World, hashes: set<string>) {
    && (forall hash :: hash in w'.cache ==> hash in w.cache && w'.cache[hash] == w.cache[hash])
    && (forall hash :: hash in w.cache && hash !in hashes ==> hash in w'.cache)
  }

  lemma CreateAdds(w: World, op: Op)
    requires op.Create?
    ensures var w', h := Perform(w, op), UniqueHash(w.db, op.draws, 3);
            && w'.cache == w.cache && w'.db.sources == w.db.sources && SameLinksBut(w.db, w'.db, op.id)
            && (op.id in w'.db.links && op.id !in w.db.links <==>
                  && op.valid && h.Ok? && op.write && op.id !in w.db.links
                  && forall id :: id in w.db.links ==> w.db.links[id].hash != h.value)
            && (op.id in w'.db.links && op.id !in w.db.links ==>
                  var row := w'.db.links[op.id];
                  && row.user == op.user && row.url == op.url && row.title == op.title && row.hash == h.value
                  && row.active)
            && (op.id in w.db.links ==> w' == w)
  {
  }

  lemma UpdateChanges(w: World, op: Op)
    requires op.Update? && Refused(w.db, op.user, op.link, op.read).None? && op.write
    ensures var w', row := Perform(w, op), w.db.links[op.link];
            && op.link in w'.db.links
            && w'.db.links[op.link].title == op.title && w'.db.links[op.link].active == op.active
            && w'.db.links[op.link].url == row.url && w'.db.links[op.link].hash == row.hash
            && w'.db.links[op.link].user == row.user
            && SameLinksBut(w.db, w'.db, op.link) && w'.db.sources == w.db.sources
            && OnlyClears(w, w', if op.active then {} else {row.hash})
            && (!op.active && w.client && row.hash in op.cleared ==> row.hash !in w'.cache)
  {
  }

  lemma DeleteRemoves(w: World, op: Op)
    requires op.Delete? && Refused(w.db, op.user, op.link, op.read).None? && op.write
    ensures var w' := Perform(w, op);
            && op.link !in w'.db.links && SameLinksBut(w.db, w'.db, op.link)
            && (forall id :: id in w'.db.sources <==> id in w.db.sources && w.db.sources[id].link != op.link)
            && (forall id :: id in w'.db.sources ==> w'.db.sources[id] == w.db.sources[id])
            && OnlyClears(w, w', {w.db.links[op.link].hash}
                                 + set id | id in w.db.sources
                                     && w.db.sources[id].link == op.link :: w.db.sources[id].hash)
  {
  }

  lemma CreateSourceAdds(w: World, op: Op)
    requires op.CreateSource? && Refused(w.db, op.user, op.link, op.read).None?
    ensures var w', h := Perform(w, op), UniqueSourceHash(w.db, op.draws, 5);
            && w'.cache == w.cache && w'.db.links == w.db.links && SameSourcesBut(w.db, w'.db, op.id)
            && (op.id in w'.db.sources && op.id !in w.db.sources <==>
                  && h.Ok? && op.write && op.id !in w.db.sources
                  && forall id :: id in w.db.sources ==>
                       w.db.sources[id].hash != h.value
                       && !(w.db.sources[id].link == op.link && w.db.sources[id].name == op.name))
            && (op.id in w'.db.sources && op.id !in w.db.sources ==>
                  var row := w'.db.sources[op.id];
                  row.link == op.link && row.name == op.name && row.hash == h.value && row.active)
            && (op.id in w.db.sources ==> w' == w)
  {
  }

  lemma DeleteSourceRemoves(w: World, op: Op)
    requires op.DeleteSource? && Refused(w.db, op.user, op.link, op.read).None? && op.write
    requires op.rows.Some? && op.source in Listed(w.db, op.link, op.rows.value)
    ensures var w' := Perform(w, op);
            && op.source in w.db.sources && op.source !in w'.db.sources && SameSourcesBut(w.db, w'.db, op.source)
            && w'.db.links == w.db.links
            && OnlyClears(w, w', {w.db.sources[op.source].hash})
  {
  }

  /** A link's sources have different names. */
  predicate UniqueNames(db: DB) {
    forall a, b :: a in db.sources && b in db.sources && a != b && db.sources[a].link == db.sources[b].link ==>
      db.sources[a].name != db.sources[b].name
  }

  lemma MutatedKeepsNames(db: DB, m: Mutation)
    requires UniqueNames(db) && Accepts(db, m)
    ensures UniqueNames(Mutated(db, m))
  {
  }

  lemma PerformKeepsNames(w: World, op: Op)
    requires UniqueNames(w.db)
    ensures UniqueNames(Perform(w, op).db)
  {
    hide UniqueNames, Mutated, UniqueHash, UniqueSourceHash, Listed;
    forall m | Accepts(w.db, m) ensures UniqueNames(Mutated(w.db, m)) { MutatedKeepsNames(w.db, m); }
    hide Accepts;
  }

  lemma {:induction false} NamesStayUnique(client: bool, ops: seq<Op>)
    ensures UniqueNames(After(client, ops).db)
    decreases |ops|
  {
    if ops != [] {
      hide UniqueNames, Perform;
      NamesStayUnique(client, ops[..|ops| - 1]);
      PerformKeepsNames(After(client, ops[..|ops| - 1]), ops[|ops| - 1]);
    }
  }

  // ----------------------------------------------------------------------- the owners

  function UserOf(op: Op): Option<string> {
    match op
    case Resolve(_, _) => None
    case Expire(_) => None
    case Create(user, _, _, _, _, _, _) => Some(user)
    case Update(user, _, _, _, _, _, _) => Some(user)
    case Delete(user, _, _, _, _, _) => Some(user)
    case CreateSource(user, _, _, _, _, _, _) => Some(user)
    case DeleteSource(user, _, _, _, _, _, _) => Some(user)
  }

  predicate OwnedBy(db: DB, link: string, user: Option<string>) {
    link in db.links && user == Some(db.links[link].user)
  }

  predicate LeavesOthers(db: DB, db': DB, user: Option<string>) {
    && (forall id :: id in db.links && !OwnedBy(db, id, user) ==> id in db'.links && db'.links[id] == db.links[id])
    && (forall id :: id in db.sources && !OwnedBy(db, db.sources[id].link, user) ==>
          id in db'.sources && db'.sources[id] == db.sources[id])
    && (forall id :: id in db'.sources && id !in db.sources ==> OwnedBy(db, db'.sources[id].link, user))
    && (forall id :: id in db'.links && id !in db.links ==> OwnedBy(db', id, user))
  }

  /** The rows that a mutation is about. */
  predicate Concerns(db: DB, m: Mutation, user: Option<string>) {
    match m
    case InsertLink(_, row) => user == Some(row.user)
    case UpdateLink(link, _, _) => OwnedBy(db, link, user)
    case DeleteLink(link) => OwnedBy(db, link, user)
    case InsertSource(_, row) => OwnedBy(db, row.link, user)
    case DeleteSource(id) => id in db.sources && OwnedBy(db, db.sources[id].link, user)
  }

  lemma MutatedLeavesOthers(db: DB, m: Mutation, user: Option<string>)
    requires Accepts(db, m) && Concerns(db, m, user)
    ensures LeavesOthers(db, Mutated(db, m), user)
  {
  }

  /** An operation changes no link of another user and no source of such a link, and adds no source to one. */
  lemma OnlyOwnRowsChange(w: World, op: Op)
    ensures var db, db' := w.db, Perform(w, op).db;
            && (forall id :: id in db.links && !OwnedBy(db, id, UserOf(op)) ==>
                  id in db'.links && db'.links[id] == db.links[id])
            && (forall id :: id in db.sources && !OwnedBy(db, db.sources[id].link, UserOf(op)) ==>
                  id in db'.sources && db'.sources[id] == db.sources[id])
            && (forall id :: id in db'.sources && id !in db.sources ==> OwnedBy(db, db'.sources[id].link, UserOf(op)))
            && (forall id :: id in db'.links && id !in db.links ==> OwnedBy(db', id, UserOf(op)))
  {
    OnlyOwnMutations(w, op);
  }

  lemma OnlyOwnMutations(w: World, op: Op)
    ensures LeavesOthers(w.db, Perform(w, op).db, UserOf(op))
  {
    hide UniqueHash, UniqueSourceHash, LeavesOthers, Mutated;
    assert LeavesOthers(w.db, w.db, UserOf(op)) by { SameLeavesOthers(w.db, UserOf(op)); }
    forall m | Accepts(w.db, m) && Concerns(w.db, m, UserOf(op))
        ensures LeavesOthers(w.db, Mutated(w.db, m), UserOf(op)) {
      MutatedLeavesOthers(w.db, m, UserOf(op));
    }
    match op
    case Resolve(_, _) =>
    case Create(_, _, _, _, _, _, _) =>
    case Update(_, _, _, _, _, _, _) =>
    case Delete(_, _, _, _, _, _) =>
    case CreateSource(_, _, _, _, _, _, _) =>
    case DeleteSource(_, _, _, _, _, _, _) =>
    case Expire(_) =>
  }

  lemma SameLeavesOthers(db: DB, user: Option<string>)
    ensures LeavesOthers(db, db, user)
  {
  }
}
