/** The repositories, the cache and the two services over them. A Boolean parameter is the outcome of a
    statement or command: false is an error. */
module LinkServiceCode {
  import opened Domain
  import opened Redirects
  import opened LinkOperations

  /** The connection pool, with the tables behind it. */
  class Pool {
    var db: DB

    constructor (db: DB)
      ensures this.db == db
    {
      this.db := db;
    }
  }

  class LinkRepo {
    const pool: Pool

    constructor (pool: Pool)
      ensures this.pool == pool
    {
      this.pool := pool;
    }

    method Create(id: string, row: LinkRow, ok: bool) returns (r: Result<LinkRow>)
      requires row.active
      modifies pool
      ensures r == if !ok then Err(StoreError) else if Accepts(old(pool.db), InsertLink(id, row)) then Ok(row)
              else Err(NotAccepted)
      ensures pool.db == if r.Ok? then Mutated(old(pool.db), InsertLink(id, row)) else old(pool.db)
    {
      if !ok { return Err(StoreError); }
      if id in pool.db.links || exists other | other in pool.db.links :: pool.db.links[other].hash == row.hash {
        return Err(NotAccepted);
      }
      pool.db := pool.db.(links := pool.db.links[id := row]);
      return Ok(row);
    }

    method GetByID(id: string, ok: bool) returns (r: Result<LinkRow>)
      ensures r == if !ok then Err(StoreError) else if id in pool.db.links then Ok(pool.db.links[id]) else Err(NoRows)
    {
      if !ok { return Err(StoreError); }
      if id in pool.db.links { return Ok(pool.db.links[id]); }
      return Err(NoRows);
    }

    /** The id of the active link with the hash. */
    method GetByHash(hash: string, ok: bool) returns (r: Result<string>)
      requires UniqueHashes(pool.db)
      ensures !ok ==> r == Err(StoreError)
      ensures ok ==> r == match FindLink(pool.db, hash) case Some(id) => Ok(id) case None => Err(NoRows)
    {
      if !ok { return Err(StoreError); }
      if exists id | id in pool.db.links :: LinkServes(pool.db, hash, id) {
        var id :| id in pool.db.links && LinkServes(pool.db, hash, id);
        return Ok(id);
      }
      return Err(NoRows);
    }

    method Update(id: string, title: string, active: bool, ok: bool) returns (r: Result<LinkRow>)
      modifies pool
      ensures r == if !ok then Err(StoreError) else if id !in old(pool.db).links then Err(NoRows)
                   else Ok(old(pool.db).links[id].(title := title, active := active))
      ensures pool.db == if ok then Mutated(old(pool.db), UpdateLink(id, title, active)) else old(pool.db)
    {
      if !ok { return Err(StoreError); }
      if id !in pool.db.links { return Err(NoRows); }
      var row := pool.db.links[id].(title := title, active := active);
      pool.db := pool.db.(links := pool.db.links[id := row]);
      return Ok(row);
    }

    /** The foreign key of source_links deletes the link's sources with it. */
    method Delete(id: string, ok: bool) returns (done: bool)
      modifies pool
      ensures done == ok && pool.db == if ok then Mutated(old(pool.db), DeleteLink(id)) else old(pool.db)
    {
      if ok {
        var kept := map sid | sid in pool.db.sources && pool.db.sources[sid].link != id :: pool.db.sources[sid];
        pool.db := DB(pool.db.links - {id}, kept);
      }
      return ok;
    }
  }

  class SourceLinkRepo {
    const pool: Pool

    constructor (pool: Pool)
      ensures this.pool == pool
    {
      this.pool := pool;
    }

    method Create(id: string, row: SourceRow, ok: bool) returns (r: Result<SourceRow>)
      requires row.active
      modifies pool
      ensures r == if !ok then Err(StoreError) else if Accepts(old(pool.db), InsertSource(id, row)) then Ok(row)
              else Err(NotAccepted)
      ensures pool.db == if r.Ok? then Mutated(old(pool.db), InsertSource(id, row)) else old(pool.db)
    {
      if !ok { return Err(StoreError); }
      var clash := exists other | other in pool.db.sources ::
        pool.db.sources[other].hash == row.hash
            || (pool.db.sources[other].link == row.link && pool.db.sources[other].name == row.name);
      if id in pool.db.sources || row.link !in pool.db.links || clash { return Err(NotAccepted); }
      pool.db := pool.db.(sources := pool.db.sources[id := row]);
      return Ok(row);
    }

    /** The id of the active source with the hash, if its link is active too. */
    method GetByHash(hash: string, ok: bool) returns (r: Result<string>)
      requires UniqueHashes(pool.db)
      ensures !ok ==> r == Err(StoreError)
      ensures ok ==> r == match FindSource(pool.db, hash) case Some(id) => Ok(id) case None => Err(NoRows)
    {
      if !ok { return Err(StoreError); }
      if exists id | id in pool.db.sources :: SourceServes(pool.db, hash, id) {
        var id :| id in pool.db.sources && SourceServes(pool.db, hash, id);
        return Ok(id);
      }
      return Err(NoRows);
    }

    /** The link's sources among the rows read, in their order. The scan may end before the last row without
        an error: the code does not look at rows.Err. */
    method ListByLinkID(link: string, rows: Option<seq<string>>) returns (r: Option<seq<string>>)
      ensures r == match rows case Some(ids) => Some(Listed(pool.db, link, ids)) case None => None
    {
      if rows.None? { return None; }
      var sources := [];
      for i := 0 to |rows.value|
        invariant sources == Listed(pool.db, link, rows.value[..i])
      {
        var id := rows.value[i];
        assert rows.value[..i + 1][..i] == rows.value[..i];
        if id in pool.db.sources && pool.db.sources[id].link == link {
          sources := sources + [id];
        }
      }
      assert rows.value[..|rows.value|] == rows.value;
      return Some(sources);
    }

    method Delete(id: string, ok: bool) returns (done: bool)
      modifies pool
      ensures done == ok && pool.db == if ok then Mutated(old(pool.db), Mutation.DeleteSource(id)) else old(pool.db)
    {
      if ok { pool.db := pool.db.(sources := pool.db.sources - {id}); }
      return ok;
    }
  }

  class LinkCache {
    const client: bool
    var entries: map<string, Answer>

    constructor (client: bool)
      ensures this.client == client && entries == map[]
    {
      this.client := client;
      entries := map[];
    }

    method Get(hash: string, ok: bool) returns (r: Option<Answer>)
      ensures r == if client && ok && hash in entries then Some(entries[hash]) else None
    {
      if client && ok && hash in entries { return Some(entries[hash]); }
      return None;
    }

    method Set(hash: string, a: Answer, ok: bool)
      modifies this
      ensures entries == if client && ok then old(entries)[hash := a] else old(entries)
    {
      if client && ok { entries := entries[hash := a]; }
    }

    method Invalidate(hash: string, ok: bool)
      modifies this
      ensures entries == if client && ok then old(entries) - {hash} else old(entries)
    {
      if client && ok { entries := entries - {hash}; }
    }
  }

  class RedirectService {
    const links: LinkRepo
    const sources: SourceLinkRepo
    const cache: LinkCache

    constructor (links: LinkRepo, sources: SourceLinkRepo, cache: LinkCache)
      ensures this.links == links && this.sources == sources && this.cache == cache
    {
      this.links, this.sources, this.cache := links, sources, cache;
    }

    ghost predicate Valid()
      reads this, links, sources, links.pool, cache
    {
      links.pool == sources.pool && Sound(links.pool.db)
    }

    ghost function View(): World
      reads this, links, links.pool, cache
    {
      World(links.pool.db, cache.client, cache.entries)
    }

    method Resolve(hash: string, io: Lookups) returns (r: Option<Answer>)
      requires Valid()
      modifies cache
      ensures Valid()
      ensures r == Resolved(old(View()), hash, io)
      ensures View() == ResolveWorld(old(View()), hash, io)
      ensures cache.client && io.store && r.Some? ==> cache.entries == old(cache.entries)[hash := r.value]
    {
      var cached := cache.Get(hash, io.get);
      if cached.Some? { return cached; }
      var link := links.GetByHash(hash, io.link);
      if link.Ok? {
        var answer := Answer(links.pool.db.links[link.value].url, link.value, None);
        cache.Set(hash, answer, io.store);
        return Some(answer);
      }
      var source := sources.GetByHash(hash, io.source);
      if source.Err? { return None; }
      var id := sources.pool.db.sources[source.value].link;
      var parent := links.GetByID(id, io.parent);
      if parent.Err? { return None; }
      var answer := Answer(parent.value.url, id, Some(source.value));
      cache.Set(hash, answer, io.store);
      return Some(answer);
    }
  }

  class LinkService {
    const links: LinkRepo
    const sources: SourceLinkRepo
    const cache: LinkCache

    constructor (links: LinkRepo, sources: SourceLinkRepo, cache: LinkCache)
      ensures this.links == links && this.sources == sources && this.cache == cache
    {
      this.links, this.sources, this.cache := links, sources, cache;
    }

    ghost predicate Valid()
      reads this, links, sources, links.pool, cache
    {
      links.pool == sources.pool && Sound(links.pool.db)
    }

    ghost function View(): World
      reads this, links, links.pool, cache
    {
      World(links.pool.db, cache.client, cache.entries)
    }

    method GenerateUniqueHash(draws: seq<Draw>, maxRetries: nat) returns (r: Result<string>)
      requires Valid()
      ensures r == UniqueHash(links.pool.db, draws, maxRetries)
    {
      for i := 0 to maxRetries
        invariant i <= |draws|
        invariant UniqueHash(links.pool.db, draws, maxRetries) == UniqueHash(links.pool.db, draws[i..], maxRetries - i)
      {
        if i == |draws| { return Err(NoGenerator); }
        var h := draws[i].hash;
        var found := links.GetByHash(h, draws[i].linkRead);
        if found == Err(NoRows) { return Ok(h); }
        if found.Err? { return Err(StoreError); }
        assert draws[i..][1..] == draws[i + 1..];
      }
      return Err(NoHash);
    }

    method GenerateUniqueSourceHash(draws: seq<Draw>, maxRetries: nat) returns (r: Result<string>)
      requires Valid()
      ensures r == UniqueSourceHash(links.pool.db, draws, maxRetries)
    {
      for i := 0 to maxRetries
        invariant i <= |draws|
        invariant UniqueSourceHash(links.pool.db, draws, maxRetries)
                  == UniqueSourceHash(links.pool.db, draws[i..], maxRetries - i)
      {
        if i == |draws| { return Err(NoGenerator); }
        assert draws[i..][1..] == draws[i + 1..];
        var h := draws[i].hash;
        var found := links.GetByHash(h, draws[i].linkRead);
        if found.Ok? { continue; }
        if found != Err(NoRows) { return Err(StoreError); }
        var source := sources.GetByHash(h, draws[i].sourceRead);
        if source.Ok? { continue; }
        if source != Err(NoRows) { return Err(StoreError); }
        return Ok(h);
      }
      return Err(NoHash);
    }

    method Create(op: Op) returns (r: Result<LinkRow>)
      requires Valid() && op.Create?
      modifies links.pool
      ensures Valid() && View() == CreateWorld(old(View()), op)
      ensures var h := UniqueHash(old(links.pool.db), op.draws, 3);
              r == if !op.valid then Err(BadURL) else if h.Err? then Err(h.reason)
                  else if !op.write then Err(StoreError)
                   else if Accepts(old(links.pool.db),
                                   InsertLink(op.id, LinkRow(op.user, op.url, h.value, op.title, true)))
                   then Ok(LinkRow(op.user, op.url, h.value, op.title, true)) else Err(NotAccepted)
    {
      if !op.valid { return Err(BadURL); }
      var h := GenerateUniqueHash(op.draws, 3);
      if h.Err? { return Err(h.reason); }
      r := links.Create(op.id, LinkRow(op.user, op.url, h.value, op.title, true), op.write);
    }

    method Update(op: Op) returns (r: Result<LinkRow>)
      requires Valid() && op.Update?
      modifies links.pool, cache
      ensures Valid() && View() == UpdateWorld(old(View()), op)
      ensures r == match Refused(old(links.pool.db), op.user, op.link, op.read)
                   case Some(reason) => Err(reason)
                   case None => if op.write then Ok(links.pool.db.links[op.link]) else Err(StoreError)
    {
      var existing := links.GetByID(op.link, op.read);
      if existing.Err? { return existing; }
      if existing.value.user != op.user { return Err(NotOwner); }
      r := links.Update(op.link, op.title, op.active, op.write);
      if r.Err? { return r; }
      if !op.active { cache.Invalidate(r.value.hash, r.value.hash in op.cleared); }
    }

    /** The entries go before the rows do. */
    method Delete(op: Op) returns (failed: Option<Reason>)
      requires Valid() && op.Delete?
      modifies links.pool, cache
      ensures Valid() && View() == DeleteWorld(old(View()), op)
      ensures failed == match Refused(old(links.pool.db), op.user, op.link, op.read)
                        case Some(reason) => Some(reason)
                        case None => if op.write then None else Some(StoreError)
    {
      hide UniqueHashes;
      MutatedIsSound(links.pool.db, DeleteLink(op.link));
      var existing := links.GetByID(op.link, op.read);
      if existing.Err? { return Some(existing.reason); }
      if existing.value.user != op.user { return Some(NotOwner); }
      cache.Invalidate(existing.value.hash, existing.value.hash in op.cleared);
      var listed := sources.ListByLinkID(op.link, op.rows);
      if listed.Some? { InvalidateSources(listed.value, op.cleared); }
      assert cache.client ==>
          cache.entries == old(cache.entries) - DeleteHashes(links.pool.db, op.link, op.rows) * op.cleared;
      var done := links.Delete(op.link, op.write);
      return if done then None else Some(StoreError);
    }

    method InvalidateSources(ids: seq<string>, cleared: set<string>)
      requires links.pool == sources.pool && forall id :: id in ids ==> id in sources.pool.db.sources
      modifies cache
      ensures cache.entries == if cache.client then old(cache.entries) - HashesOf(links.pool.db, ids) * cleared
              else old(cache.entries)
    {
      for i := 0 to |ids|
        invariant cache.entries == if cache.client then old(cache.entries) - HashesOf(links.pool.db, ids[..i]) * cleared
                  else old(cache.entries)
      {
        var hash := sources.pool.db.sources[ids[i]].hash;
        assert HashesOf(links.pool.db, ids[..i + 1]) == HashesOf(links.pool.db, ids[..i]) + {hash};
        cache.Invalidate(hash, hash in cleared);
      }
      assert ids[..|ids|] == ids;
    }

    method CreateSource(op: Op) returns (r: Result<SourceRow>)
      requires Valid() && op.CreateSource?
      modifies links.pool
      ensures Valid() && View() == CreateSourceWorld(old(View()), op)
      ensures var h := UniqueSourceHash(old(links.pool.db), op.draws, 5);
              r == match Refused(old(links.pool.db), op.user, op.link, op.read)
                   case Some(reason) => Err(reason)
                   case None =>
                     if h.Err? then Err(h.reason) else if !op.write then Err(StoreError)
                     else if Accepts(old(links.pool.db),
                                     InsertSource(op.id, SourceRow(op.link, op.name, h.value, true)))
                     then Ok(SourceRow(op.link, op.name, h.value, true)) else Err(NotAccepted)
    {
      var link := links.GetByID(op.link, op.read);
      if link.Err? { return Err(link.reason); }
      if link.value.user != op.user { return Err(NotOwner); }
      var h := GenerateUniqueSourceHash(op.draws, 5);
      if h.Err? { return Err(h.reason); }
      r := sources.Create(op.id, SourceRow(op.link, op.name, h.value, true), op.write);
    }

    method DeleteSource(op: Op) returns (failed: Option<Reason>)
      requires Valid() && op.DeleteSource?
      modifies links.pool, cache
      ensures Valid() && View() == DeleteSourceWorld(old(View()), op)
      ensures failed == match Refused(old(links.pool.db), op.user, op.link, op.read)
                        case Some(reason) => Some(reason)
                        case None =>
                          if op.rows.None? then Some(StoreError)
                          else if op.source !in Listed(old(links.pool.db), op.link, op.rows.value)
                              then Some(NoSuchSource)
                          else if op.write then None else Some(StoreError)
    {
      var link := links.GetByID(op.link, op.read);
      if link.Err? { return Some(link.reason); }
      if link.value.user != op.user { return Some(NotOwner); }
      var listed := sources.ListByLinkID(op.link, op.rows);
      if listed.None? { return Some(StoreError); }
      for i := 0 to |listed.value|
        invariant View() == old(View())
        invariant op.source !in listed.value[..i]
      {
        if listed.value[i] == op.source {
          var hash := sources.pool.db.sources[op.source].hash;
          cache.Invalidate(hash, hash in op.cleared);
          var done := sources.Delete(op.source, op.write);
          return if done then None else Some(StoreError);
        }
      }
      assert listed.value[..|listed.value|] == listed.value;
      return Some(NoSuchSource);
    }
  }
}
