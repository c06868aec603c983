/** EquipoServiceImpl: the repository behind a cache of members by id, the storage
    dispatcher for import and export, and the validator, whose verdict save and update
    compute and then drop. The cache only ever holds members as the table has them,
    so a lookup through it gives what the repository gives. */
module Service {
  import opened Results
  import opened Dates
  import opened Models
  import opened Files
  import opened Storage
  import opened Validator
  import opened Repository

  /** Every cached member is the one the table holds under that id. */
  predicate Coherent(db: Db, cache: map<int, Integrante>) {
    WellFormed(db) && forall id :: id in cache ==> Find(db, id) == Some(cache[id])
  }

  /** A save leaves every cached member as the table holds it. */
  lemma {:induction false} SaveKeepsCoherent(db: Db, x: Integrante, now: Timestamp, cache: map<int, Integrante>)
    requires Coherent(db, cache)
    ensures Coherent(AfterSave(db, x, now), cache)
  {
    forall id | id in cache
      ensures Find(AfterSave(db, x, now), id) == Some(cache[id])
    {
      SaveKeepsOthers(db, x, now, id);
    }
  }

  class EquipoService {
    var repository: EquipoRepository
    var cache: map<int, Integrante>

    /** The repository's table is well formed and every cached member is the one the
        table holds under that id. */
    predicate Valid()
      reads this, repository
    {
      Coherent(repository.State(), cache)
    }

    constructor (repository: EquipoRepository)
      requires repository.Valid()
      ensures this.repository == repository && cache == map[] && Valid()
    {
      this.repository := repository;
      cache := map[];
    }

    /** importFromFile: the file is read through the dispatcher; on success each member
        read is saved in list order. The dispatcher's result is returned unless a save
        throws, which ends the import with the saves before it kept. */
    method Import(entries: Entries, path: Path, now: Timestamp,
                  json: Result<seq<Integrante>>, xml: Result<seq<Integrante>>) returns (r: Result<seq<Integrante>>)
      requires Valid()
      modifies repository
      ensures Valid()
      ensures var read := StorageReadResult(entries, path, now, json, xml);
        if read.Ok? then
          repository.State() == SaveAll(old(repository.State()), read.value, now)
          && r == (if old(repository.State()).nextId + |read.value| > MaxId + 1 then Thrown(SqlError) else read)
        else
          repository.State() == old(repository.State()) && r == read
    {
      r := StorageRead(entries, path, now, json, xml);
      if r.Ok? {
        var saved := SaveEach(r.value, now);
        if saved.Thrown? {
          r := Thrown(saved.exception);
        }
      }
    }

    /** `forEach { repository.save(it) }`: each member saved in turn; an exception
        thrown by a save ends the loop. */
    method SaveEach(rs: seq<Integrante>, now: Timestamp) returns (r: Result<()>)
      requires Valid()
      modifies repository
      ensures Valid()
      ensures repository.State() == SaveAll(old(repository.State()), rs, now)
      ensures r == (if old(repository.State()).nextId + |rs| > MaxId + 1 then Thrown(SqlError) else Ok(()))
    {
      ghost var db := repository.State();
      var i := 0;
      while i < |rs|
        invariant 0 <= i <= |rs|
        invariant Valid()
        invariant repository.State() == SaveAll(db, rs[..i], now)
        invariant db.nextId + i <= MaxId + 1
      {
        SaveAllNextId(db, rs[..i], now);
        SaveKeepsCoherent(repository.State(), rs[i], now, cache);
        var saved := repository.Save(rs[i], now);
        assert rs[..i + 1][..i] == rs[..i];
        if saved.Thrown? {
          SaveAllExhausted(db, rs, now, i);
          return Thrown(saved.exception);
        }
        i := i + 1;
      }
      assert rs[..i] == rs;
      r := Ok(());
    }

    /** exportToFile: every member the repository lists goes to the dispatcher, whose
        result is returned. */
    method Export(fs: FileSystem, path: Path, json: WriteEffect, xml: WriteEffect) returns (r: Result<()>)
      requires Valid()
      modifies fs
      ensures WriteEffect(r, fs.entries) == StorageWritten(old(fs.entries), Listed(repository.State()), path, json, xml)
    {
      var all := repository.GetAll();
      r := StorageWrite(fs, all, path, json, xml);
    }

    /** getAll. */
    method GetAll() returns (r: seq<Integrante>)
      requires Valid()
      ensures r == Listed(repository.State())
    {
      r := repository.GetAll();
    }

    /** getById: a cached member is returned as is; otherwise the repository is asked,
        and a member it has is cached before it is returned. */
    method GetById(id: int) returns (r: Result<Integrante>)
      requires Valid()
      modifies this
      ensures Valid() && repository == old(repository)
      ensures r == (if Find(repository.State(), id).Some? then Ok(Find(repository.State(), id).value)
                    else Err(NotFoundError(id)))
      ensures id in old(cache) ==> r == Ok(old(cache)[id]) && cache == old(cache)
      ensures id !in old(cache) && r.Ok? ==> cache == old(cache)[id := r.value]
      ensures !r.Ok? ==> cache == old(cache)
    {
      if id in cache {
        return Ok(cache[id]);
      }
      var found := repository.GetById(id);
      if found.None? {
        return Err(NotFoundError(id));
      }
      cache := cache[id := found.value];
      r := Ok(found.value);
    }

    /** save: the verdict of the validator is dropped; the member is saved whatever it
        says. */
    method Save(x: Integrante, now: Timestamp, today: Date) returns (r: Result<Integrante>)
      requires Valid()
      modifies repository
      ensures Valid()
      ensures repository.State() == AfterSave(old(repository.State()), x, now)
      ensures r == SaveResult(old(repository.State()), x, now)
    {
      var verdict := Validar(x, today);
      SaveKeepsCoherent(repository.State(), x, now, cache);
      r := repository.Save(x, now);
    }

    /** update: NotFoundError when the repository has no such id, the cache untouched;
        otherwise the repository's result, with the id dropped from the cache. */
    method Update(id: int, x: Integrante, now: Timestamp, today: Date) returns (r: Result<Integrante>)
      requires Valid()
      modifies this, repository
      ensures Valid() && repository == old(repository)
      ensures repository.State() == old(repository.State())
      ensures var u := UpdateResult(old(repository.State()), id, now);
        if u.None? then r == Err(NotFoundError(id)) && cache == old(cache)
        else r == Ok(u.value) && cache == old(cache) - {id}
    {
      var verdict := Validar(x, today);
      var updated := repository.Update(id, x, now);
      if updated.None? {
        return Err(NotFoundError(id));
      }
      cache := cache - {id};
      r := Ok(updated.value);
    }

    /** delete: NotFoundError when the repository has no such id, the cache untouched;
        otherwise the deleted member, with the id dropped from the cache. */
    method Delete(id: int) returns (r: Result<Integrante>)
      requires Valid()
      modifies this, repository
      ensures Valid() && repository == old(repository)
      ensures repository.State() == AfterDelete(old(repository.State()), id)
      ensures var d := Find(old(repository.State()), id);
        if d.None? then r == Err(NotFoundError(id)) && cache == old(cache)
        else r == Ok(d.value) && cache == old(cache) - {id}
    {
      var deleted := repository.Delete(id);
      if deleted.None? {
        return Err(NotFoundError(id));
      }
      cache := cache - {id};
      r := Ok(deleted.value);
    }

    /** The cache's size and time limits drop entries it chooses; whichever it drops,
        the cached members stay those of the table. */
    method Evict(ids: set<int>)
      requires Valid()
      modifies this
      ensures Valid() && repository == old(repository)
      ensures cache == old(cache) - ids
    {
      cache := cache - ids;
    }
  }
}
