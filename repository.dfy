/** EquipoRepositoryImpl over the integrantes table. The table is a map from id to
    row, and the database's identity column is a counter of the next id to hand out.
    Every row the repository writes reads back as a member, and each row sits under
    its own id. */
module Repository {
  import opened Results
  import opened Binary
  import opened Models
  import opened Records
  import opened Mapper
  import opened Extensions

  type Table = map<int, IntegranteEntity>

  /** dao.save yields the generated key as an Int: Int.MAX_VALUE is the last id. */
  const MaxId: int := 0x7FFF_FFFF

  /** What the database holds: the rows and the identity counter. */
  datatype Db = Db(table: Table, nextId: int)

  /** Each row sits under its own id, below the counter, and reads back as a member. */
  predicate WellFormed(db: Db) {
    1 <= db.nextId <= MaxId + 1
    && forall id :: id in db.table ==>
         1 <= id < db.nextId && db.table[id].id == id && EntityToModel(db.table[id]).Ok?
  }

  /** dao.getById(id)?.toModel(): null exactly when no row has that id. */
  function Find(db: Db, id: int): (r: Option<Integrante>)
    requires WellFormed(db)
    ensures r.None? <==> id !in db.table
    ensures r.Some? ==> r.value.id == id && EntityToModel(db.table[id]) == Ok(r.value)
  {
    if id in db.table then Some(EntityToModel(db.table[id]).value) else None
  }

  /** A row's generated id replaces the one the member carried. */
  lemma {:induction false} ToEntityWithId(x: Integrante, id: int64)
    ensures ToEntity(x).(id := id) == ToEntity(x.(id := id))
  {
  }

  /** The member save returns when the database hands out `id`: its data, a single
      timestamp in both fields, and the generated id. */
  function Saved(x: Integrante, now: Timestamp, id: int64): (r: Integrante)
    ensures r.id == id && r.createdAt == now && r.updatedAt == now
    ensures SameData(x.(id := id), r) && (r.Jugador? <==> x.Jugador?)
  {
    Stamp(x, now).(id := id)
  }

  /** The row save inserts: the stamped member as an entity, under the generated id.
      It reads back as the saved member. */
  function SavedRow(x: Integrante, now: Timestamp, id: int64): (e: IntegranteEntity)
    ensures e.id == id && EntityToModel(e) == Ok(Saved(x, now, id))
  {
    ToEntityWithId(Stamp(x, now), id);
    EntityToModelOfToEntity(Stamp(x, now).(id := id));
    ToEntity(Stamp(x, now)).(id := id)
  }

  /** The database after save: one row more, under a fresh id, when the counter has
      ids left; unchanged otherwise. */
  function AfterSave(db: Db, x: Integrante, now: Timestamp): (r: Db)
    requires WellFormed(db)
    ensures WellFormed(r)
    ensures db.nextId > MaxId ==> r == db
    ensures db.nextId <= MaxId ==>
              db.nextId !in db.table && r.nextId == db.nextId + 1
              && (forall id :: id in r.table <==> id in db.table || id == db.nextId)
              && (forall id :: id in db.table ==> r.table[id] == db.table[id])
              && r.table[db.nextId] == SavedRow(x, now, db.nextId)
  {
    if db.nextId > MaxId then db
    else Db(db.table[db.nextId := SavedRow(x, now, db.nextId)], db.nextId + 1)
  }

  /** What save returns: the inserted row read back, or the database's refusal once
      the identity column has no ids left. */
  function SaveResult(db: Db, x: Integrante, now: Timestamp): (r: Result<Integrante>)
    requires WellFormed(db)
    ensures r.Ok? <==> db.nextId <= MaxId
    ensures r.Ok? ==> r.value == Saved(x, now, db.nextId) && Find(AfterSave(db, x, now), r.value.id) == Some(r.value)
    ensures !r.Ok? ==> r == Thrown(SqlError)
  {
    if db.nextId > MaxId then Thrown(SqlError) else Ok(Saved(x, now, db.nextId))
  }

  /** The database after delete: without the row of that id, if it had one. */
  function AfterDelete(db: Db, id: int): (r: Db)
    requires WellFormed(db)
    ensures WellFormed(r)
    ensures r.nextId == db.nextId && r.table.Keys == db.table.Keys - {id}
    ensures forall k :: k in r.table ==> r.table[k] == db.table[k]
    ensures id !in db.table ==> r == db
  {
    Db(db.table - {id}, db.nextId)
  }

  /** toModel of a row whose updatedAt is replaced is the row's member with that
      updatedAt. */
  lemma {:induction false} EntityToModelUpdatedAt(e: IntegranteEntity, t: Timestamp)
    requires EntityToModel(e).Ok?
    ensures EntityToModel(e.(updatedAt := t)) == Ok(EntityToModel(e).value.(updatedAt := t))
  {
  }

  /** What update returns: null for an absent id, else the stored member with only
      updatedAt replaced. The member passed to update plays no part. */
  function UpdateResult(db: Db, id: int, now: Timestamp): (r: Option<Integrante>)
    requires WellFormed(db)
    ensures r.None? <==> id !in db.table
    ensures r.Some? ==> r.value == Find(db, id).value.(updatedAt := now)
    ensures r.Some? ==> SameData(Find(db, id).value, r.value) && r.value.createdAt == Find(db, id).value.createdAt
  {
    if id !in db.table then None
    else
      EntityToModelUpdatedAt(db.table[id], now);
      Some(EntityToModel(db.table[id].(updatedAt := now)).value)
  }

  /** Each row sits under its own id. */
  predicate Keyed(t: Table) {
    forall id :: id in t ==> t[id].id == id
  }

  /** The rows with ids from 1 up to (not including) hi, in ascending id order. */
  function RowsBelow(t: Table, hi: int): (rows: seq<IntegranteEntity>)
    requires Keyed(t)
    ensures forall k :: 0 <= k < |rows| ==> 1 <= rows[k].id < hi && rows[k].id in t && t[rows[k].id] == rows[k]
    ensures forall j, k :: 0 <= j < k < |rows| ==> rows[j].id < rows[k].id
    decreases hi
  {
    if hi <= 1 then []
    else RowsBelow(t, hi - 1) + (if hi - 1 in t then [t[hi - 1]] else [])
  }

  /** Every row with an id from 1 up to hi is among RowsBelow(t, hi), at index k. */
  lemma {:induction false} RowsBelowComplete(t: Table, hi: int, id: int) returns (k: int)
    requires Keyed(t) && 1 <= id < hi && id in t
    ensures 0 <= k < |RowsBelow(t, hi)| && RowsBelow(t, hi)[k] == t[id]
    decreases hi
  {
    var rows, prev := RowsBelow(t, hi), RowsBelow(t, hi - 1);
    var last := if hi - 1 in t then [t[hi - 1]] else [];
    assert rows == prev + last;
    assert |rows| == |prev| + |last|;
    if id == hi - 1 {
      k := |prev|;
      assert rows[k] == t[id];
    } else {
      k := RowsBelowComplete(t, hi - 1, id);
      assert rows[k] == prev[k];
    }
  }

  /** dao.getAll().map { it.toModel() }: every row as a member, in ascending id
      order (the query has no ORDER BY; the model fixes the order of the primary key). */
  function Listed(db: Db): (r: seq<Integrante>)
    requires WellFormed(db)
    ensures forall k :: 0 <= k < |r| ==> Find(db, r[k].id) == Some(r[k])
    ensures forall j, k :: 0 <= j < k < |r| ==> r[j].id < r[k].id
  {
    var rows := RowsBelow(db.table, db.nextId);
    var all := Collect(MapSeq(rows, EntityToModel));
    assert all.Ok?;
    all.value
  }

  /** Listed holds every row of the table, at index k. */
  lemma {:induction false} ListedComplete(db: Db, id: int) returns (k: int)
    requires WellFormed(db) && id in db.table
    ensures 0 <= k < |Listed(db)| && Listed(db)[k] == Find(db, id).value
  {
    var rows := RowsBelow(db.table, db.nextId);
    k := RowsBelowComplete(db.table, db.nextId, id);
    var rs := MapSeq(rows, EntityToModel);
    assert rs[k] == EntityToModel(db.table[id]) == Ok(Find(db, id).value);
    assert Collect(rs).Ok?;
    assert Listed(db) == Collect(rs).value;
  }

  /** The repository: the table it reads and writes through the DAO. */
  class EquipoRepository {
    var table: Table
    var nextId: int

    function State(): Db
      reads this
    {
      Db(table, nextId)
    }

    predicate Valid()
      reads this
    {
      WellFormed(State())
    }

    /** An empty table whose identity column starts at 1. */
    constructor ()
      ensures State() == Db(map[], 1) && Valid()
    {
      table := map[];
      nextId := 1;
    }

    /** save: the member is stamped with one timestamp, inserted under the id the
        database generates, and read back. */
    method Save(x: Integrante, now: Timestamp) returns (r: Result<Integrante>)
      requires Valid()
      modifies this
      ensures Valid()
      ensures State() == AfterSave(old(State()), x, now)
      ensures r == SaveResult(old(State()), x, now)
    {
      var entity := ToEntity(Stamp(x, now));
      if nextId > MaxId {
        return Thrown(SqlError);
      }
      var generatedId := nextId;
      ToEntityWithId(Stamp(x, now), generatedId);
      table := table[generatedId := entity.(id := generatedId)];
      nextId := nextId + 1;
      r := EntityToModel(table[generatedId]);
    }

    /** delete: null for an absent id; otherwise the row is removed and its member,
        read before the removal, returned. */
    method Delete(id: int) returns (r: Option<Integrante>)
      requires Valid()
      modifies this
      ensures Valid()
      ensures r == Find(old(State()), id)
      ensures State() == AfterDelete(old(State()), id)
    {
      var found := GetById(id);
      if found.None? {
        return None;
      }
      table := table - {id};
      r := found;
    }

    /** update: null for an absent id; otherwise the stored member with a new
        updatedAt is returned, and the row as it was is written back. */
    method Update(id: int, x: Integrante, now: Timestamp) returns (r: Option<Integrante>)
      requires Valid()
      modifies this
      ensures Valid()
      ensures r == UpdateResult(old(State()), id, now)
      ensures State() == old(State())
    {
      if id !in table {
        return None;
      }
      var row := table[id];
      EntityToModelUpdatedAt(row, now);
      var updated := EntityToModel(row.(updatedAt := now)).value;
      table := table[row.id := row];
      r := Some(updated);
    }

    /** getAll. */
    method GetAll() returns (r: seq<Integrante>)
      requires Valid()
      ensures r == Listed(State())
    {
      var rows := RowsBelow(table, nextId);
      var all := Collect(MapSeq(rows, EntityToModel));
      r := all.value;
    }

    /** getById. */
    method GetById(id: int) returns (r: Option<Integrante>)
      requires Valid()
      ensures r == Find(State(), id)
    {
      if id in table {
        r := Some(EntityToModel(table[id]).value);
      } else {
        r := None;
      }
    }
  }

  // ---- properties ----

  /** A save that succeeds adds exactly one row and changes no other; a member
      found before is found unchanged after. */
  lemma {:induction false} SaveKeepsOthers(db: Db, x: Integrante, now: Timestamp, id: int)
    requires WellFormed(db) && id in db.table
    ensures Find(AfterSave(db, x, now), id) == Find(db, id)
  {
  }

  /** Deleting and finding: the deleted id is gone, every other id is as it was. */
  lemma {:induction false} DeleteThenFind(db: Db, id: int, other: int)
    requires WellFormed(db)
    ensures Find(AfterDelete(db, id), id).None?
    ensures other != id ==> Find(AfterDelete(db, id), other) == Find(db, other)
  {
  }

  /** Deleting an absent id, or twice, changes nothing more. */
  lemma {:induction false} DeleteIdempotent(db: Db, id: int)
    requires WellFormed(db)
    ensures AfterDelete(AfterDelete(db, id), id) == AfterDelete(db, id)
  {
    assert db.table - {id} - {id} == db.table - {id};
  }

  /** A saved member is then found under its id with the data it was saved with. */
  lemma {:induction false} SaveThenFind(db: Db, x: Integrante, now: Timestamp)
    requires WellFormed(db) && db.nextId <= MaxId
    ensures var r := SaveResult(db, x, now);
      r.Ok? && Find(AfterSave(db, x, now), r.value.id) == Some(r.value)
      && SameData(x.(id := r.value.id), r.value)
  {
  }

  /** After a save, the listing holds the saved member. */
  lemma {:induction false} SaveThenList(db: Db, x: Integrante, now: Timestamp)
    requires WellFormed(db) && db.nextId <= MaxId
    ensures exists k :: 0 <= k < |Listed(AfterSave(db, x, now))|
                        && Listed(AfterSave(db, x, now))[k] == Saved(x, now, db.nextId)
  {
    var k := ListedComplete(AfterSave(db, x, now), db.nextId);
  }

  // ---- saving a list in order ----

  /** The database after saving each member of rs in turn. */
  function SaveAll(db: Db, rs: seq<Integrante>, now: Timestamp): (r: Db)
    requires WellFormed(db)
    ensures WellFormed(r)
    decreases |rs|
  {
    if rs == [] then db else AfterSave(SaveAll(db, rs[..|rs| - 1], now), rs[|rs| - 1], now)
  }

  function Min(a: int, b: int): int {
    if a <= b then a else b
  }

  /** Each save takes one id until the identity column has none left. */
  lemma {:induction false} SaveAllNextId(db: Db, rs: seq<Integrante>, now: Timestamp)
    requires WellFormed(db)
    ensures SaveAll(db, rs, now).nextId == Min(db.nextId + |rs|, MaxId + 1)
    decreases |rs|
  {
    if rs != [] {
      SaveAllNextId(db, rs[..|rs| - 1], now);
    }
  }

  /** The rows after saving rs: the old ones, and one under each id handed out. */
  lemma {:induction false} SaveAllKeys(db: Db, rs: seq<Integrante>, now: Timestamp, id: int)
    requires WellFormed(db)
    ensures id in SaveAll(db, rs, now).table <==> id in db.table || db.nextId <= id < SaveAll(db, rs, now).nextId
    decreases |rs|
  {
    if rs != [] {
      SaveAllKeys(db, rs[..|rs| - 1], now, id);
      SaveAllNextId(db, rs[..|rs| - 1], now);
    }
  }

  /** A member found before saving rs is found unchanged after. */
  lemma {:induction false} SaveAllKeeps(db: Db, rs: seq<Integrante>, now: Timestamp, id: int)
    requires WellFormed(db) && id in db.table
    ensures Find(SaveAll(db, rs, now), id) == Find(db, id)
    decreases |rs|
  {
    if rs != [] {
      SaveAllKeeps(db, rs[..|rs| - 1], now, id);
      SaveKeepsOthers(SaveAll(db, rs[..|rs| - 1], now), rs[|rs| - 1], now, id);
    }
  }

  /** With ids to spare, the i-th member of rs is inserted under the i-th id handed out. */
  lemma {:induction false} SaveAllRow(db: Db, rs: seq<Integrante>, now: Timestamp, i: int)
    requires WellFormed(db) && db.nextId + |rs| <= MaxId + 1 && 0 <= i < |rs|
    ensures db.nextId + i in SaveAll(db, rs, now).table
    ensures SaveAll(db, rs, now).table[db.nextId + i] == SavedRow(rs[i], now, db.nextId + i)
    decreases |rs|
  {
    var init := rs[..|rs| - 1];
    var prev := SaveAll(db, init, now);
    assert SaveAll(db, rs, now) == AfterSave(prev, rs[|rs| - 1], now);
    SaveAllNextId(db, init, now);
    assert prev.nextId == db.nextId + |init|;
    if i < |rs| - 1 {
      SaveAllRow(db, init, now, i);
      assert init[i] == rs[i];
      assert prev.table[db.nextId + i] == SavedRow(rs[i], now, db.nextId + i);
    } else {
      assert AfterSave(prev, rs[i], now).table[prev.nextId] == SavedRow(rs[i], now, prev.nextId);
    }
  }

  /** ... and is then found there as the member save returned for it. */
  lemma {:induction false} SaveAllFinds(db: Db, rs: seq<Integrante>, now: Timestamp, i: int)
    requires WellFormed(db) && db.nextId + |rs| <= MaxId + 1 && 0 <= i < |rs|
    ensures Find(SaveAll(db, rs, now), db.nextId + i) == Some(Saved(rs[i], now, db.nextId + i))
  {
    SaveAllRow(db, rs, now, i);
  }

  /** Once the identity column has no ids left, the remaining saves change nothing. */
  lemma {:induction false} SaveAllExhausted(db: Db, rs: seq<Integrante>, now: Timestamp, i: int)
    requires WellFormed(db) && 0 <= i <= |rs| && SaveAll(db, rs[..i], now).nextId > MaxId
    ensures SaveAll(db, rs, now) == SaveAll(db, rs[..i], now)
    decreases |rs|
  {
    if i == |rs| {
      assert rs[..i] == rs;
    } else {
      var init := rs[..|rs| - 1];
      assert init[..i] == rs[..i];
      SaveAllExhausted(db, init, now, i);
    }
  }
}
