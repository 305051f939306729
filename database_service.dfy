/** The store (`DatabaseService`): one Realm holding a table per object type,
    each keyed by its records' primary key. Every write runs in its own
    transaction, which either commits or throws and leaves the table as it
    was; a store that failed to open ignores writes and reads as empty. */
module Database {
  import opened Wrappers
  import opened Models
  import opened StorageObjects
  import Collections

  /** The last of `objects` whose key is `k`, if any. */
  function LastWithKey<K(==), V>(objects: seq<V>, key: V -> K, k: K): (o: Option<V>)
    ensures o.None? <==> forall i :: 0 <= i < |objects| ==> key(objects[i]) != k
    ensures o.Some? ==> exists i :: 0 <= i < |objects| && objects[i] == o.value && key(o.value) == k
                                    && forall j :: i < j < |objects| ==> key(objects[j]) != k
  {
    if objects == [] then None
    else if key(objects[|objects| - 1]) == k then Some(objects[|objects| - 1])
    else
      var o := LastWithKey(objects[..|objects| - 1], key, k);
      assert forall i :: 0 <= i < |objects| - 1 ==> objects[..|objects| - 1][i] == objects[i];
      o
  }

  /** `realm.add(objects, update: .all)`: each object in turn is stored under
      its key, replacing whatever was there. */
  function UpsertAll<K(==), V>(rows: map<K, V>, objects: seq<V>, key: V -> K): (updated: map<K, V>)
    ensures updated.Keys == rows.Keys + set i | 0 <= i < |objects| :: key(objects[i])
    ensures KeyedBy(rows, key) ==> KeyedBy(updated, key)
  {
    if objects == [] then rows
    else
      var prefix, last := objects[..|objects| - 1], objects[|objects| - 1];
      assert (set i | 0 <= i < |objects| :: key(objects[i]))
          == (set i | 0 <= i < |prefix| :: key(prefix[i])) + {key(last)};
      UpsertAll(rows, prefix, key)[key(last) := last]
  }

  /** After an upsert, a key holds the last object supplied with that key;
      a key no object has keeps its old record, or stays absent. */
  lemma {:induction false} UpsertAllLookup<K, V>(rows: map<K, V>, objects: seq<V>, key: V -> K, k: K)
    ensures LastWithKey(objects, key, k).Some? ==>
      k in UpsertAll(rows, objects, key) && UpsertAll(rows, objects, key)[k] == LastWithKey(objects, key, k).value
    ensures LastWithKey(objects, key, k).None? ==>
      (k in UpsertAll(rows, objects, key) <==> k in rows)
      && (k in rows ==> UpsertAll(rows, objects, key)[k] == rows[k])
  {
    if objects != [] {
      UpsertAllLookup(rows, objects[..|objects| - 1], key, k);
    }
  }

  /** Every record sits under its own primary key. */
  ghost predicate KeyedBy<K, V>(rows: map<K, V>, key: V -> K) {
    forall k :: k in rows ==> key(rows[k]) == k
  }

  lemma {:induction false} UpsertAllKeeps<K, V>(rows: map<K, V>, objects: seq<V>, key: V -> K)
    requires KeyedBy(rows, key)
    ensures KeyedBy(UpsertAll(rows, objects, key), key)
  {
    if objects != [] {
      UpsertAllKeeps(rows, objects[..|objects| - 1], key);
    }
  }

  /** `objects` is the table's records, each once, in some order. */
  ghost predicate ListsTable<K, V>(objects: seq<V>, rows: map<K, V>, key: V -> K) {
    && |objects| == |rows|
    && (forall i :: 0 <= i < |objects| ==> key(objects[i]) in rows && rows[key(objects[i])] == objects[i])
    && (forall k :: k in rows ==> rows[k] in objects)
    && (forall i, j :: 0 <= i < j < |objects| ==> key(objects[i]) != key(objects[j]))
  }

  /** Whether a write transaction commits: the store is open and the write
      does not throw. */
  predicate Commits(isOpen: bool, failure: Option<SystemError>) {
    isOpen && failure.None?
  }

  /** What a write reports: the thrown error, or nothing (also when the store
      never isOpen, since the write then returns before starting). */
  function WriteOutcome(isOpen: bool, failure: Option<SystemError>): (o: Outcome<SystemError>)
    ensures o.Fail? <==> isOpen && failure.Some?
    ensures o.Fail? ==> o.error == failure.value
  {
    if isOpen && failure.Some? then Fail(failure.value) else Pass
  }

  /** The records of one object type, as `realm.objects(T.self)` sees them. */
  class Table<K(==), V> {
    var rows: map<K, V>
    /** The primary key of a record. */
    const key: V -> K

    ghost predicate Valid()
      reads this
    {
      KeyedBy(rows, key)
    }

    /** The table as the store file holds it when it is opened. */
    constructor (key: V -> K, persisted: map<K, V>)
      requires KeyedBy(persisted, key)
      ensures Valid() && rows == persisted && this.key == key
    {
      rows := persisted;
      this.key := key;
    }
  }

  /** The store: a `Table` argument stands for the object type a call names,
      as in `deleteAll(UserObject.self)`. */
  class DatabaseService {
    /** Whether `Realm()` succeeded when the service was created. */
    const isOpen: bool
    const users: Table<int, UserObject>
    const statistics: Table<string, StatisticsObject>

    ghost predicate Valid()
      reads this, users, statistics
    {
      && users.Valid() && users.key == UserKey
      && statistics.Valid() && statistics.key == StatisticsKey
      && users as object != statistics as object
      && (!isOpen ==> users.rows == map[] && statistics.rows == map[])
    }

    /** `init()`: `Realm()` opens the default store file, holding the records
        earlier runs saved there, or (when `isOpen` is false) fails and leaves
        the service with no store. */
    constructor (isOpen: bool, persistedUsers: map<int, UserObject>, persistedStatistics: map<string, StatisticsObject>)
      requires KeyedBy(persistedUsers, UserKey) && KeyedBy(persistedStatistics, StatisticsKey)
      ensures Valid() && this.isOpen == isOpen
      ensures fresh(users) && fresh(statistics)
      ensures users.rows == (if isOpen then persistedUsers else map[])
      ensures statistics.rows == (if isOpen then persistedStatistics else map[])
    {
      this.isOpen := isOpen;
      users := new Table(UserKey, if isOpen then persistedUsers else map[]);
      statistics := new Table(StatisticsKey, if isOpen then persistedStatistics else map[]);
    }

    /** `addObject(_:)`: an upsert of one record. */
    method AddObject<K(==), V>(table: Table<K, V>, record: V, failure: Option<SystemError>)
      returns (outcome: Outcome<SystemError>)
      requires table.Valid()
      modifies table
      ensures table.Valid()
      ensures outcome == WriteOutcome(isOpen, failure)
      ensures table.rows == if Commits(isOpen, failure) then old(table.rows)[table.key(record) := record] else old(table.rows)
    {
      if !isOpen {
        return Pass;
      }
      if failure.Some? {
        return Fail(failure.value);
      }
      table.rows := table.rows[table.key(record) := record];
      outcome := Pass;
    }

    /** `addObjects(_:)`: upserts every record, in order, in one transaction. */
    method AddObjects<K(==), V>(table: Table<K, V>, objects: seq<V>, failure: Option<SystemError>)
      returns (outcome: Outcome<SystemError>)
      requires table.Valid()
      modifies table
      ensures table.Valid()
      ensures outcome == WriteOutcome(isOpen, failure)
      ensures table.rows == if Commits(isOpen, failure) then UpsertAll(old(table.rows), objects, table.key) else old(table.rows)
    {
      if !isOpen {
        return Pass;
      }
      if failure.Some? {
        return Fail(failure.value);
      }
      var written := table.rows;
      for i := 0 to |objects|
        invariant written == UpsertAll(old(table.rows), objects[..i], table.key)
      {
        assert objects[..i + 1][..i] == objects[..i];
        written := written[table.key(objects[i]) := objects[i]];
      }
      assert objects[..|objects|] == objects;
      UpsertAllKeeps(old(table.rows), objects, table.key);
      table.rows := written;
      outcome := Pass;
    }

    /** `readBy(_:id:)`: the record under `k`, or nil; nil when the store is closed. */
    method ReadBy<K(==), V>(table: Table<K, V>, k: K) returns (found: Option<V>)
      ensures found.Some? <==> isOpen && k in table.rows
      ensures found.Some? ==> found.value == table.rows[k]
    {
      if !isOpen || k !in table.rows {
        return None;
      }
      found := Some(table.rows[k]);
    }

    /** `deleteBy(_:key:)`: removes the record under `k`; nothing happens when
        there is none. */
    method DeleteBy<K(==), V>(table: Table<K, V>, k: K, failure: Option<SystemError>)
      returns (outcome: Outcome<SystemError>)
      requires table.Valid()
      modifies table
      ensures table.Valid()
      ensures outcome == WriteOutcome(isOpen, failure)
      ensures table.rows == if Commits(isOpen, failure) then old(table.rows) - {k} else old(table.rows)
    {
      if !isOpen {
        return Pass;
      }
      if failure.Some? {
        return Fail(failure.value);
      }
      if k in table.rows {
        table.rows := table.rows - {k};
      }
      outcome := Pass;
    }

    /** `updateObject(_:)`: `add(update: .modified)`, which leaves the same
        record behind as an upsert; it differs only in which change
        notifications fire. */
    method UpdateObject<K(==), V>(table: Table<K, V>, record: V, failure: Option<SystemError>)
      returns (outcome: Outcome<SystemError>)
      requires table.Valid()
      modifies table
      ensures table.Valid()
      ensures outcome == WriteOutcome(isOpen, failure)
      ensures table.rows == if Commits(isOpen, failure) then old(table.rows)[table.key(record) := record] else old(table.rows)
    {
      if !isOpen {
        return Pass;
      }
      if failure.Some? {
        return Fail(failure.value);
      }
      table.rows := table.rows[table.key(record) := record];
      outcome := Pass;
    }

    /** `fetchAll(_:)`: every record of the table once, in the order the store
        returns them, which nothing promises; nothing when the store is closed. */
    method FetchAll<K(==), V>(table: Table<K, V>) returns (objects: seq<V>)
      requires table.Valid()
      ensures !isOpen ==> objects == []
      ensures isOpen ==> ListsTable(objects, table.rows, table.key)
    {
      if !isOpen {
        return [];
      }
      var entries := Collections.EntriesInSomeOrder(table.rows);
      objects := [];
      for i := 0 to |entries|
        invariant |objects| == i
        invariant forall j :: 0 <= j < i ==> objects[j] == entries[j].1
      {
        objects := objects + [entries[i].1];
      }
      forall k | k in table.rows ensures table.rows[k] in objects {
        var j :| 0 <= j < |entries| && entries[j] == (k, table.rows[k]);
        assert objects[j] == table.rows[k];
      }
    }

    /** `deleteAll(_:)`: empties one table. */
    method DeleteAll<K(==), V>(table: Table<K, V>, failure: Option<SystemError>)
      returns (outcome: Outcome<SystemError>)
      requires table.Valid()
      modifies table
      ensures table.Valid()
      ensures outcome == WriteOutcome(isOpen, failure)
      ensures table.rows == if Commits(isOpen, failure) then map[] else old(table.rows)
    {
      if !isOpen {
        return Pass;
      }
      if failure.Some? {
        return Fail(failure.value);
      }
      table.rows := map[];
      outcome := Pass;
    }

    /** `deleteAllData()`: empties every table in one transaction. */
    method DeleteAllData(failure: Option<SystemError>) returns (outcome: Outcome<SystemError>)
      requires Valid()
      modifies users, statistics
      ensures Valid()
      ensures outcome == WriteOutcome(isOpen, failure)
      ensures Commits(isOpen, failure) ==> users.rows == map[] && statistics.rows == map[]
      ensures !Commits(isOpen, failure) ==> users.rows == old(users.rows) && statistics.rows == old(statistics.rows)
    {
      if !isOpen {
        return Pass;
      }
      if failure.Some? {
        return Fail(failure.value);
      }
      users.rows := map[];
      statistics.rows := map[];
      outcome := Pass;
    }
  }
}
