/** `UserRepository` and `StatisticsRepository`: a read of the whole table,
    a cache probe, and a save that replaces the table in two separate write
    transactions (`deleteAll`, then `addObjects`), so a failure between them
    leaves the table empty. */
module Repositories {
  import opened Wrappers
  import opened Models
  import opened StorageObjects
  import opened Database
  import opened Collections

  /** What each write of one save throws: `deleteAll`, then `addObjects`. */
  datatype ReplaceFailures = ReplaceFailures(deleteAll: Option<SystemError>, addObjects: Option<SystemError>)

  /** The table and the reported outcome after `deleteAll` and then
      `addObjects(replacement)`. The second write is not attempted when the
      first throws; a closed store ignores both. */
  function ReplaceInTwoWrites<K, V>(isOpen: bool, before: map<K, V>, replacement: map<K, V>, failures: ReplaceFailures)
    : (r: (map<K, V>, Outcome<SystemError>))
    ensures r.1.Pass? ==> r.0 == if isOpen then replacement else before
    ensures r.1.Fail? ==> isOpen && (r.0 == before || r.0 == map[])
    ensures r.1.Fail? && r.0 != before ==> r.0 == map[] && failures.deleteAll.None? && failures.addObjects == Some(r.1.error)
  {
    if !isOpen then (before, Pass)
    else if failures.deleteAll.Some? then (before, Fail(failures.deleteAll.value))
    else if failures.addObjects.Some? then (map[], Fail(failures.addObjects.value))
    else (replacement, Pass)
  }

  /** The replace is not atomic: a table with records, a first write that
      commits and a second that throws leave an empty table behind, which is
      neither the old table nor the new one. */
  lemma ReplaceIsNotAtomic<K, V>(before: map<K, V>, replacement: map<K, V>, e: SystemError)
    requires before != map[] && replacement != map[]
    ensures var (after, outcome) := ReplaceInTwoWrites(true, before, replacement, ReplaceFailures(None, Some(e)));
      outcome == Fail(e) && after != before && after != replacement
  {
  }

  /** `values` is what reading `rows` back through `toDomain` gives: one
      value per record, in the order the store lists them. */
  ghost predicate ReadsBack<K, V(!new), D>(values: seq<D>, rows: map<K, V>, key: V -> K, toDomain: V -> D) {
    exists objects :: ListsTable(objects, rows, key) && values == MapSeq(objects, toDomain)
  }

  /** A read-back has one value per record, and every record's value is in it. */
  lemma ReadsBackCovers<K, V(!new), D>(values: seq<D>, rows: map<K, V>, key: V -> K, toDomain: V -> D)
    requires ReadsBack(values, rows, key, toDomain)
    ensures |values| == |rows|
    ensures forall k :: k in rows ==> toDomain(rows[k]) in values
    ensures forall i :: 0 <= i < |values| ==> exists k :: k in rows && values[i] == toDomain(rows[k])
  {
    var objects :| ListsTable(objects, rows, key) && values == MapSeq(objects, toDomain);
    forall k | k in rows ensures toDomain(rows[k]) in values {
      var i :| 0 <= i < |objects| && objects[i] == rows[k];
      assert values[i] == toDomain(rows[k]);
    }
    forall i | 0 <= i < |values| ensures exists k :: k in rows && values[i] == toDomain(rows[k]) {
      assert values[i] == toDomain(rows[key(objects[i])]);
    }
  }

  /** Mapping before searching finds the image of what searching first finds. */
  lemma {:induction false} LastWithKeyMapped<T, V, K>(s: seq<T>, f: T -> V, key: V -> K, g: T -> K, k: K)
    requires forall x :: g(x) == key(f(x))
    ensures LastWithKey(MapSeq(s, f), key, k).None? <==> LastWithKey(s, g, k).None?
    ensures LastWithKey(s, g, k).Some? ==> LastWithKey(MapSeq(s, f), key, k).value == f(LastWithKey(s, g, k).value)
  {
    if s != [] {
      assert MapSeq(s, f)[..|s| - 1] == MapSeq(s[..|s| - 1], f);
      LastWithKeyMapped(s[..|s| - 1], f, key, g, k);
    }
  }

  /** The user table that saving `users` writes. */
  function UserTable(users: seq<User>): map<int, UserObject> {
    UpsertAll(map[], MapSeq(users, UserObjectOf), UserKey)
  }

  function UserId(u: User): int {
    u.id
  }

  /** After a save, there is one record per distinct id, holding the last
      user saved with that id. */
  lemma SavedUserTable(users: seq<User>, id: int)
    ensures id in UserTable(users) <==> exists i :: 0 <= i < |users| && users[i].id == id
    ensures id in UserTable(users) ==> UserTable(users)[id] == UserObjectOf(LastWithKey(users, UserId, id).value)
  {
    UpsertAllLookup(map[], MapSeq(users, UserObjectOf), UserKey, id);
    LastWithKeyMapped(users, UserObjectOf, UserKey, UserId, id);
  }

  /** The statistics table that saving `items` writes. */
  function StatisticsTable(items: seq<StatisticsItem>): map<string, StatisticsObject> {
    UpsertAll(map[], MapSeq(items, StatisticsObjectOf), StatisticsKey)
  }

  function ItemId(item: StatisticsItem): string {
    item.Id()
  }

  /** After a save, there is one record per item id, holding the last item
      saved with that id, that is, the last one about the same user and type. */
  lemma SavedStatisticsTable(items: seq<StatisticsItem>, id: string)
    ensures id in StatisticsTable(items) <==> exists i :: 0 <= i < |items| && items[i].Id() == id
    ensures id in StatisticsTable(items) ==> StatisticsTable(items)[id] == StatisticsObjectOf(LastWithKey(items, ItemId, id).value)
  {
    UpsertAllLookup(map[], MapSeq(items, StatisticsObjectOf), StatisticsKey, id);
    LastWithKeyMapped(items, StatisticsObjectOf, StatisticsKey, ItemId, id);
  }

  /** No two items are about the same (user, type) pair. */
  ghost predicate DistinctIds(items: seq<StatisticsItem>) {
    forall i, j :: 0 <= i < j < |items| ==> items[i].Id() != items[j].Id()
  }

  /** Saving items that are about distinct (user, type) pairs and reading them
      back gives the same items, in some order. */
  lemma SavedStatisticsReadBack(items: seq<StatisticsItem>, values: seq<StatisticsItem>)
    requires DistinctIds(items)
    requires ReadsBack(values, StatisticsTable(items), StatisticsKey, StatisticsToDomain)
    ensures multiset(values) == multiset(items)
  {
    var objects: seq<StatisticsObject> :| ListsTable(objects, StatisticsTable(items), StatisticsKey) && values == MapSeq(objects, StatisticsToDomain);
    ListedRecordsAreSavedItems(items, objects);
  }

  lemma ListedRecordsAreSavedItems(items: seq<StatisticsItem>, objects: seq<StatisticsObject>)
    requires DistinctIds(items)
    requires ListsTable(objects, StatisticsTable(items), StatisticsKey)
    ensures multiset(MapSeq(objects, StatisticsToDomain)) == multiset(items)
  {
    var values := MapSeq(objects, StatisticsToDomain);
    forall i | 0 <= i < |values| ensures values[i] in items && values[i].Id() == objects[i].id {
      StoredRecordIsSavedItem(items, objects[i]);
    }
    assert Distinct(values) by {
      forall i, j | 0 <= i < j < |values| ensures values[i] != values[j] {
        assert objects[i].id != objects[j].id;
      }
    }
    forall i | 0 <= i < |items| ensures items[i] in values {
      SavedItemIsStored(items, i);
      var k :| 0 <= k < |objects| && objects[k] == StatisticsObjectOf(items[i]);
      assert values[k] == items[i];
    }
    assert Distinct(items);
    DistinctPermutation(values, items);
  }

  /** A record of the saved table reads back as the last item saved under its key. */
  lemma StoredRecordIsSavedItem(items: seq<StatisticsItem>, o: StatisticsObject)
    requires o.id in StatisticsTable(items) && StatisticsTable(items)[o.id] == o
    ensures o.ToDomain() in items && o.ToDomain().Id() == o.id
  {
    SavedStatisticsTable(items, o.id);
    StatisticsRoundTrip(LastWithKey(items, ItemId, o.id).value);
  }

  /** When no other item shares its id, an item is stored as itself. */
  lemma SavedItemIsStored(items: seq<StatisticsItem>, i: nat)
    requires i < |items| && DistinctIds(items)
    ensures items[i].Id() in StatisticsTable(items)
    ensures StatisticsTable(items)[items[i].Id()] == StatisticsObjectOf(items[i])
  {
    SavedStatisticsTable(items, items[i].Id());
    assert LastWithKey(items, ItemId, items[i].Id()).value == items[i];
  }

  function UserToDomain(o: UserObject): User {
    o.ToDomain()
  }

  function StatisticsToDomain(o: StatisticsObject): StatisticsItem {
    o.ToDomain()
  }

  /** `UserRepository`: reads and replaces the user table of a shared store. */
  class UserRepository {
    const database: DatabaseService

    ghost predicate Valid()
      reads this, database, database.users, database.statistics
    {
      database.Valid()
    }

    constructor (database: DatabaseService)
      requires database.Valid()
      ensures Valid() && this.database == database
    {
      this.database := database;
    }

    /** `getUsers()`: every stored user, read back through `toDomain()`. */
    method GetUsers() returns (users: seq<User>)
      requires Valid()
      ensures ReadsBack(users, database.users.rows, UserKey, UserToDomain)
    {
      var objects := database.FetchAll(database.users);
      users := MapSeq(objects, UserToDomain);
    }

    /** `hasCache()`: whether the store lists any user. */
    method HasCache() returns (cached: bool)
      requires Valid()
      ensures cached <==> database.users.rows != map[]
    {
      var objects := database.FetchAll(database.users);
      cached := |objects| != 0;
    }

    /** `saveUsers(_:)`: `deleteAll` and then `addObjects` of the users' records,
        each its own transaction; the insert is skipped when the delete throws.
        `between` is the table after the first write. */
    method SaveUsers(users: seq<User>, failures: ReplaceFailures)
      returns (outcome: Outcome<SystemError>, ghost between: map<int, UserObject>)
      requires Valid()
      modifies database.users
      ensures Valid()
      ensures (database.users.rows, outcome)
           == ReplaceInTwoWrites(database.isOpen, old(database.users.rows), UserTable(users), failures)
      ensures between == if Commits(database.isOpen, failures.deleteAll) then map[] else old(database.users.rows)
      ensures database.statistics.rows == old(database.statistics.rows)
    {
      outcome := database.DeleteAll(database.users, failures.deleteAll);
      between := database.users.rows;
      if outcome.Fail? {
        return;
      }
      outcome := database.AddObjects(database.users, MapSeq(users, UserObjectOf), failures.addObjects);
    }
  }

  /** `StatisticsRepository`: reads and replaces the statistics table of a shared store. */
  class StatisticsRepository {
    const database: DatabaseService

    ghost predicate Valid()
      reads this, database, database.users, database.statistics
    {
      database.Valid()
    }

    constructor (database: DatabaseService)
      requires database.Valid()
      ensures Valid() && this.database == database
    {
      this.database := database;
    }

    /** `getStatistics()`: every stored item, read back through `toDomain()`. */
    method GetStatistics() returns (items: seq<StatisticsItem>)
      requires Valid()
      ensures ReadsBack(items, database.statistics.rows, StatisticsKey, StatisticsToDomain)
    {
      var objects := database.FetchAll(database.statistics);
      items := MapSeq(objects, StatisticsToDomain);
    }

    /** `hasCache()`: whether the store lists any statistics item. */
    method HasCache() returns (cached: bool)
      requires Valid()
      ensures cached <==> database.statistics.rows != map[]
    {
      var objects := database.FetchAll(database.statistics);
      cached := |objects| != 0;
    }

    /** `saveStatistics(_:)`: `deleteAll` and then `addObjects` of the items'
        records, each its own transaction. */
    method SaveStatistics(items: seq<StatisticsItem>, failures: ReplaceFailures)
      returns (outcome: Outcome<SystemError>, ghost between: map<string, StatisticsObject>)
      requires Valid()
      modifies database.statistics
      ensures Valid()
      ensures (database.statistics.rows, outcome)
           == ReplaceInTwoWrites(database.isOpen, old(database.statistics.rows), StatisticsTable(items), failures)
      ensures between == if Commits(database.isOpen, failures.deleteAll) then map[] else old(database.statistics.rows)
      ensures database.users.rows == old(database.users.rows)
    {
      outcome := database.DeleteAll(database.statistics, failures.deleteAll);
      between := database.statistics.rows;
      if outcome.Fail? {
        return;
      }
      outcome := database.AddObjects(database.statistics, MapSeq(items, StatisticsObjectOf), failures.addObjects);
    }
  }
}
