/** `UserService` and `StatisticsService`: cache-first loads (serve the
    stored table unless a refresh is forced or nothing is stored; otherwise
    fetch, replace the table and hand back what was fetched), the lookup of
    one user, and the aggregate that joins both loads. */
module Services {
  import opened Wrappers
  import opened Models
  import opened Collections
  import opened StorageObjects
  import opened Database
  import opened Repositories
  import opened Network
  import opened Aggregation

  /** The two kinds of `Error` a load can emit. */
  datatype LoadError = FetchFailed(networkError: NetworkError) | StoreFailed(storeError: SystemError)

  /** A load goes to the network when forced or when the cache is empty. */
  predicate FetchNeeded(forceRefresh: bool, cached: bool) {
    forceRefresh || !cached
  }

  /** One cache-first load, from the table before to the table after.
      On a cache hit the stored records are read back; otherwise the fetched
      values replace the table in two writes, and the load emits the fetched
      values themselves, or the error of the fetch or of the save. */
  ghost predicate CacheFirstLoad<K, V(!new), D>(
    forceRefresh: bool, failures: ReplaceFailures, isOpen: bool,
    before: map<K, V>, reply: Result<seq<D>, NetworkError>,
    toTable: seq<D> -> map<K, V>, key: V -> K, toDomain: V -> D,
    result: Result<seq<D>, LoadError>, after: map<K, V>)
  {
    if !FetchNeeded(forceRefresh, before != map[]) then
      after == before && result.Success? && ReadsBack(result.value, before, key, toDomain)
    else
      match reply
      case Failure(e) => after == before && result == Failure(FetchFailed(e))
      case Success(values) =>
        var (table, outcome) := ReplaceInTwoWrites(isOpen, before, toTable(values), failures);
        after == table && result == (if outcome.Pass? then Success(values) else Failure(StoreFailed(outcome.error)))
  }

  /** A load that emits values without fetching read them from the table:
      the cache is never bypassed when it holds something and no refresh is forced. */
  lemma CacheHitReadsStore<K, V(!new), D>(
    failures: ReplaceFailures, isOpen: bool, before: map<K, V>, reply: Result<seq<D>, NetworkError>,
    toTable: seq<D> -> map<K, V>, key: V -> K, toDomain: V -> D,
    result: Result<seq<D>, LoadError>, after: map<K, V>)
    requires before != map[]
    requires CacheFirstLoad(false, failures, isOpen, before, reply, toTable, key, toDomain, result, after)
    ensures after == before && result.Success? && |result.value| == |before|
  {
    ReadsBackCovers(result.value, before, key, toDomain);
  }

  /** A fetched load that succeeds emits the fetched values and leaves exactly
      their table behind (in an open store). */
  lemma FetchedLoadStoresValues<K, V(!new), D>(
    forceRefresh: bool, failures: ReplaceFailures, before: map<K, V>, values: seq<D>,
    toTable: seq<D> -> map<K, V>, key: V -> K, toDomain: V -> D,
    result: Result<seq<D>, LoadError>, after: map<K, V>)
    requires FetchNeeded(forceRefresh, before != map[])
    requires CacheFirstLoad(forceRefresh, failures, true, before, Success(values), toTable, key, toDomain, result, after)
    ensures result.Success? <==> failures.deleteAll.None? && failures.addObjects.None?
    ensures result.Success? ==> result.value == values && after == toTable(values)
    ensures result.Failure? ==> result.error.StoreFailed? && (after == before || after == map[])
  {
  }

  /** `result` is what `zip` followed by `aggregateStatistics` emits: the
      aggregate of both loads' values, or the first load's error, or the
      second's. */
  ghost predicate JoinsLoads(statistics: Result<seq<StatisticsItem>, LoadError>, users: Result<seq<User>, LoadError>,
                             result: Result<seq<UserStatistics>, LoadError>)
  {
    match (statistics, users)
    case (Failure(e), _) => result == Failure(e)
    case (Success(_), Failure(e)) => result == Failure(e)
    case (Success(items), Success(loadedUsers)) => result.Success? && IsAggregate(items, loadedUsers, result.value)
  }

  /** `Observable.zip(...).map { aggregateStatistics($0, users: $1) }` once both loads are in. */
  method JoinLoads(statistics: Result<seq<StatisticsItem>, LoadError>, users: Result<seq<User>, LoadError>)
    returns (result: Result<seq<UserStatistics>, LoadError>)
    ensures JoinsLoads(statistics, users, result)
  {
    if statistics.Failure? {
      result := Failure(statistics.error);
    } else if users.Failure? {
      result := Failure(users.error);
    } else {
      var aggregate := AggregateStatistics(statistics.value, users.value);
      result := Success(aggregate);
    }
  }

  class UserService {
    const network: NetworkService
    const repository: UserRepository

    ghost predicate Valid()
      reads this, repository, repository.database, repository.database.users, repository.database.statistics
    {
      repository.Valid()
    }

    constructor (network: NetworkService, repository: UserRepository)
      requires repository.Valid()
      ensures Valid() && this.network == network && this.repository == repository
    {
      this.network := network;
      this.repository := repository;
    }

    /** `loadUsers(forceRefresh:)`. `failures` says which of the save's two
        writes throw, should a save happen. */
    method LoadUsers(forceRefresh: bool, failures: ReplaceFailures) returns (result: Result<seq<User>, LoadError>)
      requires Valid()
      modifies network, repository.database.users
      ensures Valid()
      ensures network.requests == old(network.requests)
        + if FetchNeeded(forceRefresh, old(repository.database.users.rows) != map[]) then [UsersEndpoint] else []
      ensures CacheFirstLoad(forceRefresh, failures, repository.database.isOpen,
        old(repository.database.users.rows), old(network.NextUsersReply()),
        UserTable, UserKey, UserToDomain, result, repository.database.users.rows)
      ensures repository.database.statistics.rows == old(repository.database.statistics.rows)
    {
      var cached := repository.HasCache();
      if !forceRefresh && cached {
        var users := repository.GetUsers();
        return Success(users);
      }
      var fetched := network.FetchUsers();
      match fetched {
        case Failure(e) =>
          result := Failure(FetchFailed(e));
        case Success(users) =>
          var outcome, _ := repository.SaveUsers(users, failures);
          result := if outcome.Pass? then Success(users) else Failure(StoreFailed(outcome.error));
      }
    }

    /** `getUser(by:)`: the first loaded user with the id, always from a
        load that does not force a refresh. `loaded` is that load's result. */
    method GetUser(id: int, failures: ReplaceFailures)
      returns (result: Result<Option<User>, LoadError>, ghost loaded: Result<seq<User>, LoadError>)
      requires Valid()
      modifies network, repository.database.users
      ensures Valid()
      ensures network.requests == old(network.requests)
        + if old(repository.database.users.rows) == map[] then [UsersEndpoint] else []
      ensures CacheFirstLoad(false, failures, repository.database.isOpen,
        old(repository.database.users.rows), old(network.NextUsersReply()),
        UserTable, UserKey, UserToDomain, loaded, repository.database.users.rows)
      ensures result.Success? <==> loaded.Success?
      ensures result.Success? ==> result.value == FirstUserWithId(loaded.value, id)
      ensures result.Failure? ==> result.error == loaded.error
      ensures repository.database.statistics.rows == old(repository.database.statistics.rows)
    {
      var load := LoadUsers(false, failures);
      loaded := load;
      result := match load
        case Success(users) => Success(FirstUserWithId(users, id))
        case Failure(e) => Failure(e);
    }
  }

  class StatisticsService {
    const network: NetworkService
    const repository: StatisticsRepository
    const userService: UserService

    /** One store and one network client are shared by both services. */
    ghost predicate Valid()
      reads this, repository, repository.database, repository.database.users, repository.database.statistics,
            userService, userService.repository, userService.repository.database
    {
      && repository.Valid()
      && userService.repository.database == repository.database
      && userService.network == network
      && userService.Valid()
    }

    constructor (network: NetworkService, repository: StatisticsRepository, userService: UserService)
      requires repository.Valid() && userService.Valid()
      requires userService.repository.database == repository.database && userService.network == network
      ensures Valid()
      ensures this.network == network && this.repository == repository && this.userService == userService
    {
      this.network := network;
      this.repository := repository;
      this.userService := userService;
    }

    /** `loadStatistics(forceRefresh:)`. */
    method LoadStatistics(forceRefresh: bool, failures: ReplaceFailures)
      returns (result: Result<seq<StatisticsItem>, LoadError>)
      requires Valid()
      modifies network, repository.database.statistics
      ensures Valid()
      ensures network.requests == old(network.requests)
        + if FetchNeeded(forceRefresh, old(repository.database.statistics.rows) != map[]) then [StatisticsEndpoint] else []
      ensures CacheFirstLoad(forceRefresh, failures, repository.database.isOpen,
        old(repository.database.statistics.rows), old(network.NextStatisticsReply()),
        StatisticsTable, StatisticsKey, StatisticsToDomain, result, repository.database.statistics.rows)
      ensures repository.database.users.rows == old(repository.database.users.rows)
    {
      var cached := repository.HasCache();
      if !forceRefresh && cached {
        var items := repository.GetStatistics();
        return Success(items);
      }
      var fetched := network.FetchStatistics();
      match fetched {
        case Failure(e) =>
          result := Failure(FetchFailed(e));
        case Success(items) =>
          var outcome, _ := repository.SaveStatistics(items, failures);
          result := if outcome.Pass? then Success(items) else Failure(StoreFailed(outcome.error));
      }
    }

    /** The two loads `loadAggregatedStatistics` zips: statistics first, then
        users, with the same flag. */
    method LoadBoth(forceRefresh: bool, statisticsFailures: ReplaceFailures, userFailures: ReplaceFailures)
      returns (statistics: Result<seq<StatisticsItem>, LoadError>, users: Result<seq<User>, LoadError>)
      requires Valid()
      modifies network, repository.database.statistics, repository.database.users
      ensures Valid()
      ensures CacheFirstLoad(forceRefresh, statisticsFailures, repository.database.isOpen,
        old(repository.database.statistics.rows), old(network.NextStatisticsReply()),
        StatisticsTable, StatisticsKey, StatisticsToDomain, statistics, repository.database.statistics.rows)
      ensures CacheFirstLoad(forceRefresh, userFailures, repository.database.isOpen,
        old(repository.database.users.rows), old(network.NextUsersReply()),
        UserTable, UserKey, UserToDomain, users, repository.database.users.rows)
      ensures network.requests == old(network.requests)
        + (if FetchNeeded(forceRefresh, old(repository.database.statistics.rows) != map[]) then [StatisticsEndpoint] else [])
        + (if FetchNeeded(forceRefresh, old(repository.database.users.rows) != map[]) then [UsersEndpoint] else [])
    {
      ghost var statisticsBefore, usersBefore := repository.database.statistics.rows, repository.database.users.rows;
      ghost var statisticsReply, usersReply := network.NextStatisticsReply(), network.NextUsersReply();
      statistics := LoadStatistics(forceRefresh, statisticsFailures);
      ghost var statisticsAfter := repository.database.statistics.rows;
      assert CacheFirstLoad(forceRefresh, statisticsFailures, repository.database.isOpen,
        statisticsBefore, statisticsReply, StatisticsTable, StatisticsKey, StatisticsToDomain, statistics, statisticsAfter);
      OtherEndpointUnaffected(old(network.requests), StatisticsEndpoint, UsersEndpoint);
      assert network.NextUsersReply() == usersReply;
      assert repository.database.users.rows == usersBefore;
      users := userService.LoadUsers(forceRefresh, userFailures);
      assert repository.database.statistics.rows == statisticsAfter;
    }

    /** `loadAggregatedStatistics(forceRefresh:)`: the aggregate needs both
        loads, and when both fail the statistics error is the one emitted.
        `statistics` and `users` are the two loads' results. */
    method LoadAggregatedStatistics(forceRefresh: bool, statisticsFailures: ReplaceFailures, userFailures: ReplaceFailures)
      returns (result: Result<seq<UserStatistics>, LoadError>,
               ghost statistics: Result<seq<StatisticsItem>, LoadError>, ghost users: Result<seq<User>, LoadError>)
      requires Valid()
      modifies network, repository.database.statistics, repository.database.users
      ensures Valid()
      ensures CacheFirstLoad(forceRefresh, statisticsFailures, repository.database.isOpen,
        old(repository.database.statistics.rows), old(network.NextStatisticsReply()),
        StatisticsTable, StatisticsKey, StatisticsToDomain, statistics, repository.database.statistics.rows)
      ensures CacheFirstLoad(forceRefresh, userFailures, repository.database.isOpen,
        old(repository.database.users.rows), old(network.NextUsersReply()),
        UserTable, UserKey, UserToDomain, users, repository.database.users.rows)
      ensures network.requests == old(network.requests)
        + (if FetchNeeded(forceRefresh, old(repository.database.statistics.rows) != map[]) then [StatisticsEndpoint] else [])
        + (if FetchNeeded(forceRefresh, old(repository.database.users.rows) != map[]) then [UsersEndpoint] else [])
      ensures JoinsLoads(statistics, users, result)
    {
      var statisticsLoad, usersLoad := LoadBoth(forceRefresh, statisticsFailures, userFailures);
      statistics, users := statisticsLoad, usersLoad;
      result := JoinLoads(statisticsLoad, usersLoad);
      assert JoinsLoads(statistics, users, result);
    }
  }
}
