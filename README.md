# Statistics app data layer and statistics screen, in Dafny

This project models the data layer of an iOS statistics app and the numbers its statistics
screen derives. The app keeps two collections, users and per-user statistics items. Each is
served from a local Realm store when the store holds records, and otherwise fetched from a
REST backend and written back. The aggregate load joins both collections into one summary per
user, sorted by views. The screen turns those summaries into:

- a visitors total;
- a line chart of views per day;
- the top three visitors;
- a gender chart;
- seven age bars;
- the observer avatars.

The model is written in the shape of the Swift code:

- The store (`Database.DatabaseService`) is a class. It has one `Table` object per record type, whose `rows` map primary keys to records.
- Its write operations are methods that change the table they are given.
- The repositories and services are classes holding references to the store, to each other and to the network service.
- Records, domain values, the network reply and the aggregation are datatypes and functions.
- The loops of `aggregateStatistics`, `updateLineChart`, `createUserRows` and `calculateAgeGroups` are methods with loop invariants. Each is proved against a specification function or predicate.

Modules, in dependency order:

- `Wrappers`: `Option`, `Result` and `Outcome` (a write's pass or failure).
- `Decimal`: the digits of `%d` and `%08d`.
- `Collections`: sortedness, a stable insertion sort, `map` and `compactMap` on sequences, and dictionary iteration.
- `Models`: the domain values, the errors and URLs.
- `StorageObjects`: `UserObject` and `StatisticsObject` and their conversions.
- `Database`: the Realm store.
- `Repositories`: the two repositories.
- `Network`: the network service.
- `DateParsing`: `parseDate`.
- `Aggregation`: `aggregateStatistics`.
- `Services`: the user and statistics services.
- `StatisticsScreen`: the view controller's tallies.

The repositories replace a table in two writes, `deleteAll` and then `addObjects`, so a
failed second write leaves the table empty; `Repositories.ReplaceIsNotAtomic` shows it.

The response models (`User`, `UserFile`, `StatisticsItem`, `StatisticsType`, `UserStatistics`)
are defined in `BusinessLogic/Models/API Response/`. The table below cites the lines of the
storage objects that use their `avatarURL`, `id` and `rawValue`.

Effects outside the program are inputs to the model:

- A store write that throws is a `failure: Option<SystemError>` argument.
- Whether Realm opened is the store's `isOpen` flag.
- The reply the n-th request to an endpoint receives is a function given to `NetworkService`.
- The JSON decoder is a function that succeeds or fails.

## Model

| member | source | states |
|---|---|---|
| Wrappers.MapSuccess | BusinessLogic/Network/Service/NetworkService.swift:19-27 | mapping an emitted value keeps success and failure apart: a success maps to `f` of its value, and a failure keeps its error |
| Decimal.NatToString | BusinessLogic/DataBase/Services/StatisticsService.swift:91 | the decimal text of a natural number is non-empty, all digits, reads back as the number, and has no leading zero |
| Decimal.IntToStringInjective | BusinessLogic/Models/Storage/StatisticsObject.swift:12 | two integers with the same `\(…)` text are equal, so the user part of a stored `id` names one user |
| Collections.Sorted | BusinessLogic/DataBase/Services/StatisticsService.swift:87 | `sorted(by:)` returns a permutation of its input, ordered by the comparison |
| Collections.MapSeq | BusinessLogic/DataBase/Repos/UserRepository.swift:30 | `map` keeps the length and applies the function to each element in place |
| Collections.CompactMap | new_prod/Presentation/StatisticsViewController.swift:305 | `compactMap` is no longer than its input, keeps only values some element maps to, and loses nothing when every element maps to a value |
| Collections.CompactMapConcat | new_prod/Presentation/StatisticsViewController.swift:305 | `compactMap` of two sequences joined is the two results joined, so kept values stay in input order |
| Collections.CompactMapKeeps | new_prod/Presentation/StatisticsViewController.swift:305 | every value an element maps to is in the result |
| Collections.EntriesInSomeOrder | new_prod/Presentation/StatisticsViewController.swift:356 | iterating a dictionary yields each key exactly once, with its value, and nothing else |
| Models.ParseUrl | BusinessLogic/Models/Storage/UserObject.swift:29 | `URL(string:)` succeeds only with a URL whose text is the given string |
| Models.FirstAvatar | BusinessLogic/Models/Storage/UserObject.swift:19 | the `avatarURL` stored is absent exactly when no file has type "avatar"; otherwise it is the URL of the first file of that type |
| Models.FirstUserWithId | BusinessLogic/DataBase/Services/StatisticsService.swift:57 | `first(where:)` on the id finds nothing exactly when no user has that id; otherwise it finds a user of the list with that id |
| Models.StatisticsType.RawValue | BusinessLogic/Models/Storage/StatisticsObject.swift:14 | the raw value stored for a type parses back to that type, and it has no underscore |
| Models.StatisticsTypeNamedInverts | BusinessLogic/Models/Storage/StatisticsObject.swift:14-21 | a stored type text that parses is the raw value of what it parses to, so `rawValue` and `init(rawValue:)` are inverse |
| Models.StatisticsIdIdentifies | BusinessLogic/Models/Storage/StatisticsObject.swift:5-12 | two items have the same `id` primary key exactly when they have the same user and type |
| Models.SeparatorFollowsId | BusinessLogic/Models/Storage/StatisticsObject.swift:12 | the first underscore of the stored `id` sits right after the user id's text |
| StorageObjects.UserObject.ToDomain | BusinessLogic/Models/Storage/UserObject.swift:22-33 | the stored scalars come back unchanged; the files hold at most one "avatar" file with the user's id, present exactly when the stored URL text is non-empty |
| StorageObjects.UserObjectOf | BusinessLogic/Models/Storage/UserObject.swift:12-20 | the record copies the scalars and stores the user's avatar URL text, or nothing when the user has no avatar |
| StorageObjects.UserRoundTrip | BusinessLogic/Models/Storage/UserObject.swift:12-33 | storing a user and reading it back keeps every scalar and the avatar URL; the file list becomes just the avatar |
| StorageObjects.UserWithoutAvatarLosesFiles | BusinessLogic/Models/Storage/UserObject.swift:22-33 | a user without an avatar file reads back with no files at all |
| StorageObjects.UserObjectRoundTrip | BusinessLogic/Models/Storage/UserObject.swift:12-33 | a record read and stored again is unchanged, except that empty URL text becomes no URL |
| StorageObjects.EqualIdsCollide | BusinessLogic/Models/Storage/UserObject.swift:5 | two users' records share a primary key exactly when the users share an id |
| StorageObjects.StatisticsObject.ToDomain | BusinessLogic/Models/Storage/StatisticsObject.swift:18-24 | user and dates come back unchanged; a stored type that parses comes back as that type, and one that does not becomes `.view` |
| StorageObjects.StatisticsObjectOf | BusinessLogic/Models/Storage/StatisticsObject.swift:10-16 | the record's key is the item's `id`, it copies user and dates, and its type text parses back to the item's type |
| StorageObjects.StatisticsRoundTrip | BusinessLogic/Models/Storage/StatisticsObject.swift:10-24 | storing an item and reading it back gives the same item |
| StorageObjects.StatisticsObjectRoundTrip | BusinessLogic/Models/Storage/StatisticsObject.swift:10-24 | a record survives a read and a store unchanged exactly when its type text names a case and its key is the `id` of the item it reads as |
| StorageObjects.StatisticsKeysCollide | BusinessLogic/Models/Storage/StatisticsObject.swift:5 | two items' records share a primary key exactly when the items share user and type |
| Database.LastWithKey | BusinessLogic/DataBase/DatabaseService.swift:51 | the last record of a batch with a key is absent exactly when no record has it, and is otherwise a record of the batch with that key |
| Database.UpsertAllLookup | BusinessLogic/DataBase/DatabaseService.swift:48-53 | after `add(_:update: .all)` of a batch, a key holds the batch's last record with that key, and the keys the batch misses keep their old rows |
| Database.UpsertAllKeeps | BusinessLogic/DataBase/DatabaseService.swift:48-53 | an upsert keeps every row under its own primary key |
| Database.UpsertAll | BusinessLogic/DataBase/DatabaseService.swift:51 | the keys after `add(_:update: .all)` are the old keys and the batch's keys, and every row stays under its own primary key |
| Database.WriteOutcome | BusinessLogic/DataBase/DatabaseService.swift:41-46 | a write reports a failure exactly when the store is open and the transaction throws, and reports that error |
| Database.Table.constructor | BusinessLogic/Models/Storage/UserObject.swift:5 | a table starts with the rows the store file holds, each under its record type's primary key |
| Database.DatabaseService.constructor | BusinessLogic/DataBase/DatabaseService.swift:19-36 | when the Realm opens, both tables hold the users and statistics earlier runs saved; when it does not, both are empty and stay so |
| Database.DatabaseService.AddObject | BusinessLogic/DataBase/DatabaseService.swift:41-46 | a committed write puts the record under its key, and any other outcome leaves the table unchanged |
| Database.DatabaseService.AddObjects | BusinessLogic/DataBase/DatabaseService.swift:48-53 | a committed write upserts the whole batch in order; otherwise the table is unchanged |
| Database.DatabaseService.ReadBy | BusinessLogic/DataBase/DatabaseService.swift:55-58 | a record is found exactly when the store is open and holds the key, and it is the stored row |
| Database.DatabaseService.DeleteBy | BusinessLogic/DataBase/DatabaseService.swift:60-67 | a committed write removes the key if it is present; otherwise the table is unchanged |
| Database.DatabaseService.UpdateObject | BusinessLogic/DataBase/DatabaseService.swift:69-74 | the same upsert as `addObject` |
| Database.DatabaseService.FetchAll | BusinessLogic/DataBase/DatabaseService.swift:76-79 | a closed store lists nothing; an open store lists every row exactly once and nothing else |
| Database.DatabaseService.DeleteAll | BusinessLogic/DataBase/DatabaseService.swift:81-86 | a committed write empties the table; otherwise it is unchanged |
| Database.DatabaseService.DeleteAllData | BusinessLogic/DataBase/DatabaseService.swift:88-93 | a committed write empties both tables; otherwise neither changes |
| Repositories.ReplaceInTwoWrites | BusinessLogic/DataBase/Repos/UserRepository.swift:49-57 | a save that passes leaves the new table (an open store) or the old one (a closed store); a failed save leaves the old table, or an empty one when the insert alone threw |
| Repositories.ReplaceIsNotAtomic | BusinessLogic/DataBase/Repos/UserRepository.swift:50-52 | a delete that commits and an insert that throws leave a table that is neither the old one nor the new one |
| Repositories.ReadsBackCovers | BusinessLogic/DataBase/Repos/UserRepository.swift:29-30 | the values read back are as many as the rows, contain every row's domain value, and contain nothing else |
| Repositories.LastWithKeyMapped | BusinessLogic/DataBase/Repos/UserRepository.swift:51 | converting a batch to records before taking the last per key is the same as converting the domain value taken per key |
| Repositories.SavedUserTable | BusinessLogic/DataBase/Repos/UserRepository.swift:50-52 | after a save, an id is stored exactly when some saved user has it, and it holds the record of the last such user |
| Repositories.SavedStatisticsTable | BusinessLogic/DataBase/Repos/StatisticsRepository.swift:50-52 | after a save, an `id` is stored exactly when some saved item has it, and it holds the record of the last such item |
| Repositories.SavedItemIsStored | BusinessLogic/DataBase/Repos/StatisticsRepository.swift:50-52 | with distinct ids, every saved item is stored under its own `id` as its own record |
| Repositories.StoredRecordIsSavedItem | BusinessLogic/DataBase/Repos/StatisticsRepository.swift:29-30 | every stored record reads back as one of the saved items, under that item's `id` |
| Repositories.ListedRecordsAreSavedItems | BusinessLogic/DataBase/Repos/StatisticsRepository.swift:29-30 | listing and converting the stored records gives exactly the saved items, as a multiset, when their ids are distinct |
| Repositories.SavedStatisticsReadBack | BusinessLogic/DataBase/Repos/StatisticsRepository.swift:21-62 | reading back what a save of items with distinct ids stored gives exactly those items, as a multiset |
| Repositories.UserRepository.constructor | BusinessLogic/DataBase/Repos/UserRepository.swift:12-16 | the repository works on the store it is given |
| Repositories.UserRepository.GetUsers | BusinessLogic/DataBase/Repos/UserRepository.swift:21-40 | emits the stored users, one per row, converted back to domain values |
| Repositories.UserRepository.HasCache | BusinessLogic/DataBase/Repos/UserRepository.swift:64-71 | there is a cache exactly when the user table holds a row |
| Repositories.UserRepository.SaveUsers | BusinessLogic/DataBase/Repos/UserRepository.swift:42-62 | the table and the outcome are those of the two-write replace, the table in between is empty once the delete commits, and the statistics table is untouched |
| Repositories.StatisticsRepository.constructor | BusinessLogic/DataBase/Repos/StatisticsRepository.swift:12-16 | the repository works on the store it is given |
| Repositories.StatisticsRepository.GetStatistics | BusinessLogic/DataBase/Repos/StatisticsRepository.swift:21-40 | emits the stored items, one per row, converted back to domain values |
| Repositories.StatisticsRepository.HasCache | BusinessLogic/DataBase/Repos/StatisticsRepository.swift:64-71 | there is a cache exactly when the statistics table holds a row |
| Repositories.StatisticsRepository.SaveStatistics | BusinessLogic/DataBase/Repos/StatisticsRepository.swift:42-62 | the same two-write replace on the statistics table, with the user table untouched |
| Network.Classify | BusinessLogic/Network/Service/NetworkService.swift:39-67 | a fetch succeeds exactly when there is no transport error, the reply is HTTP, the status is in 200...299, a body came and it decodes; it then emits the decoded value, and it never fails with `invalidURL` |
| Network.TransportErrorWins | BusinessLogic/Network/Service/NetworkService.swift:40-43 | a transport error is reported as `networkError`, whatever response came with it |
| Network.NonHTTPIsNoData | BusinessLogic/Network/Service/NetworkService.swift:45-48 | a response that is not HTTP is `noData` |
| Network.StatusOutsideRangeIsServerError | BusinessLogic/Network/Service/NetworkService.swift:50-53 | a status outside 200...299 is `serverError` with that status, even when the body would decode |
| Network.MissingBodyIsNoData | BusinessLogic/Network/Service/NetworkService.swift:55-58 | a successful status without a body is `noData` |
| Network.BodyIsDecoded | BusinessLogic/Network/Service/NetworkService.swift:60-66 | past the guards, the decoder's value is emitted, or its error is wrapped as `decodingError` |
| Network.NetworkService.constructor | BusinessLogic/Network/Service/NetworkService.swift:14-17 | a new service has made no requests and uses the given transport and decoders |
| Network.NetworkService.Fetch | BusinessLogic/Network/Service/NetworkService.swift:29-75 | one request to the endpoint is recorded, and the result is the classification of the reply that request receives |
| Network.NetworkService.FetchUsers | BusinessLogic/Network/Service/NetworkService.swift:19-22 | one request to the users endpoint; a success is the `users` field of the decoded envelope |
| Network.NetworkService.FetchStatistics | BusinessLogic/Network/Service/NetworkService.swift:24-27 | one request to the statistics endpoint; a success is the `statistics` field of the decoded envelope |
| Network.OtherEndpointUnaffected | BusinessLogic/Network/Service/NetworkService.swift:39 | a request to one endpoint does not change which reply the other endpoint's next request receives |
| DateParsing.DaysInMonth | BusinessLogic/DataBase/Services/StatisticsService.swift:93-94 | a month of the Gregorian calendar has 28 to 31 days |
| DateParsing.ToInt32 | BusinessLogic/DataBase/Services/StatisticsService.swift:91 | `%d` reads a 32-bit signed value, and a value already in that range is read unchanged |
| DateParsing.ParseDayMonthYear | BusinessLogic/DataBase/Services/StatisticsService.swift:92-94 | the "ddMMyyyy" formatter only yields days the calendar has |
| DateParsing.ParseDate | BusinessLogic/DataBase/Services/StatisticsService.swift:90-95 | `parseDate` only yields days the calendar has |
| DateParsing.ParseDateArithmetic | BusinessLogic/DataBase/Services/StatisticsService.swift:90-95 | for 0 <= n < 10^8, `parseDate(n)` is the date with day n / 10^6, month (n / 10^4) % 100 and year n % 10^4, when that day exists, and nothing otherwise |
| DateParsing.PaddedToEightDigits | BusinessLogic/DataBase/Services/StatisticsService.swift:91 | `%08d` writes a number below 10^8 as exactly eight digits that read back as the number |
| DateParsing.OutOfRangeRejected | BusinessLogic/DataBase/Services/StatisticsService.swift:90-95 | within the 32 bits `%d` reads, negative integers and integers of nine or more digits never parse |
| DateParsing.SevenDigitDateParses | BusinessLogic/DataBase/Services/StatisticsService.swift:91 | 5092024 is padded to "05092024" and parses as 5 September 2024 |
| DateParsing.WrappedDateParses | BusinessLogic/DataBase/Services/StatisticsService.swift:91 | `%d` reads only the low 32 bits: 4300059320 (2^32 + 5092024) parses as 5 September 2024 |
| Decimal.Format08d | BusinessLogic/DataBase/Services/StatisticsService.swift:91 | `%08d` writes at least eight characters; a non-negative number as digits that read back as it, a negative one as '-' and digits that read back as its magnitude |
| DateParsing.AllNinesRejected | BusinessLogic/DataBase/Services/StatisticsService.swift:93-94 | 99999999 names no day and does not parse |
| DateParsing.LeapDay | BusinessLogic/DataBase/Services/StatisticsService.swift:93-94 | 29 February parses exactly in leap years |
| Aggregation.ItemsOf | BusinessLogic/DataBase/Services/StatisticsService.swift:54 | a user's group holds only that user's items from the input, and is empty exactly when the user has none |
| Aggregation.ItemsOfConcat | BusinessLogic/DataBase/Services/StatisticsService.swift:54 | the group of two item lists joined is their groups joined, so a group keeps input order |
| Aggregation.ItemsOfKeeps | BusinessLogic/DataBase/Services/StatisticsService.swift:54 | every item is in its own user's group |
| Aggregation.Summary | BusinessLogic/DataBase/Services/StatisticsService.swift:57-85 | a group's summary carries its user id, the first user with that id exactly when there is one, and no more view dates than views |
| Aggregation.ViewDatesAtMostViews | BusinessLogic/DataBase/Services/StatisticsService.swift:64-70 | there are no more parsed view dates than counted views |
| Aggregation.AllDatesParse | BusinessLogic/DataBase/Services/StatisticsService.swift:64-70 | when every view date parses, there are as many dates as views |
| Aggregation.MoreViewsIsStrictWeakOrder | BusinessLogic/DataBase/Services/StatisticsService.swift:87 | "more views" is a strict weak order, so sorting by it is well defined |
| Aggregation.SummarizeGroup | BusinessLogic/DataBase/Services/StatisticsService.swift:56-85 | the loop over a user's items yields that group's summary: the counts per type, the parsed view dates and the first user with that id |
| Aggregation.GroupByUser | BusinessLogic/DataBase/Services/StatisticsService.swift:54 | `Dictionary(grouping:by:)` has a key exactly for each user with items, holding that user's items in order |
| Aggregation.SummarizeEntries | BusinessLogic/DataBase/Services/StatisticsService.swift:56-86 | `map` over the groups gives one summary per group, in the groups' order |
| Aggregation.AggregateStatistics | BusinessLogic/DataBase/Services/StatisticsService.swift:50-88 | the result has exactly one summary per user with items, each the summary of that user's group, with views non-increasing |
| Aggregation.SortedSummaries | BusinessLogic/DataBase/Services/StatisticsService.swift:87 | sorting the summaries keeps them the aggregate and orders them by views |
| Aggregation.SummaryPerGroup | BusinessLogic/DataBase/Services/StatisticsService.swift:54-86 | one summary per dictionary entry covers every user with items, once each |
| Aggregation.SummariesPermute | BusinessLogic/DataBase/Services/StatisticsService.swift:87 | a permutation of an aggregate is still an aggregate |
| Services.CacheHitReadsStore | BusinessLogic/DataBase/Services/UserService.swift:24-26 | an unforced load with a stored table emits as many values as rows and leaves the table as it was |
| Services.FetchedLoadStoresValues | BusinessLogic/DataBase/Services/UserService.swift:28-35 | a fetched load on an open store succeeds exactly when both writes commit; it then emits the fetched values and stores exactly their table; otherwise it fails with the store's error, leaving the old table or an empty one |
| Services.JoinLoads | BusinessLogic/DataBase/Services/StatisticsService.swift:41-47 | with both loads in, the result is their aggregate; otherwise it is the statistics error, or failing that the users error |
| Services.UserService.constructor | BusinessLogic/DataBase/Services/UserService.swift:15-21 | the service uses the given network service and repository |
| Services.UserService.LoadUsers | BusinessLogic/DataBase/Services/UserService.swift:23-36 | a cache-first load: the stored users when not forced and cached; otherwise the fetch, then the two-write save, emitting the fetched users or the error; the statistics table is untouched |
| Services.UserService.GetUser | BusinessLogic/DataBase/Services/UserService.swift:38-43 | an unforced load, then the first loaded user with the id, or nothing; a failed load's error passes through |
| Services.StatisticsService.constructor | BusinessLogic/DataBase/Services/StatisticsService.swift:15-23 | the service uses the given network service, repository and user service, all on one store |
| Services.StatisticsService.LoadStatistics | BusinessLogic/DataBase/Services/StatisticsService.swift:25-38 | the same cache-first load for statistics items; the user table is untouched |
| Services.StatisticsService.LoadBoth | BusinessLogic/DataBase/Services/StatisticsService.swift:41-44 | both sub-loads run with the same `forceRefresh`, each a cache-first load of its own table |
| Services.StatisticsService.LoadAggregatedStatistics | BusinessLogic/DataBase/Services/StatisticsService.swift:40-48 | both cache-first loads, then the join: the aggregate of both, or the first error |
| StatisticsScreen.CountWhere | new_prod/Presentation/StatisticsViewController.swift:454-465 | a count of matching elements is at most the number of elements |
| StatisticsScreen.CountedIffPresent | new_prod/Presentation/StatisticsViewController.swift:454-465 | a group's count is positive exactly when some element falls in it |
| StatisticsScreen.DisplayedUsers | new_prod/Presentation/StatisticsViewController.swift:305 | the shown users are no more than the summaries, each is some summary's user, and every summary's user is shown |
| StatisticsScreen.DisplayedUsersInOrder | new_prod/Presentation/StatisticsViewController.swift:305 | the users are shown in summary order, a summary without a user adding none |
| StatisticsScreen.AgeRangeFor | new_prod/Presentation/StatisticsViewController.swift:478-488 | every age lands in one of the seven bars, and in ">50" exactly when it is under 18 or over 50 |
| StatisticsScreen.AgeBar | new_prod/Presentation/StatisticsViewController.swift:29 | an age's bar is the index of its range label in `ageRanges` |
| StatisticsScreen.AgeBarsAscend | new_prod/Presentation/StatisticsViewController.swift:478-488 | from 18 on, an older age never lands in an earlier bar |
| StatisticsScreen.AgeRangesDistinct | new_prod/Presentation/StatisticsViewController.swift:29 | the seven bar labels are distinct |
| StatisticsScreen.Tally | new_prod/Presentation/StatisticsViewController.swift:458-462 | a group's male and female counts add up to the number of users in that group |
| StatisticsScreen.CountAgeGroups | new_prod/Presentation/StatisticsViewController.swift:450-465 | the dictionary has a key exactly for each range some user falls in, holding that range's male and female tallies |
| StatisticsScreen.AgeGroupsAreBars | new_prod/Presentation/StatisticsViewController.swift:454-465 | every key of the dictionary is one of the bar labels |
| StatisticsScreen.BarsShowTallies | new_prod/Presentation/StatisticsViewController.swift:440-441 | each bar's `?? (0, 0)` lookup shows that range's tally, zeros included |
| StatisticsScreen.CountSex | new_prod/Presentation/StatisticsViewController.swift:424-425 | a sex filter's count is at most the number of users |
| StatisticsScreen.GenderCounts | new_prod/Presentation/StatisticsViewController.swift:424-426 | the gender chart's total is at most the number of users |
| StatisticsScreen.GenderCountsDisjoint | new_prod/Presentation/StatisticsViewController.swift:424-426 | the total is the number of users exactly when every user's sex is "M" or "W" |
| StatisticsScreen.BarsAgreeWithGenderChart | new_prod/Presentation/StatisticsViewController.swift:424-465 | over distinct labels covering every user, the bars' male counts sum to the chart's male count and all bars sum to the number of users; the bars' female sum equals the chart's exactly when every sex is "M" or "W" |
| StatisticsScreen.AgeBarsCoverEveryUser | new_prod/Presentation/StatisticsViewController.swift:437-465 | the seven bars together count every user once: males as in the gender chart, and the rest as female |
| StatisticsScreen.PercentDenominator | new_prod/Presentation/StatisticsViewController.swift:452 | the denominator is at least 1 and at least the number of users, and equals it when there are users |
| StatisticsScreen.BarWithinDenominator | new_prod/Presentation/StatisticsViewController.swift:452-471 | no bar's count exceeds the denominator, so no percentage exceeds 100 |
| StatisticsScreen.TwoDigitField | new_prod/Presentation/StatisticsViewController.swift:374 | a field below 100 is written as its two decimal digits |
| StatisticsScreen.DayMonthKey | new_prod/Presentation/StatisticsViewController.swift:372-376 | "dd.MM" is five characters with the dot in the middle |
| StatisticsScreen.DayMonthKeyInjective | new_prod/Presentation/StatisticsViewController.swift:372-376 | two dates share a key exactly when they share day and month, so the year is dropped |
| StatisticsScreen.CountViewsByDay | new_prod/Presentation/StatisticsViewController.swift:347-354 | each key's count is the number of view dates with that key, and every key has a positive count |
| StatisticsScreen.AddViewDates | new_prod/Presentation/StatisticsViewController.swift:350-353 | counting one summary's dates extends the counts to the dates seen so far plus these |
| StatisticsScreen.LexLessTotal | new_prod/Presentation/StatisticsViewController.swift:356 | String `<` orders any two distinct strings one way or the other |
| StatisticsScreen.LexLess | new_prod/Presentation/StatisticsViewController.swift:356 | String `<` is irreflexive and puts a proper prefix first |
| StatisticsScreen.LexLessConcat | new_prod/Presentation/StatisticsViewController.swift:356 | for prefixes of equal length, comparing concatenations compares the prefixes first |
| StatisticsScreen.TwoDigitFieldOrder | new_prod/Presentation/StatisticsViewController.swift:356 | two-digit fields compare as strings the way their numbers compare |
| StatisticsScreen.KeyBeforeIsStrictWeakOrder | new_prod/Presentation/StatisticsViewController.swift:356 | comparing entries by key is a strict weak order |
| StatisticsScreen.KeyOrderIsDayFirst | new_prod/Presentation/StatisticsViewController.swift:356 | one "dd.MM" key sorts before another exactly when its day is smaller, or the days are equal and its month is smaller |
| StatisticsScreen.LateAugustSortsAfterSeptember | new_prod/Presentation/StatisticsViewController.swift:356 | "01.09" sorts before "30.08" |
| StatisticsScreen.ChronoBeforeIsStrictWeakOrder | new_prod/Presentation/StatisticsViewController.swift:356 | comparing entries month first is a strict weak order |
| StatisticsScreen.ChronoOrderIsMonthFirst | new_prod/Presentation/StatisticsViewController.swift:356 | under the corrected order, one key is before another exactly when its month is smaller, or the months are equal and its day is smaller |
| StatisticsScreen.LastSevenBy | new_prod/Presentation/StatisticsViewController.swift:356-357 | the chart holds min(7, keys) distinct entries of the dictionary, sorted, and every key left out is not after the first charted one |
| StatisticsScreen.LineChart | new_prod/Presentation/StatisticsViewController.swift:346-370 | with no view dates, the placeholder; otherwise one to seven keys with strictly ascending string order, each with its exact positive count, and every key left out sorts no later than the first charted one |
| StatisticsScreen.ChartShowsLastSeven | new_prod/Presentation/StatisticsViewController.swift:356-368 | the counts and the sorted, trimmed entries together give a chart that shows the last seven keys |
| StatisticsScreen.DatesGiveKeys | new_prod/Presentation/StatisticsViewController.swift:359 | the chart falls back to the placeholder only when there are no view dates |
| StatisticsScreen.ChronologicalLineChart | new_prod/Presentation/StatisticsViewController.swift:346-370 | the chart with keys in calendar order within a year: the same guarantees (exact positive counts, at most seven points, no key twice, a left-out key no later than the first point), with the last seven days by month and day |
| StatisticsScreen.EmojiForIndex | new_prod/Presentation/StatisticsViewController.swift:415-421 | row 0 gets the cherry (U+1F352), row 1 the strawberry (U+1F353), and every other row none |
| StatisticsScreen.RowFor | new_prod/Presentation/StatisticsViewController.swift:399-413 | a row shows the user's name, age and avatar, has an emoji only in the first two places, and hides its separator at index min(3, count) - 1 |
| StatisticsScreen.TopStats | new_prod/Presentation/StatisticsViewController.swift:389 | the top is min(3, count) summaries taken from the input, no summary more often than the input holds it, with views non-increasing |
| StatisticsScreen.TopStatsOutrankTheRest | new_prod/Presentation/StatisticsViewController.swift:389 | a summary left out of the top has no more views than any summary in it |
| StatisticsScreen.TopRows | new_prod/Presentation/StatisticsViewController.swift:391-396 | there are no more rows than top summaries |
| StatisticsScreen.RowsWhenEveryUserKnown | new_prod/Presentation/StatisticsViewController.swift:391-396 | when every top summary has a user, there is one row per summary, at the summary's index |
| StatisticsScreen.CreateUserRows | new_prod/Presentation/StatisticsViewController.swift:388-413 | the loop builds the rows of the top summaries that have a user, at most three |
| StatisticsScreen.FullTopHidesLastSeparator | new_prod/Presentation/StatisticsViewController.swift:402-410 | when every top summary has a user, exactly the last row hides its separator |
| StatisticsScreen.SkippedUserLeavesSeparator | new_prod/Presentation/StatisticsViewController.swift:402 | a top two whose second summary has no user shows one row, and that row keeps its separator |
| StatisticsScreen.WithSeparators | new_prod/Presentation/StatisticsViewController.swift:410 | the same rows, every separator shown |
| StatisticsScreen.CreateUserRowsHidingLastSeparator | new_prod/Presentation/StatisticsViewController.swift:388-413 | the same rows, but exactly the last row added hides its separator |
| StatisticsScreen.TotalOfConcat | new_prod/Presentation/StatisticsViewController.swift:338 | a total over two lists is the sum of their totals |
| StatisticsScreen.TotalIgnoresOrder | new_prod/Presentation/StatisticsViewController.swift:491-492 | the views, subscriptions and unsubscriptions totals do not depend on the summaries' order |
| StatisticsScreen.ObserverAvatars | new_prod/Presentation/StatisticsViewController.swift:494 | at most three avatars, each the avatar of one of the first three users, and every avatar of those users is shown |
| StatisticsScreen.ObserverAvatarsInOrder | new_prod/Presentation/StatisticsViewController.swift:494 | the avatars of the first three users appear in user order, a user without an avatar adding none |
| StatisticsScreen.LaterUsersShowNoAvatar | new_prod/Presentation/StatisticsViewController.swift:494 | users after the third never add an avatar |
| StatisticsScreen.LostObserverAvatars | new_prod/Presentation/StatisticsViewController.swift:507 | the lost-observers card shows the first min(2, n) of the n observer avatars |
| StatisticsScreen.Total | new_prod/Presentation/StatisticsViewController.swift:491-492 | `reduce(0, +)` over a field is at least each summary's field, and zero exactly when every summary's field is zero |

## Left out

- Layout, fonts, views and the refresh control of the statistics screen are not modelled. Only the numbers and rows it derives are.
- The percentages are left out because they are floating point: the gender chart's shares and the `Int(Double(count) / Double(total) * 100)` of the age bars. The model has the integer counts, the denominator and the bound that keeps each share at or below 100.
- `[weak self]` is not modelled. A service or repository that is gone completes or emits without saving, and `loadAggregatedStatistics` emits `[]`. The model keeps the objects alive.
- `NetworkError.invalidURL` is not modelled. It is raised only when the service is gone, which needs `[weak self]`.
- RxSwift scheduling is left out: `subscribe(on:)`, `observe(on:)` and disposal.
- `zip` timing is left out, with it the cancellation of the other load. The two loads run one after the other. The statistics error is reported when both fail.
- Concurrent readers are not modelled. The windows in which another reader could see the empty table are shown by `SaveUsers`' `between` state and by `Repositories.ReplaceIsNotAtomic`.
- Realm's configuration, schema migration and the "Error opening Realm" log are not modelled. Opening is the `isOpen` flag.
- Database.DatabaseService.UpdateObject: `update: .modified` writes only the changed properties. The row after it equals the row `.all` leaves, so it is modelled as the same upsert.
- Database.DatabaseService.FetchAll: Realm's result order is not modelled. The listed records are any order of the rows.
- Repositories.UserRepository.HasCache: the `catch` that returns `false` is not modelled, because `fetchAll` on the modelled store never throws. The same holds for `StatisticsRepository.hasCache` and for the `catch` of both `get` methods.
- Models.ParseUrl: `URL(string:)` rejects more malformed text than the empty string. Only the empty string is rejected here.
- JSON decoding is a parameter of the network service, so the response formats and the `user_id` key are not modelled. `URLSession` and `APIEndpoint`'s URLs are not modelled either.
- DateParsing.OutOfRangeRejected: stated only for integers within 32 bits. `%d` keeps the low 32 bits of a wider `Int`, so a larger integer can parse as a date; `DateParsing.WrappedDateParses` shows one.
- DateParsing.ParseDayMonthYear: the formatter's locale, time zone, calendar and leniency are not modelled. Dates are day, month and year of the proleptic Gregorian calendar from year 1.
- Swift `String` `<` compares Unicode scalars. It is modelled as character-by-character lexicographic order, which agrees with it on the ASCII digits and dots of chart keys.
- Collections.Sorted is a stable sort. Swift's `sorted` is not guaranteed stable, so every contract that uses it claims only what any order-respecting permutation satisfies, except the element order among equal view counts.
- `BusinessLogic.swift`, which builds the shared services, is not part of this model. Its sharing of one store by both repositories is the services' `Valid()` predicates.
- The visitors card's `"\(totalViews)"` text and the observer cards' texts are not modelled. Only their totals are.

## Findings

| source | as written | input that shows it | evidently intended | confidence | as-written member | corrected member |
|---|---|---|---|---|---|---|
| new_prod/Presentation/StatisticsViewController.swift:402 | the row that hides its separator is picked by its summary's index among the top three and the count of all summaries, not by the rows actually added; the loop skips summaries without a user | two summaries, the first with a user and more views, the second without a user: one row is shown, its index 0 is not `min(2, 1) = 1`, so it keeps its separator | exactly the last row shown hides its separator | high; not executed | StatisticsScreen.SkippedUserLeavesSeparator (on StatisticsScreen.CreateUserRows) | StatisticsScreen.CreateUserRowsHidingLastSeparator |
| new_prod/Presentation/StatisticsViewController.swift:356 | the chart sorts its "dd.MM" keys as strings, which orders by day before month, and `suffix(7)` then keeps the seven greatest days of any month | views on 30 August and on 1 September: the chart shows "01.09" before "30.08"; with eight distinct days in August and one in early September, the September day is the one dropped | the last seven days with views, in calendar order (within one year, because the key drops the year) | medium; not executed | StatisticsScreen.LateAugustSortsAfterSeptember and StatisticsScreen.KeyOrderIsDayFirst (on StatisticsScreen.LineChart) | StatisticsScreen.ChronologicalLineChart with StatisticsScreen.ChronoOrderIsMonthFirst |
