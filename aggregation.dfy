/** `aggregateStatistics`: the statistics items are grouped by user, each
    group is summed per event type and its view dates parsed, the user is
    joined in, and the summaries are sorted by view count, most first. */
module Aggregation {
  import opened Wrappers
  import opened Models
  import opened Collections
  import opened DateParsing

  /** The items about `userId`, in their original order: the group
      `Dictionary(grouping:by:)` forms for that key. */
  function ItemsOf(items: seq<StatisticsItem>, userId: int): (group: seq<StatisticsItem>)
    ensures |group| <= |items|
    ensures forall i :: 0 <= i < |group| ==> group[i].userId == userId && group[i] in items
    ensures group == [] <==> forall j :: 0 <= j < |items| ==> items[j].userId != userId
  {
    if items == [] then []
    else
      var prefix := ItemsOf(items[..|items| - 1], userId);
      var last := items[|items| - 1];
      assert forall j :: 0 <= j < |items| - 1 ==> items[..|items| - 1][j] == items[j];
      if last.userId == userId then prefix + [last] else prefix
  }

  /** Grouping works item by item: the group of a concatenation is the
      concatenation of the groups, so every item of the user is in the group,
      in input order. */
  lemma {:induction false} ItemsOfConcat(a: seq<StatisticsItem>, b: seq<StatisticsItem>, userId: int)
    ensures ItemsOf(a + b, userId) == ItemsOf(a, userId) + ItemsOf(b, userId)
    decreases |b|
  {
    if b == [] {
      assert a + b == a;
    } else {
      var ab, c, x := a + b, b[..|b| - 1], b[|b| - 1];
      var tail := if x.userId == userId then [x] else [];
      assert ab[..|ab| - 1] == a + c;
      assert ab[|ab| - 1] == x;
      assert ItemsOf(ab, userId) == ItemsOf(a + c, userId) + tail;
      assert ItemsOf(b, userId) == ItemsOf(c, userId) + tail;
      ItemsOfConcat(a, c, userId);
    }
  }

  /** No item of the user is left out of the group. */
  lemma {:induction false} ItemsOfKeeps(items: seq<StatisticsItem>, j: nat)
    requires j < |items|
    ensures items[j] in ItemsOf(items, items[j].userId)
  {
    var prefix, last, u := items[..|items| - 1], items[|items| - 1], items[j].userId;
    var group := ItemsOf(prefix, u);
    if j == |items| - 1 {
      assert ItemsOf(items, u) == group + [last];
    } else {
      assert prefix[j] == items[j];
      ItemsOfKeeps(prefix, j);
      assert ItemsOf(items, u) == group + (if last.userId == u then [last] else []);
    }
  }

  /** How many dates the items of type `t` carry, together. */
  function DateCount(items: seq<StatisticsItem>, t: StatisticsType): nat {
    if items == [] then 0
    else
      var last := items[|items| - 1];
      DateCount(items[..|items| - 1], t) + (if last.statType == t then |last.dates| else 0)
  }

  /** The dates of the view items that parse, in item order and, within an
      item, in date order. */
  function ViewDates(items: seq<StatisticsItem>): seq<Date> {
    if items == [] then []
    else
      var last := items[|items| - 1];
      ViewDates(items[..|items| - 1]) + (if last.statType == View then CompactMap(last.dates, ParseDate) else [])
  }

  /** The aggregate of one user's group: `user` is the first user with that id. */
  function Summary(userId: int, group: seq<StatisticsItem>, users: seq<User>): (summary: UserStatistics)
    ensures summary.userId == userId
    ensures summary.user.Some? <==> exists i :: 0 <= i < |users| && users[i].id == userId
    ensures summary.user.Some? ==> summary.user.value in users && summary.user.value.id == userId
    ensures |summary.viewDates| <= summary.viewsCount
  {
    ViewDatesAtMostViews(group);
    UserStatistics(
      userId,
      FirstUserWithId(users, userId),
      DateCount(group, View),
      DateCount(group, Subscription),
      DateCount(group, Unsubscription),
      ViewDates(group))
  }

  /** Every parsed view date is one of the counted views, so there are never
      more view dates than views. */
  lemma {:induction false} ViewDatesAtMostViews(items: seq<StatisticsItem>)
    ensures |ViewDates(items)| <= DateCount(items, View)
  {
    if items != [] {
      ViewDatesAtMostViews(items[..|items| - 1]);
    }
  }

  /** When every view date parses, there are exactly as many view dates as views. */
  lemma {:induction false} AllDatesParse(items: seq<StatisticsItem>)
    requires forall i, k :: 0 <= i < |items| && 0 <= k < |items[i].dates| && items[i].statType == View
               ==> ParseDate(items[i].dates[k]).Some?
    ensures |ViewDates(items)| == DateCount(items, View)
  {
    if items != [] {
      AllDatesParse(items[..|items| - 1]);
    }
  }

  /** `summary` is the summary of its user's group, and that group is not empty. */
  ghost predicate IsGroupSummary(items: seq<StatisticsItem>, users: seq<User>, summary: UserStatistics) {
    var group := ItemsOf(items, summary.userId);
    group != [] && summary == Summary(summary.userId, group, users)
  }

  /** Every user with items has a summary in `result`. */
  ghost predicate CoversItems(items: seq<StatisticsItem>, result: seq<UserStatistics>) {
    forall j :: 0 <= j < |items| ==> exists i :: 0 <= i < |result| && result[i].userId == items[j].userId
  }

  /** No user has two summaries. */
  ghost predicate DistinctUsers(result: seq<UserStatistics>) {
    forall i, j :: 0 <= i < j < |result| ==> result[i].userId != result[j].userId
  }

  /** `result` is the aggregate of `items` joined with `users`: one summary
      per user that has items, and nothing else. */
  ghost predicate Summarizes(items: seq<StatisticsItem>, users: seq<User>, result: seq<UserStatistics>) {
    && (forall i :: 0 <= i < |result| ==> IsGroupSummary(items, users, result[i]))
    && CoversItems(items, result)
    && DistinctUsers(result)
  }

  /** The full promise of `aggregateStatistics`: the summaries, most views first. */
  ghost predicate IsAggregate(items: seq<StatisticsItem>, users: seq<User>, result: seq<UserStatistics>) {
    && Summarizes(items, users, result)
    && forall i, j :: 0 <= i < j < |result| ==> result[i].viewsCount >= result[j].viewsCount
  }

  /** The comparison `sorted` is given: `$0.viewsCount > $1.viewsCount`. */
  function MoreViews(a: UserStatistics, b: UserStatistics): bool {
    a.viewsCount > b.viewsCount
  }

  lemma MoreViewsIsStrictWeakOrder()
    ensures StrictWeakOrder(MoreViews)
  {
    forall a, b ensures NotBothBefore(MoreViews, a, b) {
    }
    forall a, b, c ensures NotBeforeIsTransitive(MoreViews, a, b, c) {
    }
  }

  /** The loop over one group: counters per event type, and the view dates
      that parse appended in order. */
  method SummarizeGroup(userId: int, userItems: seq<StatisticsItem>, users: seq<User>)
    returns (summary: UserStatistics)
    ensures summary == Summary(userId, userItems, users)
  {
    var user := FirstUserWithId(users, userId);
    var viewsCount, subscriptionsCount, unsubscriptionsCount := 0, 0, 0;
    var viewDates: seq<Date> := [];
    for k := 0 to |userItems|
      invariant viewsCount == DateCount(userItems[..k], View)
      invariant subscriptionsCount == DateCount(userItems[..k], Subscription)
      invariant unsubscriptionsCount == DateCount(userItems[..k], Unsubscription)
      invariant viewDates == ViewDates(userItems[..k])
    {
      var item := userItems[k];
      assert userItems[..k + 1][..k] == userItems[..k];
      match item.statType {
        case View =>
          viewsCount := viewsCount + |item.dates|;
          viewDates := viewDates + CompactMap(item.dates, ParseDate);
        case Subscription =>
          subscriptionsCount := subscriptionsCount + |item.dates|;
        case Unsubscription =>
          unsubscriptionsCount := unsubscriptionsCount + |item.dates|;
      }
    }
    assert userItems[..|userItems|] == userItems;
    summary := UserStatistics(userId, user, viewsCount, subscriptionsCount, unsubscriptionsCount, viewDates);
  }

  /** `Dictionary(grouping: items, by: { $0.userId })`. */
  method GroupByUser(items: seq<StatisticsItem>) returns (grouped: map<int, seq<StatisticsItem>>)
    ensures forall u :: u in grouped <==> ItemsOf(items, u) != []
    ensures forall u :: u in grouped ==> grouped[u] == ItemsOf(items, u)
  {
    grouped := map[];
    for i := 0 to |items|
      invariant forall u :: u in grouped <==> ItemsOf(items[..i], u) != []
      invariant forall u :: u in grouped ==> grouped[u] == ItemsOf(items[..i], u)
    {
      assert items[..i + 1][..i] == items[..i];
      var item := items[i];
      var group := if item.userId in grouped then grouped[item.userId] else [];
      grouped := grouped[item.userId := group + [item]];
    }
    assert items[..|items|] == items;
  }

  /** `aggregateStatistics(_:users:)`. The groups come out of the dictionary
      in an unspecified order, and the sort is not stable, so users with equal
      view counts may appear in any order. */
  method AggregateStatistics(items: seq<StatisticsItem>, users: seq<User>) returns (result: seq<UserStatistics>)
    ensures IsAggregate(items, users, result)
  {
    var grouped := GroupByUser(items);
    var entries := EntriesInSomeOrder(grouped);
    var unsorted := SummarizeEntries(entries, users);
    SummaryPerGroup(items, users, grouped, entries, unsorted);
    MoreViewsIsStrictWeakOrder();
    result := Sorted(unsorted, MoreViews);
    SortedSummaries(items, users, unsorted, result);
  }

  /** The `map` over the grouped entries: one summary per entry, in entry order. */
  method SummarizeEntries(entries: seq<(int, seq<StatisticsItem>)>, users: seq<User>)
    returns (summaries: seq<UserStatistics>)
    ensures |summaries| == |entries|
    ensures forall k :: 0 <= k < |entries| ==> summaries[k] == Summary(entries[k].0, entries[k].1, users)
  {
    summaries := [];
    for j := 0 to |entries|
      invariant |summaries| == j
      invariant forall k :: 0 <= k < j ==> summaries[k] == Summary(entries[k].0, entries[k].1, users)
    {
      var (userId, userItems) := entries[j];
      var summary := SummarizeGroup(userId, userItems, users);
      summaries := summaries + [summary];
    }
  }

  /** Sorting the summaries by view count, most first, gives the aggregate. */
  lemma SortedSummaries(items: seq<StatisticsItem>, users: seq<User>, unsorted: seq<UserStatistics>, result: seq<UserStatistics>)
    requires Summarizes(items, users, unsorted)
    requires multiset(result) == multiset(unsorted) && IsSortedBy(result, MoreViews)
    ensures IsAggregate(items, users, result)
  {
    SummariesPermute(items, users, unsorted, result);
  }

  /** Summarizing each group of the grouping, in the order the entries come,
      gives one summary per user that has items. */
  lemma SummaryPerGroup(items: seq<StatisticsItem>, users: seq<User>, grouped: map<int, seq<StatisticsItem>>,
                        entries: seq<(int, seq<StatisticsItem>)>, unsorted: seq<UserStatistics>)
    requires forall u :: u in grouped <==> ItemsOf(items, u) != []
    requires forall u :: u in grouped ==> grouped[u] == ItemsOf(items, u)
    requires forall u :: u in grouped ==> (u, grouped[u]) in entries
    requires forall i :: 0 <= i < |entries| ==> entries[i].0 in grouped && grouped[entries[i].0] == entries[i].1
    requires forall i, j :: 0 <= i < j < |entries| ==> entries[i].0 != entries[j].0
    requires |unsorted| == |entries|
    requires forall k :: 0 <= k < |entries| ==> unsorted[k] == Summary(entries[k].0, entries[k].1, users)
    ensures Summarizes(items, users, unsorted)
  {
    forall j | 0 <= j < |items| ensures exists i :: 0 <= i < |unsorted| && unsorted[i].userId == items[j].userId {
      var u := items[j].userId;
      assert items[j] in items;
      assert u in grouped;
      var k :| 0 <= k < |entries| && entries[k] == (u, grouped[u]);
      assert unsorted[k].userId == u;
    }
  }

  /** Reordering a set of summaries leaves a set of summaries. */
  lemma SummariesPermute(items: seq<StatisticsItem>, users: seq<User>, a: seq<UserStatistics>, b: seq<UserStatistics>)
    requires Summarizes(items, users, a) && multiset(a) == multiset(b)
    ensures Summarizes(items, users, b)
  {
    forall i | 0 <= i < |b| ensures IsGroupSummary(items, users, b[i]) {
      assert b[i] in multiset(a);
    }
    CoverPermutes(items, a, b);
    DistinctUsersPermute(a, b);
  }

  lemma CoverPermutes(items: seq<StatisticsItem>, a: seq<UserStatistics>, b: seq<UserStatistics>)
    requires CoversItems(items, a) && multiset(a) == multiset(b)
    ensures CoversItems(items, b)
  {
    forall j | 0 <= j < |items| ensures exists i :: 0 <= i < |b| && b[i].userId == items[j].userId {
      var k :| 0 <= k < |a| && a[k].userId == items[j].userId;
      assert a[k] in multiset(b);
      var i :| 0 <= i < |b| && b[i] == a[k];
      assert b[i].userId == items[j].userId;
    }
    assert forall j :: 0 <= j < |items| ==> exists i :: 0 <= i < |b| && b[i].userId == items[j].userId;
  }

  lemma DistinctUsersPermute(a: seq<UserStatistics>, b: seq<UserStatistics>)
    requires DistinctUsers(a) && multiset(a) == multiset(b)
    ensures DistinctUsers(b)
  {
    assert Distinct(a);
    PermutationKeepsDistinct(a, b);
    forall i, j | 0 <= i < j < |b| ensures b[i].userId != b[j].userId {
      assert b[i] in multiset(a) && b[j] in multiset(a);
      var p :| 0 <= p < |a| && a[p] == b[i];
      var q :| 0 <= q < |a| && a[q] == b[j];
      assert p != q;
    }
  }
}
