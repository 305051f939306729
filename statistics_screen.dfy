/** The integer tallies `StatisticsViewController` draws from the aggregate:
    the users shown, the age bars, the daily view chart, the top visitors and
    the totals on the cards. Layout, drawing and the floating-point
    percentages are not modelled. */
module StatisticsScreen {
  import opened Wrappers
  import opened Models
  import opened Collections
  import opened Decimal
  import opened Aggregation

  /** `Constants.maxTopVisitors`. */
  const MaxTopVisitors: nat := 3

  /** `Constants.ageRanges`, in the order the bars are drawn. */
  const AgeRanges: seq<string> := ["18-21", "22-25", "26-30", "31-35", "36-40", "40-50", ">50"]

  function Min(a: int, b: int): int {
    if a <= b then a else b
  }

  // ---------------------------------------------------------------------
  // Counting by label

  /** How many elements of `xs` the labelling `f` gives `group`. */
  function CountWhere<T>(xs: seq<T>, f: T -> string, group: string): (n: nat)
    ensures n <= |xs|
  {
    if xs == [] then 0
    else CountWhere(xs[..|xs| - 1], f, group) + (if f(xs[|xs| - 1]) == group then 1 else 0)
  }

  /** Counting one element further adds it to its own label only. */
  lemma CountStep<T>(xs: seq<T>, i: nat, f: T -> string, group: string)
    requires i < |xs|
    ensures CountWhere(xs[..i + 1], f, group) == CountWhere(xs[..i], f, group) + (if f(xs[i]) == group then 1 else 0)
  {
    assert xs[..i + 1][..i] == xs[..i];
  }

  lemma CountSnoc<T>(xs: seq<T>, x: T, f: T -> string, group: string)
    ensures CountWhere(xs + [x], f, group) == CountWhere(xs, f, group) + (if f(x) == group then 1 else 0)
  {
    assert (xs + [x])[..|xs|] == xs;
  }

  /** A label is counted exactly when some element carries it. */
  lemma {:induction false} CountedIffPresent<T>(xs: seq<T>, f: T -> string, group: string)
    ensures CountWhere(xs, f, group) > 0 <==> exists i :: 0 <= i < |xs| && f(xs[i]) == group
  {
    if xs != [] {
      var prefix := xs[..|xs| - 1];
      CountedIffPresent(prefix, f, group);
      if exists i :: 0 <= i < |xs| && f(xs[i]) == group {
        var i :| 0 <= i < |xs| && f(xs[i]) == group;
        if i < |prefix| {
          assert prefix[i] == xs[i];
        }
      }
      if exists i :: 0 <= i < |prefix| && f(prefix[i]) == group {
        var i :| 0 <= i < |prefix| && f(prefix[i]) == group;
        assert xs[i] == prefix[i];
      }
    }
  }

  /** How often `x` occurs among `labels`. */
  function Occurrences(labels: seq<string>, x: string): nat {
    if labels == [] then 0 else (if labels[0] == x then 1 else 0) + Occurrences(labels[1..], x)
  }

  lemma {:induction false} OccursNowhere(labels: seq<string>, x: string)
    requires x !in labels
    ensures Occurrences(labels, x) == 0
  {
    if labels != [] {
      assert x !in labels[1..];
      OccursNowhere(labels[1..], x);
    }
  }

  lemma {:induction false} OccursOnce(labels: seq<string>, x: string)
    requires Distinct(labels) && x in labels
    ensures Occurrences(labels, x) == 1
  {
    assert Distinct(labels[1..]) by {
      forall i, j | 0 <= i < j < |labels[1..]| ensures labels[1..][i] != labels[1..][j] {
        assert labels[1..][i] == labels[i + 1] && labels[1..][j] == labels[j + 1];
      }
    }
    if labels[0] == x {
      assert x !in labels[1..] by {
        forall i | 0 <= i < |labels[1..]| ensures labels[1..][i] != x {
          assert labels[1..][i] == labels[i + 1];
        }
      }
      OccursNowhere(labels[1..], x);
    } else {
      assert x in labels[1..];
      OccursOnce(labels[1..], x);
    }
  }

  // ---------------------------------------------------------------------
  // Users shown

  function UserOf(stat: UserStatistics): Option<User> {
    stat.user
  }

  /** `stats.compactMap { $0.user }`: the users of the summaries that have one, in order. */
  function DisplayedUsers(statistics: seq<UserStatistics>): (users: seq<User>)
    ensures |users| <= |statistics|
    ensures forall i :: 0 <= i < |users| ==> exists j :: 0 <= j < |statistics| && statistics[j].user == Some(users[i])
    ensures (forall j :: 0 <= j < |statistics| ==> statistics[j].user.Some?) ==> |users| == |statistics|
    ensures forall j :: 0 <= j < |statistics| && statistics[j].user.Some? ==> statistics[j].user.value in users
  {
    forall j | 0 <= j < |statistics| && statistics[j].user.Some?
      ensures statistics[j].user.value in CompactMap(statistics, UserOf)
    {
      CompactMapKeeps(statistics, UserOf, j);
    }
    CompactMap(statistics, UserOf)
  }

  /** Each summary's user is shown at the summary's own place: after the
      users of the summaries before it and before those of the ones after. */
  lemma DisplayedUsersInOrder(before: seq<UserStatistics>, stat: UserStatistics, after: seq<UserStatistics>)
    ensures DisplayedUsers(before + [stat] + after)
            == DisplayedUsers(before) + (if stat.user.Some? then [stat.user.value] else []) + DisplayedUsers(after)
  {
    CompactMapConcat(before + [stat], after, UserOf);
    CompactMapConcat(before, [stat], UserOf);
    CompactMapOne(stat, UserOf);
  }

  // ---------------------------------------------------------------------
  // Age bars

  /** `ageRangeFor(age:)`. Ages under 18 fall through to ">50" as well. */
  function AgeRangeFor(age: int): (bar: string)
    ensures bar in AgeRanges
    ensures bar == ">50" <==> age < 18 || 50 < age
  {
    if 18 <= age <= 21 then "18-21"
    else if 22 <= age <= 25 then "22-25"
    else if 26 <= age <= 30 then "26-30"
    else if 31 <= age <= 35 then "31-35"
    else if 36 <= age <= 40 then "36-40"
    else if 41 <= age <= 50 then "40-50"
    else ">50"
  }

  function UserAgeRange(user: User): string {
    AgeRangeFor(user.age)
  }

  /** The position of `ageRangeFor(age:)`'s label among the bars. */
  function AgeBar(age: int): (i: nat)
    ensures i < |AgeRanges| && AgeRanges[i] == AgeRangeFor(age)
  {
    IndexOf(AgeRanges, AgeRangeFor(age))
  }

  /** From 18 on, an older user never lands in an earlier bar. */
  lemma AgeBarsAscend(a: int, b: int)
    requires 18 <= a <= b
    ensures AgeBar(a) <= AgeBar(b)
  {
    AgeBarIs(a);
    AgeBarIs(b);
  }

  /** The bar of an age from 18 on, counted by the upper bounds of the ranges. */
  lemma AgeBarIs(age: int)
    requires 18 <= age
    ensures AgeBar(age) == if age <= 21 then 0 else if age <= 25 then 1 else if age <= 30 then 2
      else if age <= 35 then 3 else if age <= 40 then 4 else if age <= 50 then 5 else 6
  {
    var k := if age <= 21 then 0 else if age <= 25 then 1 else if age <= 30 then 2
      else if age <= 35 then 3 else if age <= 40 then 4 else if age <= 50 then 5 else 6;
    assert AgeRanges[k] == AgeRangeFor(age);
    AgeRangesDistinct();
  }

  /** The seven labels differ, so no user is counted twice. */
  lemma AgeRangesDistinct()
    ensures Distinct(AgeRanges)
  {
    forall i, j | 0 <= i < j < |AgeRanges| ensures AgeRanges[i] != AgeRanges[j] {
      assert AgeRanges[i][..2] != AgeRanges[j][..2] || AgeRanges[i][3..] != AgeRanges[j][3..];
    }
  }

  /** The `(male:, female:)` pair `calculateAgeGroups()` counts. */
  datatype Counts = Counts(male: nat, female: nat)

  /** The counts for `group`: sex "M" is male, any other value female. */
  function Tally(users: seq<User>, group: string): (c: Counts)
    ensures c.male + c.female == CountWhere(users, UserAgeRange, group)
  {
    if users == [] then Counts(0, 0)
    else
      var c := Tally(users[..|users| - 1], group);
      var user := users[|users| - 1];
      if AgeRangeFor(user.age) != group then c
      else if user.sex == "M" then Counts(c.male + 1, c.female)
      else Counts(c.male, c.female + 1)
  }

  lemma TallyStep(users: seq<User>, i: nat, group: string)
    requires i < |users|
    ensures var c := Tally(users[..i], group);
      Tally(users[..i + 1], group)
      == if AgeRangeFor(users[i].age) != group then c
         else if users[i].sex == "M" then Counts(c.male + 1, c.female)
         else Counts(c.male, c.female + 1)
  {
    assert users[..i + 1][..i] == users[..i];
  }

  /** `groups` holds an entry for each range some of `users` falls in, with
      that range's counts. */
  ghost predicate CountsAgeGroups(users: seq<User>, groups: map<string, Counts>) {
    && (forall group :: group in groups <==> CountWhere(users, UserAgeRange, group) > 0)
    && (forall group :: group in groups ==> groups[group] == Tally(users, group))
  }

  /** Counting user `i` bumps one side of its own range's entry. */
  lemma CountOneMoreUser(users: seq<User>, i: nat, groups: map<string, Counts>, current: Counts)
    requires i < |users| && CountsAgeGroups(users[..i], groups)
    requires var ageRange := AgeRangeFor(users[i].age);
      var c := if ageRange in groups then groups[ageRange] else Counts(0, 0);
      current == if users[i].sex == "M" then Counts(c.male + 1, c.female) else Counts(c.male, c.female + 1)
    ensures CountsAgeGroups(users[..i + 1], groups[AgeRangeFor(users[i].age) := current])
  {
    var updated := groups[AgeRangeFor(users[i].age) := current];
    forall group
      ensures group in updated <==> CountWhere(users[..i + 1], UserAgeRange, group) > 0
      ensures group in updated ==> updated[group] == Tally(users[..i + 1], group)
    {
      CountStep(users, i, UserAgeRange, group);
      TallyStep(users, i, group);
    }
  }

  /** The counting loop of `calculateAgeGroups()`. */
  method CountAgeGroups(users: seq<User>) returns (groups: map<string, Counts>)
    ensures CountsAgeGroups(users, groups)
  {
    groups := map[];
    for i := 0 to |users|
      invariant CountsAgeGroups(users[..i], groups)
    {
      var user := users[i];
      var ageRange := AgeRangeFor(user.age);
      var current := if ageRange in groups then groups[ageRange] else Counts(0, 0);
      if user.sex == "M" {
        current := current.(male := current.male + 1);
      } else {
        current := current.(female := current.female + 1);
      }
      CountOneMoreUser(users, i, groups, current);
      groups := groups[ageRange := current];
    }
    assert users[..|users|] == users;
  }

  /** Every entry is one of the seven bars. */
  lemma AgeGroupsAreBars(users: seq<User>, groups: map<string, Counts>, group: string)
    requires CountsAgeGroups(users, groups) && group in groups
    ensures group in AgeRanges
  {
    CountedIffPresent(users, UserAgeRange, group);
  }

  /** `ageGroups[ageRange] ?? (male: 0, female: 0)` in `updateAgeBars()`. */
  function BarOf(groups: map<string, Counts>, bar: string): Counts {
    if bar in groups then groups[bar] else Counts(0, 0)
  }

  /** Each bar shows its range's counts, zero for a range nobody falls in. */
  lemma BarsShowTallies(users: seq<User>, groups: map<string, Counts>, bar: string)
    requires CountsAgeGroups(users, groups)
    ensures BarOf(groups, bar) == Tally(users, bar)
  {
    if bar !in groups {
      var c := Tally(users, bar);
      assert c.male + c.female == 0;
    }
  }

  /** How many of `users` have exactly the sex `sex`. */
  function CountSex(users: seq<User>, sex: string): (n: nat)
    ensures n <= |users|
  {
    if users == [] then 0
    else CountSex(users[..|users| - 1], sex) + (if users[|users| - 1].sex == sex then 1 else 0)
  }

  /** The counts of `updateGenderChart()`: "M" is male and only "W" is female. */
  function GenderCounts(users: seq<User>): (c: Counts)
    ensures c.male + c.female <= |users|
  {
    GenderCountsDisjoint(users);
    Counts(CountSex(users, "M"), CountSex(users, "W"))
  }

  /** "M" and "W" never both count one user, and the chart counts every user
      exactly when each user's sex is "M" or "W". */
  lemma {:induction false} GenderCountsDisjoint(users: seq<User>)
    ensures CountSex(users, "M") + CountSex(users, "W") <= |users|
    ensures CountSex(users, "M") + CountSex(users, "W") == |users|
            <==> forall i :: 0 <= i < |users| ==> users[i].sex == "M" || users[i].sex == "W"
  {
    if users != [] {
      var prefix := users[..|users| - 1];
      GenderCountsDisjoint(prefix);
      assert forall i :: 0 <= i < |prefix| ==> prefix[i] == users[i];
    }
  }

  /** The bars count every sex other than "M" as female, the gender chart only
      "W": across the bars the male counts add up to the chart's, and the
      female counts to at least the chart's, equal exactly when every user is
      "M" or "W". */
  lemma {:induction false} BarsAgreeWithGenderChart(labels: seq<string>, users: seq<User>)
    requires Distinct(labels)
    requires forall i :: 0 <= i < |users| ==> UserAgeRange(users[i]) in labels
    ensures MaleTotal(labels, users) == GenderCounts(users).male
    ensures MaleTotal(labels, users) + FemaleTotal(labels, users) == |users|
    ensures FemaleTotal(labels, users) >= GenderCounts(users).female
    ensures FemaleTotal(labels, users) == GenderCounts(users).female
            <==> forall i :: 0 <= i < |users| ==> users[i].sex == "M" || users[i].sex == "W"
    decreases |users|
  {
    if users == [] {
      EmptyTotals(labels);
    } else {
      var prefix, last := users[..|users| - 1], users[|users| - 1];
      assert forall i :: 0 <= i < |prefix| ==> prefix[i] == users[i];
      BarsAgreeWithGenderChart(labels, prefix);
      TotalsGrow(labels, prefix, last);
      OccursOnce(labels, UserAgeRange(last));
      assert users == prefix + [last];
      if !(last.sex == "M" || last.sex == "W") {
        assert !(forall i :: 0 <= i < |users| ==> users[i].sex == "M" || users[i].sex == "W") by {
          assert users[|users| - 1] == last;
        }
      }
    }
  }

  /** The bars' male counts added up. */
  function MaleTotal(labels: seq<string>, users: seq<User>): nat {
    if labels == [] then 0 else Tally(users, labels[0]).male + MaleTotal(labels[1..], users)
  }

  /** The bars' female counts added up. */
  function FemaleTotal(labels: seq<string>, users: seq<User>): nat {
    if labels == [] then 0 else Tally(users, labels[0]).female + FemaleTotal(labels[1..], users)
  }

  lemma {:induction false} EmptyTotals(labels: seq<string>)
    ensures MaleTotal(labels, []) == 0 && FemaleTotal(labels, []) == 0
  {
    if labels != [] {
      EmptyTotals(labels[1..]);
    }
  }

  /** One user more adds to each occurrence of its bar, on its side. */
  lemma {:induction false} TotalsGrow(labels: seq<string>, users: seq<User>, user: User)
    ensures var k := Occurrences(labels, UserAgeRange(user));
      && MaleTotal(labels, users + [user]) == MaleTotal(labels, users) + (if user.sex == "M" then k else 0)
      && FemaleTotal(labels, users + [user]) == FemaleTotal(labels, users) + (if user.sex == "M" then 0 else k)
  {
    var grown := users + [user];
    assert grown[..|grown| - 1] == users;
    if labels != [] {
      TotalsGrow(labels[1..], users, user);
    }
  }

  /** Every user is counted in exactly one of the seven bars, as male or as
      female; the male counts are the gender chart's, the female counts are
      the gender chart's exactly when no user has a sex other than "M" or "W". */
  lemma AgeBarsCoverEveryUser(users: seq<User>)
    ensures MaleTotal(AgeRanges, users) + FemaleTotal(AgeRanges, users) == |users|
    ensures MaleTotal(AgeRanges, users) == GenderCounts(users).male
    ensures FemaleTotal(AgeRanges, users) == GenderCounts(users).female
            <==> forall i :: 0 <= i < |users| ==> users[i].sex == "M" || users[i].sex == "W"
  {
    AgeRangesDistinct();
    BarsAgreeWithGenderChart(AgeRanges, users);
  }

  /** `max(users.count, 1)`: the denominator of the bar percentages. */
  function PercentDenominator(userCount: nat): (d: nat)
    ensures 1 <= d && userCount <= d
    ensures userCount > 0 ==> d == userCount
  {
    if userCount > 1 then userCount else 1
  }

  /** No bar's male and female counts together exceed the denominator, so no
      share exceeds the whole. */
  lemma BarWithinDenominator(users: seq<User>, group: string)
    ensures Tally(users, group).male + Tally(users, group).female <= PercentDenominator(|users|)
  {
  }

  // ---------------------------------------------------------------------
  // Daily views chart

  /** A `DateFormatter` field "dd" or "MM": the number zero-padded to two digits. */
  function TwoDigitField(n: nat): (s: string)
    ensures n < 100 ==> s == [DigitChar(n / 10), DigitChar(n % 10)]
  {
    var s := ZeroPadded(NatToString(n), 2);
    if n < 100 then
      PaddedToTwoDigits(n);
      s
    else s
  }

  lemma PaddedToTwoDigits(n: nat)
    requires n < 100
    ensures ZeroPadded(NatToString(n), 2) == [DigitChar(n / 10), DigitChar(n % 10)]
  {
    if n < 10 {
      assert NatToString(n) == [DigitChar(n)];
      assert Zeros(1) == ['0'];
    } else {
      assert NatToString(n / 10) == [DigitChar(n / 10)];
      assert NatToString(n) == [DigitChar(n / 10)] + [DigitChar(n % 10)];
    }
  }

  /** `formatDate(_:)`: "dd.MM". The year is dropped. */
  function DayMonthKey(date: Date): (key: string)
    ensures date.day < 100 && date.month < 100 ==> |key| == 5 && key[2] == '.'
  {
    TwoDigitField(date.day) + "." + TwoDigitField(date.month)
  }

  /** Two dates share a key exactly when they share day and month: the same
      day of different years lands in one point of the chart. */
  lemma DayMonthKeyInjective(a: Date, b: Date)
    requires a.day < 100 && a.month < 100 && b.day < 100 && b.month < 100
    ensures DayMonthKey(a) == DayMonthKey(b) <==> a.day == b.day && a.month == b.month
  {
    if DayMonthKey(a) == DayMonthKey(b) {
      var ka, kb := DayMonthKey(a), DayMonthKey(b);
      assert ka[0] == kb[0] && ka[1] == kb[1] && ka[3] == kb[3] && ka[4] == kb[4];
      TwoDigitFieldInjective(a.day, b.day);
      TwoDigitFieldInjective(a.month, b.month);
    }
  }

  lemma TwoDigitFieldInjective(x: nat, y: nat)
    requires x < 100 && y < 100
    requires TwoDigitField(x)[0] == TwoDigitField(y)[0] && TwoDigitField(x)[1] == TwoDigitField(y)[1]
    ensures x == y
  {
    assert DigitValue(DigitChar(x / 10)) == DigitValue(DigitChar(y / 10));
    assert DigitValue(DigitChar(x % 10)) == DigitValue(DigitChar(y % 10));
  }

  /** Every view date of every summary, in order. */
  function AllViewDates(statistics: seq<UserStatistics>): seq<Date> {
    if statistics == [] then []
    else AllViewDates(statistics[..|statistics| - 1]) + statistics[|statistics| - 1].viewDates
  }

  /** `dateViews[key, default: 0]`. */
  function ValueOr(m: map<string, nat>, key: string): nat {
    if key in m then m[key] else 0
  }

  /** `dateViews` holds, under each "dd.MM" key, the number of `dates`
      with that key, and no key without one. */
  ghost predicate CountsDays(dates: seq<Date>, dateViews: map<string, nat>) {
    && (forall key :: ValueOr(dateViews, key) == CountWhere(dates, DayMonthKey, key))
    && (forall key :: key in dateViews ==> dateViews[key] > 0)
  }

  /** `dateViews[key, default: 0] += 1` counts one date more. */
  lemma CountOneMoreDate(dates: seq<Date>, date: Date, dateViews: map<string, nat>)
    requires CountsDays(dates, dateViews)
    ensures CountsDays(dates + [date], dateViews[DayMonthKey(date) := ValueOr(dateViews, DayMonthKey(date)) + 1])
  {
    var dateKey := DayMonthKey(date);
    var updated := dateViews[dateKey := ValueOr(dateViews, dateKey) + 1];
    forall key ensures ValueOr(updated, key) == CountWhere(dates + [date], DayMonthKey, key) {
      CountSnoc(dates, date, DayMonthKey, key);
    }
  }

  lemma CountNextDate(counted: seq<Date>, dates: seq<Date>, k: nat, dateViews: map<string, nat>)
    requires k < |dates| && CountsDays(counted + dates[..k], dateViews)
    ensures CountsDays(counted + dates[..k + 1], dateViews[DayMonthKey(dates[k]) := ValueOr(dateViews, DayMonthKey(dates[k])) + 1])
  {
    assert counted + dates[..k + 1] == (counted + dates[..k]) + [dates[k]];
    CountOneMoreDate(counted + dates[..k], dates[k], dateViews);
  }

  /** The inner counting loop of `updateLineChart()`: one summary's view dates. */
  method AddViewDates(dateViews: map<string, nat>, dates: seq<Date>, ghost counted: seq<Date>)
    returns (updated: map<string, nat>)
    requires CountsDays(counted, dateViews)
    ensures CountsDays(counted + dates, updated)
  {
    updated := dateViews;
    assert counted + dates[..0] == counted;
    for k := 0 to |dates|
      invariant CountsDays(counted + dates[..k], updated)
    {
      var key := DayMonthKey(dates[k]);
      CountNextDate(counted, dates, k, updated);
      updated := updated[key := ValueOr(updated, key) + 1];
    }
    assert dates[..|dates|] == dates;
  }

  /** The counting loops of `updateLineChart()`. */
  method CountViewsByDay(statistics: seq<UserStatistics>) returns (dateViews: map<string, nat>)
    ensures CountsDays(AllViewDates(statistics), dateViews)
  {
    dateViews := map[];
    for i := 0 to |statistics|
      invariant CountsDays(AllViewDates(statistics[..i]), dateViews)
    {
      assert statistics[..i + 1][..i] == statistics[..i];
      dateViews := AddViewDates(dateViews, statistics[i].viewDates, AllViewDates(statistics[..i]));
    }
    assert statistics[..|statistics|] == statistics;
  }

  /** Swift's `<` on the chart's keys: character by character, a proper
      prefix first. */
  predicate LexLess(a: string, b: string): (less: bool)
    ensures less ==> a != b
    ensures |a| < |b| && a == b[..|a|] ==> less
  {
    if a == [] then b != []
    else b != [] && (a[0] < b[0] || (a[0] == b[0] && LexLess(a[1..], b[1..])))
  }

  lemma {:induction false} LexLessAsymmetric(a: string, b: string)
    ensures !(LexLess(a, b) && LexLess(b, a))
  {
    if a != [] && b != [] && a[0] == b[0] {
      LexLessAsymmetric(a[1..], b[1..]);
    }
  }

  lemma {:induction false} LexLessTransitive(a: string, b: string, c: string)
    requires LexLess(a, b) && LexLess(b, c)
    ensures LexLess(a, c)
  {
    if a != [] && a[0] == b[0] && b[0] == c[0] {
      LexLessTransitive(a[1..], b[1..], c[1..]);
    }
  }

  lemma {:induction false} LexLessTotal(a: string, b: string)
    ensures a == b || LexLess(a, b) || LexLess(b, a)
  {
    if a != [] && b != [] && a[0] == b[0] {
      LexLessTotal(a[1..], b[1..]);
      if a[1..] == b[1..] {
        assert a == [a[0]] + a[1..] && b == [b[0]] + b[1..];
      }
    }
  }

  /** After a common length, comparison moves on to what follows. */
  lemma {:induction false} LexLessConcat(p1: string, q1: string, p2: string, q2: string)
    requires |p1| == |p2|
    ensures LexLess(p1 + q1, p2 + q2) <==> LexLess(p1, p2) || (p1 == p2 && LexLess(q1, q2))
  {
    if p1 != [] {
      assert (p1 + q1)[1..] == p1[1..] + q1 && (p2 + q2)[1..] == p2[1..] + q2;
      LexLessConcat(p1[1..], q1, p2[1..], q2);
      if p1[0] == p2[0] && p1[1..] == p2[1..] {
        assert p1 == [p1[0]] + p1[1..] && p2 == [p2[0]] + p2[1..];
      }
    } else {
      assert p1 + q1 == q1 && p2 + q2 == q2;
    }
  }

  /** The `<` above orders any keys the way `sorted(by:)` requires: asymmetric,
      with "not before" transitive. */
  lemma LexLessOrders(a: string, b: string, c: string)
    ensures LexLess(a, b) ==> !LexLess(b, a)
    ensures !LexLess(b, a) && !LexLess(c, b) ==> !LexLess(c, a)
  {
    LexLessAsymmetric(a, b);
    LexLessTotal(a, b);
    LexLessTotal(b, c);
    if !LexLess(b, a) && !LexLess(c, b) && a != b && b != c {
      LexLessTransitive(a, b, c);
      LexLessAsymmetric(a, c);
    }
  }

  /** Two-digit fields compare as the numbers they write. */
  lemma TwoDigitFieldOrder(x: nat, y: nat)
    requires x < 100 && y < 100
    ensures LexLess(TwoDigitField(x), TwoDigitField(y)) <==> x < y
  {
    var s, t := TwoDigitField(x), TwoDigitField(y);
    var x1, x0, y1, y0 := x / 10, x % 10, y / 10, y % 10;
    LexLessOfPairs(DigitChar(x1), DigitChar(x0), DigitChar(y1), DigitChar(y0));
    DigitCharOrder(x1, y1);
    DigitCharOrder(x0, y0);
    TwoDigitCompare(x, y);
  }

  /** Two characters compare first by the first, then by the second. */
  lemma LexLessOfPairs(a1: char, a0: char, b1: char, b0: char)
    ensures LexLess([a1, a0], [b1, b0]) <==> a1 < b1 || (a1 == b1 && a0 < b0)
  {
    var empty: string := [];
    assert [a0][1..] == empty && [b0][1..] == empty && !LexLess(empty, empty);
    assert LexLess([a0], [b0]) <==> a0 < b0;
    assert [a1, a0][1..] == [a0] && [b1, b0][1..] == [b0];
  }

  lemma TwoDigitCompare(x: nat, y: nat)
    requires x < 100 && y < 100
    ensures x < y <==> x / 10 < y / 10 || (x / 10 == y / 10 && x % 10 < y % 10)
  {
    assert x == 10 * (x / 10) + x % 10 && y == 10 * (y / 10) + y % 10;
  }

  lemma DigitCharOrder(p: nat, q: nat)
    requires p < 10 && q < 10
    ensures DigitChar(p) < DigitChar(q) <==> p < q
    ensures DigitChar(p) == DigitChar(q) <==> p == q
  {
    assert DigitChar(p) as int == '0' as int + p && DigitChar(q) as int == '0' as int + q;
  }

  /** The chart's order on entries: `$0.key < $1.key`. */
  predicate KeyBefore(a: (string, nat), b: (string, nat)) {
    LexLess(a.0, b.0)
  }

  lemma KeyBeforeIsStrictWeakOrder()
    ensures StrictWeakOrder(KeyBefore)
  {
    forall a, b ensures NotBothBefore(KeyBefore, a, b) {
      LexLessOrders(a.0, b.0, b.0);
    }
    forall a, b, c ensures NotBeforeIsTransitive(KeyBefore, a, b, c) {
      LexLessOrders(a.0, b.0, c.0);
    }
  }

  /** As written, the keys sort by day of month first and by month only
      between equal days. */
  lemma KeyOrderIsDayFirst(a: Date, b: Date)
    requires a.day < 100 && a.month < 100 && b.day < 100 && b.month < 100
    ensures LexLess(DayMonthKey(a), DayMonthKey(b)) <==> a.day < b.day || (a.day == b.day && a.month < b.month)
  {
    var da, db := TwoDigitField(a.day), TwoDigitField(b.day);
    var ma, mb := TwoDigitField(a.month), TwoDigitField(b.month);
    LexLessConcat(da + ".", ma, db + ".", mb);
    LexLessConcat(da, ".", db, ".");
    LexLessAsymmetric(".", ".");
    TwoDigitFieldOrder(a.day, b.day);
    TwoDigitFieldOrder(a.month, b.month);
    if da == db {
      TwoDigitFieldInjective(a.day, b.day);
    }
    if a.day == b.day && da + "." == db + "." && ma == mb {
      TwoDigitFieldInjective(a.month, b.month);
    }
  }

  /** A view on the 30th of August sorts after one on the 1st of September. */
  lemma LateAugustSortsAfterSeptember(august: Date, september: Date)
    requires august == Date(30, 8, 2024) && september == Date(1, 9, 2024)
    ensures LexLess(DayMonthKey(september), DayMonthKey(august))
  {
    KeyOrderIsDayFirst(september, august);
  }

  /** A key read month first: "dd.MM" becomes "MMdd". */
  function ChronoKey(key: string): string {
    if |key| == 5 then key[3..] + key[..2] else key
  }

  /** The evidently intended order of the chart: by month, then by day. */
  predicate ChronoBefore(a: (string, nat), b: (string, nat)) {
    LexLess(ChronoKey(a.0), ChronoKey(b.0))
  }

  lemma ChronoBeforeIsStrictWeakOrder()
    ensures StrictWeakOrder(ChronoBefore)
  {
    forall a, b ensures NotBothBefore(ChronoBefore, a, b) {
      LexLessOrders(ChronoKey(a.0), ChronoKey(b.0), ChronoKey(b.0));
    }
    forall a, b, c ensures NotBeforeIsTransitive(ChronoBefore, a, b, c) {
      LexLessOrders(ChronoKey(a.0), ChronoKey(b.0), ChronoKey(c.0));
    }
  }

  /** Read month first, the keys of two dates compare as the dates do within
      a year. */
  lemma ChronoOrderIsMonthFirst(a: Date, b: Date, m: nat, n: nat)
    requires a.day < 100 && a.month < 100 && b.day < 100 && b.month < 100
    ensures ChronoBefore((DayMonthKey(a), m), (DayMonthKey(b), n)) <==> a.month < b.month || (a.month == b.month && a.day < b.day)
  {
    var da, db := TwoDigitField(a.day), TwoDigitField(b.day);
    var ma, mb := TwoDigitField(a.month), TwoDigitField(b.month);
    var ka, kb := DayMonthKey(a), DayMonthKey(b);
    assert ka[3..] == ma && ka[..2] == da && kb[3..] == mb && kb[..2] == db;
    LexLessConcat(ma, da, mb, db);
    TwoDigitFieldOrder(a.day, b.day);
    TwoDigitFieldOrder(a.month, b.month);
    if ma == mb {
      TwoDigitFieldInjective(a.month, b.month);
    }
  }

  /** The histogram's entries sorted by `before`, then `.suffix(7)`: at most
      seven entries, in order, and whatever is left out sorts no later than
      the first entry kept. */
  method LastSevenBy(dateViews: map<string, nat>, before: ((string, nat), (string, nat)) -> bool)
    returns (chart: seq<(string, nat)>)
    requires StrictWeakOrder(before)
    ensures |chart| == Min(7, |dateViews|)
    ensures forall i :: 0 <= i < |chart| ==> chart[i].0 in dateViews && dateViews[chart[i].0] == chart[i].1
    ensures forall i, j :: 0 <= i < j < |chart| ==> chart[i].0 != chart[j].0 && !before(chart[j], chart[i])
    ensures forall key :: key in dateViews ==>
              (exists i :: 0 <= i < |chart| && chart[i].0 == key)
              || (chart != [] && !before(chart[0], (key, dateViews[key])))
  {
    var entries := EntriesInSomeOrder(dateViews);
    var sorted := Sorted(entries, before);
    var start := if |sorted| > 7 then |sorted| - 7 else 0;
    chart := sorted[start..];
    SortedEntriesHaveDistinctKeys(dateViews, entries, sorted);
    forall key | key in dateViews
      ensures (exists i :: 0 <= i < |chart| && chart[i].0 == key) || (chart != [] && !before(chart[0], (key, dateViews[key])))
    {
      assert (key, dateViews[key]) in multiset(sorted);
      DroppedSortsFirst(sorted, start, before, (key, dateViews[key]));
    }
  }

  /** An element of a sorted sequence is in its suffix from `start`, or the
      suffix's first element is not before it. */
  lemma DroppedSortsFirst<T>(sorted: seq<T>, start: nat, before: (T, T) -> bool, x: T)
    requires IsSortedBy(sorted, before) && start < |sorted| && x in sorted
    ensures (exists i :: 0 <= i < |sorted[start..]| && sorted[start..][i] == x) || !before(sorted[start], x)
  {
    var k :| 0 <= k < |sorted| && sorted[k] == x;
    if k >= start {
      assert sorted[start..][k - start] == x;
    }
  }

  /** The entries of a map, reordered, still name each key once. */
  lemma SortedEntriesHaveDistinctKeys(m: map<string, nat>, entries: seq<(string, nat)>, sorted: seq<(string, nat)>)
    requires forall i :: 0 <= i < |entries| ==> entries[i].0 in m && m[entries[i].0] == entries[i].1
    requires forall i, j :: 0 <= i < j < |entries| ==> entries[i].0 != entries[j].0
    requires multiset(sorted) == multiset(entries)
    ensures forall i :: 0 <= i < |sorted| ==> sorted[i].0 in m && m[sorted[i].0] == sorted[i].1
    ensures forall i, j :: 0 <= i < j < |sorted| ==> sorted[i].0 != sorted[j].0
  {
    forall i | 0 <= i < |sorted| ensures sorted[i] in entries {
      assert sorted[i] in multiset(entries);
    }
    assert Distinct(entries);
    PermutationKeepsDistinct(entries, sorted);
  }

  /** `updateLineChart()`'s fixed data for a chart without any view date. */
  const PlaceholderChart: seq<(string, nat)> := [("01.09", 8), ("03.09", 4), ("05.09", 6), ("09.09", 8), ("10.09", 6)]

  /** `updateLineChart()` as written: the last seven keys in string order,
      each with its number of views, or the placeholder. */
  method LineChart(statistics: seq<UserStatistics>) returns (chart: seq<(string, nat)>)
    ensures AllViewDates(statistics) == [] ==> chart == PlaceholderChart
    ensures AllViewDates(statistics) != [] ==> ShowsLastSeven(statistics, chart, KeyBefore)
    ensures AllViewDates(statistics) != [] ==> forall i, j :: 0 <= i < j < |chart| ==> LexLess(chart[i].0, chart[j].0)
  {
    var dateViews := CountViewsByDay(statistics);
    KeyBeforeIsStrictWeakOrder();
    chart := LastSevenBy(dateViews, KeyBefore);
    if chart == [] {
      DatesGiveKeys(statistics, dateViews);
      chart := PlaceholderChart;
    } else {
      ChartShowsLastSeven(statistics, dateViews, chart, KeyBefore);
      forall i, j | 0 <= i < j < |chart| ensures LexLess(chart[i].0, chart[j].0) {
        LexLessTotal(chart[i].0, chart[j].0);
      }
    }
  }

  /** `chart` is a chart of the view dates of `statistics` in the order
      `before`: its counts are the dates' counts, it has at most seven points
      (fewer only when every key is shown), no key twice, and a key left out
      sorts no later than the first point. */
  ghost predicate ShowsLastSeven(statistics: seq<UserStatistics>, chart: seq<(string, nat)>,
                                 before: ((string, nat), (string, nat)) -> bool)
  {
    var dates := AllViewDates(statistics);
    && 0 < |chart| <= 7
    && (forall i :: 0 <= i < |chart| ==> chart[i].1 == CountWhere(dates, DayMonthKey, chart[i].0) && chart[i].1 > 0)
    && (forall i, j :: 0 <= i < j < |chart| ==> chart[i].0 != chart[j].0 && !before(chart[j], chart[i]))
    && (forall d :: d in dates ==>
          (exists i :: 0 <= i < |chart| && chart[i].0 == DayMonthKey(d))
          || (|chart| == 7 && !before(chart[0], (DayMonthKey(d), CountWhere(dates, DayMonthKey, DayMonthKey(d))))))
  }

  /** Some view date means some key in the histogram. */
  lemma DatesGiveKeys(statistics: seq<UserStatistics>, dateViews: map<string, nat>)
    requires CountsDays(AllViewDates(statistics), dateViews)
    ensures AllViewDates(statistics) != [] ==> |dateViews| > 0
  {
    var dates := AllViewDates(statistics);
    if dates != [] {
      CountedIffPresent(dates, DayMonthKey, DayMonthKey(dates[0]));
      assert DayMonthKey(dates[0]) in dateViews;
    }
  }

  lemma ChartShowsLastSeven(statistics: seq<UserStatistics>, dateViews: map<string, nat>, chart: seq<(string, nat)>,
                            before: ((string, nat), (string, nat)) -> bool)
    requires CountsDays(AllViewDates(statistics), dateViews)
    requires chart != [] && |chart| == Min(7, |dateViews|)
    requires forall i :: 0 <= i < |chart| ==> chart[i].0 in dateViews && dateViews[chart[i].0] == chart[i].1
    requires forall i, j :: 0 <= i < j < |chart| ==> chart[i].0 != chart[j].0 && !before(chart[j], chart[i])
    requires forall key :: key in dateViews ==>
               (exists i :: 0 <= i < |chart| && chart[i].0 == key)
               || (chart != [] && !before(chart[0], (key, dateViews[key])))
    ensures ShowsLastSeven(statistics, chart, before)
  {
    var dates := AllViewDates(statistics);
    forall i | 0 <= i < |chart| ensures chart[i].1 == CountWhere(dates, DayMonthKey, chart[i].0) && chart[i].1 > 0 {
      assert ValueOr(dateViews, chart[i].0) == chart[i].1;
    }
    forall d | d in dates
      ensures (exists i :: 0 <= i < |chart| && chart[i].0 == DayMonthKey(d))
              || (|chart| == 7 && !before(chart[0], (DayMonthKey(d), CountWhere(dates, DayMonthKey, DayMonthKey(d)))))
    {
      DateKeyCharted(statistics, dateViews, chart, before, d);
    }
  }

  lemma DateKeyCharted(statistics: seq<UserStatistics>, dateViews: map<string, nat>, chart: seq<(string, nat)>,
                       before: ((string, nat), (string, nat)) -> bool, d: Date)
    requires CountsDays(AllViewDates(statistics), dateViews)
    requires chart != [] && |chart| == Min(7, |dateViews|)
    requires forall i :: 0 <= i < |chart| ==> chart[i].0 in dateViews
    requires forall i, j :: 0 <= i < j < |chart| ==> chart[i].0 != chart[j].0
    requires forall key :: key in dateViews ==>
               (exists i :: 0 <= i < |chart| && chart[i].0 == key)
               || (chart != [] && !before(chart[0], (key, dateViews[key])))
    requires d in AllViewDates(statistics)
    ensures var dates := AllViewDates(statistics);
      (exists i :: 0 <= i < |chart| && chart[i].0 == DayMonthKey(d))
      || (|chart| == 7 && !before(chart[0], (DayMonthKey(d), CountWhere(dates, DayMonthKey, DayMonthKey(d)))))
  {
    var dates := AllViewDates(statistics);
    var key := DayMonthKey(d);
    var k :| 0 <= k < |dates| && dates[k] == d;
    CountedIffPresent(dates, DayMonthKey, key);
    assert ValueOr(dateViews, key) > 0;
    assert key in dateViews && dateViews[key] == CountWhere(dates, DayMonthKey, key);
    if |chart| < 7 {
      AllKeysCharted(dateViews, chart);
    }
  }

  /** A chart shorter than seven holds every key. */
  lemma AllKeysCharted(dateViews: map<string, nat>, chart: seq<(string, nat)>)
    requires |chart| == Min(7, |dateViews|) && |chart| < 7
    requires forall i :: 0 <= i < |chart| ==> chart[i].0 in dateViews
    requires forall i, j :: 0 <= i < j < |chart| ==> chart[i].0 != chart[j].0
    ensures forall key :: key in dateViews ==> exists i :: 0 <= i < |chart| && chart[i].0 == key
  {
    var shown := set i | 0 <= i < |chart| :: chart[i].0;
    assert |shown| == |chart| by {
      ChartKeysCount(chart);
    }
    assert shown <= dateViews.Keys;
    assert |dateViews.Keys| == |dateViews|;
    if shown != dateViews.Keys {
      ProperSubsetIsSmaller(shown, dateViews.Keys);
    }
  }

  lemma {:induction false} ChartKeysCount(chart: seq<(string, nat)>)
    requires forall i, j :: 0 <= i < j < |chart| ==> chart[i].0 != chart[j].0
    ensures |set i | 0 <= i < |chart| :: chart[i].0| == |chart|
  {
    if chart != [] {
      var rest := chart[..|chart| - 1];
      ChartKeysCount(rest);
      var restKeys := set i | 0 <= i < |rest| :: rest[i].0;
      assert (set i | 0 <= i < |chart| :: chart[i].0) == restKeys + {chart[|chart| - 1].0};
      assert chart[|chart| - 1].0 !in restKeys;
    }
  }

  lemma ProperSubsetIsSmaller<T>(a: set<T>, b: set<T>)
    requires a <= b && a != b
    ensures |a| < |b|
  {
    var x :| x in b && x !in a;
    SubsetIsNoLarger(a, b - {x});
  }

  lemma {:induction false} SubsetIsNoLarger<T>(a: set<T>, b: set<T>)
    requires a <= b
    ensures |a| <= |b|
    decreases |a|
  {
    if a != {} {
      var x :| x in a;
      SubsetIsNoLarger(a - {x}, b - {x});
    }
  }

  /** The corrected `updateLineChart()`: the same points, kept and drawn in
      calendar order (month, then day) instead of string order. */
  method ChronologicalLineChart(statistics: seq<UserStatistics>) returns (chart: seq<(string, nat)>)
    ensures AllViewDates(statistics) == [] ==> chart == PlaceholderChart
    ensures AllViewDates(statistics) != [] ==> ShowsLastSeven(statistics, chart, ChronoBefore)
  {
    var dateViews := CountViewsByDay(statistics);
    ChronoBeforeIsStrictWeakOrder();
    chart := LastSevenBy(dateViews, ChronoBefore);
    if chart == [] {
      DatesGiveKeys(statistics, dateViews);
      chart := PlaceholderChart;
    } else {
      ChartShowsLastSeven(statistics, dateViews, chart, ChronoBefore);
    }
  }

  // ---------------------------------------------------------------------
  // Top visitors

  /** What a `UserRowView` is configured with. */
  datatype UserRow = UserRow(name: string, age: int, emoji: Option<string>, avatarURL: Option<Url>, hidesSeparator: bool)

  /** `emojiForIndex(_:)`: a cherry for the first place, a strawberry for the second. */
  function EmojiForIndex(index: int): (emoji: Option<string>)
    ensures emoji.Some? <==> index == 0 || index == 1
    ensures index == 0 ==> emoji == Some("\U{1F352}")
    ensures index == 1 ==> emoji == Some("\U{1F353}")
  {
    if index == 0 then Some("\U{1F352}")
    else if index == 1 then Some("\U{1F353}")
    else None
  }

  /** `statistics.sorted { $0.viewsCount > $1.viewsCount }.prefix(maxTopVisitors)`. */
  function TopStats(statistics: seq<UserStatistics>): (top: seq<UserStatistics>)
    ensures |top| == Min(MaxTopVisitors, |statistics|)
    ensures forall i :: 0 <= i < |top| ==> top[i] in statistics
    ensures forall i, j :: 0 <= i < j < |top| ==> top[i].viewsCount >= top[j].viewsCount
    ensures multiset(top) <= multiset(statistics)
  {
    MoreViewsIsStrictWeakOrder();
    var sorted := Sorted(statistics, MoreViews);
    var top := sorted[..Min(MaxTopVisitors, |statistics|)];
    assert sorted == top + sorted[|top|..];
    assert multiset(sorted) == multiset(top) + multiset(sorted[|top|..]);
    assert forall i :: 0 <= i < |top| ==> top[i] in multiset(statistics) by {
      forall i | 0 <= i < |top| ensures top[i] in multiset(statistics) {
        assert top[i] == sorted[i] && sorted[i] in multiset(sorted);
      }
    }
    top
  }

  /** A summary left out of the top has no more views than any summary in it. */
  lemma TopStatsOutrankTheRest(statistics: seq<UserStatistics>, s: UserStatistics)
    requires s in statistics && s !in TopStats(statistics)
    ensures forall i :: 0 <= i < |TopStats(statistics)| ==> TopStats(statistics)[i].viewsCount >= s.viewsCount
  {
    MoreViewsIsStrictWeakOrder();
    var sorted := Sorted(statistics, MoreViews);
    var top := TopStats(statistics);
    assert s in multiset(sorted);
    var k :| 0 <= k < |sorted| && sorted[k] == s;
    if k < |top| {
      assert false;
    }
    forall i | 0 <= i < |top| ensures top[i].viewsCount >= s.viewsCount {
      assert top[i] == sorted[i];
    }
  }

  /** `createUserRowView(for:at:)` as written: the row is last when
      `index == min(maxTopVisitors - 1, statistics.count - 1)`. */
  function RowFor(user: User, index: int, statisticsCount: int): (row: UserRow)
    ensures row.name == user.username && row.age == user.age && row.avatarURL == user.AvatarURL()
    ensures row.emoji.Some? <==> index == 0 || index == 1
    ensures statisticsCount >= MaxTopVisitors ==> (row.hidesSeparator <==> index == MaxTopVisitors - 1)
    ensures statisticsCount < MaxTopVisitors ==> (row.hidesSeparator <==> index == statisticsCount - 1)
  {
    UserRow(user.username, user.age, EmojiForIndex(index), user.AvatarURL(),
            index == Min(MaxTopVisitors - 1, statisticsCount - 1))
  }

  /** The rows `createUserRows()` adds for `topStats`, in order; a summary
      without a user is skipped, but keeps its index. */
  function TopRows(topStats: seq<UserStatistics>, statisticsCount: int): (rows: seq<UserRow>)
    ensures |rows| <= |topStats|
  {
    if topStats == [] then []
    else
      var index := |topStats| - 1;
      var stat := topStats[index];
      TopRows(topStats[..index], statisticsCount) + (if stat.user.Some? then [RowFor(stat.user.value, index, statisticsCount)] else [])
  }

  lemma TopRowsStep(topStats: seq<UserStatistics>, index: nat, statisticsCount: int)
    requires index < |topStats|
    ensures TopRows(topStats[..index + 1], statisticsCount)
            == TopRows(topStats[..index], statisticsCount)
               + (if topStats[index].user.Some? then [RowFor(topStats[index].user.value, index, statisticsCount)] else [])
  {
    assert topStats[..index + 1][..index] == topStats[..index];
  }

  /** When every summary has its user, there is a row for each, in ranking
      order, built for its own place. */
  lemma {:induction false} RowsWhenEveryUserKnown(topStats: seq<UserStatistics>, statisticsCount: int)
    requires forall i :: 0 <= i < |topStats| ==> topStats[i].user.Some?
    ensures |TopRows(topStats, statisticsCount)| == |topStats|
    ensures forall i :: 0 <= i < |topStats| ==>
              TopRows(topStats, statisticsCount)[i] == RowFor(topStats[i].user.value, i, statisticsCount)
  {
    if topStats != [] {
      var prefix := topStats[..|topStats| - 1];
      assert forall i :: 0 <= i < |prefix| ==> prefix[i] == topStats[i];
      RowsWhenEveryUserKnown(prefix, statisticsCount);
    }
  }

  /** `createUserRows()`. */
  method CreateUserRows(statistics: seq<UserStatistics>) returns (rows: seq<UserRow>)
    ensures rows == TopRows(TopStats(statistics), |statistics|)
    ensures |rows| <= MaxTopVisitors
  {
    var topStats := TopStats(statistics);
    rows := [];
    for index := 0 to |topStats|
      invariant rows == TopRows(topStats[..index], |statistics|)
    {
      TopRowsStep(topStats, index, |statistics|);
      var stat := topStats[index];
      if stat.user.Some? {
        rows := rows + [RowFor(stat.user.value, index, |statistics|)];
      }
    }
    assert topStats[..|topStats|] == topStats;
  }

  /** When every top summary has its user, exactly the last row hides its
      separator, as intended. */
  lemma FullTopHidesLastSeparator(statistics: seq<UserStatistics>)
    requires forall i :: 0 <= i < |TopStats(statistics)| ==> TopStats(statistics)[i].user.Some?
    ensures var rows := TopRows(TopStats(statistics), |statistics|);
      forall i :: 0 <= i < |rows| ==> (rows[i].hidesSeparator <==> i == |rows| - 1)
  {
    RowsWhenEveryUserKnown(TopStats(statistics), |statistics|);
  }

  /** The first summary has a user and the second, with fewer views, has
      none: one row is shown, and its separator stays visible. */
  lemma SkippedUserLeavesSeparator(first: UserStatistics, second: UserStatistics)
    requires first.user.Some? && second.user.None? && first.viewsCount > second.viewsCount
    ensures var rows := TopRows(TopStats([first, second]), 2);
      |rows| == 1 && !rows[0].hidesSeparator
  {
    MoreViewsIsStrictWeakOrder();
    assert Sorted([second], MoreViews) == [second] by {
      assert [second][1..] == [];
    }
    assert Sorted([first, second], MoreViews) == [first, second] by {
      assert [first, second][1..] == [second];
    }
    assert TopStats([first, second]) == [first, second];
    assert [first, second][..1] == [first];
  }

  /** `rows` with every separator shown. */
  function WithSeparators(rows: seq<UserRow>): (shown: seq<UserRow>)
    ensures |shown| == |rows|
    ensures forall i :: 0 <= i < |rows| ==> shown[i] == rows[i].(hidesSeparator := false)
  {
    if rows == [] then []
    else WithSeparators(rows[..|rows| - 1]) + [rows[|rows| - 1].(hidesSeparator := false)]
  }

  /** The corrected `createUserRows()`: the rows are built as before but
      with their separators shown, and the last row added hides its own. */
  method CreateUserRowsHidingLastSeparator(statistics: seq<UserStatistics>) returns (rows: seq<UserRow>)
    ensures |rows| == |TopRows(TopStats(statistics), |statistics|)|
    ensures forall i :: 0 <= i < |rows| ==>
              rows[i].(hidesSeparator := false) == TopRows(TopStats(statistics), |statistics|)[i].(hidesSeparator := false)
    ensures forall i :: 0 <= i < |rows| ==> (rows[i].hidesSeparator <==> i == |rows| - 1)
  {
    var written := CreateUserRows(statistics);
    rows := WithSeparators(written);
    if rows != [] {
      rows := rows[|rows| - 1 := rows[|rows| - 1].(hidesSeparator := true)];
    }
  }

  // ---------------------------------------------------------------------
  // Totals and observers

  /** `statistics.reduce(0) { $0 + $1.<field> }`. */
  function Total(statistics: seq<UserStatistics>, field: UserStatistics -> nat): (total: nat)
    ensures forall i :: 0 <= i < |statistics| ==> field(statistics[i]) <= total
    ensures total == 0 <==> forall i :: 0 <= i < |statistics| ==> field(statistics[i]) == 0
  {
    if statistics == [] then 0
    else Total(statistics[..|statistics| - 1], field) + field(statistics[|statistics| - 1])
  }

  function ViewsOf(stat: UserStatistics): nat {
    stat.viewsCount
  }

  function SubscriptionsOf(stat: UserStatistics): nat {
    stat.subscriptionsCount
  }

  function UnsubscriptionsOf(stat: UserStatistics): nat {
    stat.unsubscriptionsCount
  }

  lemma {:induction false} TotalOfConcat(a: seq<UserStatistics>, b: seq<UserStatistics>, field: UserStatistics -> nat)
    ensures Total(a + b, field) == Total(a, field) + Total(b, field)
  {
    if b != [] {
      var ab := a + b;
      assert ab[..|ab| - 1] == a + b[..|b| - 1];
      TotalOfConcat(a, b[..|b| - 1], field);
    } else {
      assert a + b == a;
    }
  }

  /** The totals on the cards do not depend on the order of the summaries,
      which the aggregate leaves open. */
  lemma {:induction false} TotalIgnoresOrder(a: seq<UserStatistics>, b: seq<UserStatistics>, field: UserStatistics -> nat)
    requires multiset(a) == multiset(b)
    ensures Total(a, field) == Total(b, field)
    decreases |a|
  {
    if a == [] {
      assert |b| == |multiset(b)| == 0;
    } else {
      var last := a[|a| - 1];
      var rest := a[..|a| - 1];
      assert a == rest + [last];
      assert last in multiset(b);
      var k :| 0 <= k < |b| && b[k] == last;
      var others := b[..k] + b[k + 1..];
      assert b == b[..k] + [last] + b[k + 1..];
      assert multiset(rest) == multiset(others) by {
        calc {
          multiset(rest);
          multiset(a) - multiset{last};
          multiset(b) - multiset{last};
          multiset(b[..k]) + multiset{last} + multiset(b[k + 1..]) - multiset{last};
          multiset(others);
        }
      }
      TotalIgnoresOrder(rest, others, field);
      TotalOfConcat(b[..k] + [last], b[k + 1..], field);
      TotalOfConcat(b[..k], [last], field);
      TotalOfConcat(b[..k], b[k + 1..], field);
      assert Total([last], field) == field(last) by {
        assert [last][..0] == [];
      }
    }
  }

  function AvatarOf(user: User): Option<Url> {
    user.AvatarURL()
  }

  /** `users.prefix(3).compactMap { $0.avatarURL }`: the avatars of the
      first three users that have one, in order. */
  function ObserverAvatars(users: seq<User>): (urls: seq<Url>)
    ensures |urls| <= 3
    ensures forall i :: 0 <= i < |urls| ==> exists j :: 0 <= j < Min(3, |users|) && users[j].AvatarURL() == Some(urls[i])
    ensures forall j :: 0 <= j < Min(3, |users|) && users[j].AvatarURL().Some? ==> users[j].AvatarURL().value in urls
  {
    var first := users[..Min(3, |users|)];
    assert forall j :: 0 <= j < |first| ==> first[j] == users[j];
    forall j | 0 <= j < |first| && first[j].AvatarURL().Some?
      ensures first[j].AvatarURL().value in CompactMap(first, AvatarOf)
    {
      CompactMapKeeps(first, AvatarOf, j);
    }
    CompactMap(first, AvatarOf)
  }

  /** Users after the third never contribute an avatar. */
  lemma LaterUsersShowNoAvatar(users: seq<User>, more: seq<User>)
    requires |users| >= 3
    ensures ObserverAvatars(users + more) == ObserverAvatars(users)
  {
    assert (users + more)[..3] == users[..3];
  }

  /** Among the first three users, each one's avatar is shown at its own
      place: after the avatars of the users before it, before the others'. */
  lemma ObserverAvatarsInOrder(before: seq<User>, user: User, after: seq<User>)
    requires |before| + 1 + |after| <= 3
    ensures ObserverAvatars(before + [user] + after)
            == ObserverAvatars(before) + (if user.AvatarURL().Some? then [user.AvatarURL().value] else []) + ObserverAvatars(after)
  {
    var all := before + [user] + after;
    assert all[..|all|] == all && before[..|before|] == before && after[..|after|] == after;
    CompactMapConcat(before + [user], after, AvatarOf);
    CompactMapConcat(before, [user], AvatarOf);
    CompactMapOne(user, AvatarOf);
  }

  /** `Array(avatarURLs.prefix(2))`: the lost-observer card shows the first two. */
  function LostObserverAvatars(urls: seq<Url>): (shown: seq<Url>)
    ensures |shown| <= 2 && shown <= urls
    ensures |shown| == Min(2, |urls|)
  {
    urls[..Min(2, |urls|)]
  }
}
