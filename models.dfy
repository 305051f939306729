/** The domain values the data layer moves around: users with their files,
    statistics items, the per-user aggregate, and the errors. */
module Models {
  import opened Wrappers
  import Decimal

  /** A Foundation `URL`, kept as its absolute string. A URL never has empty text. */
  type Url = s: string | s != [] witness "/"

  /** `URL(string:)`. Foundation rejects more malformed text than this;
      only the empty string is rejected here. */
  function ParseUrl(s: string): (u: Option<Url>)
    ensures u.Some? ==> u.value == s
  {
    if s != [] then Some(s) else None
  }

  /** A Swift `Error` value, identified by its domain and code. */
  datatype SystemError = SystemError(domain: string, code: int)

  datatype UserFile = UserFile(id: int, url: Url, fileType: string)

  datatype User = User(id: int, sex: string, username: string, isOnline: bool, age: int, files: seq<UserFile>) {
    /** `avatarURL`: the URL of the first file whose type is "avatar". */
    function AvatarURL(): Option<Url> {
      FirstAvatar(files)
    }
  }

  function FirstAvatar(files: seq<UserFile>): (a: Option<Url>)
    ensures a.None? <==> forall i :: 0 <= i < |files| ==> files[i].fileType != "avatar"
    ensures a.Some? ==> exists i :: 0 <= i < |files| && files[i].fileType == "avatar" && files[i].url == a.value
                                    && forall j :: 0 <= j < i ==> files[j].fileType != "avatar"
  {
    if files == [] then None
    else if files[0].fileType == "avatar" then Some(files[0].url)
    else
      var rest := FirstAvatar(files[1..]);
      assert forall i :: 1 <= i < |files| ==> files[i] == files[1..][i - 1];
      rest
  }

  /** `users.first(where: { $0.id == id })`. */
  function FirstUserWithId(users: seq<User>, id: int): (u: Option<User>)
    ensures u.None? <==> forall i :: 0 <= i < |users| ==> users[i].id != id
    ensures u.Some? ==> exists i :: 0 <= i < |users| && users[i] == u.value && u.value.id == id
                                    && forall j :: 0 <= j < i ==> users[j].id != id
  {
    if users == [] then None
    else if users[0].id == id then Some(users[0])
    else
      var rest := FirstUserWithId(users[1..], id);
      assert forall i :: 1 <= i < |users| ==> users[i] == users[1..][i - 1];
      rest
  }

  datatype StatisticsType = View | Subscription | Unsubscription {
    /** `rawValue`: the case name, which the JSON and the store both carry. */
    function RawValue(): (raw: string)
      ensures StatisticsTypeNamed(raw) == Some(this)
      ensures '_' !in raw
    {
      match this
      case View => "view"
      case Subscription => "subscription"
      case Unsubscription => "unsubscription"
    }
  }

  /** `StatisticsType(rawValue:)`: nil for a string that names no case. */
  function StatisticsTypeNamed(raw: string): Option<StatisticsType> {
    if raw == "view" then Some(View)
    else if raw == "subscription" then Some(Subscription)
    else if raw == "unsubscription" then Some(Unsubscription)
    else None
  }

  /** Every raw value that names a case is that case's raw value. */
  lemma StatisticsTypeNamedInverts(raw: string)
    ensures StatisticsTypeNamed(raw).Some? ==> StatisticsTypeNamed(raw).value.RawValue() == raw
  {
  }

  datatype StatisticsItem = StatisticsItem(userId: int, statType: StatisticsType, dates: seq<int>) {
    /** `id`: the user id, an underscore, and the type's raw value. */
    function Id(): string {
      Decimal.IntToString(userId) + "_" + statType.RawValue()
    }
  }

  /** Two statistics items share an id exactly when they are about the same
      user and the same event type: the store keeps one record per pair. */
  lemma StatisticsIdIdentifies(a: StatisticsItem, b: StatisticsItem)
    ensures a.Id() == b.Id() <==> a.userId == b.userId && a.statType == b.statType
  {
    if a.Id() == b.Id() {
      var u, v := Decimal.IntToString(a.userId), Decimal.IntToString(b.userId);
      var ra, rb := a.statType.RawValue(), b.statType.RawValue();
      var s := a.Id();
      assert s == u + "_" + ra == v + "_" + rb;
      SeparatorFollowsId(u, ra);
      SeparatorFollowsId(v, rb);
      assert u == s[..|u|] == v;
      assert ra == s[|u| + 1..] == rb;
      Decimal.IntToStringInjective(a.userId, b.userId);
    }
  }

  /** Where the first underscore of `s` is (`|s|` when there is none). */
  function UnderscoreIndex(s: string): (k: nat)
    ensures k <= |s|
  {
    if s == [] || s[0] == '_' then 0 else 1 + UnderscoreIndex(s[1..])
  }

  lemma {:induction false} SeparatorFollowsId(u: string, raw: string)
    requires '_' !in u
    ensures UnderscoreIndex(u + "_" + raw) == |u|
  {
    if u != [] {
      assert (u + "_" + raw)[1..] == u[1..] + "_" + raw;
      SeparatorFollowsId(u[1..], raw);
    }
  }

  /** A calendar day, as `parseDate` yields it. */
  datatype Date = Date(day: nat, month: nat, year: nat)

  /** The per-user aggregate: never stored, recomputed on every request. */
  datatype UserStatistics = UserStatistics(
    userId: int,
    user: Option<User>,
    viewsCount: nat,
    subscriptionsCount: nat,
    unsubscriptionsCount: nat,
    viewDates: seq<Date>)

  datatype NetworkError =
    | InvalidURL
    | NetworkError(underlying: SystemError)
    | NoData
    | ServerError(statusCode: int)
    | DecodingError(cause: SystemError)

  /** The JSON envelopes `{"users": [...]}` and `{"statistics": [...]}`. */
  datatype UsersResponse = UsersResponse(users: seq<User>)

  datatype StatisticsResponse = StatisticsResponse(statistics: seq<StatisticsItem>)
}
