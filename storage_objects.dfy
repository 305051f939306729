/** The records the store keeps, and their conversions to and from the
    domain values: `UserObject` (primary key `id`) and `StatisticsObject`
    (primary key the item's `id` text). */
module StorageObjects {
  import opened Wrappers
  import opened Models

  /** A stored user. Of the user's files only the avatar's URL text is kept. */
  datatype UserObject = UserObject(
    id: int,
    sex: string,
    username: string,
    isOnline: bool,
    age: int,
    avatarURLString: Option<string>)
  {
    /** `toDomain()`: the scalars back as they were stored, and a single
        avatar file when the stored text still reads as a URL. */
    function ToDomain(): (u: User)
      ensures u.id == id && u.sex == sex && u.username == username
      ensures u.isOnline == isOnline && u.age == age
      ensures |u.files| <= 1
      ensures forall i :: 0 <= i < |u.files| ==> u.files[i] == UserFile(id, u.files[i].url, "avatar")
      ensures u.AvatarURL().Some? <==> avatarURLString.Some? && avatarURLString.value != []
      ensures u.AvatarURL().Some? ==> avatarURLString == Some(u.AvatarURL().value)
    {
      var files := match ParseAvatar(avatarURLString)
        case Some(url) => [UserFile(id, url, "avatar")]
        case None => [];
      User(id, sex, username, isOnline, age, files)
    }
  }

  /** `URL(string:)` applied to optional text: `flatMap { URL(string: $0) }`. */
  function ParseAvatar(s: Option<string>): Option<Url> {
    match s
    case Some(text) => ParseUrl(text)
    case None => None
  }

  /** `UserObject(user)`: the primary key is the user's id. */
  function UserObjectOf(user: User): (o: UserObject)
    ensures o.id == user.id && o.sex == user.sex && o.username == user.username
    ensures o.isOnline == user.isOnline && o.age == user.age
    ensures o.avatarURLString.Some? <==> user.AvatarURL().Some?
    ensures o.avatarURLString.Some? ==> o.avatarURLString.value == user.AvatarURL().value
  {
    var avatar := match user.AvatarURL()
      case Some(url) => Some(url)
      case None => None;
    UserObject(user.id, user.sex, user.username, user.isOnline, user.age, avatar)
  }

  /** The primary key of a stored user. */
  function UserKey(o: UserObject): int {
    o.id
  }

  /** Storing a user and reading it back keeps its scalars and its avatar; every
      file that is not the first avatar is dropped. */
  lemma UserRoundTrip(user: User)
    ensures var back := UserObjectOf(user).ToDomain();
      && back.id == user.id && back.sex == user.sex && back.username == user.username
      && back.isOnline == user.isOnline && back.age == user.age
      && back.AvatarURL() == user.AvatarURL()
      && |back.files| <= 1
  {
  }

  /** A user with no avatar comes back with no files at all. */
  lemma UserWithoutAvatarLosesFiles(user: User)
    requires user.AvatarURL().None?
    ensures UserObjectOf(user).ToDomain().files == []
  {
  }

  /** Reading a stored user and storing it again gives back the same record,
      unless its avatar text is empty, which does not read as a URL. */
  lemma UserObjectRoundTrip(o: UserObject)
    ensures o.avatarURLString != Some([]) ==> UserObjectOf(o.ToDomain()) == o
    ensures o.avatarURLString == Some([]) ==> UserObjectOf(o.ToDomain()).avatarURLString == None
  {
  }

  /** Users with the same id are stored under the same key, so the later one
      replaces the earlier. */
  lemma EqualIdsCollide(a: User, b: User)
    ensures UserKey(UserObjectOf(a)) == UserKey(UserObjectOf(b)) <==> a.id == b.id
  {
  }

  /** A stored statistics item: its type is kept as raw text. */
  datatype StatisticsObject = StatisticsObject(id: string, userId: int, statType: string, dates: seq<int>)
  {
    /** `toDomain()`: a type text that names no case reads as `view`. */
    function ToDomain(): (item: StatisticsItem)
      ensures item.userId == userId && item.dates == dates
      ensures StatisticsTypeNamed(statType).Some? ==> item.statType.RawValue() == statType
      ensures StatisticsTypeNamed(statType).None? ==> item.statType == View
    {
      StatisticsItem(userId, StatisticsTypeNamed(statType).GetOr(View), dates)
    }
  }

  /** `StatisticsObject(item)`: keyed by the item's id, type stored as its raw value. */
  function StatisticsObjectOf(item: StatisticsItem): (o: StatisticsObject)
    ensures o.id == item.Id() && o.userId == item.userId && o.dates == item.dates
    ensures StatisticsTypeNamed(o.statType) == Some(item.statType)
  {
    StatisticsObject(item.Id(), item.userId, item.statType.RawValue(), item.dates)
  }

  /** The primary key of a stored statistics item. */
  function StatisticsKey(o: StatisticsObject): string {
    o.id
  }

  /** Storing an item and reading it back gives the same item. */
  lemma StatisticsRoundTrip(item: StatisticsItem)
    ensures StatisticsObjectOf(item).ToDomain() == item
  {
  }

  /** A stored record reads back and stores again as itself exactly when its
      type text names a case and its key is the id of what it reads as. */
  lemma StatisticsObjectRoundTrip(o: StatisticsObject)
    ensures StatisticsObjectOf(o.ToDomain()) == o
        <==> StatisticsTypeNamed(o.statType).Some? && o.id == o.ToDomain().Id()
  {
    if StatisticsTypeNamed(o.statType).Some? {
      StatisticsTypeNamedInverts(o.statType);
    }
  }

  /** Two items are stored under one key exactly when they are about the same
      user and the same event type. */
  lemma StatisticsKeysCollide(a: StatisticsItem, b: StatisticsItem)
    ensures StatisticsKey(StatisticsObjectOf(a)) == StatisticsKey(StatisticsObjectOf(b))
        <==> a.userId == b.userId && a.statType == b.statType
  {
    StatisticsIdIdentifies(a, b);
  }
}
