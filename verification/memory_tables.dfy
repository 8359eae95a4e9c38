/** The four tables behind `MemoryService` and the pure transitions and queries the service's
    SQL statements perform on them. Clock readings (`CURRENT_TIMESTAMP`, `date('now')`) and the
    ids that `AUTOINCREMENT` hands out are parameters; the class in module Memory supplies them. */
module MemoryTables {
  import opened Wrappers
  import opened Seqs
  import opened Text

  /** A `CURRENT_TIMESTAMP` reading, in seconds. */
  type Timestamp = int
  /** A `DATE` column: the ISO date as a day number (ISO dates compare like their day numbers). */
  type Day = int

  /** The exceptions the service lets escape: `sqlite3.IntegrityError` naming the violated
      constraint, and `ValueError` with its message. */
  datatype Error = IntegrityError(constraint: string) | ValueError(message: string)

  // ---------------------------------------------------------------------------------------
  // Item types and times of day

  /** `StandupItemType`. */
  datatype ItemType = Accomplishment | Plan | Blocker

  /** The text stored in the `type` column (`item_type.value`). */
  function ItemTypeValue(t: ItemType): (s: string)
    ensures s in {"accomplishment", "plan", "blocker"}
  {
    match t
    case Accomplishment => "accomplishment"
    case Plan => "plan"
    case Blocker => "blocker"
  }

  /** The column's `CHECK(type IN (...))` admits exactly the three values, one per type. */
  lemma ItemTypeValueInjective(a: ItemType, b: ItemType)
    requires ItemTypeValue(a) == ItemTypeValue(b)
    ensures a == b
  {
    assert ItemTypeValue(a)[0] == ItemTypeValue(b)[0];
  }

  type Hour = h: nat | h < 24
  type Sexagesimal = n: nat | n < 60
  type Microsecond = n: nat | n < 1000000

  /** A `datetime.time` value (its `tzinfo` is left out: `%H:%M:%S` never prints it). */
  datatype TimeOfDay = TimeOfDay(hour: Hour, minute: Sexagesimal, second: Sexagesimal, microsecond: Microsecond)

  /** `%02d`: the two decimal digits of `n`. */
  function TwoDigits(n: nat): (s: string)
    requires n < 100
    ensures |s| == 2 && IsDigit(s[0]) && IsDigit(s[1])
    ensures (s[0] as int - '0' as int) * 10 + (s[1] as int - '0' as int) == n
  {
    [DigitChar(n / 10), DigitChar(n % 10)]
  }

  /** `strftime('%H:%M:%S')`. */
  function FormatTime(t: TimeOfDay): (s: string)
    ensures |s| == 8 && s[2] == ':' && s[5] == ':'
    ensures s[0..2] == TwoDigits(t.hour) && s[3..5] == TwoDigits(t.minute) && s[6..8] == TwoDigits(t.second)
  {
    TwoDigits(t.hour) + ":" + TwoDigits(t.minute) + ":" + TwoDigits(t.second)
  }

  /** Two times of day are stored as the same text exactly when they agree to the second: the
      sub-second part is dropped. */
  lemma FormatTimeInjective(a: TimeOfDay, b: TimeOfDay)
    ensures FormatTime(a) == FormatTime(b) <==> (a.hour, a.minute, a.second) == (b.hour, b.minute, b.second)
  {
    if FormatTime(a) == FormatTime(b) {
      assert FormatTime(a)[0..2] == FormatTime(b)[0..2];
      assert FormatTime(a)[3..5] == FormatTime(b)[3..5];
      assert FormatTime(a)[6..8] == FormatTime(b)[6..8];
    }
  }

  /** The default `time(9, 0)` is stored as the column default `'09:00:00'`. */
  lemma DefaultNotificationTime()
    ensures FormatTime(TimeOfDay(9, 0, 0, 0)) == "09:00:00"
  {
    assert TwoDigits(9) == "09";
    assert TwoDigits(0) == "00";
  }

  // ---------------------------------------------------------------------------------------
  // users

  datatype UserRow = UserRow(
    id: int,
    githubUsername: string,
    githubToken: string,
    linearToken: Option<string>,
    email: string,
    format: string,
    timezone: string,
    notificationTime: string,
    createdAt: Timestamp,
    updatedAt: Timestamp)

  /** The table's `UNIQUE` columns and its primary key hold no duplicates. */
  predicate UniqueUsers(users: seq<UserRow>) {
    forall i, j :: 0 <= i < j < |users| ==>
      users[i].id != users[j].id
      && users[i].githubUsername != users[j].githubUsername
      && users[i].email != users[j].email
  }

  /** The state of the table that every operation keeps: no duplicates, and no id above the
      last one `AUTOINCREMENT` handed out. */
  predicate UsersTable(users: seq<UserRow>, lastId: int) {
    UniqueUsers(users) && forall u :: u in users ==> u.id <= lastId
  }

  /** `get_user`: the row with that GitHub username, if any. */
  function FindByUsername(users: seq<UserRow>, githubUsername: string): (r: Option<UserRow>)
    ensures r.Some? ==> r.value in users && r.value.githubUsername == githubUsername
    ensures r.None? <==> forall u :: u in users ==> u.githubUsername != githubUsername
  {
    Find(users, (u: UserRow) => u.githubUsername == githubUsername)
  }

  /** `get_user_by_id`: the row with that id, if any. */
  function FindById(users: seq<UserRow>, id: int): (r: Option<UserRow>)
    ensures r.Some? ==> r.value in users && r.value.id == id
    ensures r.None? <==> forall u :: u in users ==> u.id != id
  {
    Find(users, (u: UserRow) => u.id == id)
  }

  /** Whether some row already uses that email. */
  function FindByEmail(users: seq<UserRow>, email: string): (r: Option<UserRow>)
    ensures r.Some? ==> r.value in users && r.value.email == email
    ensures r.None? <==> forall u :: u in users ==> u.email != email
  {
    Find(users, (u: UserRow) => u.email == email)
  }

  /** In a table without duplicates, a row is found by each of its unique columns. */
  lemma FindUnique(users: seq<UserRow>, i: nat)
    requires UniqueUsers(users) && i < |users|
    ensures FindByUsername(users, users[i].githubUsername) == Some(users[i])
    ensures FindById(users, users[i].id) == Some(users[i])
  {
    var u := FindByUsername(users, users[i].githubUsername).value;
    var j :| 0 <= j < |users| && users[j] == u;
    assert i == j;
    var v := FindById(users, users[i].id).value;
    var k :| 0 <= k < |users| && users[k] == v;
    assert i == k;
  }

  /** `create_user`'s INSERT, given the id `AUTOINCREMENT` assigns and the current time. The
      defaults of the Python signature are the defaults here. When both the username and the
      email are taken, which of the two violations SQLite reports is not fixed here: the
      contract promises one of them. */
  function InsertUser(users: seq<UserRow>, id: int, now: Timestamp,
                      githubUsername: string, githubToken: string, email: string,
                      linearToken: Option<string> := None, format: string := "bullets",
                      timezone: string := "UTC", notificationTime: TimeOfDay := TimeOfDay(9, 0, 0, 0))
    : (r: Result<seq<UserRow>, Error>)
    ensures r.Failure? <==> FindByUsername(users, githubUsername).Some? || FindByEmail(users, email).Some?
    ensures FindByUsername(users, githubUsername).Some? && FindByEmail(users, email).None?
            ==> r == Failure(IntegrityError("users.github_username"))
    ensures FindByUsername(users, githubUsername).None? && FindByEmail(users, email).Some?
            ==> r == Failure(IntegrityError("users.email"))
    ensures FindByUsername(users, githubUsername).Some? && FindByEmail(users, email).Some?
            ==> r == Failure(IntegrityError("users.github_username")) || r == Failure(IntegrityError("users.email"))
    ensures r.Success? ==> |r.value| == |users| + 1 && r.value[..|users|] == users
    ensures r.Success? ==> r.value[|users|] == UserRow(id, githubUsername, githubToken, linearToken, email,
                                                       format, timezone, FormatTime(notificationTime), now, now)
  {
    if FindByUsername(users, githubUsername).Some? then Failure(IntegrityError("users.github_username"))
    else if FindByEmail(users, email).Some? then Failure(IntegrityError("users.email"))
    else Success(users + [UserRow(id, githubUsername, githubToken, linearToken, email,
                                  format, timezone, FormatTime(notificationTime), now, now)])
  }

  /** A successful insert under a fresh id keeps the table free of duplicates, and the new user
      is then found by username and by id. */
  lemma InsertUserKeepsUnique(users: seq<UserRow>, id: int, now: Timestamp,
                              githubUsername: string, githubToken: string, email: string,
                              linearToken: Option<string>, format: string, timezone: string,
                              notificationTime: TimeOfDay)
    requires UsersTable(users, id - 1)
    requires InsertUser(users, id, now, githubUsername, githubToken, email, linearToken, format, timezone, notificationTime).Success?
    ensures var r := InsertUser(users, id, now, githubUsername, githubToken, email, linearToken, format, timezone, notificationTime).value;
            UsersTable(r, id)
            && FindByUsername(r, githubUsername) == Some(r[|users|])
            && FindById(r, id) == Some(r[|users|])
  {
    var r := InsertUser(users, id, now, githubUsername, githubToken, email, linearToken, format, timezone, notificationTime).value;
    assert r == users + [r[|users|]];
    forall i, j | 0 <= i < j < |r|
      ensures r[i].id != r[j].id && r[i].githubUsername != r[j].githubUsername && r[i].email != r[j].email
    {
      if j == |users| {
        assert r[i] in users;
      } else {
        assert r[i] == users[i] && r[j] == users[j];
      }
    }
    FindUnique(r, |users|);
  }

  /** A user created without the optional arguments gets the schema's defaults. */
  lemma InsertUserDefaults(users: seq<UserRow>, id: int, now: Timestamp,
                           githubUsername: string, githubToken: string, email: string)
    requires InsertUser(users, id, now, githubUsername, githubToken, email).Success?
    ensures var u := InsertUser(users, id, now, githubUsername, githubToken, email).value[|users|];
            u.linearToken == None && u.format == "bullets" && u.timezone == "UTC"
            && u.notificationTime == "09:00:00"
  {
    DefaultNotificationTime();
  }

  // ---------------------------------------------------------------------------------------
  // user preferences

  /** The columns `update_user_preferences` may write. */
  const PreferenceFields: set<string> := {"format", "timezone", "notification_time"}

  /** The dictionary comprehension that keeps only the writable keys. */
  function ValidUpdates(preferences: map<string, string>): (u: map<string, string>)
    ensures u.Keys == preferences.Keys * PreferenceFields
    ensures forall k :: k in u ==> u[k] == preferences[k]
  {
    map k | k in preferences && k in PreferenceFields :: preferences[k]
  }

  /** One row after the UPDATE: each listed column takes its new value and `updated_at` the
      current time. */
  function UpdatedUser(u: UserRow, updates: map<string, string>, now: Timestamp): UserRow {
    u.(format := if "format" in updates then updates["format"] else u.format,
       timezone := if "timezone" in updates then updates["timezone"] else u.timezone,
       notificationTime := if "notification_time" in updates then updates["notification_time"] else u.notificationTime,
       updatedAt := now)
  }

  function UpdateRows(users: seq<UserRow>, id: int, updates: map<string, string>, now: Timestamp): (r: seq<UserRow>)
    ensures |r| == |users|
    ensures forall i :: 0 <= i < |users| ==>
      r[i] == if users[i].id == id then UpdatedUser(users[i], updates, now) else users[i]
  {
    if users == [] then []
    else [if users[0].id == id then UpdatedUser(users[0], updates, now) else users[0]]
         + UpdateRows(users[1..], id, updates, now)
  }

  /** `update_user_preferences`: returns early, touching nothing, when no key is writable;
      otherwise updates the row with that id (none, when the id is unknown). */
  function ApplyPreferences(users: seq<UserRow>, id: int, preferences: map<string, string>, now: Timestamp)
    : (r: seq<UserRow>)
    ensures |r| == |users|
    ensures ValidUpdates(preferences) == map[] ==> r == users
    ensures forall i :: 0 <= i < |users| && users[i].id != id ==> r[i] == users[i]
  {
    var updates := ValidUpdates(preferences);
    if updates == map[] then users else UpdateRows(users, id, updates, now)
  }

  /** What an update does to one row: a writable column takes the given value when its key is
      given and keeps its value otherwise; id, username, tokens, email and creation time never
      change; keys outside the three columns are ignored. */
  lemma ApplyPreferencesFields(users: seq<UserRow>, id: int, preferences: map<string, string>, now: Timestamp, i: nat)
    requires i < |users|
    ensures var u, v := users[i], ApplyPreferences(users, id, preferences, now)[i];
      v.id == u.id && v.githubUsername == u.githubUsername && v.githubToken == u.githubToken
      && v.linearToken == u.linearToken && v.email == u.email && v.createdAt == u.createdAt
      && v.format == (if u.id == id && "format" in preferences then preferences["format"] else u.format)
      && v.timezone == (if u.id == id && "timezone" in preferences then preferences["timezone"] else u.timezone)
      && v.notificationTime == (if u.id == id && "notification_time" in preferences
                                then preferences["notification_time"] else u.notificationTime)
  {
    var updates := ValidUpdates(preferences);
    if updates != map[] && users[i].id == id {
      assert "format" in updates <==> "format" in preferences;
      assert "timezone" in updates <==> "timezone" in preferences;
      assert "notification_time" in updates <==> "notification_time" in preferences;
    } else if users[i].id == id {
      assert "format" !in preferences by { assert "format" !in updates; }
      assert "timezone" !in preferences by { assert "timezone" !in updates; }
      assert "notification_time" !in preferences by { assert "notification_time" !in updates; }
    }
  }

  /** Updating preferences keeps the table free of duplicates (the unique columns are not
      writable). */
  lemma ApplyPreferencesKeepsUnique(users: seq<UserRow>, lastId: int, id: int, preferences: map<string, string>, now: Timestamp)
    requires UsersTable(users, lastId)
    ensures UsersTable(ApplyPreferences(users, id, preferences, now), lastId)
  {
    var r := ApplyPreferences(users, id, preferences, now);
    forall v | v in r ensures v.id <= lastId {
      var i :| 0 <= i < |r| && r[i] == v;
      ApplyPreferencesFields(users, id, preferences, now, i);
      assert users[i] in users;
    }
    forall i, j | 0 <= i < j < |r|
      ensures r[i].id != r[j].id && r[i].githubUsername != r[j].githubUsername && r[i].email != r[j].email
    {
      ApplyPreferencesFields(users, id, preferences, now, i);
      ApplyPreferencesFields(users, id, preferences, now, j);
    }
  }

  // ---------------------------------------------------------------------------------------
  // standups

  datatype StandupRow = StandupRow(
    id: int,
    userId: int,
    date: Day,
    submissionTime: Option<Timestamp>,
    submitted: bool,
    createdAt: Timestamp,
    updatedAt: Timestamp)

  /** The primary key and the `UNIQUE(user_id, date)` constraint hold. */
  predicate UniqueStandups(standups: seq<StandupRow>) {
    forall i, j :: 0 <= i < j < |standups| ==>
      standups[i].id != standups[j].id
      && (standups[i].userId != standups[j].userId || standups[i].date != standups[j].date)
  }

  /** Whether a row lies outside the (user, date) slot. */
  function OutsideSlot(userId: int, date: Day): StandupRow -> bool {
    (s: StandupRow) => !(s.userId == userId && s.date == date)
  }

  /** `create_standup`'s `REPLACE INTO standups (user_id, date)`: the row holding the same slot,
      if any, is deleted and a fresh row with the column defaults is appended under the id
      `AUTOINCREMENT` assigns. */
  function ReplaceStandup(standups: seq<StandupRow>, id: int, now: Timestamp, userId: int, date: Day)
    : (r: seq<StandupRow>)
    ensures |r| >= 1 && r[|r| - 1] == StandupRow(id, userId, date, None, false, now, now)
    ensures forall s :: s in r[..|r| - 1] <==> s in standups && !(s.userId == userId && s.date == date)
  {
    var kept := Filter(standups, OutsideSlot(userId, date));
    forall s | s in standups && !(s.userId == userId && s.date == date) ensures s in kept {
      FilterKeeps(standups, OutsideSlot(userId, date), s);
    }
    assert (kept + [StandupRow(id, userId, date, None, false, now, now)])[..|kept|] == kept;
    kept + [StandupRow(id, userId, date, None, false, now, now)]
  }

  /** A replace under a fresh id keeps both uniqueness rules, and afterwards the new row is the
      only one in its slot. */
  lemma ReplaceStandupKeepsUnique(standups: seq<StandupRow>, id: int, now: Timestamp, userId: int, date: Day)
    requires UniqueStandups(standups)
    requires forall s :: s in standups ==> s.id != id
    ensures var r := ReplaceStandup(standups, id, now, userId, date);
            UniqueStandups(r)
            && forall i :: 0 <= i < |r| && r[i].userId == userId && r[i].date == date ==> i == |r| - 1
  {
    var r := ReplaceStandup(standups, id, now, userId, date);
    var kept := Filter(standups, OutsideSlot(userId, date));
    assert r == kept + [r[|r| - 1]];
    var idx := FilterSubsequence(standups, OutsideSlot(userId, date));
    forall i, j | 0 <= i < j < |r|
      ensures r[i].id != r[j].id && (r[i].userId != r[j].userId || r[i].date != r[j].date)
    {
      assert r[i] == kept[i] && kept[i] == standups[idx[i]];
      if j < |kept| {
        assert r[j] == kept[j] && kept[j] == standups[idx[j]];
      } else {
        assert kept[i] in kept;
      }
    }
    forall i | 0 <= i < |r| - 1 ensures !(r[i].userId == userId && r[i].date == date) {
      assert r[i] == kept[i] && kept[i] in kept;
    }
  }

  /** `submit_standup`'s UPDATE: the row with that id is marked submitted at the current time;
      every other row is unchanged. An unknown id changes nothing. */
  function MarkSubmitted(standups: seq<StandupRow>, id: int, now: Timestamp): (r: seq<StandupRow>)
    ensures |r| == |standups|
    ensures forall i :: 0 <= i < |standups| ==>
      r[i] == if standups[i].id == id
              then standups[i].(submitted := true, submissionTime := Some(now), updatedAt := now)
              else standups[i]
  {
    if standups == [] then []
    else [if standups[0].id == id
          then standups[0].(submitted := true, submissionTime := Some(now), updatedAt := now)
          else standups[0]]
         + MarkSubmitted(standups[1..], id, now)
  }

  /** Submitting keeps both uniqueness rules: ids, users and dates are not written. */
  lemma MarkSubmittedKeepsUnique(standups: seq<StandupRow>, id: int, now: Timestamp)
    requires UniqueStandups(standups)
    ensures UniqueStandups(MarkSubmitted(standups, id, now))
  {
    var r := MarkSubmitted(standups, id, now);
    forall i, j | 0 <= i < j < |r|
      ensures r[i].id != r[j].id && (r[i].userId != r[j].userId || r[i].date != r[j].date)
    {
      assert r[i].id == standups[i].id && r[i].userId == standups[i].userId && r[i].date == standups[i].date;
      assert r[j].id == standups[j].id && r[j].userId == standups[j].userId && r[j].date == standups[j].date;
    }
  }

  // ---------------------------------------------------------------------------------------
  // standup items and the recent-standups query

  datatype ItemRow = ItemRow(
    id: int,
    standupId: int,
    kind: ItemType,
    description: string,
    resolved: bool,
    createdAt: Timestamp,
    updatedAt: Timestamp)

  /** `{'description': ..., 'resolved': ...}` */
  datatype ItemView = ItemView(description: string, resolved: bool)

  /** One entry of `get_recent_standups`' result. */
  datatype StandupView = StandupView(
    date: Day,
    submitted: bool,
    accomplishments: seq<ItemView>,
    plans: seq<ItemView>,
    blockers: seq<ItemView>)

  /** The items that belong to one standup, in insertion order. */
  function ItemsOf(items: seq<ItemRow>, standupId: int): (r: seq<ItemRow>)
    ensures forall it :: it in r <==> it in items && it.standupId == standupId
  {
    if items == [] then []
    else (if items[0].standupId == standupId then [items[0]] else []) + ItemsOf(items[1..], standupId)
  }

  /** The views of those items of type `k` that pass the loop's `if item_type and description`. */
  function KindViews(its: seq<ItemRow>, k: ItemType): seq<ItemView> {
    if its == [] then []
    else if its[0].kind == k && its[0].description != "" then
      [ItemView(its[0].description, its[0].resolved)] + KindViews(its[1..], k)
    else KindViews(its[1..], k)
  }

  /** A view is in a bucket exactly when some described item of that type has it. */
  lemma {:induction false} KindViewsMembers(its: seq<ItemRow>, k: ItemType, v: ItemView)
    ensures v in KindViews(its, k) <==>
      exists it :: it in its && it.kind == k && it.description != "" && v == ItemView(it.description, it.resolved)
  {
    if its != [] {
      KindViewsMembers(its[1..], k, v);
      assert forall it :: it in its[1..] ==> it in its;
      assert forall it :: it in its ==> it == its[0] || it in its[1..];
    }
  }

  /** The contents of one bucket of one standup. */
  function Bucket(items: seq<ItemRow>, standupId: int, k: ItemType): seq<ItemView> {
    KindViews(ItemsOf(items, standupId), k)
  }

  /** A bucket holds exactly the views of the standup's described items of its type. */
  lemma BucketMembers(items: seq<ItemRow>, standupId: int, k: ItemType, v: ItemView)
    ensures v in Bucket(items, standupId, k) <==>
      exists it :: it in items && it.standupId == standupId && it.kind == k && it.description != ""
                   && v == ItemView(it.description, it.resolved)
  {
    KindViewsMembers(ItemsOf(items, standupId), k, v);
  }

  function HasDescription(it: ItemRow): bool {
    it.description != ""
  }

  /** The three buckets split the described items of a standup: each lands in exactly one. */
  lemma {:induction false} KindViewsPartition(its: seq<ItemRow>)
    ensures |KindViews(its, Accomplishment)| + |KindViews(its, Plan)| + |KindViews(its, Blocker)|
            == |Filter(its, HasDescription)|
  {
    if its != [] {
      KindViewsPartition(its[1..]);
    }
  }

  /** What `get_recent_standups` reports for one standup. */
  function ViewOf(s: StandupRow, items: seq<ItemRow>): StandupView {
    StandupView(s.date, s.submitted, Bucket(items, s.id, Accomplishment), Bucket(items, s.id, Plan),
                Bucket(items, s.id, Blocker))
  }

  /** A row of `standups s LEFT JOIN standup_items si`: the item is absent for a standup
      without items. */
  datatype JoinRow = JoinRow(standupId: int, date: Day, submitted: bool, item: Option<ItemRow>)

  function ItemRowsOf(s: StandupRow, its: seq<ItemRow>): (r: seq<JoinRow>)
    ensures |r| == |its|
  {
    if its == [] then [] else [JoinRow(s.id, s.date, s.submitted, Some(its[0]))] + ItemRowsOf(s, its[1..])
  }

  /** The joined rows of one standup. */
  function RowsOf(s: StandupRow, items: seq<ItemRow>): seq<JoinRow> {
    var its := ItemsOf(items, s.id);
    if its == [] then [JoinRow(s.id, s.date, s.submitted, None)] else ItemRowsOf(s, its)
  }

  /** The joined rows of several standups, in their order. */
  function JoinRows(ss: seq<StandupRow>, items: seq<ItemRow>): seq<JoinRow> {
    if ss == [] then [] else RowsOf(ss[0], items) + JoinRows(ss[1..], items)
  }

  function InWindow(userId: int, since: Day): StandupRow -> bool {
    (s: StandupRow) => s.userId == userId && s.date >= since
  }

  /** `WHERE s.user_id = ? AND s.date >= date('now', '-N days')`. */
  function WindowStandups(standups: seq<StandupRow>, userId: int, since: Day): (r: seq<StandupRow>)
    ensures forall s :: s in r <==> s in standups && s.userId == userId && s.date >= since
  {
    var r := Filter(standups, InWindow(userId, since));
    forall s | s in standups && s.userId == userId && s.date >= since ensures s in r {
      FilterKeeps(standups, InWindow(userId, since), s);
    }
    r
  }

  /** `date('now', '-N days')` for `today` and N = `days`. */
  function WindowStart(today: Day, days: nat): (since: Day)
    ensures since <= today
  {
    today - days
  }

  function StandupDate(s: StandupRow): int {
    s.date
  }

  /** `ORDER BY s.date DESC`. */
  function RecentOrder(standups: seq<StandupRow>, userId: int, since: Day): (r: seq<StandupRow>)
    ensures multiset(r) == multiset(WindowStandups(standups, userId, since))
    ensures SortedDesc(r, StandupDate)
  {
    SortDesc(WindowStandups(standups, userId, since), StandupDate)
  }

  /** The rows the query returns. Inside one standup the model fixes them to insertion order.
      `ORDER BY s.date DESC, si.type` leaves the order of items with the same type unspecified,
      and the order across types is not observable, since every type has its own bucket. */
  function RecentQuery(standups: seq<StandupRow>, items: seq<ItemRow>, userId: int, since: Day): seq<JoinRow> {
    JoinRows(RecentOrder(standups, userId, since), items)
  }

  /** An entry of the `standups` dict the loop builds: its key and its value. */
  datatype Group = Group(id: int, view: StandupView)

  function GroupView(g: Group): StandupView {
    g.view
  }

  /** Where the dict holds the key `id`, if it does. */
  function PositionOf(groups: seq<Group>, id: int): (r: Option<nat>)
    ensures r.Some? ==> r.value < |groups| && groups[r.value].id == id
                        && forall j :: 0 <= j < r.value ==> groups[j].id != id
    ensures r.None? <==> forall j :: 0 <= j < |groups| ==> groups[j].id != id
  {
    if groups == [] then None
    else if groups[0].id == id then Some(0)
    else match PositionOf(groups[1..], id)
      case None => None
      case Some(p) => Some(p + 1)
  }

  /** The loop body's `append(item)` into the bucket matching the item's type, when the item
      has a description. */
  function AddItem(v: StandupView, it: ItemRow): StandupView {
    if it.description == "" then v
    else
      var entry := ItemView(it.description, it.resolved);
      match it.kind
      case Accomplishment => v.(accomplishments := v.accomplishments + [entry])
      case Plan => v.(plans := v.plans + [entry])
      case Blocker => v.(blockers := v.blockers + [entry])
  }

  function AddRowItem(groups: seq<Group>, p: nat, item: Option<ItemRow>): seq<Group>
    requires p < |groups|
  {
    match item
    case None => groups
    case Some(it) => groups[p := Group(groups[p].id, AddItem(groups[p].view, it))]
  }

  /** One iteration of the grouping loop: open an entry for an unseen standup, then file the
      row's item. */
  function GroupStep(groups: seq<Group>, row: JoinRow): seq<Group> {
    match PositionOf(groups, row.standupId)
    case None =>
      AddRowItem(groups + [Group(row.standupId, StandupView(row.date, row.submitted, [], [], []))], |groups|, row.item)
    case Some(p) => AddRowItem(groups, p, row.item)
  }

  /** The grouping loop run over `rows`, starting from the dict `groups`. */
  function GroupRows(groups: seq<Group>, rows: seq<JoinRow>): seq<Group>
    decreases |rows|
  {
    if rows == [] then groups else GroupRows(GroupStep(groups, rows[0]), rows[1..])
  }

  /** The entries the grouping should produce: one per standup, in order. */
  function Groups(ss: seq<StandupRow>, items: seq<ItemRow>): (r: seq<Group>)
    ensures |r| == |ss|
    ensures forall k :: 0 <= k < |ss| ==> r[k] == Group(ss[k].id, ViewOf(ss[k], items))
  {
    if ss == [] then [] else [Group(ss[0].id, ViewOf(ss[0], items))] + Groups(ss[1..], items)
  }

  /** `get_recent_standups`' result, as specified: one view per standup of the window, newest
      date first. */
  function RecentStandups(standups: seq<StandupRow>, items: seq<ItemRow>, userId: int, since: Day)
    : (r: seq<StandupView>)
    ensures |r| == |RecentOrder(standups, userId, since)|
    ensures forall k :: 0 <= k < |r| ==> r[k] == ViewOf(RecentOrder(standups, userId, since)[k], items)
  {
    Map(Groups(RecentOrder(standups, userId, since), items), GroupView)
  }

  // The grouping loop produces one entry per standup, in the order of the joined rows.

  lemma {:induction false} GroupRowsAppend(groups: seq<Group>, a: seq<JoinRow>, b: seq<JoinRow>)
    ensures GroupRows(groups, a + b) == GroupRows(GroupRows(groups, a), b)
    decreases |a|
  {
    if a == [] {
      assert a + b == b;
    } else {
      assert (a + b)[0] == a[0] && (a + b)[1..] == a[1..] + b;
      GroupRowsAppend(GroupStep(groups, a[0]), a[1..], b);
    }
  }

  /** Filing the items of one standup, one after the other. */
  function AddItems(v: StandupView, its: seq<ItemRow>): StandupView
    decreases |its|
  {
    if its == [] then v else AddItems(AddItem(v, its[0]), its[1..])
  }

  lemma {:induction false} AddItemsBuckets(v: StandupView, its: seq<ItemRow>)
    ensures AddItems(v, its) == StandupView(v.date, v.submitted,
      v.accomplishments + KindViews(its, Accomplishment), v.plans + KindViews(its, Plan),
      v.blockers + KindViews(its, Blocker))
    decreases |its|
  {
    if its == [] {
      assert v.accomplishments + [] == v.accomplishments;
      assert v.plans + [] == v.plans;
      assert v.blockers + [] == v.blockers;
    } else {
      var w := AddItem(v, its[0]);
      AddItemsBuckets(w, its[1..]);
      var t := its[1..];
      assert w.accomplishments + KindViews(t, Accomplishment) == v.accomplishments + KindViews(its, Accomplishment);
      assert w.plans + KindViews(t, Plan) == v.plans + KindViews(its, Plan);
      assert w.blockers + KindViews(t, Blocker) == v.blockers + KindViews(its, Blocker);
    }
  }

  lemma {:induction false} PositionOfSameIds(a: seq<Group>, b: seq<Group>, id: int)
    requires |a| == |b| && forall j :: 0 <= j < |a| ==> a[j].id == b[j].id
    ensures PositionOf(a, id) == PositionOf(b, id)
    decreases |a|
  {
    if a != [] {
      PositionOfSameIds(a[1..], b[1..], id);
    }
  }

  lemma {:induction false} ItemRowsGroup(groups: seq<Group>, p: nat, s: StandupRow, its: seq<ItemRow>)
    requires p < |groups| && groups[p].id == s.id && PositionOf(groups, s.id) == Some(p)
    ensures GroupRows(groups, ItemRowsOf(s, its)) == groups[p := Group(s.id, AddItems(groups[p].view, its))]
    decreases |its|
  {
    if its == [] {
      assert groups[p := Group(s.id, groups[p].view)] == groups;
    } else {
      var rows := ItemRowsOf(s, its);
      assert rows[0] == JoinRow(s.id, s.date, s.submitted, Some(its[0])) && rows[1..] == ItemRowsOf(s, its[1..]);
      var g1 := groups[p := Group(s.id, AddItem(groups[p].view, its[0]))];
      assert GroupStep(groups, rows[0]) == g1;
      PositionOfSameIds(groups, g1, s.id);
      ItemRowsGroup(g1, p, s, its[1..]);
      assert g1[p := Group(s.id, AddItems(g1[p].view, its[1..]))]
          == groups[p := Group(s.id, AddItems(groups[p].view, its))];
    }
  }

  lemma PositionOfAppend(groups: seq<Group>, g: Group)
    requires PositionOf(groups, g.id).None?
    ensures PositionOf(groups + [g], g.id) == Some(|groups|)
  {
    assert (groups + [g])[|groups|].id == g.id;
    forall j | 0 <= j < |groups| ensures (groups + [g])[j].id != g.id {
      assert (groups + [g])[j] == groups[j];
    }
  }

  /** The rows of a standup the dict has not seen yet add exactly its entry. */
  lemma RowsOfGroup(groups: seq<Group>, s: StandupRow, items: seq<ItemRow>)
    requires PositionOf(groups, s.id).None?
    ensures GroupRows(groups, RowsOf(s, items)) == groups + [Group(s.id, ViewOf(s, items))]
  {
    var its := ItemsOf(items, s.id);
    var empty := StandupView(s.date, s.submitted, [], [], []);
    var g0 := groups + [Group(s.id, empty)];
    AddItemsBuckets(empty, its);
    if its == [] {
      var rows := RowsOf(s, items);
      assert rows == [JoinRow(s.id, s.date, s.submitted, None)];
      assert GroupRows(groups, rows) == GroupRows(g0, []);
    } else {
      var rows := ItemRowsOf(s, its);
      PositionOfAppend(groups, Group(s.id, empty));
      assert rows[0] == JoinRow(s.id, s.date, s.submitted, Some(its[0]));
      assert GroupStep(groups, rows[0]) == GroupStep(g0, rows[0]);
      assert GroupRows(groups, rows) == GroupRows(g0, rows);
      ItemRowsGroup(g0, |groups|, s, its);
      assert [] + KindViews(its, Accomplishment) == Bucket(items, s.id, Accomplishment);
      assert [] + KindViews(its, Plan) == Bucket(items, s.id, Plan);
      assert [] + KindViews(its, Blocker) == Bucket(items, s.id, Blocker);
      assert AddItems(empty, its) == ViewOf(s, items);
      assert g0[|groups| := Group(s.id, AddItems(empty, its))] == groups + [Group(s.id, ViewOf(s, items))];
    }
  }

  /** No entry of `groups` has the id of a standup of `ss`. */
  predicate IdsDisjoint(groups: seq<Group>, ss: seq<StandupRow>) {
    forall g, s :: g in groups && s in ss ==> g.id != s.id
  }

  /** Standup ids without repetition. */
  predicate DistinctIds(ss: seq<StandupRow>) {
    forall i, j :: 0 <= i < j < |ss| ==> ss[i].id != ss[j].id
  }

  lemma {:induction false} JoinRowsGroup(groups: seq<Group>, ss: seq<StandupRow>, items: seq<ItemRow>)
    requires DistinctIds(ss)
    requires IdsDisjoint(groups, ss)
    ensures GroupRows(groups, JoinRows(ss, items)) == groups + Groups(ss, items)
    decreases |ss|
  {
    if ss != [] {
      var head := Group(ss[0].id, ViewOf(ss[0], items));
      assert ss[0] in ss;
      JoinRowsStep(groups, ss, items);
      TailIdsFresh(groups, head, ss);
      JoinRowsGroup(groups + [head], ss[1..], items);
    }
  }

  /** The rows of the first standup of `ss` add its entry. */
  lemma JoinRowsStep(groups: seq<Group>, ss: seq<StandupRow>, items: seq<ItemRow>)
    requires ss != []
    requires forall g :: g in groups ==> g.id != ss[0].id
    ensures GroupRows(groups, JoinRows(ss, items))
            == GroupRows(groups + [Group(ss[0].id, ViewOf(ss[0], items))], JoinRows(ss[1..], items))
  {
    var first, rest := RowsOf(ss[0], items), JoinRows(ss[1..], items);
    assert JoinRows(ss, items) == first + rest;
    GroupRowsAppend(groups, first, rest);
    assert forall j :: 0 <= j < |groups| ==> groups[j].id != ss[0].id by {
      forall j | 0 <= j < |groups| ensures groups[j].id != ss[0].id {
        assert groups[j] in groups;
      }
    }
    RowsOfGroup(groups, ss[0], items);
  }

  lemma TailIdsFresh(groups: seq<Group>, head: Group, ss: seq<StandupRow>)
    requires ss != [] && head.id == ss[0].id
    requires DistinctIds(ss)
    requires IdsDisjoint(groups, ss)
    ensures DistinctIds(ss[1..])
    ensures IdsDisjoint(groups + [head], ss[1..])
  {
    forall g, s | g in groups + [head] && s in ss[1..] ensures g.id != s.id {
      var k :| 0 <= k < |ss[1..]| && ss[1..][k] == s;
      assert s == ss[k + 1] && s in ss;
    }
  }

  /** In a table that keeps its primary key, the standups of the window have distinct ids. */
  lemma RecentOrderDistinct(standups: seq<StandupRow>, userId: int, since: Day)
    requires UniqueStandups(standups)
    ensures DistinctIds(RecentOrder(standups, userId, since))
  {
    var w := WindowStandups(standups, userId, since);
    var r := RecentOrder(standups, userId, since);
    assert Distinct(standups) by {
      forall i, j | 0 <= i < j < |standups| ensures standups[i] != standups[j] {
        assert standups[i].id != standups[j].id;
      }
    }
    DistinctFilter(standups, InWindow(userId, since));
    DistinctPermutation(w, r);
    forall i, j | 0 <= i < j < |r| ensures r[i].id != r[j].id {
      assert r[i] in multiset(w) && r[j] in multiset(w);
      var p :| 0 <= p < |standups| && standups[p] == r[i];
      var q :| 0 <= q < |standups| && standups[q] == r[j];
      assert p != q;
    }
  }

  /** The grouping loop, run over the query's rows, yields the specified entries. */
  lemma RecentGrouping(standups: seq<StandupRow>, items: seq<ItemRow>, userId: int, since: Day)
    requires UniqueStandups(standups)
    ensures GroupRows([], RecentQuery(standups, items, userId, since))
            == Groups(RecentOrder(standups, userId, since), items)
  {
    var order := RecentOrder(standups, userId, since);
    RecentOrderDistinct(standups, userId, since);
    JoinRowsGroup([], order, items);
    assert [] + Groups(order, items) == Groups(order, items);
  }

  /** The views of the grouped entries are the specified result. */
  lemma RecentGroupingViews(standups: seq<StandupRow>, items: seq<ItemRow>, userId: int, since: Day, groups: seq<Group>)
    requires UniqueStandups(standups)
    requires groups == GroupRows([], RecentQuery(standups, items, userId, since))
    ensures Map(groups, GroupView) == RecentStandups(standups, items, userId, since)
  {
    RecentGrouping(standups, items, userId, since);
  }

  /** Every standup of the user inside the window is reported, including those without items,
      and nothing else is. */
  lemma RecentStandupsComplete(standups: seq<StandupRow>, items: seq<ItemRow>, userId: int, since: Day)
    ensures var r := RecentStandups(standups, items, userId, since);
      |r| == |WindowStandups(standups, userId, since)|
      && (forall s :: s in standups && s.userId == userId && s.date >= since ==> ViewOf(s, items) in r)
      && (forall v :: v in r ==> exists s :: s in standups && s.userId == userId && s.date >= since
                                             && v == ViewOf(s, items))
  {
    var order := RecentOrder(standups, userId, since);
    assert |multiset(order)| == |multiset(WindowStandups(standups, userId, since))|;
    RecentStandupsHasAll(standups, items, userId, since);
    RecentStandupsOnlyWindow(standups, items, userId, since);
  }

  lemma RecentOrderHas(standups: seq<StandupRow>, userId: int, since: Day, s: StandupRow)
    ensures s in RecentOrder(standups, userId, since) <==> s in standups && s.userId == userId && s.date >= since
  {
    var order := RecentOrder(standups, userId, since);
    assert s in order <==> s in multiset(order);
  }

  lemma RecentStandupsHasAll(standups: seq<StandupRow>, items: seq<ItemRow>, userId: int, since: Day)
    ensures var r := RecentStandups(standups, items, userId, since);
      forall s :: s in standups && s.userId == userId && s.date >= since ==> ViewOf(s, items) in r
  {
    var r := RecentStandups(standups, items, userId, since);
    var order := RecentOrder(standups, userId, since);
    forall s | s in standups && s.userId == userId && s.date >= since ensures ViewOf(s, items) in r {
      RecentOrderHas(standups, userId, since, s);
      var k :| 0 <= k < |order| && order[k] == s;
      assert r[k] == ViewOf(s, items);
    }
  }

  lemma RecentStandupsOnlyWindow(standups: seq<StandupRow>, items: seq<ItemRow>, userId: int, since: Day)
    ensures var r := RecentStandups(standups, items, userId, since);
      forall v :: v in r ==> exists s :: s in standups && s.userId == userId && s.date >= since
                                         && v == ViewOf(s, items)
  {
    var r := RecentStandups(standups, items, userId, since);
    var order := RecentOrder(standups, userId, since);
    forall v | v in r ensures exists s :: s in standups && s.userId == userId && s.date >= since
                                           && v == ViewOf(s, items) {
      var k :| 0 <= k < |r| && r[k] == v;
      RecentOrderHas(standups, userId, since, order[k]);
      assert order[k] in order;
    }
  }

  /** Newest date first: with one standup per user and date, the dates strictly decrease. */
  lemma RecentStandupsNewestFirst(standups: seq<StandupRow>, items: seq<ItemRow>, userId: int, since: Day)
    requires UniqueStandups(standups)
    ensures var r := RecentStandups(standups, items, userId, since);
      forall i, j :: 0 <= i < j < |r| ==> r[i].date > r[j].date
  {
    var r := RecentStandups(standups, items, userId, since);
    var order := RecentOrder(standups, userId, since);
    RecentOrderDistinct(standups, userId, since);
    forall i, j | 0 <= i < j < |r| ensures r[i].date > r[j].date {
      OrderDatesDiffer(standups, userId, since, i, j);
      assert r[i].date == order[i].date && r[j].date == order[j].date;
    }
  }

  lemma OrderDatesDiffer(standups: seq<StandupRow>, userId: int, since: Day, i: nat, j: nat)
    requires UniqueStandups(standups)
    requires DistinctIds(RecentOrder(standups, userId, since))
    requires i < j < |RecentOrder(standups, userId, since)|
    ensures RecentOrder(standups, userId, since)[i].date > RecentOrder(standups, userId, since)[j].date
  {
    var order := RecentOrder(standups, userId, since);
    var w := WindowStandups(standups, userId, since);
    assert StandupDate(order[i]) >= StandupDate(order[j]);
    assert order[i] in multiset(w) && order[j] in multiset(w);
    var p :| 0 <= p < |standups| && standups[p] == order[i];
    var q :| 0 <= q < |standups| && standups[q] == order[j];
    assert order[i].id != order[j].id;
    assert p != q;
  }

  lemma {:induction false} ItemsOfAppend(items: seq<ItemRow>, it: ItemRow, standupId: int)
    ensures ItemsOf(items + [it], standupId) == ItemsOf(items, standupId) + (if it.standupId == standupId then [it] else [])
  {
    if items != [] {
      assert (items + [it])[0] == items[0] && (items + [it])[1..] == items[1..] + [it];
      ItemsOfAppend(items[1..], it, standupId);
    }
  }

  lemma {:induction false} KindViewsAppend(a: seq<ItemRow>, b: seq<ItemRow>, k: ItemType)
    ensures KindViews(a + b, k) == KindViews(a, k) + KindViews(b, k)
  {
    if a == [] {
      assert a + b == b;
    } else {
      assert (a + b)[0] == a[0] && (a + b)[1..] == a[1..] + b;
      KindViewsAppend(a[1..], b, k);
    }
  }

  /** `add_standup_item` appends the new item to the end of its bucket (when it has a
      description) and leaves every other bucket as it was. */
  lemma NewItemBucket(items: seq<ItemRow>, it: ItemRow, standupId: int, k: ItemType)
    ensures Bucket(items + [it], standupId, k)
            == Bucket(items, standupId, k)
               + (if it.standupId == standupId && it.kind == k && it.description != ""
                  then [ItemView(it.description, it.resolved)] else [])
  {
    ItemsOfAppend(items, it, standupId);
    KindViewsAppend(ItemsOf(items, standupId), if it.standupId == standupId then [it] else [], k);
  }

  // ---------------------------------------------------------------------------------------
  // the unresolved-blockers query

  /** `{'description': ..., 'created_at': ..., 'date': ...}` */
  datatype BlockerView = BlockerView(description: string, createdAt: Timestamp, date: Day)

  /** The standup an item joins with. */
  function StandupById(standups: seq<StandupRow>, id: int): (r: Option<StandupRow>)
    ensures r.Some? ==> r.value in standups && r.value.id == id
    ensures r.None? <==> forall s :: s in standups ==> s.id != id
  {
    Find(standups, (s: StandupRow) => s.id == id)
  }

  /** The WHERE clause: an unresolved blocker whose standup belongs to the user. An item whose
      standup row is gone (replaced by `create_standup`) has nothing to join with. */
  predicate OpenBlockerOf(it: ItemRow, standups: seq<StandupRow>, userId: int) {
    it.kind == Blocker && !it.resolved
    && StandupById(standups, it.standupId).Some? && StandupById(standups, it.standupId).value.userId == userId
  }

  function BlockerViewOf(it: ItemRow, standups: seq<StandupRow>): BlockerView
    requires StandupById(standups, it.standupId).Some?
  {
    BlockerView(it.description, it.createdAt, StandupById(standups, it.standupId).value.date)
  }

  /** The joined, filtered rows before ordering. */
  function BlockerRows(items: seq<ItemRow>, standups: seq<StandupRow>, userId: int): (r: seq<BlockerView>)
    ensures forall b :: b in r <==>
      exists it :: it in items && OpenBlockerOf(it, standups, userId) && b == BlockerViewOf(it, standups)
  {
    if items == [] then []
    else
      var rest := BlockerRows(items[1..], standups, userId);
      assert forall it :: it in items[1..] ==> it in items;
      assert forall it :: it in items ==> it == items[0] || it in items[1..];
      if OpenBlockerOf(items[0], standups, userId) then [BlockerViewOf(items[0], standups)] + rest else rest
  }

  function BlockerDate(b: BlockerView): int {
    b.date
  }

  /** `ORDER BY s.date DESC`. */
  function BlockersQuery(items: seq<ItemRow>, standups: seq<StandupRow>, userId: int): (r: seq<BlockerView>)
    ensures multiset(r) == multiset(BlockerRows(items, standups, userId))
    ensures SortedDesc(r, BlockerDate)
  {
    SortDesc(BlockerRows(items, standups, userId), BlockerDate)
  }

  // ---------------------------------------------------------------------------------------
  // conversation snapshots

  /** A `conversation_states` row; the state is kept as the JSON text `json.dumps` produced. */
  datatype ConversationRow = ConversationRow(
    id: int,
    sessionId: string,
    userId: int,
    stateData: string,
    createdAt: Timestamp,
    updatedAt: Timestamp)

  /** `{'session_id': ..., 'created_at': ...}` */
  datatype ConversationInfo = ConversationInfo(sessionId: string, createdAt: Timestamp)

  /** The `UNIQUE` session id holds no duplicates. */
  predicate UniqueSessions(conversations: seq<ConversationRow>) {
    forall i, j :: 0 <= i < j < |conversations| ==> conversations[i].sessionId != conversations[j].sessionId
  }

  /** `f"{github_username}-{stamp}"`, where `stamp` is the clock's `%Y%m%d-%H%M%S` text. */
  function SessionId(githubUsername: string, stamp: string): (sid: string)
    ensures |sid| == |githubUsername| + 1 + |stamp|
    ensures sid[..|githubUsername|] == githubUsername && sid[|githubUsername|] == '-'
    ensures sid[|githubUsername| + 1..] == stamp
  {
    githubUsername + "-" + stamp
  }

  function FindSession(conversations: seq<ConversationRow>, sessionId: string): (r: Option<ConversationRow>)
    ensures r.Some? ==> r.value in conversations && r.value.sessionId == sessionId
    ensures r.None? <==> forall c :: c in conversations ==> c.sessionId != sessionId
  {
    Find(conversations, (c: ConversationRow) => c.sessionId == sessionId)
  }

  /** `get_conversation_state`: the saved state of that session, or None. */
  function LoadState(conversations: seq<ConversationRow>, sessionId: string): (r: Option<string>)
    ensures r.None? <==> forall c :: c in conversations ==> c.sessionId != sessionId
    ensures r.Some? ==> exists c :: c in conversations && c.sessionId == sessionId && c.stateData == r.value
  {
    match FindSession(conversations, sessionId)
    case None => None
    case Some(c) => Some(c.stateData)
  }

  /** `save_conversation_state`: a `ValueError` for an unknown user; an `IntegrityError` when
      the session id is taken; otherwise the new row and its session id. */
  function SaveState(users: seq<UserRow>, conversations: seq<ConversationRow>, id: int, now: Timestamp,
                     stamp: string, githubUsername: string, stateData: string)
    : (r: Result<(seq<ConversationRow>, string), Error>)
    ensures FindByUsername(users, githubUsername).None? ==> r == Failure(ValueError("User not found: " + githubUsername))
    ensures FindByUsername(users, githubUsername).Some? ==>
      (r.Failure? <==> FindSession(conversations, SessionId(githubUsername, stamp)).Some?)
    ensures FindByUsername(users, githubUsername).Some? && r.Failure? ==>
      r.error == IntegrityError("conversation_states.session_id")
    ensures r.Success? ==>
      (r.value.1 == SessionId(githubUsername, stamp)
       && r.value.0 == conversations + [ConversationRow(id, r.value.1, FindByUsername(users, githubUsername).value.id,
                                                        stateData, now, now)])
  {
    match FindByUsername(users, githubUsername)
    case None => Failure(ValueError("User not found: " + githubUsername))
    case Some(u) =>
      var sid := SessionId(githubUsername, stamp);
      if FindSession(conversations, sid).Some? then Failure(IntegrityError("conversation_states.session_id"))
      else Success((conversations + [ConversationRow(id, sid, u.id, stateData, now, now)], sid))
  }

  /** What was saved is what is loaded back under the returned id, and no other session's
      state changes. */
  lemma SaveLoadRoundTrip(users: seq<UserRow>, conversations: seq<ConversationRow>, id: int, now: Timestamp,
                          stamp: string, githubUsername: string, stateData: string, other: string)
    requires SaveState(users, conversations, id, now, stamp, githubUsername, stateData).Success?
    ensures var (saved, sid) := SaveState(users, conversations, id, now, stamp, githubUsername, stateData).value;
      LoadState(saved, sid) == Some(stateData)
      && (other != sid ==> LoadState(saved, other) == LoadState(conversations, other))
  {
    var (saved, sid) := SaveState(users, conversations, id, now, stamp, githubUsername, stateData).value;
    var row := saved[|conversations|];
    assert saved == conversations + [row];
    FindAppend(conversations, [row], (c: ConversationRow) => c.sessionId == sid);
    FindAppend(conversations, [row], (c: ConversationRow) => c.sessionId == other);
  }

  /** Saving keeps session ids unique. */
  lemma SaveStateKeepsUnique(users: seq<UserRow>, conversations: seq<ConversationRow>, id: int, now: Timestamp,
                             stamp: string, githubUsername: string, stateData: string)
    requires UniqueSessions(conversations)
    requires SaveState(users, conversations, id, now, stamp, githubUsername, stateData).Success?
    ensures UniqueSessions(SaveState(users, conversations, id, now, stamp, githubUsername, stateData).value.0)
  {
    var saved := SaveState(users, conversations, id, now, stamp, githubUsername, stateData).value.0;
    forall i, j | 0 <= i < j < |saved| ensures saved[i].sessionId != saved[j].sessionId {
      if j == |conversations| {
        assert saved[i] in conversations;
      } else {
        assert saved[i] == conversations[i] && saved[j] == conversations[j];
      }
    }
  }

  /** The JOIN with `users` on `github_username`: the session's user has that name. */
  predicate OwnedBy(users: seq<UserRow>, c: ConversationRow, githubUsername: string) {
    FindById(users, c.userId).Some? && FindById(users, c.userId).value.githubUsername == githubUsername
  }

  function Info(c: ConversationRow): ConversationInfo {
    ConversationInfo(c.sessionId, c.createdAt)
  }

  /** The joined, filtered rows before ordering. */
  function UserConversations(users: seq<UserRow>, conversations: seq<ConversationRow>, githubUsername: string)
    : (r: seq<ConversationInfo>)
    ensures forall x :: x in r <==>
      exists c :: c in conversations && OwnedBy(users, c, githubUsername) && x == Info(c)
  {
    if conversations == [] then []
    else
      var rest := UserConversations(users, conversations[1..], githubUsername);
      assert forall c :: c in conversations[1..] ==> c in conversations;
      assert forall c :: c in conversations ==> c == conversations[0] || c in conversations[1..];
      if OwnedBy(users, conversations[0], githubUsername) then [Info(conversations[0])] + rest else rest
  }

  /** No session is listed exactly when the user has none. */
  lemma {:induction false} UserConversationsEmpty(users: seq<UserRow>, conversations: seq<ConversationRow>,
                                                  githubUsername: string)
    ensures UserConversations(users, conversations, githubUsername) == []
            <==> forall c :: c in conversations ==> !OwnedBy(users, c, githubUsername)
  {
    if conversations != [] {
      UserConversationsEmpty(users, conversations[1..], githubUsername);
      assert forall c :: c in conversations <==> c == conversations[0] || c in conversations[1..];
    }
  }

  function InfoCreatedAt(x: ConversationInfo): int {
    x.createdAt
  }

  /** `ORDER BY cs.created_at DESC`. */
  function ConversationsQuery(users: seq<UserRow>, conversations: seq<ConversationRow>, githubUsername: string)
    : (r: seq<ConversationInfo>)
    ensures multiset(r) == multiset(UserConversations(users, conversations, githubUsername))
    ensures SortedDesc(r, InfoCreatedAt)
  {
    SortDesc(UserConversations(users, conversations, githubUsername), InfoCreatedAt)
  }

  /** A saved session is listed for the user who saved it. */
  lemma SaveThenListed(users: seq<UserRow>, conversations: seq<ConversationRow>, id: int, now: Timestamp,
                       stamp: string, githubUsername: string, stateData: string)
    requires UniqueUsers(users)
    requires SaveState(users, conversations, id, now, stamp, githubUsername, stateData).Success?
    ensures var (saved, sid) := SaveState(users, conversations, id, now, stamp, githubUsername, stateData).value;
      ConversationInfo(sid, now) in UserConversations(users, saved, githubUsername)
  {
    var (saved, sid) := SaveState(users, conversations, id, now, stamp, githubUsername, stateData).value;
    var u := FindByUsername(users, githubUsername).value;
    var i :| 0 <= i < |users| && users[i] == u;
    FindUnique(users, i);
    var row := saved[|conversations|];
    assert row in saved && OwnedBy(users, row, githubUsername);
  }
}
