/** `MemoryService`: the SQLite store of users, standups, standup items and conversation
    snapshots, as an object whose tables are sequences of rows. `lastUserId` and its siblings
    play the part of `sqlite_sequence`, from which `AUTOINCREMENT` draws fresh ids. The current
    time and today's date are parameters of the operations that read the clock. */
module Memory {
  import opened Wrappers
  import opened Seqs
  import opened MemoryTables

  /** The loop of `get_recent_standups`: an entry per standup id, opened the first time the id
      is seen, and each row's item, when it has a description, appended to the list of its type. */
  method GroupJoinedRows(rows: seq<JoinRow>) returns (groups: seq<Group>)
    ensures groups == GroupRows([], rows)
  {
    groups := [];
    var i := 0;
    while i < |rows|
      invariant 0 <= i <= |rows|
      invariant GroupRows(groups, rows[i..]) == GroupRows([], rows)
    {
      var row := rows[i];
      ghost var before := groups;
      var p: nat;
      match PositionOf(groups, row.standupId) {
        case None =>
          groups := groups + [Group(row.standupId, StandupView(row.date, row.submitted, [], [], []))];
          p := |groups| - 1;
        case Some(q) =>
          p := q;
      }
      if row.item.Some? && row.item.value.description != "" {
        groups := groups[p := Group(groups[p].id, AddItem(groups[p].view, row.item.value))];
      }
      assert groups == GroupStep(before, row);
      assert rows[i..][1..] == rows[i + 1..];
      i := i + 1;
    }
  }

  /** What a database file kept by the service satisfies: the schema's keys and UNIQUE
      constraints hold, and every id was handed out by `AUTOINCREMENT` before. */
  ghost predicate Consistent(users: seq<UserRow>, standups: seq<StandupRow>, items: seq<ItemRow>,
                             conversations: seq<ConversationRow>, lastUserId: int, lastStandupId: int,
                             lastItemId: int, lastConversationId: int)
  {
    UsersTable(users, lastUserId) && UniqueStandups(standups) && UniqueSessions(conversations)
    && (forall s :: s in standups ==> s.id <= lastStandupId)
    && (forall it :: it in items ==> it.id <= lastItemId)
    && (forall c :: c in conversations ==> c.id <= lastConversationId)
  }

  class MemoryService {
    var users: seq<UserRow>
    var standups: seq<StandupRow>
    var items: seq<ItemRow>
    var conversations: seq<ConversationRow>
    var lastUserId: int
    var lastStandupId: int
    var lastItemId: int
    var lastConversationId: int

    /** The schema's keys and UNIQUE constraints hold, and every id was handed out before. */
    ghost predicate Valid()
      reads this
    {
      Consistent(users, standups, items, conversations,
                 lastUserId, lastStandupId, lastItemId, lastConversationId)
    }

    /** `_init_db` on a new database file: four empty tables. */
    constructor ()
      ensures Valid()
      ensures users == [] && standups == [] && items == [] && conversations == []
      ensures lastUserId == 0 && lastStandupId == 0 && lastItemId == 0 && lastConversationId == 0
    {
      users, standups, items, conversations := [], [], [], [];
      lastUserId, lastStandupId, lastItemId, lastConversationId := 0, 0, 0, 0;
    }

    /** `_init_db` on an existing database file: `CREATE TABLE IF NOT EXISTS` leaves the stored
        tables and `sqlite_sequence` as they are. */
    constructor Reopen(users: seq<UserRow>, standups: seq<StandupRow>, items: seq<ItemRow>,
                       conversations: seq<ConversationRow>, lastUserId: int, lastStandupId: int,
                       lastItemId: int, lastConversationId: int)
      requires Consistent(users, standups, items, conversations,
                          lastUserId, lastStandupId, lastItemId, lastConversationId)
      ensures Valid()
      ensures this.users == users && this.standups == standups && this.items == items
      ensures this.conversations == conversations
      ensures this.lastUserId == lastUserId && this.lastStandupId == lastStandupId
      ensures this.lastItemId == lastItemId && this.lastConversationId == lastConversationId
    {
      this.users, this.standups, this.items, this.conversations := users, standups, items, conversations;
      this.lastUserId, this.lastStandupId := lastUserId, lastStandupId;
      this.lastItemId, this.lastConversationId := lastItemId, lastConversationId;
    }

    /** `create_user`: the new user's id, or the `IntegrityError` of a taken username or email,
        in which case nothing changes. */
    method CreateUser(now: Timestamp, githubUsername: string, githubToken: string, email: string,
                      linearToken: Option<string> := None, format: string := "bullets",
                      timezone: string := "UTC", notificationTime: TimeOfDay := TimeOfDay(9, 0, 0, 0))
      returns (r: Result<int, Error>)
      requires Valid()
      modifies this
      ensures Valid()
      ensures r.Failure? <==> InsertUser(old(users), old(lastUserId) + 1, now, githubUsername, githubToken, email,
                                         linearToken, format, timezone, notificationTime).Failure?
      ensures r.Failure? ==> users == old(users) && lastUserId == old(lastUserId)
                             && r.error == InsertUser(old(users), old(lastUserId) + 1, now, githubUsername, githubToken,
                                                      email, linearToken, format, timezone, notificationTime).error
      ensures r.Success? ==> r.value == old(lastUserId) + 1 && lastUserId == r.value
                             && users == InsertUser(old(users), r.value, now, githubUsername, githubToken, email,
                                                    linearToken, format, timezone, notificationTime).value
      ensures r.Success? ==> GetUser(githubUsername) == Some(users[|users| - 1])
                             && GetUserById(r.value) == Some(users[|users| - 1])
      ensures standups == old(standups) && items == old(items) && conversations == old(conversations)
      ensures lastStandupId == old(lastStandupId) && lastItemId == old(lastItemId)
      ensures lastConversationId == old(lastConversationId)
    {
      var id := lastUserId + 1;
      var inserted := InsertUser(users, id, now, githubUsername, githubToken, email,
                                 linearToken, format, timezone, notificationTime);
      if inserted.Failure? {
        r := Failure(inserted.error);
      } else {
        InsertUserKeepsUnique(users, id, now, githubUsername, githubToken, email,
                              linearToken, format, timezone, notificationTime);
        users := inserted.value;
        lastUserId := id;
        r := Success(id);
      }
    }

    /** `get_user`. */
    function GetUser(githubUsername: string): (r: Option<UserRow>)
      reads this
      ensures r.Some? ==> r.value in users && r.value.githubUsername == githubUsername
      ensures r.None? <==> forall u :: u in users ==> u.githubUsername != githubUsername
    {
      FindByUsername(users, githubUsername)
    }

    /** `get_user_by_id`. */
    function GetUserById(id: int): (r: Option<UserRow>)
      reads this
      ensures r.Some? ==> r.value in users && r.value.id == id
      ensures r.None? <==> forall u :: u in users ==> u.id != id
    {
      FindById(users, id)
    }

    /** `create_standup`: replaces the user's standup of that date, if any, by a fresh one and
        returns its id. */
    method CreateStandup(now: Timestamp, userId: int, date: Day) returns (id: int)
      requires Valid()
      modifies this
      ensures Valid()
      ensures id == old(lastStandupId) + 1 && lastStandupId == id
      ensures standups == ReplaceStandup(old(standups), id, now, userId, date)
      ensures forall s :: s in standups && s.userId == userId && s.date == date ==> s.id == id
      ensures users == old(users) && items == old(items) && conversations == old(conversations)
      ensures lastUserId == old(lastUserId) && lastItemId == old(lastItemId)
      ensures lastConversationId == old(lastConversationId)
    {
      id := lastStandupId + 1;
      ReplaceStandupKeepsUnique(standups, id, now, userId, date);
      standups := ReplaceStandup(standups, id, now, userId, date);
      lastStandupId := id;
    }

    /** `add_standup_item`: appends the item, unresolved unless told otherwise, and returns its
        id. */
    method AddStandupItem(now: Timestamp, standupId: int, itemType: ItemType, description: string,
                          resolved: bool := false)
      returns (id: int)
      requires Valid()
      modifies this
      ensures Valid()
      ensures id == old(lastItemId) + 1 && lastItemId == id
      ensures items == old(items) + [ItemRow(id, standupId, itemType, description, resolved, now, now)]
      ensures users == old(users) && standups == old(standups) && conversations == old(conversations)
      ensures lastUserId == old(lastUserId) && lastStandupId == old(lastStandupId)
      ensures lastConversationId == old(lastConversationId)
    {
      id := lastItemId + 1;
      items := items + [ItemRow(id, standupId, itemType, description, resolved, now, now)];
      lastItemId := id;
    }

    /** `submit_standup`. */
    method SubmitStandup(now: Timestamp, standupId: int)
      requires Valid()
      modifies this
      ensures Valid()
      ensures standups == MarkSubmitted(old(standups), standupId, now)
      ensures users == old(users) && items == old(items) && conversations == old(conversations)
      ensures lastUserId == old(lastUserId) && lastStandupId == old(lastStandupId)
      ensures lastItemId == old(lastItemId) && lastConversationId == old(lastConversationId)
    {
      MarkSubmittedKeepsUnique(standups, standupId, now);
      standups := MarkSubmitted(standups, standupId, now);
    }

    /** `update_user_preferences`. */
    method UpdateUserPreferences(now: Timestamp, userId: int, preferences: map<string, string>)
      requires Valid()
      modifies this
      ensures Valid()
      ensures users == ApplyPreferences(old(users), userId, preferences, now)
      ensures standups == old(standups) && items == old(items) && conversations == old(conversations)
      ensures lastUserId == old(lastUserId) && lastStandupId == old(lastStandupId)
      ensures lastItemId == old(lastItemId) && lastConversationId == old(lastConversationId)
    {
      ApplyPreferencesKeepsUnique(users, lastUserId, userId, preferences, now);
      users := ApplyPreferences(users, userId, preferences, now);
    }

    /** `get_recent_standups`: the query's rows grouped by standup. `today` is `date('now')`. */
    method GetRecentStandups(today: Day, userId: int, days: nat := 5) returns (result: seq<StandupView>)
      requires Valid()
      ensures result == RecentStandups(standups, items, userId, WindowStart(today, days))
    {
      var since := WindowStart(today, days);
      var rows := RecentQuery(standups, items, userId, since);
      var groups := GroupJoinedRows(rows);
      RecentGroupingViews(standups, items, userId, since, groups);
      result := Map(groups, GroupView);
    }

    /** `get_unresolved_blockers`: copies the rows of the query into the result list. */
    method GetUnresolvedBlockers(userId: int) returns (blockers: seq<BlockerView>)
      ensures multiset(blockers) == multiset(BlockerRows(items, standups, userId))
      ensures SortedDesc(blockers, BlockerDate)
    {
      var rows := BlockersQuery(items, standups, userId);
      blockers := [];
      var i := 0;
      while i < |rows|
        invariant 0 <= i <= |rows|
        invariant blockers == rows[..i]
      {
        blockers := blockers + [BlockerView(rows[i].description, rows[i].createdAt, rows[i].date)];
        i := i + 1;
      }
      assert rows[..|rows|] == rows;
    }

    /** `save_conversation_state`: the new session's id, or the error; nothing changes on
        error. `stamp` is the clock's `%Y%m%d-%H%M%S` text. */
    method SaveConversationState(now: Timestamp, stamp: string, githubUsername: string, stateData: string)
      returns (r: Result<string, Error>)
      requires Valid()
      modifies this
      ensures Valid()
      ensures var saved := SaveState(old(users), old(conversations), old(lastConversationId) + 1, now, stamp,
                                     githubUsername, stateData);
        if saved.Failure?
        then r == Failure(saved.error) && conversations == old(conversations)
             && lastConversationId == old(lastConversationId)
        else r == Success(saved.value.1) && conversations == saved.value.0
             && lastConversationId == old(lastConversationId) + 1
      ensures r.Success? ==> GetConversationState(r.value) == Some(stateData)
      ensures users == old(users) && standups == old(standups) && items == old(items)
      ensures lastUserId == old(lastUserId) && lastStandupId == old(lastStandupId)
      ensures lastItemId == old(lastItemId)
    {
      var id := lastConversationId + 1;
      var saved := SaveState(users, conversations, id, now, stamp, githubUsername, stateData);
      if saved.Failure? {
        r := Failure(saved.error);
      } else {
        SaveStateKeepsUnique(users, conversations, id, now, stamp, githubUsername, stateData);
        SaveLoadRoundTrip(users, conversations, id, now, stamp, githubUsername, stateData, saved.value.1);
        conversations := saved.value.0;
        lastConversationId := id;
        r := Success(saved.value.1);
      }
    }

    /** `get_conversation_state`. */
    function GetConversationState(sessionId: string): (r: Option<string>)
      reads this
      ensures r.None? <==> forall c :: c in conversations ==> c.sessionId != sessionId
      ensures r.Some? ==> exists c :: c in conversations && c.sessionId == sessionId && c.stateData == r.value
    {
      LoadState(conversations, sessionId)
    }

    /** `list_user_conversations`: copies the rows of the query into the result list. */
    method ListUserConversations(githubUsername: string) returns (result: seq<ConversationInfo>)
      ensures multiset(result) == multiset(UserConversations(users, conversations, githubUsername))
      ensures SortedDesc(result, InfoCreatedAt)
      ensures result == [] <==> forall c :: c in conversations ==> !OwnedBy(users, c, githubUsername)
    {
      var rows := ConversationsQuery(users, conversations, githubUsername);
      result := [];
      var i := 0;
      while i < |rows|
        invariant 0 <= i <= |rows|
        invariant result == rows[..i]
      {
        result := result + [ConversationInfo(rows[i].sessionId, rows[i].createdAt)];
        i := i + 1;
      }
      assert rows[..|rows|] == rows;
      UserConversationsEmpty(users, conversations, githubUsername);
      assert |multiset(result)| == |multiset(UserConversations(users, conversations, githubUsername))|;
    }
  }
}
