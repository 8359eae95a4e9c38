# Rhythms standup assistant: the service core in Dafny

Rhythms is a standup assistant. It gathers a developer's recent GitHub and Linear activity,
turns it into standup bullets, keeps users, standups and conversation snapshots in a SQLite
store, and talks to the team over a Slack bot. This project models the core of those
services and proves properties of the model:

- `MemoryTables` and `Memory` model `MemoryService`. The four tables (users, standups,
  standup items, conversation states) are sequences of rows. Each SQL statement is a pure
  transition or query on them, with the schema's `UNIQUE` constraints, defaults, `REPLACE`
  semantics, joins and `ORDER BY`. The class `Memory.MemoryService` holds the tables as fields
  and applies those transitions. `AUTOINCREMENT` is a counter per table.
- `GitHub` models `GitHubService.summarize_activity`.
- `MockGitHub` models `MockGitHubService`: its fixed activity and its copy of the summary code.
- `Linear` models `LinearService`: the token check, the categorisation of fetched issues
  into completed work, work in progress and blockers, and the summary lines.
- `ReadMemoryDb` models the token masking that `print_table_data` applies to the users table.
- `Slack` models `SlackBot`:
  - which socket requests are counted, acknowledged and forwarded;
  - which messages get the crew reply;
  - the standup command's replies and the texts of every reply.
- `Seqs`, `Text` and `Wrappers` hold the shared definitions:
  - filter and map over sequences, and the descending sort;
  - Python's `str.strip`, `str.lower`, `in` on strings, `endswith` and decimal formatting;
  - `Option` and `Result`.

Clocks (`CURRENT_TIMESTAMP`, `date('now')`, `datetime.now()`) are parameters. So are the ids
SQLite hands out, the issues Linear returns, the crew lookup and the crew run. The Slack
clients are logs of acknowledged envelopes and posted messages.

## Model

| member | source | states |
|---|---|---|
| MemoryTables.ItemTypeValue | src/rhythms/services/memory_service.py:10-13 | the stored item type is one of "accomplishment", "plan", "blocker" |
| MemoryTables.ItemTypeValueInjective | src/rhythms/services/memory_service.py:75-86 | the `CHECK` on `type` admits exactly three values, one per item type |
| MemoryTables.FormatTime | src/rhythms/services/memory_service.py:113 | `strftime('%H:%M:%S')` gives 8 characters `HH:MM:SS` with two decimal digits per field |
| MemoryTables.FormatTimeInjective | src/rhythms/services/memory_service.py:100-113 | two times of day are stored as the same text exactly when their hour, minute and second agree; microseconds are dropped |
| MemoryTables.DefaultNotificationTime | src/rhythms/services/memory_service.py:38-40 | the default notification time `time(9, 0)` is stored as the column default "09:00:00" |
| MemoryTables.FindByUsername | src/rhythms/services/memory_service.py:124-142 | `get_user` returns a row with that username, and None exactly when no row has it |
| MemoryTables.FindById | src/rhythms/services/memory_service.py:285-303 | `get_user_by_id` returns a row with that id, and None exactly when no row has it |
| MemoryTables.FindUnique | src/rhythms/services/memory_service.py:31-44 | in a table without duplicates, every row is found by its username and by its id |
| MemoryTables.InsertUser | src/rhythms/services/memory_service.py:98-122 | insert fails exactly when the username or the email is taken. A taken username alone gives the `users.github_username` violation, a taken email alone the `users.email` one, and both taken give one of the two. On success it appends one row with the given fields, the formatted time and both timestamps, and keeps every earlier row |
| MemoryTables.InsertUserKeepsUnique | src/rhythms/services/memory_service.py:31-44 | a successful insert under a fresh id keeps the primary key and both UNIQUE columns free of duplicates. The new user is then found by username and by id |
| MemoryTables.InsertUserDefaults | src/rhythms/services/memory_service.py:98-122 | a user created without the optional arguments has no Linear token, format "bullets", timezone "UTC" and notification time "09:00:00" |
| MemoryTables.ValidUpdates | src/rhythms/services/memory_service.py:240-244 | the update keeps exactly the given keys among format, timezone and notification_time, with their values |
| MemoryTables.ApplyPreferences | src/rhythms/services/memory_service.py:235-256 | with no writable key nothing changes. Otherwise only the row with that id is touched, and the row count is unchanged |
| MemoryTables.ApplyPreferencesFields | src/rhythms/services/memory_service.py:235-256 | each writable column of the target row takes the given value when its key is present. It keeps its value otherwise. Id, username, tokens, email and creation time never change |
| MemoryTables.ApplyPreferencesKeepsUnique | src/rhythms/services/memory_service.py:31-44 | updating preferences keeps the users table free of duplicates |
| MemoryTables.ReplaceStandup | src/rhythms/services/memory_service.py:144-161 | `REPLACE INTO` removes the row holding the same (user, date) slot and keeps every other row. It appends a fresh unsubmitted row under the new id |
| MemoryTables.ReplaceStandupKeepsUnique | src/rhythms/services/memory_service.py:60-72 | after a replace under a fresh id, ids and (user, date) pairs are unique, and the new row is the only one in its slot |
| MemoryTables.MarkSubmitted | src/rhythms/services/memory_service.py:218-233 | only the standup with that id becomes submitted, stamped with the current time. An unknown id changes nothing |
| MemoryTables.MarkSubmittedKeepsUnique | src/rhythms/services/memory_service.py:60-72 | submitting keeps both uniqueness rules of the standups table |
| MemoryTables.KindViewsMembers | src/rhythms/services/memory_service.py:193-213 | a view is in a type's list exactly when some item of that type with a non-empty description has it |
| MemoryTables.BucketMembers | src/rhythms/services/memory_service.py:193-213 | a standup's list of one type holds exactly the views of that standup's described items of the type |
| MemoryTables.KindViewsPartition | src/rhythms/services/memory_service.py:193-213 | each described item lands in exactly one of the three lists |
| MemoryTables.WindowStandups | src/rhythms/services/memory_service.py:185-191 | the `WHERE` clause keeps exactly the user's standups dated on or after the window start |
| MemoryTables.RecentOrder | src/rhythms/services/memory_service.py:185-191 | the window's standups, as a permutation, ordered by date descending |
| MemoryTables.GroupRowsAppend | src/rhythms/services/memory_service.py:193-213 | running the grouping loop over two batches of rows is running it over their concatenation |
| MemoryTables.AddItemsBuckets | src/rhythms/services/memory_service.py:193-213 | filing a standup's items appends each type's described items to that type's list, in insertion order (the order the model fixes for rows with equal sort keys) |
| MemoryTables.RowsOfGroup | src/rhythms/services/memory_service.py:193-213 | the joined rows of an unseen standup, including the single item-less row of the `LEFT JOIN`, add exactly that standup's entry |
| MemoryTables.JoinRowsGroup | src/rhythms/services/memory_service.py:193-213 | grouping the joined rows of standups with distinct ids yields one entry per standup, in order |
| MemoryTables.RecentOrderDistinct | src/rhythms/services/memory_service.py:60-72 | with the primary key holding, the window's standups have distinct ids |
| MemoryTables.RecentGrouping | src/rhythms/services/memory_service.py:180-216 | the grouping loop over the query's rows yields one entry per window standup, newest first |
| MemoryTables.RecentGroupingViews | src/rhythms/services/memory_service.py:193-216 | the dict's values, in insertion order, are the specified recent standups |
| MemoryTables.RecentStandups | src/rhythms/services/memory_service.py:180-216 | the k-th result is the view (date, submitted, three lists) of the k-th window standup by date descending |
| MemoryTables.RecentStandupsComplete | src/rhythms/services/memory_service.py:180-216 | every standup of the user in the window is reported, even without items, and nothing else is |
| MemoryTables.RecentStandupsNewestFirst | src/rhythms/services/memory_service.py:185-191 | with one standup per user and date, the reported dates strictly decrease |
| MemoryTables.NewItemBucket | src/rhythms/services/memory_service.py:163-178 | adding an item appends its view to its own standup's list of its type, at the end in the model's insertion order, when it has a description. Every other list is unchanged |
| MemoryTables.StandupById | src/rhythms/services/memory_service.py:263-280 | the join partner of an item is a standup with its `standup_id`, and none exactly when no such row exists |
| MemoryTables.BlockerRows | src/rhythms/services/memory_service.py:263-280 | a blocker view is listed exactly when some unresolved blocker item joins a standup of the user |
| MemoryTables.BlockersQuery | src/rhythms/services/memory_service.py:263-280 | those rows, as a permutation, ordered by standup date descending |
| MemoryTables.SessionId | src/rhythms/services/memory_service.py:321 | the session id is the username, a dash, then the time stamp |
| MemoryTables.LoadState | src/rhythms/services/memory_service.py:334-351 | None exactly when no snapshot has the session id; otherwise the state of a snapshot with that id |
| MemoryTables.SaveState | src/rhythms/services/memory_service.py:305-332 | an unknown user raises `ValueError("User not found: ...")`. A taken session id raises the UNIQUE violation. Otherwise one row is appended for the user's id, and its session id is returned |
| MemoryTables.SaveLoadRoundTrip | src/rhythms/services/memory_service.py:305-351 | the saved state is loaded back under the returned session id, and every other session loads as before |
| MemoryTables.SaveStateKeepsUnique | src/rhythms/services/memory_service.py:47-57 | saving keeps session ids unique |
| MemoryTables.UserConversations | src/rhythms/services/memory_service.py:359-373 | a session is listed exactly when its user row has that GitHub username |
| MemoryTables.UserConversationsEmpty | src/rhythms/services/memory_service.py:353-375 | the list is empty exactly when the user owns no snapshot |
| MemoryTables.ConversationsQuery | src/rhythms/services/memory_service.py:359-373 | those sessions, as a permutation, ordered by creation time descending |
| MemoryTables.SaveThenListed | src/rhythms/services/memory_service.py:305-375 | a saved session is listed for the user who saved it |
| Memory.GroupJoinedRows | src/rhythms/services/memory_service.py:193-213 | the loop computes the grouping of the rows in one pass |
| Memory.MemoryService.constructor | src/rhythms/services/memory_service.py:31-86 | a new database has four empty tables and keeps the schema's constraints |
| Memory.MemoryService.Reopen | src/rhythms/services/memory_service.py:15-86 | opening an existing database keeps its stored tables and id counters, which satisfy the schema's constraints |
| Memory.MemoryService.CreateUser | src/rhythms/services/memory_service.py:98-122 | returns the fresh id, or the `IntegrityError`, exactly as the insert decides. On error nothing changes. On success the user is found by username and by id, and the constraints still hold |
| Memory.MemoryService.GetUser | src/rhythms/services/memory_service.py:124-142 | the row with that username, or None exactly when there is none |
| Memory.MemoryService.GetUserById | src/rhythms/services/memory_service.py:285-303 | the row with that id, or None exactly when there is none |
| Memory.MemoryService.CreateStandup | src/rhythms/services/memory_service.py:144-161 | returns the fresh id. The user's standup of that date is replaced, so it is the only one in its slot. The other tables are unchanged |
| Memory.MemoryService.AddStandupItem | src/rhythms/services/memory_service.py:163-178 | appends the item, unresolved by default, and returns its fresh id; the other tables are unchanged |
| Memory.MemoryService.SubmitStandup | src/rhythms/services/memory_service.py:218-233 | marks the standup submitted; the other tables are unchanged and the constraints hold |
| Memory.MemoryService.UpdateUserPreferences | src/rhythms/services/memory_service.py:235-256 | applies the writable preferences to the user; the other tables are unchanged and the constraints hold |
| Memory.MemoryService.GetRecentStandups | src/rhythms/services/memory_service.py:180-216 | the result is the specified recent standups for the window of `days` days, 5 by default |
| Memory.MemoryService.GetUnresolvedBlockers | src/rhythms/services/memory_service.py:258-283 | the user's unresolved blockers, as a permutation of the joined rows, ordered by date descending |
| Memory.MemoryService.SaveConversationState | src/rhythms/services/memory_service.py:305-332 | returns the session id or the error, as the save decides. Nothing changes on error. On success the state loads back under that id |
| Memory.MemoryService.GetConversationState | src/rhythms/services/memory_service.py:334-351 | None exactly when the session is unknown; otherwise that session's saved state |
| Memory.MemoryService.ListUserConversations | src/rhythms/services/memory_service.py:353-375 | the user's sessions, newest first, as a permutation; empty exactly when the user owns none |
| GitHub.SummarizeActivity | src/rhythms/services/github_service.py:122-175 | at most three accomplishment bullets and at most one ongoing-work bullet |
| GitHub.CommitLineRepos | src/rhythms/services/github_service.py:139-146 | the commit bullet names the repository when all commits share one. Otherwise it gives the number of distinct repositories |
| GitHub.OngoingWorkIff | src/rhythms/services/github_service.py:149-153 | ongoing work has a bullet exactly when some pull request is open, and it counts the open ones |
| GitHub.BulletKindsDiffer | src/rhythms/services/github_service.py:139-165 | the commit, merged and reviewed bullets never coincide |
| GitHub.AccomplishmentsIff | src/rhythms/services/github_service.py:139-165 | each accomplishment bullet appears exactly when there is activity of its kind, with its count. Commits come first, reviews last, and nothing else appears |
| GitHub.OtherPullStatesIgnored | src/rhythms/services/github_service.py:149-159 | a pull request neither open nor closed changes nothing in the summary |
| GitHub.NonOpenIssuesIgnored | src/rhythms/services/github_service.py:168-173 | an issue that is not open changes nothing in the summary |
| GitHub.BlockersAreOpenIssues | src/rhythms/services/github_service.py:168-173 | one blocker bullet per open issue, in input order, counting exactly the open issues |
| MockGitHub.GetUserActivity | src/rhythms/services/mock_github_service.py:57-59 | the activity built at construction, with 2 commits, 2 pull requests, 1 review and 1 issue, whatever the user and window |
| MockGitHub.SummarizeActivity | src/rhythms/services/mock_github_service.py:61-109 | the mock's copy computes the same summary as the real service |
| MockGitHub.MockSummary | src/rhythms/services/mock_github_service.py:5-109 | the mock always summarises to "Made 2 commits across 2 repositories", "Merged 1 pull requests", "Reviewed 1 pull requests"; "Working on 1 open pull requests"; and the one open issue line |
| Linear.CheckToken | src/rhythms/services/linear_service.py:11-16 | construction succeeds exactly when `LINEAR_TOKEN` is set and non-empty; otherwise the `ValueError` message |
| Linear.IssueUrl | src/rhythms/services/linear_service.py:47 | the URL is the issue page prefix followed by the identifier |
| Linear.GetUserActivity | src/rhythms/services/linear_service.py:18-69 | a failed fetch gives three empty lists. Otherwise the loop builds each list as the records of the issues its category accepts, in order |
| Linear.CategorizePartition | src/rhythms/services/linear_service.py:53-59 | every fetched issue lands in exactly one list; the three lists together are a permutation of the issues |
| Linear.CategorizeBucket | src/rhythms/services/linear_service.py:45-59 | completed issues go to completed work whatever their state. Other issues go to blockers exactly when their lowered state is "blocked" or "on hold", and to work in progress otherwise |
| Linear.CategorizeSound | src/rhythms/services/linear_service.py:45-59 | every record in a list comes from an issue that list accepts |
| Linear.SummarizeActivity | src/rhythms/services/linear_service.py:71-88 | one line per record, list by list, in order. Completed and blocker lines read "title [url]", in-progress lines "title (Status: s) [url]" |
| ReadMemoryDb.MaskToken | scripts/read_memory_db.py:40-41 | a token longer than 8 becomes its first four characters, "...", then its last four, 11 characters in all. Shorter tokens are unchanged |
| ReadMemoryDb.MaskTokenIdempotent | scripts/read_memory_db.py:41 | masking a masked token changes nothing |
| ReadMemoryDb.MaskTokenHidesMiddle | scripts/read_memory_db.py:41 | two long tokens have the same mask exactly when their first four and last four characters agree |
| ReadMemoryDb.MaskCell | scripts/read_memory_db.py:37-41 | only truthy cells under a header ending in `_token` change; text is masked; a non-zero integer raises `TypeError` |
| ReadMemoryDb.MaskRow | scripts/read_memory_db.py:36-42 | the row fails exactly when one of its cells does; otherwise every cell is masked in place |
| ReadMemoryDb.MaskRows | scripts/read_memory_db.py:33-43 | other tables pass through unchanged. The users table with a `github_token` column fails exactly when some cell cannot be masked; otherwise every row is masked, in order |
| ReadMemoryDb.MaskedCells | scripts/read_memory_db.py:33-47 | masking keeps the row count and order and every non-token or empty cell. Long tokens become their 11-character mask, and short ones are kept |
| Slack.CheckTokens | src/rhythms/services/slack_service.py:22-27 | construction succeeds exactly when both tokens are set and non-empty; otherwise the `ValueError` message |
| Slack.KeywordsIgnoreSurroundingSpace | src/rhythms/services/slack_service.py:74-82 | stripping the text never changes whether it asks for the crew or for a standup |
| Slack.BuildCrewText | src/rhythms/services/slack_service.py:92-94 | the loop builds the header followed by one member line per member, in order |
| Slack.CrewTextLines | src/rhythms/services/slack_service.py:92-94 | when no name or role holds a line break, the reply has one line more than there are members |
| Slack.MemberLinesPrefix | src/rhythms/services/slack_service.py:93-94 | the lines of the first k members begin the member lines, so member order is kept |
| Slack.CrewReply | src/rhythms/services/slack_service.py:85-106 | the crew text in the command's channel, or the apology when the crew lookup raises |
| Slack.MessageReplies | src/rhythms/services/slack_service.py:69-83 | at most one reply, posted exactly when the message is not from a bot and its lowered stripped text contains "crew" |
| Slack.SummaryText | src/rhythms/services/slack_service.py:129-139 | a summary post can never be mistaken for the apology |
| Slack.StandupReplies | src/rhythms/services/slack_service.py:108-139 | no reply unless the text asks for a standup. Otherwise the start notice, then the apology exactly when the crew run raises, and the summary of its result otherwise |
| Slack.SlackBot.constructor | src/rhythms/services/slack_service.py:19-66 | the counter starts at zero, nothing is posted or acknowledged, and the socket handler is the one listener |
| Slack.SlackBot.Create | src/rhythms/services/slack_service.py:19-27 | construction fails with the token message exactly when a token is missing or empty |
| Slack.SlackBot.HandleSocketRequest | src/rhythms/services/slack_service.py:52-63 | the counter grows by one exactly for an `events_api` request with an `app_mention` event. Only such requests are acknowledged and forwarded to the standup handler; the rest change nothing |
| Slack.SlackBot.HandleMessage | src/rhythms/services/slack_service.py:69-83 | posts exactly the message replies; counter and acknowledgements are unchanged |
| Slack.SlackBot.HandleCrewCommand | src/rhythms/services/slack_service.py:85-106 | posts exactly the crew reply |
| Slack.SlackBot.HandleStandupCommand | src/rhythms/services/slack_service.py:108-139 | posts exactly the standup replies |

## Left out

- SQLite itself (files, connections, cursors, transactions, `row_factory`) is not modelled. Each statement is a function on sequences of rows.
- Clock readings and `AUTOINCREMENT` ids are parameters; `sqlite_sequence` is a counter per table.
- Timestamps are integers and dates are day numbers. The `%Y%m%d-%H%M%S` stamp of a session id is an opaque string.
- `json.dumps`/`json.loads` of snapshot states is not modelled. The state is the stored JSON text, so the round trip is stated on that text.
- Foreign keys are not enforced. `_get_connection` turns them on (src/rhythms/services/memory_service.py:91-96), but `create_standup` and `add_standup_item` open plain connections without that pragma (src/rhythms/services/memory_service.py:146, 166). So an item may name any standup id, and items of a replaced standup stay behind; they join nothing in the queries.
- MemoryTables.RecentStandups, MemoryTables.NewItemBucket and MemoryTables.AddItemsBuckets fix the order of the items within one standup and one type to insertion order. The query's `ORDER BY s.date DESC, si.type` (src/rhythms/services/memory_service.py:185-191) leaves rows with equal keys in an order SQLite does not specify. So the source does not promise that order, only which items each list holds (MemoryTables.BucketMembers). The order across types cannot be observed, because every type has its own list.
- MemoryTables.FormatTimeInjective: `tzinfo` of a `datetime.time` is not modelled. `%H:%M:%S` never prints it, so it is dropped like the microseconds.
- MemoryTables.InsertUser: when both the username and the email are taken, the contract promises only that one of the two `UNIQUE` violations is reported. Which one SQLite reports depends on its internal order of constraint checks, which the repository does not fix.
- MemoryTables.ApplyPreferences, MemoryTables.ValidUpdates, MemoryTables.ApplyPreferencesFields and Memory.MemoryService.UpdateUserPreferences model preference values as text only. The source binds the values of an untyped dict as they come (src/rhythms/services/memory_service.py:235-256), and three cases are not covered. A `datetime.time` value makes `sqlite3` raise a binding error and nothing is updated. An integer is stored as an integer. Numeric-looking text for `notification_time`, a `TIME` column with numeric affinity, is stored as a number.
- MemoryTables.ReplaceStandup follows `REPLACE INTO` as written: the replaced row is deleted, and the new row gets a new id with `submitted` reset. The repository's test expects a second standup of the same user and date to raise the UNIQUE violation (tests/test_memory_service.py:119-122); `REPLACE` never raises it, and the model follows the code.
- Memory.MemoryService.GetRecentStandups: `days` is a `nat`; a negative window is not modelled.
- MemoryTables.WindowStandups follows `s.date >= date('now', '-N days')` as written, a window of N + 1 days. With standups on each of the last seven days and `days=5` it keeps six. The repository's test expects five (tests/test_memory_service.py:206-234); the model follows the code.
- Memory.MemoryService.GetUnresolvedBlockers and Memory.MemoryService.ListUserConversations state the result as a permutation sorted by the key. Rows with equal keys come in SQLite's unspecified order, which is not fixed here.
- `Text.Lower` lowers ASCII letters only. Python's `str.lower` also lowers other Unicode letters, which may matter for Linear state names and Slack texts.
- The Linear GraphQL request, the `first: 50` limit, the `updatedAt` window and the logging are not modelled. The fetched issues are a parameter, `None` when the request raises.
- The GitHub REST fetch (`get_user_activity` of `GitHubService`) is not modelled. Its result is the summary's input.
- Linear.GetUserActivity: an exception raised inside the categorising loop itself (a missing field) is not modelled. The fields are always present in the datatype.
- Slack: `GitHubService` defines no `get_crew_info`, so the lookup always raises in the repository. The model takes the lookup's outcome as a parameter (`None` when it raises).
- Slack: the crew run (`Rhythms().standup_crew().kickoff()`) is not modelled. Its outcome is a parameter, `None` when it raises, and its result is the text formatted into the summary.
- Slack.SlackBot.HandleStandupCommand and Slack.SlackBot.HandleCrewCommand: a failing `chat_postMessage` is not modelled; posting never fails in the model. In the source such a failure also leads to the apology: for the crew reply (src/rhythms/services/slack_service.py:96-105), and for the start notice or the summary post of the standup command (src/rhythms/services/slack_service.py:118-139).
- Slack: events missing `channel` or `user` (a `KeyError` in the source) are not modelled. Both fields are always present.
- Slack: the SSL context, the Slack web and socket clients, `start`'s connect-and-sleep loop and logging are left out. The clients are the `posted` and `acknowledged` logs.
- ReadMemoryDb.MaskRows requires each row to have one cell per header, as rows and headers come from the same cursor.
- ReadMemoryDb: `tabulate` printing, the "No data found" early return (an empty row list masks to an empty list), `read_database`, argument parsing and `sys.exit` are left out.
- `scheduler_service.py`, `crew.py`, `main.py` and `tools/github_tool.py` are not part of this model. They are scheduling, agent orchestration and entry points around the services.
- The source runs no services concurrently, so no concurrency is modelled.
