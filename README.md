# planner_bot in Dafny

A model of the core of planner_bot, a Telegram bot that writes a seven-day
content plan for a niche and a target audience, sells access to that feature
through a time-limited subscription, and gives administrators a statistics
command and a broadcast command.

The model follows the program's modules:

- `Wrappers`: `Option` and `Result`.
- `Text`: the Python `str` operations the bot relies on, over `seq<char>`:
  `isspace`, `strip`, `split(",")`, `"\n".join`, `startswith`, `str(int)`
  and `int(str)`.
- `Config` (app/config.py): reading `ADMIN_IDS` and the administrator test.
- `Planner` (app/services/planner.py):
  - the two case-insensitive searches `ниша[:\s]+([^,]+)` and `ЦА[:\s]+(.+)`,
    written out as search functions and proved equal to a leftmost-greedy
    match predicate;
  - the template table and `generate_day_content`;
  - `generate_content_plan`, a method with the source's `for` loop that
    appends the lines of each day.
- `Repository` (app/database/repository.py):
  - `UserRepository` and `ContentPlanRepository` are classes over in-memory
    copies of the two SQLite tables;
  - the schema's constraints, from app/database/connection.py, are class
    invariants.
- `SubscriptionService` (app/services/subscription.py): `check_access` and
  `grant_access` over the user table.
- `AccessMiddleware` (app/middlewares/subscription.py): the allow/deny
  decision taken before every handler.
- `AdminHandlers` (app/handlers/admin.py): `/admin` and `/broadcast`.
- `FeatureHandler` (app/handlers/feature.py): the gate in front of the planner.

Modelling choices:

- **Time.**
  - Instants are integers counting microseconds, the resolution of
    `datetime`.
  - The stored expiry is read back with `strptime(s.split(".")[0], ...)`,
    which drops the fraction of a second. The model keeps this step
    (`WholeSeconds`) because it is observable: a renewal moves the expiry by
    30 days less that fraction, so `timedelta.days` of the difference is 29
    or 30.
  - `now` is a parameter wherever the source reads the clock.
- **Randomness.** The seven `random.choice` draws are a parameter `picks`.
- **Dates.** The ordinal of tomorrow is a parameter. The weekday is
  `(ordinal + 6) % 7`, as `date.weekday()` computes it from
  `date.toordinal()`. `strftime("%d.%m")` is an abstract `dateLabel`
  function.
- **Users table.** It is the sequence of its rows in rowid order.
  - `telegram_id` is UNIQUE.
  - No operation deletes a user, so the rowid that SQLite hands out (the
    largest plus one) numbers the rows 1, 2, 3, and so on.
  - `get_all_ids` has no ORDER BY, and SQLite may answer it from the
    `telegram_id` index as well as in rowid order. The model scans the table
    in rowid order, but its contract promises only a rearrangement of the
    stored ids. The broadcast is stated over the ids in whatever order they
    come.
- **Plans table.** It is the sequence of its rows with the AUTOINCREMENT
  counter.
  - `ORDER BY created_at DESC` sorts by creation time. `created_at` is
    `CURRENT_TIMESTAMP`, to the second, so plans created within one second
    tie and have no fixed order. The model sorts by the `now` passed to
    `create`. The contract says "sorted newest first and a permutation",
    which holds for every order of the ties.
  - A negative `LIMIT` means no limit, as in SQLite.
- **Telegram.** A handler returns the answers it sends, in order. A
  broadcast also returns its `send_message` calls as (chat id, text) pairs.
  Whether a send raises is a parameter.

Behaviours of the code worth knowing:

- **Middleware order.** The allow-listed commands are checked before the
  missing-sender check (middlewares/subscription.py:26-31). Both paths reach
  the handler, so the outcome is the same.
- **Grant to an unknown user.** A grant to a user without a row returns
  now + days but writes nothing, so a later `check_access` is still false
  (subscription.py:67-70 and 85). The grant-then-check property therefore
  needs a known user.
- **Audience marker.** The audience capture stops at the end of the line,
  because `.` does not match a newline, not at the end of the text.
- **Users table ids.** `users.id` is `INTEGER PRIMARY KEY` without
  AUTOINCREMENT. With no deletions this numbers the rows the same way.
- **Audience marker inside a word.** The search is case-insensitive and is
  not anchored at a word boundary, so "ца" inside a word counts as the
  audience marker: "улица спорт" reads as the niche "улица спорт" with the
  audience "спорт" (`Planner.ExampleStreet`).

## Model

| member | source | states |
|---|---|---|
| Text.Strip | app/config.py:27 | `str.strip()`: the result neither starts nor ends with whitespace, and it is empty exactly when the input is all whitespace. |
| Text.StripTrims | app/config.py:27 | What `strip()` removes is a whitespace prefix and a whitespace suffix, and nothing else. |
| Text.Split | app/config.py:27 | `split(",")`: one more piece than there are commas. No piece holds a comma, and joining the pieces with the separator gives the input back. |
| Text.ParseInt | app/config.py:27 | `int(s)`: surrounding whitespace, an optional sign, then digits in groups joined by single underscores; anything else gives nothing. Its round trip with `str` is `Text.ParseIntOfIntToString`. |
| Text.ParseIntOfIntToString | app/config.py:27 | `int(str(x)) == x` for every integer. |
| Config.NonBlankEntries | app/config.py:27 | The filter keeps no blank entry and never lengthens the list. |
| Config.NonBlankEntriesAppend | app/config.py:27 | The filter works part by part: filtering a concatenation filters each side. So each part is kept, stripped, or dropped in its own place, and the order is kept. |
| Config.NonBlankEntriesMembers | app/config.py:27 | Every part that is not blank is kept, stripped. Every entry kept is a stripped part. |
| Config.ReadEachSucceeds | app/config.py:27 | Reading the list succeeds exactly when every entry is accepted by `int`. |
| Config.ReadEachValues | app/config.py:27 | A successful read yields one integer per entry, in the entries' order. |
| Config.ReadEachError | app/config.py:27 | A failed read names the first entry `int` rejects; every earlier entry was accepted. |
| Config.SplitJoin | app/config.py:27 | Splitting a joined list on a separator that no entry contains gives the list back. |
| Config.LoadSettings | app/config.py:24-29 | `__post_init__`: an empty or unset `ADMIN_IDS` gives no administrators; otherwise `int` of each non-blank stripped entry, failing at the first one `int` rejects. Its meaning is stated by `Config.ReadEachSucceeds`, `Config.ReadEachValues`, `Config.ReadEachError`, `Config.LoadRenderedIds` and `Config.NobodyIsAdminByDefault`. |
| Config.IsAdmin | app/config.py:31-33 | Membership in the loaded list; `Config.LoadRenderedIds` shows it holds exactly for the ids written into `ADMIN_IDS`. |
| Config.LoadRenderedIds | app/config.py:24-33 | Writing any list of ids into `ADMIN_IDS` and loading it gives the same list. `is_admin` then holds exactly for the listed ids. |
| Config.NobodyIsAdminByDefault | app/config.py:25-29 | An unset or empty `ADMIN_IDS` gives an empty list, so nobody is an administrator. |
| Config.TestAdminList | tests/test_config.py:18-34 | `ADMIN_IDS=123456789` makes 123456789 an administrator and 999999999 not. |
| Planner.SeparatorRunSpec | app/services/planner.py:59-60 | The separator run is the longest run of `[:\s]` at that index. |
| Planner.RunEndSpec | app/services/planner.py:59-60 | The group run extends to the first stop character or the end. |
| Planner.SearchFromSpec | app/services/planner.py:59-60 | The search reports the first position where the anchored pattern matches, and nothing only if it matches nowhere. |
| Planner.SearchMeaning | app/services/planner.py:59-60 | `re.search`: nothing exactly when the pattern matches nowhere. Otherwise the match is the leftmost one, and at its position the one the greedy `+`s prefer. |
| Planner.FirstGreedyMatchUnique | app/services/planner.py:59-60 | There is at most one leftmost greedy match. |
| Planner.CaptureMeaning | app/services/planner.py:59-65 | The capture is the stripped group of the leftmost greedy match, or empty when there is no match. |
| Planner.ParseUserInput | app/services/planner.py:45-74 | The audience is never empty, and the niche is empty only when the text is blank. The full meaning is `Planner.ParseUserInputMeaning`. |
| Planner.ParseUserInputMeaning | app/services/planner.py:45-74 | Niche: the stripped group of the first niche match. It falls back to the whole stripped text when there is no match or the group strips to nothing. Audience: the same, falling back to "широкая аудитория". |
| Planner.ParseMarkedInput | app/services/planner.py:59-65 | "ниша" + separators + X + "," + … + "ЦА" + separators + Y reads back as (X, Y) for any plain X and Y. |
| Planner.ParseNicheOnly | app/services/planner.py:59-72 | "ниша: X" alone reads as X with the default audience. |
| Planner.ParsePlainText | app/services/planner.py:67-72 | Text without the letters "ш" and "ц" is taken whole, stripped, as the niche, with the default audience. |
| Planner.NoCommaNicheTakesAll | app/services/planner.py:59 | Without a comma, the niche capture runs to the end and swallows the audience part. The audience is still read. |
| Planner.LineBreakStopsAudienceOnly | app/services/planner.py:59-60 | A line break ends the audience but not the niche. |
| Planner.MarkerInsideWord | app/services/planner.py:60 | "ца" at the end of a word counts as the audience marker. |
| Planner.ExampleFitness | tests/test_planner.py:16-22 | "ниша: фитнес, ЦА: женщины 25-35" gives ("фитнес", "женщины 25-35"). |
| Planner.ExampleNicheOnly | tests/test_planner.py:24-30 | "ниша: программирование" gives ("программирование", "широкая аудитория"). |
| Planner.ExamplePlain | tests/test_planner.py:32-38 | "кулинария для мам" gives ("кулинария для мам", "широкая аудитория"). |
| Planner.ExampleSpaces | tests/test_planner.py:40-46 | Whitespace works as the separator: "ниша кулинария, ЦА молодёжь" gives ("кулинария", "молодёжь"). |
| Planner.ExampleStreet | app/services/planner.py:59-72 | "улица спорт" gives the whole text as niche and "спорт" as audience. |
| Planner.TemplateTableShape | app/services/planner.py:11-37 | Five categories of three templates each, each template opening with text. |
| Planner.Format | app/services/planner.py:93-97 | `str.format` with the three fields; `Planner.FormatShowsField` and `Planner.FormatStartsWithText` state what the result contains. |
| Planner.FormatShowsField | app/services/planner.py:93-97 | Every field of a template appears, filled in, in the formatted text. |
| Planner.FormatStartsWithText | app/services/planner.py:93-97 | The formatted text begins with the template's opening text. |
| Planner.DayCategory | app/services/planner.py:86-87 | The day's category index is always a valid index into the five categories. |
| Planner.LeadsAreDistinct | app/services/planner.py:11-37 | The opening emoji of each of the 15 templates identifies its category and template. |
| Planner.DayContent | app/services/planner.py:77-99 | The drawn template of the day's category, filled in. `Planner.DayContentIdentifies` and `Planner.DayContentMentions` state its meaning. |
| Planner.DayContentIdentifies | app/services/planner.py:77-99 | A day's post is never empty. Equal posts come from the same category and the same template, whatever the niche and the audience. |
| Planner.CategoriesCycle | app/services/planner.py:85-87 | Categories repeat every five days, and the next day has the next category. |
| Planner.ConsecutiveDaysDiffer | tests/test_planner.py:89-94 | Two consecutive days never get the same post, whatever templates are drawn. |
| Planner.DayContentMentions | app/services/planner.py:93-97 | The niche, used for both niche and topic, and the audience are written into the post wherever the template has a field. |
| Planner.WeekdayIndex | app/services/planner.py:128 | The weekday index is in 0..6. |
| Planner.WeekdaysAdvance | app/services/planner.py:127-128 | The next day has the next weekday. |
| Planner.GenerateContentPlan | app/services/planner.py:102-145 | The loop builds the header lines, then three lines per day for days 0..6, then the footer, all joined by newlines. |
| Planner.DayBlocksShape | app/services/planner.py:126-135 | n days give 3n lines. Lines 3i to 3i+2 are day i's heading, post and blank line. |
| Planner.PlanShape | app/services/planner.py:117-143 | The plan has 32 lines: the 6 header lines, 21 day lines and the 5 footer lines, in that order. |
| Planner.PlanPosts | app/services/planner.py:131-134 | The line under day i's heading is day i's post: template `picks[i]` of the day's category, filled in. |
| Planner.PlanMentionsHeader | app/services/planner.py:117-120 | The plan contains its title, the niche and the audience. |
| Planner.PlanMentionsTip | app/services/planner.py:140 | The plan contains the word "Совет". |
| Planner.PlanMentionsDays | tests/test_planner.py:52-57 | The plan contains "День 1" through "День 7". |
| Planner.DayHeadingNumber | app/services/planner.py:133 | A day's heading carries its 1-based number. |
| Planner.GeneratedPlanProperties | tests/test_planner.py:52-76 | For any input and any draws, the plan contains the title, "Совет", the parsed niche and audience, and the headings of days 1 and 7. |
| Planner.ExampleSportsPlan | tests/test_planner.py:59-64 | The plan for "ниша: фитнес, ЦА: спортсмены" contains "фитнес" and "спортсмены". |
| Repository.IdsOf | app/database/repository.py:66-71 | The `telegram_id` column, one entry per row, in row order. |
| Repository.Find | app/database/repository.py:24-28 | The lookup finds a row exactly when the id is stored. The row found is stored, carries the id, and is the first such row. |
| Repository.FindUnique | app/database/connection.py:43 | With unique `telegram_id`s, the lookup returns the one row carrying the id. |
| Repository.UserRepository.constructor | app/database/connection.py:41-48 | The new table is empty and satisfies the invariant. |
| Repository.UserRepository.GetOrCreate | app/database/repository.py:16-44 | A known id returns its stored row and changes nothing, ignoring the names passed. An unknown id appends a row with the next id, the given names and no expiry, and returns it. The invariant is kept. |
| Repository.UserRepository.GetByTelegramId | app/database/repository.py:47-55 | Returns the row stored under the id, or None exactly when there is none. |
| Repository.UserRepository.CountAll | app/database/repository.py:58-63 | The number of rows. |
| Repository.UserRepository.GetAllIds | app/database/repository.py:66-71 | Every stored `telegram_id`, each exactly once, in no promised order: the ids are a rearrangement of the column. There are as many ids as rows, which is what `count_all` counts. |
| Repository.UserRepository.UpdateSubscription | app/database/repository.py:74-81 | Only the matching row's expiry changes. The invariant is kept. |
| Repository.WithEndFindsUpdated | app/database/repository.py:77-80 | After the update, the user's row is the old row with the new expiry, and a missing user stays missing. |
| Repository.WithEndFindsOther | app/database/repository.py:77-80 | Every other user's row is unchanged by the update. |
| Repository.WithEndAbsent | app/database/repository.py:77-80 | With no matching row the update changes nothing. |
| Repository.GetOrCreateIsIdempotent | tests/test_database.py:41-50 | Two calls with the same id return the same row. The table gains at most that one row. |
| Repository.ContentPlanRepository.constructor | app/database/connection.py:50-58 | The new table is empty and satisfies the invariant. |
| Repository.ContentPlanRepository.Create | app/database/repository.py:88-103 | The plan is appended under the next AUTOINCREMENT id, which is positive and larger than every earlier plan id. The invariant is kept. |
| Repository.ContentPlanRepository.GetByUser | app/database/repository.py:106-117 | Returns the rows of the query (filter, sort, limit), whose meaning `GetByUserMeaning` states. |
| Repository.ContentPlanRepository.CountByUser | app/database/repository.py:120-128 | The number of the user's plans. |
| Repository.ContentPlanRepository.CountAll | app/database/repository.py:131-136 | The number of plans. |
| Repository.PlansOf | app/database/repository.py:110-111 | `WHERE user_id = ?` never returns more rows than the table has. Its meaning is `Repository.PlansOfMeaning`. |
| Repository.PlansOfMeaning | app/database/repository.py:110-111 | `WHERE user_id = ?` keeps exactly the user's plans, each as often as it is stored, and no other plan. |
| Repository.PlansOfAppend | app/database/repository.py:120-128 | A new plan is added to its own user's list and to no other. |
| Repository.CreateCounts | app/database/repository.py:88-103 | `create` adds one to the user's count and one to the total, and leaves every other user's count alone. |
| Repository.InsertByDateMembers | app/database/repository.py:112 | Inserting adds the one plan and keeps all the others. |
| Repository.InsertByDateSorted | app/database/repository.py:112 | Inserting into a newest-first list keeps it newest first. |
| Repository.SortByDate | app/database/repository.py:112 | The sort keeps the number of plans. `Repository.SortByDateSpec` proves it newest first and a permutation. |
| Repository.SortByDateSpec | app/database/repository.py:112 | The sort is newest first and a permutation. |
| Repository.Limit | app/database/repository.py:113 | `LIMIT`: a prefix of the rows, of `limit` rows when there are more and of all rows otherwise. A negative limit means all rows. |
| Repository.LimitKeepsNewest | app/database/repository.py:112-113 | No plan left out by the limit is newer than a plan kept. |
| Repository.PrefixSplit | app/database/repository.py:113 | What a prefix leaves out is what lies after it. |
| Repository.UserPlans | app/database/repository.py:106-117 | The rows of `get_by_user`: filter, sort, limit. `Repository.GetByUserMeaning` states their meaning. |
| Repository.GetByUserMeaning | app/database/repository.py:106-117 | Only the user's plans, drawn from the table. The count is min(limit, count) or all of them. They are newest first, and nothing left out is newer than anything returned. |
| Repository.TwoPlansListed | tests/test_database.py:86-106 | After two plans of one user, the default limit returns both. |
| SubscriptionService.WholeSeconds | app/services/subscription.py:44 | Dropping the fraction gives the whole second at or below the instant, less than a second earlier. |
| SubscriptionService.CheckAccess | app/services/subscription.py:18-53 | The decision on the user's row as read. The table is only read. |
| SubscriptionService.HasAccess | app/services/subscription.py:29-53 | The decision on a row: an expiry is on record and, read to the second, lies after now. `SubscriptionService.AccessFromTable`, `SubscriptionService.AccessFailsClosed` and `SubscriptionService.AccessIsStrictlyBeforeExpiry` state its meaning. |
| SubscriptionService.AccessFromTable | app/services/subscription.py:29-53 | Access holds exactly when some row with the user's id carries an expiry that, read to the second, lies after now. |
| SubscriptionService.AccessFailsClosed | app/services/subscription.py:29-47 | No row, no expiry, or an unparsable expiry: no access. |
| SubscriptionService.AccessIsStrictlyBeforeExpiry | app/services/subscription.py:50-53 | With an expiry on record, access holds exactly when the expiry, read to the second, lies strictly after now. A second ahead grants access; an expiry not after now refuses it. |
| SubscriptionService.AccessOnlyExpires | app/services/subscription.py:50-53 | Access at a later instant implies access at every earlier one. |
| SubscriptionService.ExpiredYesterday | tests/test_subscription.py:46-57 | An expiry a day in the past refuses access. |
| SubscriptionService.GrantAccess | app/services/subscription.py:56-88 | Returns the new expiry computed from the row it read, and writes it onto that user's row only. The invariant is kept. |
| SubscriptionService.GrantedEnd | app/services/subscription.py:67-83 | The expiry a grant computes from the row it read. `SubscriptionService.GrantedEndFromLater`, `SubscriptionService.GrantStacks` and `SubscriptionService.GrantRestarts` state its meaning. |
| SubscriptionService.GrantedEndFromLater | app/services/subscription.py:79-83 | New expiry = days after the later of now and the active expiry. It never starts in the past and never shortens an active subscription. |
| SubscriptionService.GrantStacks | app/services/subscription.py:80-81 | With an active expiry T, the new expiry is T + days. |
| SubscriptionService.GrantRestarts | app/services/subscription.py:70-83 | No row, no expiry, an unparsable one, or one not after now: the new expiry is now + days. |
| SubscriptionService.GrantThenAccess | tests/test_subscription.py:15-28 | A grant of at least one day to a known user gives access at the same instant. |
| SubscriptionService.GrantTouchesOnlyThatUser | app/services/subscription.py:85 | A grant leaves every other user's row unchanged. |
| SubscriptionService.GrantUnknownUser | app/services/subscription.py:67-85 | A grant to an unknown user returns now + days and changes no row. |
| SubscriptionService.WholeDays | tests/test_subscription.py:43-44 | `timedelta.days`: the whole number of days, rounded down. |
| SubscriptionService.RenewalAddsThirtyDays | app/services/subscription.py:75-81 | A 30-day renewal of an active subscription moves its expiry by 30 days less the dropped fraction of a second. The difference is 30 whole days when that fraction is zero, and 29 otherwise. |
| SubscriptionService.GrantTwice | tests/test_subscription.py:30-44 | Two 30-day grants less than 29 days apart give expiries 29 to 30 whole days apart. |
| AccessMiddleware.Decide | app/middlewares/subscription.py:19-49 | The middleware's checks in their order. `AccessMiddleware.RefusedExactly` states exactly when it refuses. |
| AccessMiddleware.RefusedExactly | app/middlewares/subscription.py:19-49 | A message is refused exactly when all of these hold: it is not an open command, it has a sender, the sender is not an administrator, and the sender has no access. The refusal carries the denial text. |
| AccessMiddleware.OpenCommandsPass | app/middlewares/subscription.py:26-27 | Text starting with /start, /help, /buy or /admin passes, whoever sends it. |
| AccessMiddleware.OpenCommandExamples | app/middlewares/subscription.py:26-27 | "/administrator" and "/buy now" pass without a sender, admin rights or a subscription. |
| AccessMiddleware.NoSenderPasses | app/middlewares/subscription.py:29-31 | A message without a sender passes. |
| AccessMiddleware.AdminPasses | app/middlewares/subscription.py:34-35 | An administrator passes whatever the table says. |
| AccessMiddleware.SubscriptionDecides | app/middlewares/subscription.py:37-41 | Any other message passes exactly when the sender has access. |
| AccessMiddleware.UnsubscribedIsRefused | app/middlewares/subscription.py:38-49 | A plain message from a sender without a row or without an expiry is refused with the denial text. |
| AccessMiddleware.DenialMentionsBuy | app/middlewares/subscription.py:43-48 | The denial text points to /buy. |
| AdminHandlers.CmdAdminStats | app/handlers/admin.py:16-29 | A non-administrator gets no reply. An administrator gets exactly one reply built from the two table counts. |
| AdminHandlers.StatsText | app/handlers/admin.py:24-28 | The `/admin` reply; `AdminHandlers.StatsTextShows` states what it carries. |
| AdminHandlers.StatsTextShows | app/handlers/admin.py:24-28 | The reply carries the title and both counts, in bold. |
| AdminHandlers.SplitOnce | app/handlers/admin.py:40 | `split(maxsplit=1)` gives at most two parts. `AdminHandlers.SplitOnceSpec` states the rest of its meaning. |
| AdminHandlers.SplitOnceSpec | app/handlers/admin.py:40 | `split(maxsplit=1)`: no part for a blank string. The first part is a non-empty word without whitespace. A second part starts with a non-space. The input is the leading whitespace, the word, a whitespace run and the second part; without a second part, the word is followed by whitespace only. |
| AdminHandlers.WordEndAt | app/handlers/admin.py:40 | The word ends at the first whitespace character or at the end. |
| AdminHandlers.SplitWordAndText | app/handlers/admin.py:40-45 | A command word, a space and a text split into the word and the text. |
| AdminHandlers.SplitBareCommand | tests/test_admin.py:74-84 | "/broadcast" alone has one part. |
| AdminHandlers.SplitCommandAndText | tests/test_admin.py:57-61 | "/broadcast Тестовое сообщение" splits into the command and the message. |
| AdminHandlers.CmdBroadcast | app/handlers/admin.py:33-64 | For a non-administrator: no reply and no send. For a command without text: only the usage reply, and no send. Otherwise: one send of the text per stored user, the recipients being the stored ids in the order `get_all_ids` returns them; the start notice with the recipient count; and the report of the sent and failed counts among those recipients. |
| AdminHandlers.SendEach | app/handlers/admin.py:48-58 | The loop sends to every chat, whatever fails before. It counts the successes, and the failures are the rest. |
| AdminHandlers.Delivered | app/handlers/admin.py:53-58 | The number of successful sends never exceeds the number of chats. |
| AdminHandlers.DeliveredSnoc | app/handlers/admin.py:53-58 | One more chat adds one to the count exactly when that send succeeds. |
| AdminHandlers.DeliveredBounds | app/handlers/admin.py:53-58 | All sends succeed, so the count is the number of chats; none succeeds, so it is zero. |
| AdminHandlers.UniqueIdsCountOnce | app/database/connection.py:43 | Under the UNIQUE `telegram_id` column each id is stored at most once. |
| AdminHandlers.RecipientsDistinct | app/handlers/admin.py:46-58 | However `get_all_ids` orders the unique ids, no id comes twice. |
| AdminHandlers.EveryUserSent | app/handlers/admin.py:53-55 | Each stored user's id is the chat of some send, and that send carries the message. |
| AdminHandlers.OnlyStoredSent | app/handlers/admin.py:53-58 | Sends go to stored ids only, so the successes do not outnumber the users. |
| AdminHandlers.NoChatTwice | app/handlers/admin.py:46-55 | Under the UNIQUE `telegram_id` column no chat is sent to twice. |
| AdminHandlers.BroadcastReachesEachUserOnce | app/handlers/admin.py:46-58 | Whatever the order of the ids: every stored user is sent the message, only stored users are, and no chat receives it twice. The successes do not outnumber the users. |
| AdminHandlers.TwoUsers | tests/test_admin.py:64-66 | Two `get_or_create` calls on a fresh table store the users 111 and 222. |
| AdminHandlers.BroadcastToTwoUsers | tests/test_admin.py:57-72 | With two users and all sends succeeding, the message goes to both, in either order, and the report says 2 sent and 0 errors. |
| AdminHandlers.BroadcastWithoutText | tests/test_admin.py:74-84 | A bare "/broadcast" from an administrator gets only the usage reply and sends nothing. |
| FeatureHandler.HandlePlanRequest | app/handlers/feature.py:35-53 | No reply to a message without text. One warning for a request shorter than 5 characters once stripped. Otherwise the progress notice, then the plan for the stripped request. |
| FeatureHandler.BlankRequestIsShort | app/handlers/feature.py:41-48 | A message of whitespace only strips to nothing and gets the warning. |
| FeatureHandler.PaddingIsIgnored | app/handlers/feature.py:41 | Surrounding whitespace is stripped before both the length test and the planner. |
| FeatureHandler.SportsRequest | app/handlers/feature.py:50-53 | "ниша: фитнес, ЦА: спортсмены" gets the progress notice and a plan naming "фитнес" and "спортсмены". |
| FeatureHandler.ShortRequest | app/handlers/feature.py:43-48 | " abc " gets exactly the warning and no plan. |

## Left out

- **I/O and plumbing.**
  - The SQLite connection, `init_db`/`close_db` and directory creation in
    app/database/connection.py. Only the schema's constraints are kept, as
    class invariants.
  - Bot start-up, logging, router and middleware registration, and polling
    in app/main.py.
- **UI and payment.**
  - Keyboards (app/keyboards/main.py).
  - The payment handler app/handlers/payment.py. It is user interface plus
    one `grant_access(user, 30)` call, which `GrantAccess` covers.
  - `cmd_start` and `cmd_help`: fixed texts. The help text module is not
    part of this model.
- **Logging calls.** They have no effect on the results.
- **Concurrency.** The handlers run one at a time in the model. The
  unlocked read-modify-write in `grant_access` under concurrent events is
  not modelled.
- **Telegram objects.** A message is reduced to its optional text and
  optional sender id. Callback queries and how they expose text belong to
  the framework.
  - The admin handlers take the sender id as given: a message without a
    sender makes them raise, and that case is not modelled.
- **Calendar.**
  - `datetime.strftime("%d.%m")` is the parameter `dateLabel`.
  - The calendar date of tomorrow is reduced to its ordinal.
  - The overflow of `datetime` past year 9999 is not modelled.
- **Randomness.** The template draws are the parameter `picks`, so the
  model states properties for every draw, not a distribution.
- **Regular expressions.** Only the two fixed patterns of
  `parse_user_input` are modelled, with the case pairs of their marker
  letters. General regex semantics and Unicode case folding beyond those
  letters are left out.
- **`int()` on Unicode digits.** `int()` also accepts non-ASCII decimal
  digits in `ADMIN_IDS`; the model reads ASCII digits only.
- **`SubscriptionService.CheckAccess`.** The text stored in
  `subscription_end_date` is reduced to three cases:
  - nothing stored;
  - a text `strptime` rejects;
  - a `datetime` written by `update_subscription`.
  Other texts that parse are not modelled.
- **Foreign key.** SQLite does not enforce `content_plans.user_id` → `users.telegram_id` by default, and the model does not either.
- **`Repository.UserRepository.GetAllIds`.** Which order SQLite picks is
  not modelled. The body scans in rowid order, but the contract promises
  only a rearrangement of the stored ids, and the broadcast contracts hold
  for every order.
- **`Repository.SortByDate`.** It fixes one order for plans with equal
  `created_at`. The properties proved about it (newest first, permutation,
  newest kept by the limit) hold for every order SQLite may choose.
