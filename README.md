# Monday attendance bot — poll state model

`bot.py` runs a group-chat bot that, every Monday at 19:00, publishes an
attendance poll with three buttons: coming for the first lesson, coming for
the second lesson, not coming. `MondayAttendanceBot` keeps the poll's state
in memory:

- `chat_id`: the chat the bot was activated in;
- `current_poll_id`: the id of the current poll;
- `last_poll_message_id`: the id of the pinned poll message;
- `votes`: an insertion-ordered dictionary from the stringified user id to the
  record `{option, name, username, timestamp}`.

Its handlers change this state. A vote press upserts the voter's record. The
admin panel's "clear" empties the votes and "create now" publishes a new poll.
`/start` activates the bot in a chat. The read-only renderings derive a tally,
percentages, a ten-cell bar, the voters grouped by answer, and a full
statistics view that lists at most ten names per answer. One fixed admin id
guards the privileged commands and callbacks.

The model has these modules:

- `Ballot`: the answer enum `Choice`, the `Vote` record, and the per-answer
  dictionaries `PerChoice`, which stand for the source's `{'1': …, '2': …, '3': …}`.
  It also holds the display name and Python's truthiness tests. A zero chat
  id, a zero message id, an empty poll id and an empty username all count as
  unset.
- `Decimal`: `str()` on integers. This is how a user id becomes a dictionary
  key. `Decimal` also gives the inverse, so distinct users never share a key.
- `Tally`: counting, filtering and labelling votes in dictionary order, exact
  percentages, and the results bar.
- `VoteTable`: the insertion-ordered dictionary, kept as a key sequence beside
  a map, and what `votes[key] = record` does to it.
- `Views`: the keyboard, results, voters and full-statistics renderings, as
  structured values rather than HTML text.
- `Calendar`: the weekday arithmetic behind "next Monday".
- `Bot`: the class `MondayAttendanceBot` with the five state fields and one
  method per handler. The loops of the source are `while`/`for` loops proved
  against the functions in `Tally` and `Views`. Each platform call is replaced
  by an input that says how the call went. A sent message is given as
  `Option<message id>`, a pin as `bool`, the vote handler's keyboard edit as
  `EditResult`, and the admin panel's statistics reply or keyboard edit as
  `delivered: bool`. So the partial updates made when a call fails are part
  of the contracts: a failed edit after "clear" answers with the generic
  error, and the votes stay emptied.

`IsAdmin` (bot.py:91-92) is the equality test against `AdminUserId`
(2073879359, bot.py:19). It guards `ResultsCommand`, `VotersCommand`,
`StartCommand` and `HandleAdmin`. For a non-admin, `ResultsCommand` and
`VotersCommand` return `Denied` and `HandleAdmin` returns `Refused`, all
without a change. `StartCommand` changes nothing and makes no platform call;
its refusal text is not modelled.

Four behaviours of the source are kept as written:

- The vote handler's expiry test (bot.py:426) measures `.seconds` of the time
  since the poll MESSAGE was posted, not the age of the press, and whole days
  drop out of `.seconds`. So a press more than two minutes after a poll went
  out is refused, and one a whole number of days later (plus up to two
  minutes) is accepted again (`Bot.ExpiryMeasuresPollAge`, `Bot.ExpiryExamples`).
  The clock reading is naive. If the platform reports the message date with a
  time zone, the subtraction raises, the handler's catch-all asks the voter to
  try again, and nothing is stored (`HandleVote`, `posted.Aware?`).
- `last_poll_message_id` survives a /start in another chat, so the next poll
  unpins the old chat's message id in the new chat (`Bot.StartInSecondChat`).
- The statistics button, commented as being only for the admin, is on every
  keyboard: `is_admin(ADMIN_USER_ID)` always holds, and a keyboard is shared by
  everyone in the chat (`Views.KeyboardFacts`).
- "refresh" and "clear" live on the /admin panel message (bot.py:180-185), and
  their edit (bot.py:482, 488) replaces the buttons of the pressed message.
  So they turn the panel into a second voting keyboard (`NewMarkup`). After a
  clear, the pinned poll shows its old counts until the next vote edits it.

## Model

| member | source | states |
|---|---|---|
| `Ballot.DisplayName` | bot.py:353-355 | the shown name starts with the voter's name and equals it exactly when no (non-empty) username is present; otherwise " (@username)" follows |
| `Decimal.Str` | bot.py:433 | str(user id) is non-empty, all digits for non-negative ids, and starts with '-' for negative ones |
| `Decimal.StrRoundTrip` | bot.py:433 | parsing str(n) gives n back |
| `Decimal.StrInjective` | bot.py:433 | two user ids get the same dictionary key exactly when they are equal |
| `Tally.Count` | bot.py:282-285 | the count of an answer never exceeds the number of votes |
| `Tally.Only` | bot.py:351-356 | the votes grouped under an answer all chose it, and there are exactly as many as the tally counts for it |
| `Tally.Labels` | bot.py:351-356 | labelling keeps the order: the i-th name is the i-th voter's name |
| `Tally.CountsSum` | bot.py:282-287 | the counts of options '1', '2' and '3' add up to len(votes) |
| `Tally.TallyStep` | bot.py:283-285 | one loop iteration increments exactly the count of the vote's option |
| `Tally.GroupStep` | bot.py:351-356 | one loop iteration appends the voter's name to the group of its own answer and leaves other groups alone |
| `Tally.GroupsStep` | bot.py:351-356 | the same step, on the whole per-answer dictionary of groups |
| `Tally.OnlyPrefix` | bot.py:351-356 | the groups built from the first i votes are prefixes of the final groups: later votes only append |
| `Tally.OnlyKeepsOrder` | bot.py:351-356 | grouping keeps dictionary order: a vote for c with k earlier votes for c is entry k of the group of c |
| `Tally.PartsCount` | bot.py:351-356 | each vote occurs in the three groups together exactly as often as among all votes |
| `Tally.OnlyPartition` | bot.py:351-356 | every vote is in exactly one answer group: the three groups together are the votes, as a multiset |
| `Tally.PercentRange` | bot.py:298 | a percentage is 0 with no votes, otherwise count·100/total, and always in 0..100 |
| `Tally.PercentagesSum` | bot.py:313-331 | with at least one vote the three percentages add up to exactly 100 |
| `Tally.FilledCount` | bot.py:332 | int(percentage / 10) equals count·10 div total (0 with no votes) and lies in 0..10 |
| `Tally.BarCells` | bot.py:332 | every bar has exactly 10 cells, the first count·10 div total filled and the rest empty |
| `VoteTable.PutOrder` | bot.py:433-438 | storing a vote keeps every existing key in place, and appends the key itself exactly when it is new |
| `VoteTable.OrderedSize` | bot.py:287 | len(votes) equals the number of keys in dictionary order and the number of values |
| `VoteTable.PutOrdered` | bot.py:433-438 | after storing a vote, the key order still lists each key of the map exactly once |
| `VoteTable.PutValues` | bot.py:433-438 | a repeat voter's vote is replaced in its original position; a new voter's vote goes last; all other votes are unchanged |
| `VoteTable.CountAfterReplace` | bot.py:433-438 | replacing one vote moves one unit of count from its old answer to its new answer |
| `VoteTable.CountAfterAppend` | bot.py:433-438 | a new vote adds one to the count of its answer only |
| `VoteTable.PutCount` | bot.py:433-438 | last write wins in the tally: the voter's previous vote no longer counts and the new one counts once |
| `VoteTable.PutTwice` | bot.py:433-438 | two votes by the same user leave the same dictionary as the second vote alone |
| `Views.KeyboardFacts` | bot.py:280-306 | the keyboard has one button per answer in order, then the statistics button; counts sum to len(votes), percentages to 100 (all 0 with no votes) |
| `Views.ResultsFacts` | bot.py:308-337 | with no poll id the fixed message is shown; otherwise three rows whose counts sum to the total, each bar having 10 cells with count·10 div total filled |
| `Views.VoterGroupFacts` | bot.py:367-376 | an answer's group lists exactly its voters' display names in dictionary order, or a dash when it has none |
| `Views.VotersFacts` | bot.py:339-378 | no votes give the fixed placeholder; otherwise three groups, one per answer, whose sizes sum to len(votes) |
| `Views.SectionTruncation` | bot.py:409-414 | a statistics section lists the first min(count, 10) names and appends "… N more" with N = count − 10 exactly when count > 10 (the predicate `ListsFirstTen`) |
| `Views.FullStatsFacts` | bot.py:380-417 | the full statistics show len(votes) as the total and, per answer, at most 10 of its voters' names in order; listed plus announced equals the count |
| `Calendar.Weekday` | bot.py:84-85 | the weekday of a day is in 0..6 |
| `Calendar.TimedeltaSeconds` | bot.py:426 | `.seconds` of a difference is in 0..86399, equals the difference when that is under a day, and differs from it by whole days |
| `Calendar.TimedeltaDropsDays` | bot.py:426 | adding whole days to a difference does not change its `.seconds` |
| `Calendar.DaysAhead` | bot.py:85-87 | days_ahead lies in 1..7, is 7 exactly when today is a Monday, and lands on a Monday |
| `Calendar.NextMondayIsFirst` | bot.py:82-89 | the announced date is a Monday, 1 to 7 days after today, with no Monday in between |
| `Bot.IsAdmin` | bot.py:91-92 | only ADMIN_USER_ID passes the guard |
| `Bot.ExpiryMeasuresPollAge` | bot.py:426-428 | within a day of posting, a press is refused exactly when the poll message is more than 120 s old; whole days later the verdict repeats |
| `Bot.ExpiryExamples` | bot.py:426-428 | a press 3 minutes after the poll was posted is refused; one a day and a minute after is accepted |
| `Bot.VoterGroupsLoop` | bot.py:367-376 | the per-answer loop of the voters list yields `VoterGroups` of the grouped names: count, bullets, or a dash |
| `Bot.StatsSectionsLoop` | bot.py:404-415 | the per-answer loop of the full statistics yields `StatsSections`: count, percentage, first ten names, the rest counted |
| `Bot.StartInSecondChat` | bot.py:112-133 | /start in chat 100 then in chat 200 sends the second poll, unpins the first chat's message id 11 in chat 200, and pins the new message |
| `Bot.MondayAttendanceBot.constructor` | bot.py:23-28 | the bot starts with no chat, no poll, no pinned message and no votes |
| `Bot.MondayAttendanceBot.TallyVotes` | bot.py:282-285 | the counting loop yields the count of every answer over the votes in dictionary order |
| `Bot.MondayAttendanceBot.CreateVotingKeyboard` | bot.py:280-306 | the keyboard built from the loop equals `Keyboard` of the current votes (facts in `Views.KeyboardFacts`) |
| `Bot.MondayAttendanceBot.GetResultsText` | bot.py:308-337 | the results equal `ResultsOf(current_poll_id, votes)`: the fixed message without a poll, else the rows (facts in `Views.ResultsFacts`) |
| `Bot.MondayAttendanceBot.GroupVoters` | bot.py:345-356 | the grouping loop yields, per answer, the display names of its voters in dictionary order |
| `Bot.MondayAttendanceBot.GetVotersText` | bot.py:339-378 | the voters view equals `VotersOf(votes)` (facts in `Views.VotersFacts`) |
| `Bot.MondayAttendanceBot.CountAndListNames` | bot.py:387-394 | the statistics loop yields both the counts and the plain names per answer |
| `Bot.MondayAttendanceBot.GetFullStatsText` | bot.py:380-417 | the statistics view equals `FullStatsOf(votes)` (facts in `Views.FullStatsFacts`) |
| `Bot.MondayAttendanceBot.ResultsCommand` | bot.py:148-159 | a non-admin is refused; with no poll id the command refuses; otherwise it shows the results |
| `Bot.MondayAttendanceBot.VotersCommand` | bot.py:161-172 | a non-admin is refused; with no poll id the command refuses; otherwise it shows the voters |
| `Bot.MondayAttendanceBot.CreateMondayPoll` | bot.py:226-278 | nothing happens without a chat. Otherwise the poll id becomes str(now) even if the send fails, and the votes are never touched. The message is sent, the old message unpinned if there is one, the new one pinned. `last_poll_message_id` changes only when both send and pin succeed |
| `Bot.MondayAttendanceBot.StartCommand` | bot.py:108-133 | a non-admin changes nothing. An admin sets `chat_id`, and the first poll is published only once the welcome reply went out |
| `Bot.MondayAttendanceBot.HandleVote` | bot.py:419-459 | a poll message dated with a time zone gets "try again" and changes nothing; a poll message more than 120 s old (modulo a day) gets the out-of-date answer and changes nothing. Otherwise the vote is stored under str(user id): a repeat voter keeps their place, the map grows by at most one, others are unchanged. Last write wins in every count. A failed edit does not undo the vote |
| `Bot.MondayAttendanceBot.HandleAdmin` | bot.py:461-503 | a non-admin is refused and changes nothing. "clear" empties the votes but keeps the poll id, even when the following edit fails. "create now" publishes a poll and keeps the votes. "full stats" and "refresh" only read. A failed stats reply or edit gives the generic error answer |

## Left out

- Persistence (`save_data`, `load_data`, bot.py:45-80): file and JSON work, including the backup rename of a corrupt file. The model has no file system. Votes loaded from a file with an option other than '1', '2' or '3' are not modelled.
- The scheduler `check_schedule` and `run` (bot.py:505-539): both sleep against the wall clock. Poll creation is modelled by `CreateMondayPoll`, whatever triggers it.
- The clock is an input. `nowSeconds` stands for `int(datetime.now().timestamp())`. `HandleVote`'s `now` is the whole seconds of the naive `datetime.now()`; flooring it loses nothing for `.seconds`, since message dates are whole seconds. The vote's ISO timestamp is an opaque string input.
- Which of the two kinds of date the messaging library reports for a message depends on its version, and that library is not part of this model. `HandleVote` takes the date as the input `posted` and covers both kinds. A naive date is assumed to be in the same local time as the clock.
- `HandleVote` takes the option as the three-value `Choice`. bot.py:430 takes it unvalidated from the callback data, but the bot only ever creates the buttons '1', '2' and '3' (bot.py:290-300). A forged option would be stored and would then break every later tally with a `KeyError`. That path is not modelled.
- `Views.KeyboardFacts`, `Views.ResultsFacts`, `Views.FullStatsFacts`, `Tally.PercentRange`, `Tally.PercentagesSum`, `Tally.FilledCount`, `Tally.BarCells`: percentages are exact rationals. Python's float division and the `:.1f` rounding are not modelled, so nothing here claims bit-for-bit equality with the displayed numbers.
- The HTML markup, emoji and Russian wording of every message, and the date header line of each rendering. The renderings keep only their structure: placeholders, groups, counts, bars and truncation.
- Calendar dates: `Calendar` models the weekday arithmetic. The `%d.%m.%Y` formatting of `today + timedelta(days)` is not modelled.
- Commands that only reply with text: `/fuck`, `/id`, `/status`, `/attendance` and the `/admin` panel message (bot.py:101-224). The refusal reply of `check_admin_access` is the `Denied`/`Refused` result; its text is not modelled.
- Platform calls with no effect on state: the unpin outcome (its failure is logged and ignored), `query.answer` and its failures, and `reply_text` of the results and voters views. In `HandleAdmin`, `delivered` covers the statistics reply and the keyboard edit. A failing `query.answer` after them would also end in the generic error answer, and that is not modelled.
- Concurrency: the handlers run one at a time in the model. Interleaving of asyncio tasks is not modelled.
- bot.py has no registry of several chats, no per-chat admin lists and no duration parser, so neither does the model. bot.py accepts votes when there is no current poll, and so does `HandleVote`.
