# Movie-night voting bot: the voting engine

A Telegram bot (`bot.js`) runs movie-night votes. An admin creates packs of
movies. Members tap a movie in the `/vote` menu and send a score from 0 to
10 as plain text, or use `/vote_set <title> <score>`
(see "## Findings"). A member may not give
the same score twice in one pack. On `/calculate` the votes of the latest pack are
grouped by voter and by movie title, each voter's scores are divided by
`log2(n + 1)`, where `n` is the number of distinct titles under that voter,
and the damped scores are summed per title and ranked. The results go to
everyone who voted.

A voter is known by the name stored at registration (`/start` stores the
Telegram username, else the first name, else "User"), not by the Telegram
id. Two users registered under the same name therefore count as one voter:
their titles share one divisor, and for a title both rated only the later
row's score counts (`Aggregation.NamesakesMerged`). Likewise two movies with
the same title count as one title.

This project models that core and proves what it promises:

- `scores.dfy` holds the score check, over JavaScript numbers (NaN and the
  infinities included).
- `sessions.dfy` holds the in-memory map of pending selections
  (`userVoteState`), as a class over a `map`.
- `ledger.dfy` holds the four tables as sequences of rows, the queries the
  handlers run, the upsert and the delete cascade. It also holds the ledger
  invariant they keep: one vote per (user, movie, pack), no score used twice
  by a user in a pack, and fresh vote ids. The `Database` class owns the
  tables.
- `aggregation.dfy` holds the `/calculate` computation as the source writes
  it: a grouping loop, a weighting loop, `Object.entries` and a sort. Each
  part is proved against a functional definition: the grouping, the damped
  contributions, the per-title sums over voters and a sorted permutation.
- `handlers.dfy` holds the movie button, the free-text score handler,
  `/vote_set`, `/movie_delete` and `/calculate`, as methods over the tracker
  and the database, with every reply case in their contracts.
- `text.dfy` holds `split(" ")`, `join(" ")`, the argument splitting of the
  commands, the `LOWER` of title lookups (Latin and Cyrillic letters) and
  decimal rendering of ids.
- `routing.dfy` models the order in which Telegraf tries the handlers for a
  text message, and the `vote_film_<id>` button data.

The model follows the code, including where it behaves differently from
what the bot's voting rules might suggest:

- The duplicate-score check (`bot.js:365-371`, `bot.js:458-464`) also counts
  the user's own vote for the same movie. Re-sending the score a movie
  already has is therefore rejected as a duplicate, not accepted as a no-op
  update.
- Scores lie in the closed range [0, 10]. A score of 0 is an ordinary score;
  there is no retraction.
- Fractional scores are accepted.
- The free-text handler saves into the pack of the selected movie. That pack
  need not be the latest one. `/vote_set` always uses the latest pack.

## Model

| member | source | states |
|---|---|---|
| `Scores.ScoreAccepted` | bot.js:348-351 | a score passes the NaN and range guard exactly when it is a finite number in [0, 10]; NaN and both infinities are rejected |
| `Ledger.ActivePack` | bot.js:99-105 | the active pack is the largest pack id; there is none exactly when there are no packs |
| `Ledger.UserByTelegram` | bot.js:354-362 | a user is found exactly when some row has that Telegram id, and the row found has it |
| `Ledger.UserById` | bot.js:110-114 | the user side of the `/calculate` join: found exactly when some user has that id |
| `Ledger.MovieById` | bot.js:328-334 | a movie is found by id exactly when some row has that id |
| `Ledger.MovieByTitle` | bot.js:446-455 | a movie is found exactly when some movie of the given pack has the title ignoring case, and the first such movie is the one returned |
| `Ledger.FindVote` | bot.js:374-379 | the existing vote is found exactly when some vote has the same (user, movie, pack) key |
| `Ledger.HasScore` | bot.js:365-371 | the duplicate check (also bot.js:458-464) finds a vote exactly when the user already has a vote with that score in the pack; its meaning is in its body, and `Ledger.UpsertKeepsInvariant` and `Ledger.UpsertThenDuplicate` use it |
| `Ledger.SetScoreWhereId` | bot.js:380-383 | `UPDATE votes SET score WHERE id` keeps the length, every id and every (user, movie, pack) key; rows with another id are untouched and rows with that id get the score |
| `Ledger.Upsert` | bot.js:373-395 | the upsert (also bot.js:466-490) keeps every existing row's id and key and adds exactly one row, `Vote(nextId, ...)`, when no vote for the key exists; the rest of its meaning is in `Ledger.UpsertWritesOneRow` and `Ledger.UpsertKeepsInvariant` |
| `Ledger.UpsertThenDuplicate` | bot.js:365-395 | after a score is stored, the duplicate check refuses the same score again for that user and pack |
| `Ledger.RemoveMovieVotes` | bot.js:216 | exactly the votes for other movies remain |
| `Ledger.RemoveMovie` | bot.js:219 | exactly the movies with other ids remain |
| `Ledger.SetScoreAt` | bot.js:380-383 | with distinct vote ids, `UPDATE ... WHERE id` changes the score of that one row and nothing else |
| `Ledger.UpsertWritesOneRow` | bot.js:373-395 | the upsert either rewrites the one existing row for (user, movie, pack) or adds one row; that key then has the new score and no other row changes |
| `Ledger.UpsertKeepsInvariant` | bot.js:364-395 | once the duplicate-score check has passed, the upsert keeps one vote per key, distinct scores per user and pack, and fresh ids |
| `Ledger.RemoveMovieVotesKeepsInvariant` | bot.js:215-216 | deleting a movie's votes keeps the ledger invariant |
| `Ledger.RemoveMovieKeepsIds` | bot.js:219 | deleting a movie keeps the movie ids unique |
| `Ledger.Database.constructor` | bot.js:6-19 | the database behind the connection pool; a fresh one holds the given packs, movies and users, no votes, the serial counter at 1, and is valid when the user and movie ids are unique |
| `Ledger.LookupByIdUnique` | bot.js:110-113 | with unique user and movie ids, the lookup by id finds the one row an SQL inner join pairs a vote with |
| `Ledger.Database.UpdateScore` | bot.js:380-383 | the votes table becomes the old one with the score set on the row with that id; the other tables are unchanged |
| `Ledger.Database.InsertVote` | bot.js:388-391 | a new vote with the next serial id is appended; the other tables are unchanged |
| `Ledger.Database.DeleteVotesOfMovie` | bot.js:216 | the votes table loses exactly the movie's votes, the other tables are unchanged, and the database stays valid |
| `Ledger.Database.DeleteMovie` | bot.js:219 | the movies table loses exactly that movie, the other tables are unchanged, and the database stays valid |
| `Sessions.SessionTracker.constructor` | bot.js:320 | the tracker starts empty |
| `Sessions.SessionTracker.Select` | bot.js:337 | the user's selection is replaced by the new one; other users' entries are untouched |
| `Sessions.SessionTracker.Get` | bot.js:344-346 | returns the user's pending selection exactly when there is one |
| `Sessions.SessionTracker.Delete` | bot.js:397 | only the user's entry is removed |
| `Text.Split` | bot.js:189 | `split(" ")` yields at least one piece and no piece holds a space |
| `Text.Join` | bot.js:193 | `join(" ")` (also bot.js:418) starts with the first piece |
| `Text.CommandArgs` | bot.js:189 | `split(" ").slice(1)` (also bot.js:408) is empty exactly when the text has no space; its words hold no space, and the text is the first word, a space and the joined words |
| `Text.JoinSplit` | bot.js:189-193 | joining the pieces of a split gives back the text |
| `Text.SplitJoin` | bot.js:418 | splitting the join of space-free pieces gives back the pieces |
| `Text.VoteSetArgs` | bot.js:408-418 | fewer than two arguments is a usage error; otherwise the score token is the space-free last argument and the title is the rest, so title, a space and token make up all the arguments |
| `Text.VoteSetArgsRecompose` | bot.js:408-418 | the message is exactly the command word, the title and the score token, separated by single spaces |
| `Text.MovieDeleteArgs` | bot.js:188-193 | there is no argument exactly when the message has no space; otherwise the title is all of the message after the first space |
| `Text.FirstWord` | bot.js:189 | the first piece of `split(" ")` is the text up to its first space, or all of it |
| `Text.LowerChar` | bot.js:206 | lower-casing a character leaves no capital, and leaves every character that is not a capital unchanged |
| `Text.Lower` | bot.js:206 | `LOWER(...)` (also bot.js:447) keeps the length and leaves no capital in the title |
| `Text.SameTitle` | bot.js:447 | titles that match ignoring case have the same length, and every title matches itself |
| `Text.LowerIdempotent` | bot.js:206 | lower-casing twice is lower-casing once, so a lower-cased title matches the original |
| `Text.CyrillicTitleMatches` | bot.js:206 | `LOWER` matches Russian titles across case: "Терминатор" matches "терминатор", and "Ёлки" matches "ёлки" |
| `Text.CaseInsensitiveLetters` | bot.js:206 | every Latin capital A–Z and every Russian capital А–Я matches its small letter, and Ё matches ё |
| `Text.DecimalString` | bot.js:126 | `telegram_id.toString()` is a non-empty string of decimal digits |
| `Text.DecimalRoundTrip` | bot.js:126 | reading back the decimal digits of `telegram_id.toString()` gives the id |
| `Text.DecimalStringInjective` | bot.js:126 | two different Telegram ids never give the same voter key text |
| `Aggregation.Group` | bot.js:123-129 | every voter in the grouping has at least one rating |
| `Aggregation.VoterKey` | bot.js:126 | the voter key is never empty: it is the stored name when there is one, otherwise the decimal digits of the Telegram id, which read back as that id |
| `Aggregation.GroupHasPair` | bot.js:125-129 | a (voter, title) pair is in the grouping exactly when some row is for it |
| `Aggregation.GroupLastRow` | bot.js:126-128 | the last row's (voter, title) pair is in the grouping |
| `Aggregation.OccursBeforeLast` | bot.js:125 | when the last row is not for a pair, a row for it occurs exactly when one occurs before the last |
| `Aggregation.GroupLastRowWins` | bot.js:128 | a pair holds the score of the last row for it |
| `Aggregation.VoterOrder` | bot.js:135 | the voters are visited once each, and they are exactly the voters of the grouping |
| `Aggregation.GroupVotes` | bot.js:123-129 | the loop builds exactly the grouping and the voter order |
| `Aggregation.TotalOverUnrated` | bot.js:144-145 | a title that no voter rated so far has total 0 |
| `Aggregation.TotalsStep` | bot.js:141-148 | visiting one more voter adds that voter's damped scores to the totals |
| `Aggregation.AddVoter` | bot.js:136-148 | one voter's inner loop records each score divided by the divisor and adds it to the title's total, starting from 0 for a new title |
| `Aggregation.WeighStep` | bot.js:135-149 | one outer iteration extends the totals and contributions built so far by one voter |
| `Aggregation.WeighVoter` | bot.js:135-149 | the body of the loop over voters keeps what the loop has built so far |
| `Aggregation.WeighAll` | bot.js:135-149 | after the loop, totals and contributions cover every voter |
| `Aggregation.Weigh` | bot.js:131-149 | the contributions are every voter's scores divided by `log2(numVotes + 1)`, and each total is the sum of the contributions to that title over all voters |
| `Aggregation.WeightsAtMostScores` | bot.js:136-142 | when `log2(numVotes + 1)` is at least 1, damping keeps every title and never raises a score, nor makes it negative |
| `Aggregation.SingleRatingUndamped` | bot.js:136-137 | a voter with one rating divides by `log2(2) = 1` and counts in full |
| `Aggregation.EntriesOf` | bot.js:152 | `Object.entries(totals)` lists every entry exactly once |
| `Aggregation.InsertByTotal` | bot.js:152 | one insertion step of the sort adds exactly the inserted entry |
| `Aggregation.InsertByTotalOrdered` | bot.js:152 | insertion keeps the entries ordered by non-increasing total |
| `Aggregation.SortByTotal` | bot.js:152 | the sort by `b[1] - a[1]` is a permutation of its input ordered by non-increasing total |
| `Aggregation.Rank` | bot.js:152 | the ranking is a permutation of the totals' entries in non-increasing order |
| `Aggregation.Calculate` | bot.js:119-152 | no rows gives "no votes"; otherwise the contributions are the damped grouping and the ranking ranks the totals over all voters |
| `Aggregation.NamesakesMerged` | bot.js:126-128 | rows of two different Telegram users with the same stored name are grouped under one voter, and for a title both rated the later row's score is kept |
| `Aggregation.TitlesOfRated` | bot.js:141-145 | a title has a total exactly when some voter rated it |
| `Aggregation.RankingEntries` | bot.js:152-158 | each title of the totals appears in the ranking once, with its total, and nothing else does |
| `Aggregation.RankingTop` | bot.js:152-156 | the ranking is empty exactly when there are no totals, and its head has the highest total |
| `Handlers.JoinVote` | bot.js:110-113 | a vote yields a row exactly when its user and movie rows exist; the row carries their Telegram id, username and title and the vote's score |
| `Handlers.PackRows` | bot.js:108-117 | the rows are exactly the joined votes of the pack, and there are as many rows as votes of the pack whose user and movie exist (`JoinableCount`); their table order is the body's |
| `Handlers.Recipients` | bot.js:169 | every voter's Telegram id appears exactly once, and no other id does |
| `Handlers.SaveVote` | bot.js:373-395 | updates when a vote for (user, movie, pack) exists and inserts otherwise; the tables become the upsert, the `votes.id` serial advances by one on an insert and stays on an update, and the ledger invariant holds |
| `Handlers.OnSelectMovie` | bot.js:322-340 | an unknown movie is "not found" and changes nothing; a known one becomes the user's pending selection, with its title and pack |
| `Handlers.OnText` | bot.js:342-402 | no pending selection is ignored; then come the range check, registration and the duplicate-score check against the selected movie's pack; only a saved vote upserts and clears the selection; a new vote advances the `votes.id` serial by one and an updated one leaves it, and every other reply changes nothing |
| `Handlers.OnVoteSet` | bot.js:404-495 | usage, score range, registration, active pack, title in the active pack and duplicate score are checked in that order; only a passing command upserts, into the active pack; a new vote advances the `votes.id` serial by one, an updated one and every other reply leave it |
| `Handlers.OnMovieDelete` | bot.js:183-226 | only admins; the title is searched in the active pack; when found, the movie's votes and then the movie are deleted; every other outcome changes nothing |
| `Handlers.OnCalculate` | bot.js:90-176 | only admins; no pack and no votes are reported; otherwise there is always a report, and it is the aggregate of the active pack's joined rows, sent to each voter once |
| `Routing.CommandName` | bot.js:30-404 | the command is what Telegram marks as a `bot_command` entity and `bot.command` compares: a message names one exactly when it starts with `/` and a Latin letter, digit or `_`; the name is the longest such run after the `/`, so it ends at the end of the text or at any other character, a line break as much as a space |
| `Routing.CommandNameOf` | bot.js:30-404 | conversely, `/name` followed by the end of the text or by any character outside that set names `name`: `/calculate` followed by a line break and more text runs `/calculate` |
| `Routing.CommandRunOf` | bot.js:30-404 | the command run of `name` followed by a non-command character is all of `name` |
| `Routing.Dispatch` | bot.js:342 | the handler that runs is the first registered one whose filter matches, and none runs when nothing matches |
| `Routing.FirstMatchRuns` | bot.js:342 | a handler runs when no earlier handler's filter matches the message |
| `Routing.AsWritten` | bot.js:30-404 | the text-message registrations in source order: each handler once, with `bot.on("text")` (bot.js:342) before `bot.command("vote_set")` (bot.js:404) |
| `Routing.Corrected` | bot.js:30-404 | the same ten registrations with only the free-text and `/vote_set` entries swapped, every other handler in its place |
| `Routing.VoteSetShadowed` | bot.js:404 | as registered, every `/vote_set` message goes to the free-text handler |
| `Routing.VoteSetReachable` | bot.js:404 | with `/vote_set` registered before the free-text handler, `/vote_set` messages reach it |
| `Routing.PlainTextUnaffected` | bot.js:342 | after that reordering, a message that is no command still reaches the free-text handler |
| `Routing.ButtonData` | bot.js:310 | the callback data `vote_film_${movie.id}` is `vote_film_` followed by one or more decimal digits, the shape the action filter accepts |
| `Routing.ParseButton` | bot.js:322-324 | the filter `/^vote_film_(\d+)$/` matches exactly `vote_film_` followed by one or more ASCII digits, and the capture is read as the id |
| `Routing.ButtonRoundTrip` | bot.js:310-324 | the button data `vote_film_<id>` of a movie parses back, through `/^vote_film_(\d+)$/`, to that movie's id |

## Left out

- The Telegram transport is not modelled: replies, `answerCbQuery`, the
  `sendMessage` fan-out and the order in which messages go out. The replies
  are `Reply` values. The routing model covers only the order in which the
  text handlers are tried.
- Logging is not modelled: the `console.log` calls that trace who ran a
  command (bot.js:69, 91, 93, 184, 229, 269, 290, 405, 498) and the
  `console.error` calls in the `catch` blocks (bot.js:85, 178, 223, 263,
  283, 315, 399, 492). They change no state.
- JavaScript's `Number(...)` is not modelled. The free-text handler receives
  the already converted number, and `/vote_set` receives the conversion as a
  function parameter.
- `Math.log2` is a parameter. The model knows only that it is positive from
  2 on, which is all the division needs.
- Scores are exact reals: floating-point rounding is not modelled.
- The `toFixed(2)` text of the result and contribution messages is not
  modelled. The report carries the ranking and the contributions themselves.
- `Object.entries` order is not modelled. JavaScript visits integer-like keys
  first. The model visits voters in order of first appearance and titles in
  any order; with exact arithmetic the totals do not depend on that order.
- Aggregation.SortByTotal: ties are not ordered. The ranking is only proved
  to be some non-increasing permutation, because the order of equal totals
  depends on the engine's sort and on `Object.entries` order.
- The two-voter example (A rates X 8 and Y 6, C rates X 10) is not worked
  through as a concrete case. Its grouping follows from
  `Aggregation.GroupHasPair` and `Aggregation.GroupLastRowWins`, and its
  totals from `Aggregation.Weigh`. The figures `8/log2(3)` and so on would
  need a concrete `log2`.
- `/start`, `/addpack`, `/addmovie`, `/listpacks`, `PING` and the `/vote` menu
  only create packs, movies and users, or display them. Those tables are
  given to the `Database` constructor, and the menu's button data is covered
  by `Routing.ButtonRoundTrip`.
- `isAdmin` is a boolean parameter. It reads a role column that the model
  does not hold.
- Database failures and the `catch` blocks are not modelled. Every query
  succeeds.
- Concurrency is not modelled. That includes the check-then-write race
  between the duplicate-score check and the upsert, and overlapping handlers.
- SQL row order is the order of the sequences. A query's first row is the
  first matching row in table order.
- `LOWER` covers Latin letters (ASCII and Latin-1) and Cyrillic capitals of
  the U+0400 block, as a database with a UTF-8 locale folds them. Other
  scripts (Greek, Latin Extended and so on) and locale-specific rules are
  not modelled; such characters are left unchanged.
- JavaScript prototype keys are not modelled. `votes`, `totals` and
  `contributions` are plain objects in the source and Dafny maps in the
  model. A movie titled `constructor`, `toString`, `valueOf` or another
  `Object.prototype` name starts its total as an inherited function, not 0.
  The `+=` at bot.js:145 then yields a string, `toFixed` at bot.js:157
  throws, and `/calculate` answers with its error message. A title
  `__proto__` drops out of the ratings and the totals, and a voter named
  after a prototype key is missing from `Object.entries(votes)`. The model
  ranks all such keys like any other title or voter.
- Commands addressed as `/command@botname` are not modelled, nor
  Telegram's 32-character limit on a command entity.
- Movie ids from the button regex are strings in the source and are bound
  as SQL parameters. The model reads them as numbers.
- `server.js`, a keep-alive web server, is not part of this model.

## Findings

| source | as written | input that shows it | evidently intended | confidence | as-written member | corrected member |
|---|---|---|---|---|---|---|
| bot.js:404 | `bot.command("vote_set")` is registered after `bot.on("text")` (bot.js:342), whose handler never calls `next()`, so the text handler takes every `/vote_set` message | a registered user sends `/vote_set Matrix 7`: with no pending selection it is silently ignored, and with one it is rejected as an invalid score | `/vote_set` reaches its own handler, which the rest of the model assumes (`Handlers.OnVoteSet`) | not executed; relies on Telegraf running handlers in registration order | `Routing.VoteSetShadowed` | `Routing.VoteSetReachable` |
