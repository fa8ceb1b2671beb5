# Truth or Dare bot — a verified model of its game core

This project models the core of a Telegram "Truth or Dare" bot and of the web
API that reports its statistics. It is written in Dafny, and every contract
below is proved by the Dafny verifier.

In a group chat, an administrator opens a game. Players press a button to join.
The administrator starts the game: the players are shuffled into a turn queue,
and the queue rotates one place for every turn. The player holding the turn
picks *truth* or *dare* and gets a prompt that has not been used yet. An
administrator then marks the task complete (+5 points), or the player skips it
(−6 points) or changes it (−2 points and a new prompt). When the administrator
stops the game, the winner is named and the game is rolled into per-group and
per-user statistics documents. Then the session is deleted. Two HTTP endpoints
turn those documents into a group report and a user report.

The model has one module per concern:

| file | module | what it holds |
|---|---|---|
| base.dfy | `Base` | `Option`, `Result`, identities, `Distinct` |
| text.dfy | `Text` | `str(int)` / `int(str)` and the `a or b or fallback` name chains |
| markdown.dfy | `Markdown` | the MarkdownV2 escaper |
| questions.dfy | `QuestionBank` | the two prompt corpora and the no-repeat draw |
| scores.dfy | `Scores` | the insertion-ordered score dictionary, `max(..., key=...)` |
| game.dfy | `Game` | the session record, the MongoDB update operators on it, and every game transition as a function |
| stats.dfy | `Stats` | the group and user statistics documents, and `$inc`, `$max`, `$push`+`$slice`, `$addToSet` and upsert |
| database.dfy | `Store` | class `Database`: the three collections as maps, with the methods of the bot's database class |
| guards.dfy | `Guards` | the `is_admin` and `game_is_active` decorators |
| bot.dfy | `Bot` | the command and button handlers as methods on a `Database` |
| reports.dfy | `Reports` | the group and user report endpoints, as read-only methods |

The handlers in `Bot` are imperative. Each one reads the chat's session, sends
the same update documents the bot sends, and proves that the new store equals
what the matching `Game` function says. The functions in `Game` carry the
game's properties: fixed score deltas, rotation, permutation, the invariant
`Valid`, and fairness.

`random.shuffle` and `random.choice` are inputs: a `draw` function and a `pick`
number. The Fisher–Yates swaps and the draw at `pick % |pool|` are modelled
exactly. So is the deque rotation, which is done in place on an array. The
platform's answers (chat type, member status) are inputs too. So is the name
lookup, as a function from user id to name.

Join does not check the game status (see Findings). `random.choice` on an
empty prompt corpus raises. A complete pressed before anyone holds the turn
stores points under the key "None", after which the stop raises as long as
"None" holds the first top score, for instance until the game is started and a
player passes it (see Findings). A missing group or user is answered with status 500 (see
Findings).

## Model

| member | source | states |
|---|---|---|
| Text.IntToString | backend-api/truth_bot.py:290 | `str(i)` is non-empty and starts with `-` exactly when i is negative |
| Text.IntRoundTrip | backend-api/main.py:53 | `int(str(i)) == i` for every integer, so ids written as text read back unchanged |
| Text.IntToStringInjective | backend-api/database.py:97 | two different ids never have the same text |
| Text.FirstTruthy | backend-api/main.py:65 | `a or b or fallback`: the first of the two optional fields that is neither missing nor empty, else the fallback |
| Markdown.EscapeChar | backend-api/truth_bot.py:65-66 | a reserved character becomes a backslash followed by it; any other character is copied |
| Markdown.Escape | backend-api/truth_bot.py:66 | the escaped text is never shorter, and is empty exactly when the input is |
| Markdown.EscapeRoundTrip | backend-api/truth_bot.py:65-66 | escaping is lossless: reading back the escaped text gives the input |
| Markdown.EscapeConcat | backend-api/truth_bot.py:66 | escaping distributes over concatenation, so it works character by character |
| Markdown.EscapeAt | backend-api/truth_bot.py:65-66 | input character i appears at its place in the output: preceded by exactly one backslash if reserved, alone otherwise |
| Markdown.EscapeMarkdownV2 | backend-api/truth_bot.py:60-66 | a falsy argument ("" or 0) gives ""; any other is rendered with `str`, escaped, and reads back unchanged |
| Markdown.EscapeMarkdownV2Intended | backend-api/truth_bot.py:60-66 | every argument is rendered and escaped; the result is empty only for "" |
| Markdown.ZeroScorePrintsBlank | backend-api/truth_bot.py:62 | a score of 0 is escaped to "" by the code as written, and to "0" by the intended escaper |
| Markdown.IntendedAgreesExceptZero | backend-api/truth_bot.py:62-66 | the two escapers agree on every argument except 0 |
| QuestionBank.Available | backend-api/truth_bot.py:44-46 | the unused prompts are exactly the corpus prompts not in the used list |
| QuestionBank.GetRandomQuestion | backend-api/truth_bot.py:42-55 | fails exactly on an empty corpus; the prompt is from the corpus; while one is unused, it is unused and is appended to the used list; once all are used, the list restarts as just that prompt |
| QuestionBank.SomeUnused | backend-api/truth_bot.py:46-48 | a duplicate-free used list shorter than the number of distinct prompts leaves one unused |
| QuestionBank.DrawStep | backend-api/truth_bot.py:46-54 | one draw while prompts remain keeps the used list duplicate-free and inside the corpus |
| QuestionBank.NoRepeatUntilExhausted | backend-api/truth_bot.py:42-55 | as many draws as there are prompts left all succeed, repeat no prompt, and extend the used list by exactly the drawn prompts |
| Scores.Get | backend-api/database.py:107 | `t.get(k, d)`: d for a missing key, otherwise the value stored under k |
| Scores.Put | backend-api/truth_bot.py:296 | `$set scores.<k>`: an existing key keeps its place and a new key goes last; k reads v and every other key reads as before |
| Scores.Inc | backend-api/truth_bot.py:359-360 | `$inc scores.<k>`: k moves by delta from its value or 0, nothing else moves, and the key order is as for Put |
| Scores.MaxValue | backend-api/database.py:89 | `max(values)`: bounds every value and is one of them |
| Scores.ScanMax | backend-api/truth_bot.py:159 | the scan behind `max(key=...)` ends on an entry no entry beats and that every earlier entry is strictly below |
| Scores.FirstMax | backend-api/truth_bot.py:159 | the winner's entry holds the maximum, and every entry before it is strictly lower |
| Scores.Project | backend-api/database.py:87 | one key per player, in player order for distinct players, each with the player's score or 0 |
| Game.Bump | backend-api/truth_bot.py:361 | `$inc` of one counter moves that counter by d and leaves the other three |
| Game.NewSession | backend-api/truth_bot.py:107-113 | the new record is a valid waiting game with no players, scores, counters or used prompts |
| Game.OnlyTargetChanges | backend-api/database.py:65-67 | an update operator changes only the field it names |
| Game.UntouchedFieldsUnchanged | backend-api/database.py:65-67 | an update document changes only the fields its operators name, and never the game's identity |
| Game.Sets | backend-api/database.py:67 | `{"$set": updates}` is one `$set` per field, in order |
| Game.Join | backend-api/truth_bot.py:287-300 | a player already in the game is refused and nothing changes; anyone else is appended to the players with score 0 and zero counters, and nothing else changes |
| Game.JoinPreservesValid | backend-api/truth_bot.py:287-299 | joining keeps the session valid; in particular the players stay duplicate-free |
| Game.RotateLeft | backend-api/truth_bot.py:400-401 | `rotate(-1)` keeps the length, and the old head goes last |
| Game.RotateLeftPermutes | backend-api/truth_bot.py:400-401 | one rotation keeps exactly the queued players, as a multiset |
| Game.RotateLeftShifts | backend-api/truth_bot.py:401 | position i of the rotated queue holds the element at (i+1) mod n |
| Game.RotateTimesSplits | backend-api/truth_bot.py:401 | k rotations move the first k elements to the back, in order |
| Game.RotateTimesKeepsPlayers | backend-api/truth_bot.py:401 | any number of rotations keeps the multiset of queued players |
| Game.FullCycleRestores | backend-api/truth_bot.py:401 | n rotations of a queue of length n restore it |
| Game.Advance | backend-api/truth_bot.py:396-404 | no-op unless the game runs; raises on an empty queue; otherwise rotates the queue once, and its new head (the old second element) holds the turn |
| Game.AdvanceMovesOnlyTurn | backend-api/truth_bot.py:404 | an advance changes no field but the queue and the turn |
| Game.AdvanceWrites | backend-api/truth_bot.py:404 | the advance equals the `$set` of the new turn and the rotated queue the bot sends |
| Game.AdvancePreservesValid | backend-api/truth_bot.py:396-404 | an advance keeps the session valid |
| Game.AdvanceTimesRotates | backend-api/truth_bot.py:396-404 | n advances of a running game rotate the queue n times, put the turn at its head, and change nothing else |
| Game.AdvanceFullCycle | backend-api/truth_bot.py:396-404 | as many advances as there are queued players bring back the queue, with the turn at its head |
| Game.TurnAfter | backend-api/truth_bot.py:400-402 | after n > 0 advances the turn is at the head of the n times rotated queue |
| Game.Start | backend-api/truth_bot.py:130-142 | fewer than 2 players is refused first and a running game second, both unchanged; otherwise the game runs, the queue is the rotated shuffled list, and the second shuffled player holds the turn |
| Game.StartWrites | backend-api/truth_bot.py:139-142 | starting equals the `$set` of status and queue the bot sends, followed by one advance |
| Game.StartPreservesValid | backend-api/truth_bot.py:133-142 | starting with a permutation of the players keeps the session valid |
| Game.Choose | backend-api/truth_bot.py:307-321 | refused unless the actor holds the turn; raises on an empty corpus; otherwise records the choice and replaces only that category's used list with the draw's list |
| Game.ChoosePreservesValid | backend-api/truth_bot.py:314-320 | a choice keeps the session valid |
| Game.ChooseLeavesOtherCategory | backend-api/truth_bot.py:317-320 | the other category's used list is never touched |
| Game.ResolveRefusal | backend-api/truth_bot.py:343-348 | complete goes ahead exactly for an administrator or creator; skip and change go ahead exactly for the turn holder |
| Game.CompleteUpdate | backend-api/truth_bot.py:357-363 | complete changes only the scores, the counters and the two category counts |
| Game.CompleteCredits | backend-api/truth_bot.py:359-360 | the turn holder gains 5 points and nobody else's score moves |
| Game.CompleteCounts | backend-api/truth_bot.py:358-363 | with a chosen category, the holder's counter for it and the game's count of it rise by 1 and nothing else moves; with no choice, no counter moves |
| Game.CompleteOpsEffect | backend-api/truth_bot.py:359-363 | the `$inc` document the complete button sends has exactly that effect |
| Game.SkipUpdate | backend-api/truth_bot.py:366-370 | skip changes only the scores and the counters |
| Game.SkipCharges | backend-api/truth_bot.py:367-370 | the turn holder loses 6 points and counts one more skip; nobody else's score or counters move |
| Game.SkipOpsEffect | backend-api/truth_bot.py:367-370 | the `$inc` document the skip button sends has exactly that effect |
| Game.Changed | backend-api/truth_bot.py:373-382 | raises without a choice or with an empty corpus; otherwise charges the change, stores the draw's used list and shows the new prompt, with no advance |
| Game.ChangeUpdate | backend-api/truth_bot.py:376-380 | change writes only the scores, the counters and that category's used list |
| Game.ChangeCharges | backend-api/truth_bot.py:376-380 | the turn holder loses 2 points and counts one more change; nobody else's score or counters move; the used list is the new one |
| Game.ChangeOpsEffect | backend-api/truth_bot.py:376-382 | the `$inc`/`$set` document the change button sends has exactly that effect |
| Game.Resolve | backend-api/truth_bot.py:336-393 | a refusal changes nothing; a complete pressed while nobody holds the turn is refused; complete and skip apply their update and then pass the turn as an advance does; change does not advance; skip and change only go ahead for the turn holder |
| Game.ResolvePreservesValid | backend-api/truth_bot.py:336-393 | every resolution keeps the session valid |
| Game.CompletePreservesValid | backend-api/truth_bot.py:357-393 | complete followed by the advance keeps the session valid |
| Game.SkipPreservesValid | backend-api/truth_bot.py:366-393 | skip followed by the advance keeps the session valid |
| Game.ChangedPreservesValid | backend-api/truth_bot.py:373-382 | change keeps the session valid |
| Game.Winner | backend-api/truth_bot.py:157-159 | none exactly when no score was recorded; otherwise the first entry, in write order, that no entry beats |
| Game.WinnerHasTopScore | backend-api/truth_bot.py:158-159 | in a valid game with players the winner is a player, no player scores higher, and every earlier joiner scores strictly lower |
| Game.KeyText | backend-api/truth_bot.py:351 | `str(current_player)` reads back as the player's id, and the text "None" of a missing player does not read as an integer |
| Game.StoredScores | backend-api/truth_bot.py:296 | the stored scores hold the model's entries in the same order, each under the text of its id |
| Game.StoredKeysDistinct | backend-api/truth_bot.py:290-296 | different players are stored under different keys |
| Game.CompleteScoresAsWritten | backend-api/truth_bot.py:350-363 | as written, complete credits 5 points to the key `str(current_player)`, whatever it is, and no other key changes |
| Game.StopWinnerAsWritten | backend-api/truth_bot.py:156-159 | `int(max(scores, key=scores.get))`: no winner exactly when there are no scores; otherwise a top-scoring key, which raises when it is not the text of an integer |
| Game.StrayCompleteBlocksStop | backend-api/truth_bot.py:350-363 | as written, a complete pressed while nobody holds the turn and nobody has points makes "None" the top key, and the stop raises |
| Game.StopWinnerParses | backend-api/truth_bot.py:156-161 | with only players' keys stored, the stop's lookup never raises and names exactly the model's winner |
| Game.MidGameJoinerNeverQueued | backend-api/truth_bot.py:281-300 | as written, a player who joins a running game is a player but never enters the queue and never holds the turn, however many turns pass |
| Game.JoinIntended | backend-api/messages.py:11-12 | as intended: a join pressed while the game runs is refused with "already started" and changes nothing; a join of a waiting game is the join as written |
| Game.JoinIntendedPreservesValid | backend-api/truth_bot.py:287-300 | the intended join keeps the session valid and every player of a running game seated in the queue |
| Game.JoinedPlayerSeatedAtStart | backend-api/truth_bot.py:133-142 | a player admitted by the intended join is a player, and the next start seats every player in the queue |
| Game.StartSeatsEveryone | backend-api/truth_bot.py:139-140 | after a start with a permutation of the players, the queue holds each player exactly once |
| Game.AdvanceKeepsSeats | backend-api/truth_bot.py:400-404 | an advance keeps every player seated |
| Game.ChooseKeepsSeats | backend-api/truth_bot.py:317-320 | a choice keeps every player seated |
| Game.ResolveKeepsSeats | backend-api/truth_bot.py:336-393 | a resolution keeps every player seated |
| Game.EverySeatedPlayerGetsTurn | backend-api/truth_bot.py:396-404 | with every player seated, each player holds the turn within one full round of advances |
| Stats.MaxInto | backend-api/database.py:95 | `$max`: at least the new value and the old one, and equal to one of them; a missing field takes the value |
| Stats.Newest | backend-api/database.py:96 | `$slice: -cap` keeps the whole list when it fits, else exactly cap elements, and they are the last ones of the list |
| Stats.PushCapped | backend-api/database.py:96 | `$push` with `$slice: -cap` leaves at most cap entries |
| Stats.PushCappedWindow | backend-api/database.py:96 | the new entry is last, after the newest old entries in their order |
| Stats.PushAllWindow | backend-api/database.py:96 | a run of capped pushes keeps exactly the newest cap entries of everything pushed, in order |
| Stats.EleventhGameDropsOldest | backend-api/database.py:96 | after eleven games the first is no longer in the history |
| Stats.AddToSet | backend-api/database.py:97 | `$addToSet` with `$each`: the union of old and new, the old list kept in front, no duplicates added |
| Stats.AddToSetPresent | backend-api/database.py:97 | adding only members that are already present changes nothing |
| Stats.HistoryEntryOf | backend-api/database.py:83-88 | the entry counts the players, names the winner, and has one score per player, 0 when missing |
| Stats.HighestInGame | backend-api/database.py:89 | the game's highest score, 0 without scores |
| Stats.SetTitle | backend-api/database.py:81 | the title upsert: the stored group, or an empty one, with the title set |
| Stats.UserInfo | backend-api/database.py:127-132 | the username and first name upsert, leaving every other field |
| Stats.GroupTotalsEffect | backend-api/database.py:81-94 | the group keeps the title, counts one more game, and adds the game's truths and dares (0 when none were counted) |
| Stats.GroupHighestEffect | backend-api/database.py:89-95 | the group's highest score is a running maximum over the game's scores |
| Stats.GroupHistoryEffect | backend-api/database.py:96 | the history is at most 10 entries, the game's entry last, after the most recent older ones in order |
| Stats.GroupPlayersEffect | backend-api/database.py:97 | every player of the game is in the group's list, nobody is dropped, and no duplicates appear |
| Stats.PlayerRollupEffect | backend-api/database.py:105-125 | one more game played; the score added to the total and folded into the highest score; the game's counters (0 when missing) added; the group recorded once |
| Stats.RollupPlayersEffect | backend-api/database.py:102-103 | with distinct players, each player's document is rolled up exactly once from its old value, and every other user's is untouched |
| Store.Database.GetGame | backend-api/database.py:56-58 | the chat's stored session, or none |
| Store.Database.GetGroupStats | backend-api/database.py:75-77 | the chat's group document, or none |
| Store.Database.CreateGame | backend-api/database.py:60-63 | the session is stored under the chat's id; an existing id makes the insert fail with nothing changed |
| Store.Database.UpdateOne | backend-api/truth_bot.py:291-299 | `update_one` without upsert applies the document to the chat's session, changes no field it does not name, and does nothing when there is no session |
| Store.Database.UpdateGame | backend-api/database.py:65-67 | update_game changes only the named fields of that chat's session |
| Store.Database.DeleteGame | backend-api/database.py:69-71 | delete_game removes only that chat's session |
| Store.Database.UpdatePlayerStats | backend-api/database.py:105-125 | the player's document is rolled up, or upserted when missing |
| Store.Database.RecordGroupGame | backend-api/database.py:81-101 | the two group updates: the title, then the game's record |
| Store.Database.UpdateAllPlayerStats | backend-api/database.py:102-103 | the loop rolls up every player in order |
| Store.Database.UpdateStatsOnGameEnd | backend-api/database.py:79-103 | the group, then every player; the session stays |
| Store.Database.UpdateUserInfo | backend-api/database.py:127-132 | the user's name fields are stored, upserting the document |
| Guards.AdminGate | backend-api/decorators.py:13-28 | passes exactly for a group or supergroup and an administrator or creator; otherwise gives the refusal for the first failed check, including a failed lookup |
| Guards.ActiveGate | backend-api/decorators.py:44-52 | passes exactly when the existence of a game matches what the command needs |
| Guards.IsAdmin | backend-api/decorators.py:7-31 | forwards exactly when the admin check passes, and then returns the handler's result on the same argument |
| Guards.GameIsActive | backend-api/decorators.py:33-56 | forwards exactly when the game check passes, and then returns the handler's result on the same argument |
| Guards.StackedGuards | backend-api/truth_bot.py:128-130 | `is_admin` outside `game_is_active`: the handler runs exactly when both pass, and an admin refusal wins |
| Bot.ShuffleDownPermutes | backend-api/truth_bot.py:139 | the Fisher–Yates passes only reorder |
| Bot.ShuffledPermutes | backend-api/truth_bot.py:139 | the shuffled list is a permutation of the players, whatever the draws |
| Bot.ShuffleInPlace | backend-api/truth_bot.py:139 | the in-place swaps leave the array holding the shuffle of its old contents |
| Bot.Shuffle | backend-api/truth_bot.py:139 | the shuffled copy of the players is their shuffle under the draws, and a permutation of them |
| Bot.RotateInPlace | backend-api/truth_bot.py:400-401 | the array ends holding the left rotation of its old contents |
| Bot.SelectNextPlayer | backend-api/truth_bot.py:396-404 | the stored session changes exactly as an advance says; nothing happens without a session |
| Bot.NewGame | backend-api/truth_bot.py:99-115 | refused, with nothing changed, by either guard; otherwise stores a new waiting session and the admin's name fields |
| Bot.StartGame | backend-api/truth_bot.py:128-142 | refused, with nothing changed, by either guard; otherwise the session changes as a start with the shuffled players, a permutation of them |
| Bot.StartStored | backend-api/truth_bot.py:131-142 | the start's two writes and the advance leave the store as a start says |
| Bot.WinnerName | backend-api/truth_bot.py:156-161 | "No winner" without scores, otherwise the name of the winner |
| Bot.StopGame | backend-api/truth_bot.py:144-187 | refused, with nothing changed, by either guard; otherwise names the winner, rolls up the group and every player, then deletes the session |
| Bot.JoinGame | backend-api/truth_bot.py:277-301 | a stale button changes nothing; otherwise the session changes as a join says, and a new player's name fields are stored |
| Bot.ChooseTask | backend-api/truth_bot.py:307-321 | a stale button or the wrong player changes nothing; otherwise the store changes as a choice says |
| Bot.ResolveTask | backend-api/truth_bot.py:336-393 | a stale button changes nothing; a complete while nobody holds the turn is refused; otherwise the store changes as a resolution says |
| Bot.WriteAndPass | backend-api/truth_bot.py:390-393 | the score update, then the advance |
| Bot.ChangeStored | backend-api/truth_bot.py:373-382 | the change branch leaves the store as a change says |
| Reports.FoundIdsSpec | backend-api/main.py:54-56 | the found ids are exactly the listed ids that have a document, each once |
| Reports.GroupName | backend-api/main.py:75 | the stored title, even when empty, else "Group {id}" |
| Reports.RowOf | backend-api/main.py:60-70 | a leaderboard row is named by the first name, else the username, else "Player {id}", and carries the user's username, total score, truths and dares |
| Reports.RowsOf | backend-api/main.py:59-70 | one row per found player, in order |
| Reports.HighestSpec | backend-api/main.py:57-62 | the running maximum is never below 0, bounds every found total, and is 0 or one of them |
| Reports.BuildRows | backend-api/main.py:57-70 | the loop builds exactly those rows and that maximum |
| Reports.SortDescSorted | backend-api/main.py:72 | the sort yields a non-increasing list |
| Reports.SortDescPermutes | backend-api/main.py:72 | the sort yields a permutation of its input |
| Reports.SortDescStable | backend-api/main.py:72 | the sort is stable: rows with equal scores keep their order |
| Reports.Top | backend-api/main.py:79 | `[:10]`: a prefix of at most 10, all of a list of up to 10, exactly 10 of a longer one |
| Reports.TopKeepsBest | backend-api/main.py:78-79 | cutting a sorted list keeps it sorted, keeps only its rows, and leaves off no row that scores above a kept one |
| Reports.FoundRows | backend-api/main.py:59-76 | one row per listed player with a document |
| Reports.BoardSpec | backend-api/main.py:59-79 | the leaderboard has 10 rows, or one per found player when fewer were found; it is sorted; its rows, repeats counted, are found players' rows; no found player left off scores above a player on it |
| Reports.GroupReportOf | backend-api/main.py:44-81 | the report: title or default, game count, history, player count, the floored maximum, and the sorted top 10; for an empty player list, 0, 0 and [] |
| Reports.GetGroupStats | backend-api/main.py:36-85 | as written: a missing group answers 500; otherwise the report above |
| Reports.GetGroupStatsIntended | backend-api/main.py:41-42 | as intended: a missing group answers 404; otherwise the report above |
| Reports.BuildGroupRefs | backend-api/main.py:98-103 | one reference per found group, named as the group report names it |
| Reports.OrZero | backend-api/main.py:112 | a missing highest score reads as 0 |
| Reports.UserReportOf | backend-api/main.py:96-118 | the name chain with "User {id}", the stats defaulting to 0, and exactly the played groups that have a document, each once |
| Reports.GetUserStats | backend-api/main.py:88-121 | as written: a missing user answers 500; otherwise the report above |
| Reports.GetUserStatsIntended | backend-api/main.py:93-94 | as intended: a missing user answers 404; otherwise the report above |

## Left out

- Telegram I/O is not modelled: replies, message edits, alerts, keyboards, handler registration and the error handler. Handlers return a reply code instead of sending text.
- Message text is not modelled: scoreboards, history lines, templates in messages.py, and flavour text. Only the escaper the text goes through is modelled.
- get_player_name_and_mention is a network lookup with a database fallback. It is a `nameOf` parameter. The user-info write it makes on a successful lookup is not modelled.
- Question file loading is file I/O. The corpora are given sequences, and a failed load is an empty corpus.
- Randomness is an input: `draw` for `random.shuffle`, `pick` for `random.choice`. The game name and id are inputs. Distributions are not modelled.
- Timestamps are not modelled: `start_time`, `end_time`, `last_played`. The legacy `game_id`/`game_name` defaults for old documents are not modelled either.
- Concurrency is not modelled. Each handler is one sequential, atomic step, and nothing is claimed about racing button presses.
- Bot.ResolveTask: completion_callback pressed with "complete" while nobody holds the turn writes `scores.None`, `player_stats.None.Nones` and `None_count` and then advances; the task refuses it through Game.Resolve, so that write is not part of the stored state it models.
- Game.Resolve: the session's score table is keyed by integer ids, so the stray "None" key that a complete pressed before anyone holds the turn writes lives only in the text-keyed table of Game.StrayCompleteBlocksStop. The session model refuses that complete (see Findings).
- Game.CompleteUpdate: complete without a chosen category also increments a `Nones` counter and a `None_count` field in the source. Nothing ever reads them, and the model leaves them out. The turn advance that follows a stray complete is not modelled either, since the model refuses that complete.
- Text.IntRoundTrip: `int()` is modelled only on optional-minus-then-digits text, the only kind the program feeds it. Whitespace, underscores and `+` are not accepted.
- The new score that complete and skip read back is used only in a message, and it is not returned.
- A `find` with `$in` is modelled as returning documents in the order of the id list. MongoDB does not promise an order.
- Reports.SortDescSorted: `list.sort` works in place; it is modelled as a function on values (a stable insertion sort), because only its result is observable.
- QuestionBank.GetRandomQuestion: `used_questions.append` mutates a list that was freshly loaded from the store, so it is modelled as returning the new list.
- Of the other exceptions the report endpoints turn into 500 (a database failure, a malformed stored id), none is modelled: the collections are maps and the ids are integers.

## Findings

| source | as written | input that shows it | evidently intended | confidence | as-written member | corrected member |
|---|---|---|---|---|---|---|
| backend-api/truth_bot.py:281-300 | join does not check the status, and appends to `players` but not to `player_queue` | a running game with queue [A, B]; C joins | players join before the admin's /startgame (messages.py:11-12), so a join of a running game is refused and changes nothing | high, not executed | Game.MidGameJoinerNeverQueued | Game.JoinIntended |
| backend-api/truth_bot.py:350-363 | complete does not check that someone holds the turn, and credits 5 to `scores.None`; the stop's `int(max(...))` at line 159 then raises on "None", and keeps raising as long as "None" holds the first top score, for instance until the game is started and a player passes it | a waiting game with players at 0 points; an admin presses a stale "Mark as Complete" | complete is refused while nobody holds the turn, so every stored key is a player id | high, not executed | Game.StrayCompleteBlocksStop | Game.Resolve |
| backend-api/main.py:41-42 | the 404 for a missing group is raised inside `try` and caught by `except Exception`, which answers 500 | a group id with no document | answer 404 | high, not executed | Reports.GetGroupStats | Reports.GetGroupStatsIntended |
| backend-api/main.py:93-94 | the 404 for a missing user is caught the same way and answered with 500 | a user id with no document | answer 404 | high, not executed | Reports.GetUserStats | Reports.GetUserStatsIntended |
| backend-api/truth_bot.py:62 | `if not text: return ""` treats the score 0 as empty, so "New score: " and scoreboard lines show no number | a player whose score is 0 | print "0" | high, not executed | Markdown.ZeroScorePrintsBlank | Markdown.EscapeMarkdownV2Intended |
