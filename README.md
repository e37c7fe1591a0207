# PSP Wordle — a verified model of the game server and its clients

PSP Wordle is a client/server Wordle written in Kotlin. The server runs
single-player (PVE) games of several rounds and multi-player (PVP) games
played in rooms. It keeps a top-10 records table per mode and word length,
per-player statistics and resumable sessions, and writes a rotating log
file. The desktop client shows the game through a view-model, and the
server has a log window that classifies log lines.

This project models that core in Dafny, one module per source file:

| module | file | models |
|---|---|---|
| `Protocol` | `protocol.dfy` | the message and data types shared by server and clients; the outgoing connection as a `Network` that records every delivery |
| `Scoring` | `scoring.dfy` | the two-pass letter comparison and the round score (identical in PVE and PVP) |
| `Sorting` | `sorting.dfy` | the stable sort by descending key used by the records table and the PVP rankings |
| `TopScores` | `records.dfy` | `RecordsManager`: top-10 update, legacy migration, empty tables |
| `PlayerStatistics` | `stats.dfy` | `StatsManager`: per-round and per-game counters and streaks |
| `Sessions` | `sessions.dfy` | `SessionManager`: sessions that expire after two hours |
| `Dictionary` | `dictionary.dfy` | `DictionaryManager`: how the word index is built, and the queries on it |
| `Rooms` | `rooms.dfy` | `Room` and `RoomManager`: PVP waiting rooms |
| `PveGames` | `pve_game.dfy` | `PVEGame`: the single-player round state machine |
| `PvpGames` | `pvp_game.dfy` | `PVPGame`: the multi-player round state machine, the barrier between rounds, and rankings |
| `ClientHandlers` | `client_handler.dfy` | `ClientHandler`: one connection's room/game bookkeeping and its error codes |
| `ClientGame` | `game_view_model.dfy` | the client `GameViewModel`: input buffer, keyboard colours, pending round |
| `ServerView` | `server_view_model.dfy` | the server `ServerViewModel`: log-line classification and polling |
| `FileLogging` | `file_logger.dfy` | the JVM `FileLogger`: line format and rotation |

Objects whose fields the source updates in place are classes with
`modifies` frames. This covers the games, the managers, the handlers and
the view-models. Pure computations are functions, with lemmas about them.
Messages a component sends are appended to a `Network`'s `sent` list, each
with its addressee. The client view-model appends what it would send to
an `outbox`. The wall clock (`now`, milliseconds), the random draw of a
word (`pick`), room codes and game ids are parameters. Timers and
coroutine waits are explicit events: `HandleTimeout`, `ReadyTimeout`, and
`BeginRound`/`Finish` around the round loop. What a file read yields is a
`FileRead` value: missing, unparseable, or the parsed content.

Two files exist in two identical copies: `compareWords` (in `PVEGame.kt`
and `model/PVPGame.kt`) and `Room`/`RoomManager` (in `RoomManager.kt` and
`model/RoomManager.kt`). Each is modelled once.

## Model

| member | source | states |
|---|---|---|
| Protocol.Network.Send | server/src/main/kotlin/ClientHandler.kt:295-301 | a send appends exactly one delivery, to that client, and nothing else |
| Protocol.Network.constructor | server/src/main/kotlin/ClientHandler.kt:295-301 | a new connection has sent nothing |
| Protocol.Deliveries | server/src/main/kotlin/model/PVPGame.kt:444-446 | a broadcast holds one delivery per listed player |
| Protocol.DeliveriesAt | server/src/main/kotlin/model/PVPGame.kt:444-446 | the i-th delivery of a broadcast goes to the i-th player, in list order, with the same message |
| Protocol.DivTruncTowardZero | server/src/main/kotlin/PVEGame.kt:136 | the elapsed-seconds division truncates toward zero like Kotlin's `/`, for negative differences as well |
| Scoring.IndexOf | server/src/main/kotlin/PVEGame.kt:182 | `indexOf`: -1 exactly when the letter is absent, otherwise the first position holding it |
| Scoring.CompareWords | server/src/main/kotlin/PVEGame.kt:164-191 | one result per guess letter echoing it, CORRECT exactly at equal positions; with no '_' in the guess the result is the unique Wordle feedback, so no letter is marked more often than it occurs in the target |
| Scoring.MarkExact | server/src/main/kotlin/PVEGame.kt:169-177 | first pass: CORRECT at equal positions, ABSENT elsewhere, no PRESENT yet, and every marked letter has used up one distinct target slot |
| Scoring.MarkPresent | server/src/main/kotlin/PVEGame.kt:179-188 | second pass: each mark still uses a distinct slot; an ABSENT letter has no slot left, and a later copy of it is never PRESENT |
| Scoring.FeedbackUnique | server/src/main/kotlin/model/PVPGame.kt:409-434 | two results satisfying the feedback rules are equal, so the PVE and PVP copies of the comparison agree |
| Scoring.PresentAgrees | server/src/main/kotlin/PVEGame.kt:180-187 | PRESENT is determined by the guess and target alone |
| Scoring.AbsentWhenNotInTarget | server/src/main/kotlin/PVEGame.kt:180-187 | a guess letter that does not occur in the target is ABSENT |
| Scoring.RoundScore | server/src/main/kotlin/PVEGame.kt:196-201 | never negative; 0 for a lost round; at most max(0,(7-attempts)*1000); positive for a hint-free win in time |
| Scoring.RoundScoreMonotone | server/src/main/kotlin/PVEGame.kt:196-201 | fewer attempts and fewer seconds never score less |
| Scoring.HintPenalty | server/src/main/kotlin/PVEGame.kt:201 | a hint never raises the score, and costs exactly 1000 when the base score is at least 1000 |
| Sorting.InsertDescSorted | server/src/main/kotlin/model/data/RecordsManager.kt:164 | inserting into a list sorted by descending key keeps it sorted |
| Sorting.InsertDescPerm | server/src/main/kotlin/model/data/RecordsManager.kt:161-164 | inserting adds exactly the new element |
| Sorting.InsertDescStable | server/src/main/kotlin/model/data/RecordsManager.kt:164 | among equal keys the new element goes after the existing ones |
| Sorting.SortDescSortedPerm | server/src/main/kotlin/model/PVPGame.kt:393 | `sortedByDescending` yields a sorted permutation of its input |
| Sorting.SortDescStable | server/src/main/kotlin/model/PVPGame.kt:393 | the sort is stable: elements with equal keys keep their input order |
| Sorting.SortDescSorted | server/src/main/kotlin/model/data/RecordsManager.kt:164 | sorting a sorted list changes nothing |
| Sorting.SortDescAppend | server/src/main/kotlin/model/data/RecordsManager.kt:161-164 | appending then sorting a sorted list is inserting in place |
| Sorting.Leading | server/src/main/kotlin/model/data/RecordsManager.kt:164-167 | the number of leading entries whose key is at least k |
| TopScores.WithTable | server/src/main/kotlin/model/data/RecordsManager.kt:152-158 | replacing one mode's tables leaves the other mode and the legacy fields unchanged |
| TopScores.RankedIsRanking | server/src/main/kotlin/model/data/RecordsManager.kt:161-167 | after adding an entry the list is sorted by score, descending, holds min(n+1, 10) entries, and every entry comes from the old list or is the new one |
| TopScores.RankedKeepsBest | server/src/main/kotlin/model/data/RecordsManager.kt:164-167 | an entry cut by the truncation scores no more than any entry kept |
| TopScores.NewRecordIffRoom | server/src/main/kotlin/model/data/RecordsManager.kt:170 | for a (name, score) not yet listed, `isNewRecord` holds exactly when fewer than 10 entries score at least as much |
| TopScores.RepeatedScoreIsListed | server/src/main/kotlin/model/data/RecordsManager.kt:170 | a (name, score) already in the table is reported as a new record again, even when the new entry itself is cut |
| TopScores.Relabel | server/src/main/kotlin/model/data/RecordsManager.kt:88-101 | legacy entries keep name and score and get word length 5 |
| TopScores.Completed | server/src/main/kotlin/model/data/RecordsManager.kt:109-116 | every supported length gets a table; existing tables are kept; only supported lengths are added, empty |
| TopScores.FilledAll | server/src/main/kotlin/model/data/RecordsManager.kt:109-116 | the filling loops over lengths 4..7 yield the overwrite (`initializeEmptyRecords`) and the keep-existing (`getOrPut`) results |
| TopScores.Migrated | server/src/main/kotlin/model/data/RecordsManager.kt:84-121 | after migration neither legacy list remains and both modes have a table for every supported length |
| TopScores.MigratedKeepsEntries | server/src/main/kotlin/model/data/RecordsManager.kt:88-116 | a non-empty legacy list becomes the length-5 table, relabelled; every other table is kept |
| TopScores.MigratedIdempotent | server/src/main/kotlin/model/data/RecordsManager.kt:84-121 | migrating twice is migrating once |
| TopScores.RecordsManager.constructor | server/src/main/kotlin/model/data/RecordsManager.kt:54-75 | missing file → empty tables for 4..7; unreadable file → empty records; parsed file → migrated, written back only if it had a legacy list |
| TopScores.RecordsManager.SaveRecords | server/src/main/kotlin/model/data/RecordsManager.kt:123-134 | the file now holds the records |
| TopScores.RecordsManager.InitializeEmptyRecords | server/src/main/kotlin/model/data/RecordsManager.kt:77-82 | both modes get an empty table for every length 4..7, overwriting those |
| TopScores.RecordsManager.MigrateFromLegacy | server/src/main/kotlin/model/data/RecordsManager.kt:84-121 | the records become `Migrated` of the old ones; the file is written only if a legacy list was present |
| TopScores.RecordsManager.GetRecords | server/src/main/kotlin/model/data/RecordsManager.kt:136-141 | both by-length maps, without legacy fields |
| TopScores.RecordsManager.GetRecordsByLength | server/src/main/kotlin/model/data/RecordsManager.kt:143-149 | the table for that mode and length, or empty |
| TopScores.RecordsManager.UpdateScore | server/src/main/kotlin/model/data/RecordsManager.kt:151-181 | only that mode and length change, to the ranked top 10 with the entry added (the table is created if missing); returns whether (name, score) is listed; the file is written exactly when it returns true |
| PlayerStatistics.DefaultConsistent | server/src/main/kotlin/model/data/StatsManager.kt:56-58 | the stats an unknown player reads as satisfy the counter invariants |
| PlayerStatistics.AfterRound | server/src/main/kotlin/model/data/StatsManager.kt:61-87 | words attempted +1; on a win, words guessed +1, time +seconds and that attempt count's bucket +1; nothing else changes; the invariants are kept |
| PlayerStatistics.GameWonIsMajority | server/src/main/kotlin/model/data/StatsManager.kt:93 | `roundsWon > totalRounds / 2` (integer division) means winning a strict majority of rounds |
| PlayerStatistics.AfterGame | server/src/main/kotlin/model/data/StatsManager.kt:90-106 | games +1, wins +1 iff won, streak +1 or reset to 0, max streak = max(old max, new streak); the invariants are kept |
| PlayerStatistics.ReplayCounts | server/src/main/kotlin/model/data/StatsManager.kt:90-106 | after a series of games the counters equal games played, games won, and the trailing run of wins |
| PlayerStatistics.StatsManager.constructor | server/src/main/kotlin/model/data/StatsManager.kt:37-46 | a readable file gives its stats, otherwise none |
| PlayerStatistics.StatsManager.GetStats | server/src/main/kotlin/model/data/StatsManager.kt:56-58 | the stored stats, or the all-zero default for an unknown player |
| PlayerStatistics.StatsManager.UpdateRound | server/src/main/kotlin/model/data/StatsManager.kt:61-87 | only the named player's entry changes, to `AfterRound`; the file is rewritten |
| PlayerStatistics.StatsManager.UpdateGame | server/src/main/kotlin/model/data/StatsManager.kt:90-106 | only the named player's entry changes, to `AfterGame`; the file is rewritten |
| Sessions.FreshBoundary | server/src/main/kotlin/model/data/SessionManager.kt:93 | a session exactly 2 hours old is still valid; one millisecond later it is expired |
| Sessions.LoadedSound | server/src/main/kotlin/model/data/SessionManager.kt:62-68 | loading keeps exactly the unexpired stored sessions, each under its player name |
| Sessions.LoadedLastWins | server/src/main/kotlin/model/data/SessionManager.kt:62-64 | of several unexpired sessions for one player, the last stored one is kept |
| Sessions.SessionManager.constructor | server/src/main/kotlin/model/data/SessionManager.kt:55-74 | a readable file gives its unexpired sessions, otherwise none |
| Sessions.SessionManager.SaveSession | server/src/main/kotlin/model/data/SessionManager.kt:85-89 | the session replaces any other for that player; the file is rewritten |
| Sessions.SessionManager.GetSession | server/src/main/kotlin/model/data/SessionManager.kt:91-100 | unknown player → none, no change; expired → none, entry deleted and file rewritten; otherwise the stored session, no change |
| Sessions.SessionManager.DeleteSession | server/src/main/kotlin/model/data/SessionManager.kt:102-107 | the entry is gone; the file is rewritten only if there was one |
| Dictionary.Grouped | server/src/main/kotlin/DictionaryManager.kt:144 | exactly the words of that length |
| Dictionary.LoadLength | server/src/main/kotlin/DictionaryManager.kt:62-93 | one length's solutions and valid set from the new or the old file format |
| Dictionary.LoadPerLength | server/src/main/kotlin/DictionaryManager.kt:52-109 | the loop over lengths 4..7 builds exactly the per-length index |
| Dictionary.LoadLegacyDictionary | server/src/main/kotlin/DictionaryManager.kt:133-158 | the legacy list grouped by length, keeping only lengths 4..7 that have words |
| Dictionary.LoadedLengths | server/src/main/kotlin/DictionaryManager.kt:32 | the index only has lengths 4..7 |
| Dictionary.LegacyOnlyAsFallback | server/src/main/kotlin/DictionaryManager.kt:114-116 | the legacy file is read only when no per-length solutions were loaded |
| Dictionary.BrokenFileHidesOldFormat | server/src/main/kotlin/DictionaryManager.kt:62-93 | an unparseable new-format file leaves that length without solutions, even if an old-format file exists |
| Dictionary.LegacyWordsHaveTheirLength | server/src/main/kotlin/DictionaryManager.kt:144-151 | from the legacy file, each length lists only words of that length, and every length 4..7 with words gets them |
| Dictionary.ExtraWordsAreValid | server/src/main/kotlin/DictionaryManager.kt:96-109 | the supplementary words are added to the valid set |
| Dictionary.LoadedCovers | server/src/main/kotlin/DictionaryManager.kt:62-109 | with an idempotent normalisation, every solution's word is in its length's valid set |
| Dictionary.PerLengthCovers | server/src/main/kotlin/DictionaryManager.kt:62-109 | with an idempotent normalisation, every per-length solution is in that length's valid set |
| Dictionary.DictionaryManager.constructor | server/src/main/kotlin/DictionaryManager.kt:52-131 | the index is the one the loading rules build from the files |
| Dictionary.DictionaryManager.GetRandomWord | server/src/main/kotlin/DictionaryManager.kt:160-169 | none exactly when the length has no list or an empty one; otherwise an element of that list |
| Dictionary.DictionaryManager.EveryWordCanBeDrawn | server/src/main/kotlin/DictionaryManager.kt:166 | each listed word is the draw for some random index |
| Dictionary.DictionaryManager.IsValidWord | server/src/main/kotlin/DictionaryManager.kt:171-174 | true exactly when the normalised word is in that length's valid set; false for a length without one |
| Dictionary.DictionaryManager.SolutionsAreValidWords | server/src/main/kotlin/DictionaryManager.kt:160-174 | a drawn word is accepted as a guess |
| Dictionary.DictionaryManager.GetWordCount | server/src/main/kotlin/DictionaryManager.kt:176-178 | the number of solutions of that length, 0 if none |
| Dictionary.DictionaryManager.HasDictionaryFor | server/src/main/kotlin/DictionaryManager.kt:184-186 | true exactly when the word count is positive |
| Dictionary.DictionaryManager.GetSupportedLengths | server/src/main/kotlin/DictionaryManager.kt:180-182 | exactly the lengths of 4..7 that have solutions, in increasing order |
| Dictionary.DictionaryManager.HavingSolutions | server/src/main/kotlin/DictionaryManager.kt:181 | the filter keeps exactly the listed lengths with solutions, in their order |
| Rooms.RemoveFirst | server/src/main/kotlin/model/RoomManager.kt:52 | `list.remove`: the list is unchanged if the player is absent, otherwise one shorter |
| Rooms.RemoveFirstCounts | server/src/main/kotlin/model/RoomManager.kt:52 | exactly one copy of the player goes and every other player stays |
| Rooms.RemoveFirstAt | server/src/main/kotlin/model/RoomManager.kt:52 | the copy removed is the first one, and the rest keep their order |
| Rooms.NamesOf | server/src/main/kotlin/model/RoomManager.kt:58 | the players' names in player order when every player has one |
| Rooms.Room.constructor | server/src/main/kotlin/model/RoomManager.kt:26-34 | players = [host], names = {host → hostName}, WAITING |
| Rooms.Room.AddPlayer | server/src/main/kotlin/model/RoomManager.kt:40-45 | admits exactly when not full and WAITING, appending one player and their name; otherwise nothing changes; capacity is never exceeded |
| Rooms.Room.RemovePlayer | server/src/main/kotlin/model/RoomManager.kt:51-55 | removes the player's first place and name; returns whether the room is now empty |
| Rooms.Room.GetPlayerNamesList | server/src/main/kotlin/model/RoomManager.kt:58 | the names in player order |
| Rooms.Room.ToRoomInfo | server/src/main/kotlin/model/RoomManager.kt:61-66 | code, host name, current player count and capacity |
| Rooms.RoomManager.constructor | server/src/main/kotlin/model/RoomManager.kt:76-77 | no rooms |
| Rooms.RoomManager.CreateRoom | server/src/main/kotlin/model/RoomManager.kt:80-86 | a new WAITING room of capacity 4 with the host alone, filed under its code |
| Rooms.RoomManager.JoinRoom | server/src/main/kotlin/model/RoomManager.kt:92-99 | none for an unknown code or a refused add, otherwise the room, with the player appended |
| Rooms.RoomManager.LeaveRoom | server/src/main/kotlin/model/RoomManager.kt:106-119 | unknown code → (false, none), no change; room emptied → deleted, (true, none); otherwise (false, room) |
| Rooms.RoomManager.ListAvailableRooms | server/src/main/kotlin/model/RoomManager.kt:122-126 | one entry for each WAITING room and nothing else |
| Rooms.FullRoomsAreListed | server/src/main/kotlin/model/RoomManager.kt:121-126 | a full WAITING room is still listed |
| Rooms.RoomManager.GetRoom | server/src/main/kotlin/model/RoomManager.kt:129 | the room under that code, if any |
| Rooms.RoomManager.RemoveRoom | server/src/main/kotlin/model/RoomManager.kt:132-135 | the room is deleted whoever is in it |
| Rooms.RoomManager.FindRoomByClient | server/src/main/kotlin/model/RoomManager.kt:138-140 | a room the client is in, or none exactly when no room holds the client |
| PveGames.PveGame.constructor | server/src/main/kotlin/PVEGame.kt:8-25 | round 1, no score, no round open, not abandoned |
| PveGames.PveGame.BeginRound | server/src/main/kotlin/PVEGame.kt:27-36 | an abandoned game stops the round loop; otherwise the round is numbered and played |
| PveGames.PveGame.PlayRound | server/src/main/kotlin/PVEGame.kt:58-109 | no word → NO_WORDS and no round; otherwise GAME_STARTED, a fresh round (no attempts, no hint) opened at `now` |
| PveGames.PveGame.HandleGuess | server/src/main/kotlin/PVEGame.kt:111-162 | ROUND_NOT_ACTIVE, INVALID_LENGTH, INVALID_WORD in that order, each with no state change; an accepted guess costs one attempt and gets its letter feedback; a correct one ends the round won, the last attempt ends it lost, otherwise the round goes on |
| PveGames.PveGame.EndRound | server/src/main/kotlin/PVEGame.kt:193-222 | the round closes, the round score is added to the total, a win is counted, and ROUND_END carries the word and scores |
| PveGames.PveGame.HandleTimeout | server/src/main/kotlin/PVEGame.kt:224-230 | an open round ends lost, scoring 0; otherwise nothing |
| PveGames.PveGame.HandleRequestHint | server/src/main/kotlin/PVEGame.kt:252-266 | ROUND_NOT_ACTIVE or HINT_ALREADY_USED with no change; otherwise the hint is sent and marked used for the round |
| PveGames.PveGame.Abandon | server/src/main/kotlin/PVEGame.kt:47-54 | abandoned, no round open, scores kept, GAME_ABANDONED sent |
| PveGames.PveGame.IsAbandoned | server/src/main/kotlin/PVEGame.kt:56 | whether the game was abandoned |
| PveGames.PveGame.Finish | server/src/main/kotlin/PVEGame.kt:39-41 | nothing for an abandoned game; otherwise the end of game |
| PveGames.PveGame.EndGame | server/src/main/kotlin/PVEGame.kt:232-250 | the score goes to the PVE records only when `saveRecords`; GAME_END reports whether it made the table |
| PvpGames.Without | server/src/main/kotlin/model/PVPGame.kt:449 | exactly the players other than the excluded one |
| PvpGames.Scores | server/src/main/kotlin/model/PVPGame.kt:385-392 | one entry per player |
| PvpGames.ScoresAt | server/src/main/kotlin/model/PVPGame.kt:386-391 | each entry is that player's name ("Desconocido" if none), total and rounds won |
| PvpGames.RankingsAreSortedScores | server/src/main/kotlin/model/PVPGame.kt:384-394 | the rankings are the scores sorted by total, descending |
| PvpGames.RankingsSorted | server/src/main/kotlin/model/PVPGame.kt:384-394 | one entry per active player, a permutation of their scores, ordered by total, highest first |
| PvpGames.RankingsStable | server/src/main/kotlin/model/PVPGame.kt:393 | players with equal totals keep their order in the active list |
| PvpGames.Statuses | server/src/main/kotlin/model/PVPGame.kt:396-407 | one status per active player |
| PvpGames.StatusesAt | server/src/main/kotlin/model/PVPGame.kt:397-404 | each status is that player's name, attempts, finish flag and total |
| PvpGames.RoundEnds | server/src/main/kotlin/model/PVPGame.kt:215-229 | one round result per active player |
| PvpGames.RoundEndsAt | server/src/main/kotlin/model/PVPGame.kt:215-229 | each player gets their own PVP_ROUND_END, won iff their round score is positive |
| PvpGames.GameEndsAt | server/src/main/kotlin/model/PVPGame.kt:282-292 | the i-th PVP_GAME_END goes to the i-th player and reports the table after the earlier players were submitted |
| PvpGames.GameEndsLength | server/src/main/kotlin/model/PVPGame.kt:282-292 | one PVP_GAME_END per active player |
| PvpGames.PvpGame.constructor | server/src/main/kotlin/model/PVPGame.kt:26-61 | every player is active with total 0 and no rounds won; no round is open |
| PvpGames.PvpGame.Broadcast | server/src/main/kotlin/model/PVPGame.kt:444-446 | the message goes to each active player, in order, and to nobody else |
| PvpGames.PvpGame.BroadcastExcept | server/src/main/kotlin/model/PVPGame.kt:448-450 | the message goes to every active player but the excluded one |
| PvpGames.PvpGame.BeginRound | server/src/main/kotlin/model/PVPGame.kt:67-74 | the round loop stops when the game is abandoned or nobody is left; otherwise the round is numbered and played; allowed while an earlier ready barrier still stands, which it leaves as it is, and while the round before is still open; a round is left closed only when no word is found, which cannot follow an open round because the dictionary has words of that length |
| PvpGames.PvpGame.PlayRound | server/src/main/kotlin/model/PVPGame.kt:81-118 | no word → NO_WORDS to all and no round; otherwise every active player starts fresh, and the round is announced and opened (replacing a round still open); the barrier and ready set are untouched |
| PvpGames.PvpGame.ResetRound | server/src/main/kotlin/model/PVPGame.kt:92-101 | the per-round maps hold exactly the active players, at zero, unfinished, without hint |
| PvpGames.PvpGame.AnnounceRound | server/src/main/kotlin/model/PVPGame.kt:104-113 | GAME_STARTED then the players' status, each to all active players |
| PvpGames.PvpGame.OpenRound | server/src/main/kotlin/model/PVPGame.kt:115-117 | the round opens at `now`, nothing else changes |
| PvpGames.PvpGame.HandleGuess | server/src/main/kotlin/model/PVPGame.kt:140-200 | ROUND_NOT_ACTIVE (no round, or player finished), INVALID_LENGTH, INVALID_WORD, each with no state change; an accepted guess counts one attempt for that player only; other players' totals and finish flags never change; the round only closes when everybody is finished |
| PvpGames.PvpGame.ScoreGuess | server/src/main/kotlin/model/PVPGame.kt:160-199 | the attempt is counted for the guesser only; a guess of fitting length sends exactly the GUESS_RESULT, the players' status to all and the guesser's progress (done once correct or out of attempts) to the others, followed, when the guess ends the round, by each player's PVP_ROUND_END and, if the barrier goes up, WAITING_FOR_PLAYERS 0/n; a correct guess finishes the player with the round score added to their total and one more round won; the last attempt finishes them with 0; an ended round raises the barrier (ready set emptied) exactly when rounds remain and more than one player is active, and is otherwise complete; an open round leaves the barrier alone; word, round number, start time and hints are kept; a guess longer than the word sends nothing |
| PvpGames.PvpGame.AnswerGuess | server/src/main/kotlin/model/PVPGame.kt:164-185 | GUESS_RESULT with the letter feedback, attempts and seconds, then exactly the players' status to every active player and OPPONENT_UPDATE(attempts, correct or out of attempts) to every active player but the guesser |
| PvpGames.PvpGame.ResolveGuess | server/src/main/kotlin/model/PVPGame.kt:164-199 | as ScoreGuess once the attempt is counted: the exact messages, the finish and score of a correct guess or the last attempt, the round-end and barrier rule, and the fields kept |
| PvpGames.OpponentsHearProgress | server/src/main/kotlin/model/PVPGame.kt:176-185 | every other player gets the guesser's OPPONENT_UPDATE and the players' status; an OPPONENT_UPDATE never goes to the guesser or outside the game |
| PvpGames.PvpGame.AnnounceGuess | server/src/main/kotlin/model/PVPGame.kt:176-185 | the reply to the guesser, the status to all, progress to all but the guesser |
| PvpGames.PvpGame.Settle | server/src/main/kotlin/model/PVPGame.kt:187-198 | the player is finished with that score, the total and rounds won grow only on a win, and the round stays open exactly while someone is unfinished; while it stays open nothing is sent and the barrier is untouched; once it ends, each player's PVP_ROUND_END (and WAITING_FOR_PLAYERS 0/n when the barrier goes up) is sent, and the barrier goes up exactly when rounds remain and more than one player is active; word, round number and abandonment are kept |
| PvpGames.PvpGame.MarkFinished | server/src/main/kotlin/model/PVPGame.kt:187-197 | round score recorded and player finished; total and rounds won grow only on a win; every other field kept |
| PvpGames.PvpGame.CheckRoundEnd | server/src/main/kotlin/model/PVPGame.kt:202-207 | the round ends exactly when every active player is finished, sending each player's PVP_ROUND_END and, when the barrier goes up, WAITING_FOR_PLAYERS 0/n; the barrier goes up exactly when rounds remain and more than one player is active (ready set emptied), otherwise the round is complete; if someone is unfinished nothing changes |
| PvpGames.PvpGame.EndRound | server/src/main/kotlin/model/PVPGame.kt:209-261 | the round closes; each active player gets their result; the barrier goes up exactly when rounds remain and more than one player is active |
| PvpGames.PvpGame.SendRoundEnds | server/src/main/kotlin/model/PVPGame.kt:215-229 | each active player's PVP_ROUND_END, in list order |
| PvpGames.PvpGame.AwaitReady | server/src/main/kotlin/model/PVPGame.kt:235-243 | nobody is ready, the barrier is up, and everyone is told 0 of n |
| PvpGames.PvpGame.CompleteRound | server/src/main/kotlin/model/PVPGame.kt:260 | no barrier, the round is complete |
| PvpGames.PvpGame.FinishUnfinished | server/src/main/kotlin/model/PVPGame.kt:269-274 | every unfinished active player is finished with 0; the others keep their flags and scores |
| PvpGames.PvpGame.HandleTimeout | server/src/main/kotlin/model/PVPGame.kt:263-277 | an open round finishes every unfinished player with 0 and ends, totals unchanged; the barrier then goes up exactly when rounds remain and more than one player is active, otherwise the round is complete; players who had already finished keep their finish flag and round score; attempts, hints, word and round number are kept; a closed round changes nothing |
| PvpGames.PvpGame.HandleRequestHint | server/src/main/kotlin/model/PVPGame.kt:301-316 | ROUND_NOT_ACTIVE or HINT_ALREADY_USED with no change; otherwise the hint is sent and marked used for that player, and every other field is kept |
| PvpGames.PvpGame.PlayerReady | server/src/main/kotlin/model/PVPGame.kt:322-338 | ignored unless the barrier is up; otherwise the player is ready, all are told the count, and the barrier falls, completing the round, exactly when every active player is ready; scores, per-round maps, word and round number are kept |
| PvpGames.PvpGame.ReadyTimeout | server/src/main/kotlin/model/PVPGame.kt:245-251 | the barrier falls and the round is complete; every other field is kept |
| PvpGames.PvpGame.DropPlayer | server/src/main/kotlin/model/PVPGame.kt:345-353 | the player leaves the active list and the ready set and is finished; the barrier falls if everybody left is ready; scores, attempts, hints, word, round number and start time are kept |
| PvpGames.PvpGame.RemovePlayer | server/src/main/kotlin/model/PVPGame.kt:344-375 | as DropPlayer (the barrier falls, completing the round, when everybody left is ready); with at most one player left the round stops, and with exactly one their score is submitted; otherwise an open round ends iff all are finished, and an ended round raises the barrier (ready set emptied) exactly when rounds remain; totals, rounds won, attempts, round scores, hints, word, round number, start time and abandonment are kept |
| PvpGames.PvpGame.CloseAfterDeparture | server/src/main/kotlin/model/PVPGame.kt:361-374 | with at most one player left the round stops (one player: records submitted); otherwise an open round ends iff all are finished, with the barrier rule; nothing else changes |
| PvpGames.PvpGame.StopRound | server/src/main/kotlin/model/PVPGame.kt:363-364 | no round open, round complete, nothing else changes (start time included) |
| PvpGames.PvpGame.Abandon | server/src/main/kotlin/model/PVPGame.kt:378-382 | abandoned, no round open, round complete; scores, rounds won, per-round maps, barrier, word and round number are kept |
| PvpGames.PvpGame.Finish | server/src/main/kotlin/model/PVPGame.kt:76-78 | nothing when abandoned or empty; otherwise the end of game |
| PvpGames.PvpGame.SubmitAndAnnounce | server/src/main/kotlin/model/PVPGame.kt:283-291 | one player's total goes to the PVP records and they get their PVP_GAME_END |
| PvpGames.PvpGame.EndGame | server/src/main/kotlin/model/PVPGame.kt:279-295 | every active player's total is submitted in order, and each gets the rankings and whether they made the table |
| ClientHandlers.SendToAll | server/src/main/kotlin/ClientHandler.kt:184-186 | one delivery per listed player, in order |
| ClientHandlers.AttachAll | server/src/main/kotlin/ClientHandler.kt:250-252 | every listed player points at the game; nothing else changes |
| ClientHandlers.DetachAll | server/src/main/kotlin/ClientHandler.kt:258-262 | every listed player loses its game and room; nothing else changes |
| ClientHandlers.DetachFrom | server/src/main/kotlin/ClientHandler.kt:258-262 | corrected clean-up: only listed players still attached to this game lose it and their room |
| ClientHandlers.ClientHandler.constructor | server/src/main/kotlin/ClientHandler.kt:21-24 | no game, no room, the default name |
| ClientHandlers.ClientHandler.SetPlayerName | server/src/main/kotlin/ClientHandler.kt:52-56 | only the name changes |
| ClientHandlers.ClientHandler.StartGame | server/src/main/kotlin/ClientHandler.kt:113-138 | PVP → USE_ROOMS and no game; PVE → a new game with the requested settings and a 90-second timeout |
| ClientHandlers.ClientHandler.Guess | server/src/main/kotlin/ClientHandler.kt:61-70 | a PVP game takes the guess before a PVE game; with neither nothing is sent |
| ClientHandlers.ClientHandler.RequestHint | server/src/main/kotlin/ClientHandler.kt:96-102 | a PVP game takes the request before a PVE game; with neither nothing is sent |
| ClientHandlers.ClientHandler.ReadyNextRound | server/src/main/kotlin/ClientHandler.kt:93-95 | only the PVP game hears it |
| ClientHandlers.ClientHandler.GetRecords | server/src/main/kotlin/ClientHandler.kt:267-274 | the client gets both records maps |
| ClientHandlers.ClientHandler.ListRooms | server/src/main/kotlin/ClientHandler.kt:189-193 | the client gets the listed rooms |
| ClientHandlers.ClientHandler.CreateRoom | server/src/main/kotlin/ClientHandler.kt:140-159 | in a room → ALREADY_IN_ROOM, no change; otherwise a new WAITING room with the client as host, ROOM_CREATED and ROOM_UPDATE |
| ClientHandlers.ClientHandler.JoinRoom | server/src/main/kotlin/ClientHandler.kt:161-187 | in a room → ALREADY_IN_ROOM; refused → ROOM_NOT_FOUND with no room; otherwise the room code is set, ROOM_JOINED to the client and ROOM_UPDATE to all players |
| ClientHandlers.ClientHandler.EnterRoom | server/src/main/kotlin/ClientHandler.kt:167-187 | from no room: refused → ROOM_NOT_FOUND with no room; otherwise the player is appended, the room code is set, ROOM_JOINED to the client and ROOM_UPDATE to all players |
| ClientHandlers.ClientHandler.LeaveAndUpdate | server/src/main/kotlin/ClientHandler.kt:307-319 | leaving deletes an emptied room, otherwise the remaining players get ROOM_UPDATE |
| ClientHandlers.ClientHandler.LeaveRoom | server/src/main/kotlin/ClientHandler.kt:195-221 | no room → NOT_IN_ROOM and no change; otherwise the client leaves, the others get ROOM_UPDATE then PLAYER_LEFT, and the room code is cleared |
| ClientHandlers.ClientHandler.StartPvpGame | server/src/main/kotlin/ClientHandler.kt:223-265 | NOT_IN_ROOM, ROOM_NOT_FOUND, NOT_HOST, NOT_ENOUGH_PLAYERS in that order with no change; a game starts exactly when none applies: the room goes IN_GAME and every room player points at the new game with all players active |
| ClientHandlers.ClientHandler.Launch | server/src/main/kotlin/ClientHandler.kt:246-252 | the room goes IN_GAME with its players unchanged, a new valid game over them starts with every player active, and exactly the room's players are attached to it |
| ClientHandlers.ClientHandler.PvpGameOver | server/src/main/kotlin/ClientHandler.kt:256-264 | as written: every player of the room loses game and room code, and the room is deleted |
| ClientHandlers.ClientHandler.PvpGameOverAttached | server/src/main/kotlin/ClientHandler.kt:256-264 | corrected: only players still in that game lose game and room code; the room is deleted |
| ClientHandlers.ClientHandler.AbandonGame | server/src/main/kotlin/ClientHandler.kt:276-293 | PVP first: the player leaves the game, which is cleared with the room code; else no game → NO_ACTIVE_GAME; else the PVE game is abandoned and cleared |
| ClientHandlers.ClientHandler.Disconnect | server/src/main/kotlin/ClientHandler.kt:303-333 | the client leaves its room (deleted if emptied) and its PVP game |
| ClientHandlers.GameOverOrphansRoom | server/src/main/kotlin/ClientHandler.kt:256-282 | the as-written clean-up leaves a room whose host can no longer leave it |
| ClientHandlers.GameOverKeepsNewRoom | server/src/main/kotlin/ClientHandler.kt:256-282 | with the corrected clean-up the same player keeps, and can leave, the new room |
| ClientGame.Upper | composeApp/src/commonMain/kotlin/viewmodel/GameViewModel.kt:377 | `uppercase()` of one character gives one or two characters |
| ClientGame.UpperSingle | composeApp/src/commonMain/kotlin/viewmodel/GameViewModel.kt:377 | only ß grows to two characters; ñ becomes Ñ; a..z map to A..Z; capitals stay |
| ClientGame.MergeOneIsMax | composeApp/src/commonMain/kotlin/viewmodel/GameViewModel.kt:278-286 | one merge step keeps the higher of the old and new status under ABSENT < PRESENT < CORRECT and touches no other letter |
| ClientGame.MergeIsMaximum | composeApp/src/commonMain/kotlin/viewmodel/GameViewModel.kt:278-286 | the merge never downgrades a letter, shows every letter of the attempt at least at its status, and shows only colours that were there or that the attempt gave |
| ClientGame.MergeKeepsOthers | composeApp/src/commonMain/kotlin/viewmodel/GameViewModel.kt:278-286 | letters not in the attempt keep their colour |
| ClientGame.MergeColours | composeApp/src/commonMain/kotlin/viewmodel/GameViewModel.kt:278-286 | the colour loop over a guess result computes exactly the merge of its letter results, in order |
| ClientGame.StartedRound | composeApp/src/commonMain/kotlin/viewmodel/GameViewModel.kt:246-268 | a started round is a clean board for the announced round, keeping score, rounds won, name, room and records |
| ClientGame.GameViewModel.constructor | composeApp/src/commonMain/kotlin/viewmodel/GameViewModel.kt:60-71 | the default state, nothing pending, nothing sent |
| ClientGame.GameViewModel.UpdateInput | composeApp/src/commonMain/kotlin/viewmodel/GameViewModel.kt:374-379 | the uppercased letter is appended only while the input is shorter than the word; for single-character letters the input never grows past the word length |
| ClientGame.GameViewModel.DeleteLetter | composeApp/src/commonMain/kotlin/viewmodel/GameViewModel.kt:381-386 | drops the last character; no-op on empty input |
| ClientGame.GameViewModel.SubmitGuess | composeApp/src/commonMain/kotlin/viewmodel/GameViewModel.kt:388-436 | nothing is sent while a send is in flight, for a wrong length, or outside a game; otherwise GUESS with attempt number = rows + 1; a failure result shows an error and an exception shows none, and both allow a new try |
| ClientGame.GameViewModel.HandleGuessResult | composeApp/src/commonMain/kotlin/viewmodel/GameViewModel.kt:271-296 | one more row, the merged keyboard colours, empty input, time left = max(0, 90 − elapsed) |
| ClientGame.GameViewModel.HandleGameStarted | composeApp/src/commonMain/kotlin/viewmodel/GameViewModel.kt:232-269 | a non-PVP round arriving while a result is shown is kept pending and the screen is unchanged; otherwise the round starts |
| ClientGame.GameViewModel.ContinueToNextRound | composeApp/src/commonMain/kotlin/viewmodel/GameViewModel.kt:455-464 | the result is dismissed and a pending round, if any, starts and is dropped |
| ClientGame.NextRoundAfterResult | composeApp/src/commonMain/kotlin/viewmodel/GameViewModel.kt:455-464 | a round stashed during a result is applied exactly once, on continuing |
| ClientGame.GameViewModel.HandleRoundEnd | composeApp/src/commonMain/kotlin/viewmodel/GameViewModel.kt:298-312 | the result is shown with the server's scores; rounds won grows by one exactly on a win |
| ClientGame.GameViewModel.HandlePvpRoundEnd | composeApp/src/commonMain/kotlin/viewmodel/GameViewModel.kt:498-513 | as HandleRoundEnd, plus the rankings and a reset ready state |
| ClientGame.GameViewModel.HandleGameEnd | composeApp/src/commonMain/kotlin/viewmodel/GameViewModel.kt:314-324 | the game is over with the final score and record flag |
| ClientGame.GameViewModel.HandlePvpGameEnd | composeApp/src/commonMain/kotlin/viewmodel/GameViewModel.kt:515-525 | as HandleGameEnd, plus the rankings |
| ClientGame.GameViewModel.HandleError | composeApp/src/commonMain/kotlin/viewmodel/GameViewModel.kt:338-346 | INVALID_WORD opens the invalid-word dialog, any other code is shown as an error; a send is no longer in flight |
| ClientGame.GameViewModel.HandleGameAbandoned | composeApp/src/commonMain/kotlin/viewmodel/GameViewModel.kt:352-362 | in a game: marked abandoned and out of the game; otherwise ignored |
| ClientGame.GameViewModel.HandleHint | composeApp/src/commonMain/kotlin/viewmodel/GameViewModel.kt:221-224 | the hint is shown and marked used |
| ClientGame.GameViewModel.SendReadyForNextRound | composeApp/src/commonMain/kotlin/viewmodel/GameViewModel.kt:438-445 | READY is sent only the first time |
| ClientGame.ReadyTwice | composeApp/src/commonMain/kotlin/viewmodel/GameViewModel.kt:438-445 | asking twice sends at most one READY |
| ClientGame.GameViewModel.AskHint | composeApp/src/commonMain/kotlin/viewmodel/GameViewModel.kt:447-453 | a hint is requested only in a game and only once |
| ClientGame.GameViewModel.BackToMenu | composeApp/src/commonMain/kotlin/viewmodel/GameViewModel.kt:556-582 | abandons the game or leaves the room, asks for records, and resets the screen keeping connection, name and records |
| ServerView.ContainsAt | server/src/main/kotlin/viewmodel/ServerViewModel.kt:75-81 | `contains` holds exactly when the pattern occurs at some index |
| ServerView.FindClientIdLeftmost | server/src/main/kotlin/viewmodel/ServerViewModel.kt:54-73 | the search yields the group of the leftmost match of `\[CLIENT-([a-f0-9]{4})\]`, and nothing when there is none |
| ServerView.ParseLineHighest | server/src/main/kotlin/viewmodel/ServerViewModel.kt:71-85 | the level is the first marker carried in the order SERVER, CLIENT, ERROR, WARN, INFO, DEBUG, else DEFAULT |
| ServerView.ParseLineClientId | server/src/main/kotlin/viewmodel/ServerViewModel.kt:72-84 | the text is kept; the client id is present exactly when the pattern matches, whatever the level, and is four hex characters found in the line |
| ServerView.ServerWins | server/src/main/kotlin/viewmodel/ServerViewModel.kt:75 | a "[SERVER]" line is SERVER whatever else it holds |
| ServerView.ParseAllLines | server/src/main/kotlin/viewmodel/ServerViewModel.kt:111 | one parsed entry per line, in order, with its text |
| ServerView.ServerViewModel.constructor | server/src/main/kotlin/viewmodel/ServerViewModel.kt:44-51 | no logs, STARTING |
| ServerView.ServerViewModel.StartPolling | server/src/main/kotlin/viewmodel/ServerViewModel.kt:88-96 | RUNNING, logs unchanged |
| ServerView.ServerViewModel.StopPolling | server/src/main/kotlin/viewmodel/ServerViewModel.kt:99-102 | STOPPED, logs unchanged |
| ServerView.ServerViewModel.RefreshLogs | server/src/main/kotlin/viewmodel/ServerViewModel.kt:104-113 | an unreadable file or unchanged lines publish nothing; otherwise the logs are the parse of the new lines |
| ServerView.ServerViewModel.ClearLogs | server/src/main/kotlin/viewmodel/ServerViewModel.kt:116-120 | the file, the lines and the logs are emptied; status unchanged |
| FileLogging.TrimEndIdempotent | shared/src/jvmMain/kotlin/logging/FileLogger.kt:79 | trimming twice is trimming once |
| FileLogging.TrimEndLongestPrefix | shared/src/jvmMain/kotlin/logging/FileLogger.kt:79 | `trimEnd` keeps the longest prefix that does not end in whitespace and drops only whitespace |
| FileLogging.AfterWriteBounded | shared/src/jvmMain/kotlin/logging/FileLogger.kt:79-88 | after any write the file holds between 1 and 1000 lines, the new one last |
| FileLogging.AfterWriteRotates | shared/src/jvmMain/kotlin/logging/FileLogger.kt:82-88 | below 1000 lines a write appends; at 1000 or more the file keeps exactly the newest 500, the new line last |
| FileLogging.RecentLinesSurvive | shared/src/jvmMain/kotlin/logging/FileLogger.kt:82-88 | after up to 500 writes the file ends with exactly those lines, in order |
| FileLogging.FileLogger.constructor | shared/src/jvmMain/kotlin/logging/FileLogger.kt:39-42 | the logger holds the file's current lines |
| FileLogging.FileLogger.Write | shared/src/jvmMain/kotlin/logging/FileLogger.kt:66-90 | one "[ts] [LEVEL] [SOURCE] msg" line is written with the rotation rule; never more than 1000 lines |
| FileLogging.FileLogger.Info | shared/src/jvmMain/kotlin/logging/FileLogger.kt:44-46 | writes at level INFO |
| FileLogging.FileLogger.Error | shared/src/jvmMain/kotlin/logging/FileLogger.kt:48-50 | writes at level ERROR |
| FileLogging.FileLogger.Warning | shared/src/jvmMain/kotlin/logging/FileLogger.kt:52-54 | writes at level WARN |
| FileLogging.FileLogger.Debug | shared/src/jvmMain/kotlin/logging/FileLogger.kt:56-58 | writes at level DEBUG |
| FileLogging.FileLogger.Clear | shared/src/jvmMain/kotlin/logging/FileLogger.kt:60-64 | the file is empty |

## Left out

- Sockets, line framing and JSON encoding. A message is a datatype value; sending appends it, with its addressee, to `Network.sent`. The server loop, `GameServer.kt`, `Server.kt` and the `NetworkClient` files are not part of this model.
- Coroutines, locks and concurrency. The model is sequential. The round-timeout coroutine, the 15-second ready timer and the polling loop in `ServerViewModel` are explicit event methods. The `delay` loops that wait for a round to complete are left out.
- The wall clock, `Random.nextInt` and `UUID`s are parameters: `now`, `pick`, room codes and game ids.
- Unicode normalisation (uppercase, NFD, removal of marks) is a `Normalizer` value of uninterpreted function fields. Facts that need it to be idempotent say so in their `requires`.
- ClientGame.Upper: only Latin-1 is modelled (ß → "SS", ÿ → U+0178, µ → U+039C, a..z and à..þ shifted). Any other character is left as it is.
- FileLogging.TrimEnd: only the ASCII whitespace (space, tab, CR, LF) is trimmed, not the rest of Unicode whitespace.
- Files are `FileRead` values (missing / unparseable / parsed). A write is recorded as the new file content (`disk`). Write failures are not modelled.
- ClientHandlers.ClientHandler.Guess: states only the routing (a PVP game before a PVE game; nothing when neither exists). The game's own effect is the contract of `PvpGames.PvpGame.HandleGuess` and `PveGames.PveGame.HandleGuess`, which it calls.
- ClientHandlers.ClientHandler.RequestHint: states only the routing, as for `Guess`.
- ClientHandlers.ClientHandler.ReadyNextRound: states only that a PVE game is untouched and that nothing is sent without a PVP game.
- ClientHandlers.ClientHandler.Disconnect: removing the player from the PVP game runs in line, not in a separate coroutine. Only the room and the game's active list are stated.
- PvpGames.PvpGame.HandleGuess: an accepted guess's messages and scoring are stated on `ScoreGuess`, which it calls. HandleGuess itself states the guards, the attempt count, the untouched other players, and the round-end rule.
- PvpGames.PvpGame.RemovePlayer: says that every message goes to an active player, not the exact PLAYER_LEFT / status sequence.
- PvpGames.PvpGame.HandleTimeout: says that every message goes to an active player, not the exact round-result sequence (that is `EndRound`'s contract).
- Scoring.CompareWords: requires the guess to be no longer than the target. With a longer guess the Kotlin code throws an index exception. The games model that as the attempt being counted and nothing being sent.
- The PVP round loop (`start`) keeps running after `removePlayer` ends the game with one player. The model does not claim that the game terminates beyond what `RemovePlayer` does. In that loop a stale ready barrier, when it falls, completes the round being played, so the next round can start while that one is still open; `BeginRound` and `PlayRound` accept that state and replace the open round.
- FileLogging.FileLogger.Write: each message is taken to hold no line break. A message with line breaks (an exception's text, for instance) adds several lines to the real file, and those count toward rotation; the model counts it as one entry.
- Kotlin `Int` and `Long` are modelled as unbounded integers. Overflow is not modelled, including the `.toInt()` conversion of the elapsed seconds (PVEGame.kt line 136, PVPGame.kt lines 162 and 371), which is taken as exact.
- The last player to finish a PVP round is suspended in the barrier wait, so their READY is read only after the 15-second timeout. This is a consequence of the coroutines and is not modelled.
- Rooms.RoomManager.FindRoomByClient: when several rooms hold the client, which one the hash map's order yields is left unspecified.
- `listAvailableRooms` lists full WAITING rooms too. The code is followed, not the comment that says it lists rooms with space.
- `GameOrchestrator` (both copies) only builds games and files them in a map that is never read. Its fixed PVP configuration (5 letters, 6 attempts, 5 rounds, 90 s) is the constant `ClientHandlers.PvpConfig`.
- In the client view-model: the timer, the connection-state observer and the network sends are not modelled. Also left out:
  - the room handlers (ROOM_CREATED/JOINED/UPDATE/LIST);
  - the RECORDS, PLAYERS_STATUS and WAITING_FOR_PLAYERS handlers;
  - `createRoom`, `joinRoom`, `leaveRoom`, `requestRoomList`, `startPVPGame`, `startGame`, `connect`, `setPlayerName`;
  - `dismissInvalidWordDialog` and `clearError`.
- ClientGame.GameViewModel.SubmitGuess: how the send ends is the parameter `outcome`: a failure result (GameViewModel.kt lines 423-426), or an exception (lines 432-435), which the model takes to be raised before the GUESS goes out.
- The conversion of the records maps' integer keys for the RECORDS message is not modelled.
- The `ServerViewModel` shutdown callback and log-file discovery are not modelled.
- `playerName` is not validated by the server, and the model does not validate it either.
- Old-format and legacy dictionary words are not normalised. The model follows the code.

## Findings

| source | as written | input that shows it | evidently intended | confidence | as-written member | corrected member |
|---|---|---|---|---|---|---|
| server/src/main/kotlin/ClientHandler.kt:256-264 | when a PVP game ends, every player of the room it was started from loses `currentPVPGame` and `currentRoomId`, including one who already abandoned it (lines 276-282) and has since created another room | a host and a second player start a game; the second player abandons it and creates room "second"; the game then ends | only players still in that game are cleared; otherwise room "second" keeps its host as a player, LEAVE_ROOM answers NOT_IN_ROOM, and disconnecting never deletes it, so it stays listed for good | not executed | ClientHandlers.GameOverOrphansRoom (with ClientHandlers.ClientHandler.PvpGameOver) | ClientHandlers.GameOverKeepsNewRoom (with ClientHandlers.ClientHandler.PvpGameOverAttached) |
