# Country-flag duel: match engine model

A Dafny model of the two-player flag quiz server. Players connect and wait in
a single slot until an opponent arrives. Each match then plays rounds with no
time limit: a flag and four country names are shown, the server stamps each
answer with its receipt time, and the earlier correct answer wins the round's
point. After three rounds the first unequal score wins (sudden death follows a
tie), and the match ends early if the questions run out.
A disconnect ends the match for both players.

The project has four modules:

- `Wrappers` (wrappers.dfy): `Option`, standing for `null`.
- `QuizOptions` (quiz_options.dfy): the option generator of server.js:
  - the in-place Fisher–Yates `ShuffleArray`;
  - `SelectUniqueRandom`, which samples without replacement;
  - `GenerateQuizOptions`, which takes distractors from the first confusion
    group that lists the country, tops them up from the whole country list,
    falls back to pure random, and shuffles.
  - Country names are of any type with equality, because the source only
    compares them.
- `MatchEngine` (match_engine.dfy): the match registry and round engine of
  server.js.
  - The `Server` class holds `waitingPlayer`, `activeMatches`, a queue of
    pending delayed round starts, and a log of emitted payloads.
  - There is one method per event: `Connect`, `SubmitAnswer`, `Disconnect`,
    and `FireTimer` for a pending `setTimeout`.
  - The pure decisions are functions: the round point, the winner, and the
    end-or-continue step.
  - The invariant `Valid` has two parts. `Consistent` ties the table and the
    timer queue together: a live match sits on a round that has a question,
    it holds no more points than rounds scored, and every pending timer
    starts exactly the round after the scored one. `SocketsApart` says the
    waiting socket plays in no live match and no socket plays in two.
- `Multiplayer` (multiplayer.dfy): the `start_multiplayer` handler of
  multiplayer_manager.js. It checks that question data is present, pairs
  through the waiting slot, and caps each match at `MAX_ROUNDS` questions.

How the model represents the environment:

- `Math.random` is a nondeterministic choice within the range the source
  draws from. Every contract therefore holds for every random outcome.
- `Date.now()` is a parameter `now`, in integer milliseconds.
- A `setTimeout(…, 3000)` is a `Timer` queued in `Server.timers`. `FireTimer`
  runs the oldest one, because all delays are equal.
- `generateMatchId` is a parameter `matchId`.
- `emit` appends its payload to `events`. A room broadcast is one event.

## Model

| member | source | states |
|---|---|---|
| QuizOptions.ShuffleArray | server.js:35-41 | the array ends as a permutation of what it held |
| QuizOptions.ShuffledCopy | server.js:143 | `shuffleArray([...s])` has the same length and the same multiset of entries as `s` |
| QuizOptions.Without | server.js:63 | the filter keeps every occurrence of a name outside the exclude list and drops every occurrence of a name in it; membership is exactly "in source and not excluded" |
| QuizOptions.WithoutAbsent | server.js:101 | filtering out a name that does not occur gives back exactly the same list |
| QuizOptions.WithoutOneOfDistinct | server.js:101 | filtering one name out of a repeat-free list loses at most one entry |
| QuizOptions.EnoughDistinctNames | server.js:98-123 | a repeat-free country list of at least four names leaves at least three candidates besides the correct country, so the options can be filled to four |
| QuizOptions.SpliceOut | server.js:71 | `splice(k, 1)` takes exactly the entry at `k` out of the pool's multiset and shortens it by one |
| QuizOptions.SelectUniqueRandom | server.js:61-75 | returns exactly `min(count, |pool|)` items, none for a non-positive count; the result is a sub-multiset of the pool (no pool position used twice); every item is in the source and not in the exclude list |
| QuizOptions.FindGroup | server.js:90-96 | returns the first group, in key order, that lists the country, or none exactly when no group lists it |
| QuizOptions.FirstGroupUnique | server.js:91-96 | the first group listing a country is unique |
| QuizOptions.DistinctSub | server.js:71 | a sub-multiset of a repeat-free list is repeat-free |
| QuizOptions.DistinctJoin | server.js:123 | two repeat-free lists with no common name join into a repeat-free list |
| QuizOptions.GroupDistractors | server.js:98-106 | at most 3 similar names; each is not the correct country and is a member of its first group; none without a group; exactly `min(3, |group minus correct|)` names; repeat-free when groups are |
| QuizOptions.AssembleOptions | server.js:108-123 | the correct country comes first and occurs exactly once; 1 to 4 entries, each other one from the group or the country list; exactly 4 group names when the group offers 3; repeat-free when the name lists are |
| QuizOptions.GenerateQuizOptions | server.js:83-133 | the correct country occurs exactly once; at most 4 options, and exactly 4 whenever the list holds 3 other names; every other option comes from the country list or the country's first group, and all four come from that group when it offers 3; no duplicates when the name lists have none |
| MatchEngine.Names | server.js:85 | one country name per question, in order |
| MatchEngine.IsCorrect | server.js:223-224 | a missing answer is never correct; a held one is correct exactly when its text equals the correct country |
| MatchEngine.CorrectAnswer | server.js:213-214 | the correct answer is the country of the current round's question, one of the match's country names |
| MatchEngine.RoundPoint | server.js:222-243 | a player scores exactly when correct and the other is not correct strictly earlier or at the same time: a tie of correct answers awards nothing, a lone correct answer scores, no correct answer gives no point |
| MatchEngine.RoundPointSymmetric | server.js:226-243 | swapping the two players swaps the point |
| MatchEngine.Scored | server.js:220-243 | only the scores change, neither decreases, their total rises by at most one, and a score rises exactly when `RoundPoint` names that player |
| MatchEngine.ElapsedTime | server.js:246-247 | a missing answer reports no time (the source's `Infinity`); otherwise answer time minus the round's start time |
| MatchEngine.RoundResultsOf | server.js:246-258 | the round_results payload reports the round's correct answer and the new scores: neither went down, their total rose by at most one, and a score rose exactly for the `RoundPoint` seat; `winnerId` is exactly that player, and none when nobody scored; a time is missing exactly when that player's answer is, and otherwise is the answer's receipt time minus the round's start time |
| MatchEngine.MatchWinner | server.js:295-300 | no winner exactly on equal scores; otherwise the higher scorer |
| MatchEngine.AfterScoring | server.js:264-283 | the match ends exactly when round 3 or later has unequal scores, or the next round has no question; otherwise the next round is the current one plus one and within the question list |
| MatchEngine.EndWithQuestionsLeftHasWinner | server.js:264-278 | a match that ends while questions remain was in round 3 or later and has a winner |
| MatchEngine.SeatOf | server.js:348 | the socket answers for player 1 exactly when it is `p1Id` |
| MatchEngine.TriggersScoringAsWritten | server.js:381-384 | as written, scoring runs whenever both answers are held |
| MatchEngine.TriggersScoring | server.js:381-384 | the intended rule: scoring runs only when this submission was recorded, and then exactly when the rule as written would run it |
| MatchEngine.DuplicateAnswerRescoresAsWritten | server.js:338-384 | a repeated, unrecorded submission after a scored round re-scores it: player 1 gets 2 points from round 1 |
| MatchEngine.NoTimerWhileAnswerMissing | server.js:281-283 | a live match with a missing answer has no pending round start |
| MatchEngine.ConsistentAfterRemoval | server.js:313 | deleting a match keeps the invariant |
| MatchEngine.ConsistentAfterCreate | server.js:141-163 | a new match, 0 to 0 in round 1 with no answers, keeps the invariant |
| MatchEngine.ConsistentAfterRecord | server.js:357-363 | recording a seat's first answer keeps the invariant and leaves a point to spare for the round |
| MatchEngine.ConsistentAfterScheduling | server.js:264-283 | scoring a round and scheduling the next keeps the invariant |
| MatchEngine.ConsistentAfterFire | server.js:169-178 | a firing timer on a live match starts a round that has a question |
| MatchEngine.Server.Announces | server.js:192-200 | a new_round payload holds the round's country once among at most four options, four whenever the table has three other names, and no option twice when the country list and every group repeat no name |
| MatchEngine.Server.FourOptionsWhenNamesDistinct | server.js:192-200 | with at least four distinct country names in the table, every announced round shows exactly four options |
| MatchEngine.Server.constructor | server.js:16-21 | the server starts with no waiting player, no match, no timers and no events |
| MatchEngine.Server.StartGameRound | server.js:169-203 | a live match gets the round number, cleared answers and the start time, and its question is announced with options holding the country once; an unknown id changes nothing |
| MatchEngine.Server.EndGame | server.js:291-314 | removes exactly that match and announces `MatchWinner`; an unknown id changes nothing |
| MatchEngine.Server.CalculateScores | server.js:208-286 | nothing changes unless both answers are in or it is the final check; otherwise `Scored` is stored, the round results are announced, and the match ends or gets the next round scheduled as `AfterScoring` decides |
| MatchEngine.Server.CreateNewMatch | server.js:141-164 | a 0-to-0 match over a permutation of the questions, announced to both players, with round 1 started |
| MatchEngine.Server.Connect | server.js:322-335 | a socket other than the waiting one is paired with it and the slot is cleared: the new match is 0 to 0 in round 1, over a permutation of the questions, with no answers and the round started now; both players get match_found (the waiting one as player 1) and round 1 is announced. Otherwise the socket takes the slot and is told to wait |
| MatchEngine.Server.RecordAnswer | server.js:342-379 | the answer, stamped with the receipt time, is stored exactly when the player's seat of the round is empty, and then both players are told the elapsed time; otherwise nothing changes |
| MatchEngine.Server.SubmitAnswer | server.js:338-385 | unknown ids are ignored; only a player's first answer of a round is recorded and announced to both; scoring follows only when this answer completed the pair; then the round results are announced and, as `AfterScoring` decides, either the scored match is stored and its next round scheduled, or the match is removed and game_over announced with `MatchWinner`; the invariant is kept |
| MatchEngine.Server.Disconnect | server.js:388-410 | the waiting player only clears the slot; otherwise exactly the one match holding the socket is deleted and the opponent told, or nothing changes when no match holds it; afterwards no live match holds the socket |
| MatchEngine.SocketsApartAfterUpdate | server.js:357-363 | replacing a match by one with the same players keeps the waiting socket out of every match and each socket in at most one |
| MatchEngine.SocketsApartAfterRemoval | server.js:405 | deleting a match keeps the sockets apart |
| MatchEngine.Server.FireTimer | server.js:281-283 | the oldest pending start runs: for a live match it is the round after the scored one, which has a question; for a deleted match, nothing happens |
| Multiplayer.SelectMatchQuestions | multiplayer_manager.js:51 | `min(10, |flagData|)` questions drawn from the table, none used twice |
| Multiplayer.Manager.constructor | multiplayer_manager.js:4-12 | no waiting player, no match, empty question data |
| Multiplayer.Manager.Attach | multiplayer_manager.js:27 | the question data is replaced by the attached one |
| Multiplayer.Manager.StartMultiplayer | multiplayer_manager.js:32-74 | missing or empty data: a server error and nothing else changes; a waiting player with another socket id: a match over at most 10 table questions is added under the new id, the slot is cleared and round 1 put off; otherwise the caller takes the slot, replacing any occupant, and is told it is searching |

## Left out

- Transport: Express, `server.listen`, Socket.IO rooms (`join`/`leave`) and the console logging are not modelled. An `emit` is only an appended payload. The texts of the disconnect message and the payload field names are dropped.
- Times are integer milliseconds. The `/ 1000` conversion to seconds in server.js:246-247 and server.js:349 is floating point and is not modelled. `Infinity` is `None`.
- The flagData table and groups.js are parameters: the questions are any non-empty sequence and the groups any sequence in key order. Group members need not be in the country list.
- JavaScript object key order is not modelled. The groups are a sequence whose order stands for key order. `Disconnect` scans the matches in any order, but at most one of them holds the socket.
- MatchEngine.Server.Connect: requires the connecting socket to play in no live match. Socket.IO gives every connection a fresh id, and the connection handler (server.js:318-335) runs once per connection.
- MatchEngine.Server.Connect: requires the drawn `matchId` to name no live match and no pending timer. generateMatchId can collide, and a collision would overwrite a live match.
- MatchEngine.Server.constructor: requires a non-empty question table. With an empty one the source would throw on the first match.
- MatchEngine.Server.CalculateScores: the source throws a TypeError when the current round has no question. The model returns `NoQuestion` and changes nothing. From a state satisfying `Valid()` this case cannot arise.
- MatchEngine.Server.SubmitAnswer: a socket that is not `p1Id`, even one outside the match, answers for player 2, as in the source.
- MatchEngine.Server.SubmitAnswer: `activeMatches` is a plain object (server.js:21), so an id such as `"constructor"` or `"toString"` finds an inherited value at server.js:339, and the handler then throws at server.js:360. The model's table is a map, so such an id is unknown and the submission is ignored.
- QuizOptions.GenerateQuizOptions: the ensures does not say that the result is a permutation of the assembled list. It states what that permutation implies: the count of the correct country, the length, and where each name comes from.
- Match records are values replaced in the map, not shared objects. Nothing in the core aliases them.
- multiplayer_manager.js: the rest of the match record, the rooms, and the utilities the handler is given (`generateQuizOptions`, `startMultiplayerRound`, `endMatch`, `startNextMultiplayerRound`) are outside this handler. `utils.shuffleArray` is taken to be the shuffle of server.js. The `submit_multiplayer_answer` handler has no logic. The unused `CONFUSION_GROUPS_MAP`, `ROUND_TIME_LIMIT_MS` and `player1Socket` are not modelled.
- A mercy rule, a round time limit and per-player feedback are not modelled: the code has none of them.

## Findings

| source | as written | input that shows it | evidently intended | confidence | as-written member | corrected member |
|---|---|---|---|---|---|---|
| server.js:381-384 | `calculateScores` runs whenever both answers of the round are held, even when this submission was not recorded | player A answers the correct "France" at 100 ms and B answers "Peru" at 200 ms. Round 1 is scored 1–0 and round 2 is scheduled. A sends again during the 3 s pause, the answer is not recorded, and A ends with 2 points from one round | score a round once, when the submission completing the pair is recorded | not executed | MatchEngine.DuplicateAnswerRescoresAsWritten | MatchEngine.Server.SubmitAnswer |
