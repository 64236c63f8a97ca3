# Kinogame core, modelled in Dafny

Kinogame is a movie quiz web application. This project models three parts
of it and proves properties of the models:

- the multiplayer WebSocket registry of `server/routes.ts`: the maps
  `roomConnections` (room → user → socket) and `userRooms` (user → room),
  the message handlers, the socket `close` handler and `broadcastToRoom`;
- the decision logic of the REST handlers in `server/routes.ts`: the
  `limit` default read with JavaScript's `parseInt(..) || n`, the
  check-answer short-circuit, buy-item, buy-coins and the payment webhook;
- the store of `server/storage.ts`, with each table held as a sequence of
  rows. The writers are the methods of the `Store` class. Each writer is
  specified by a function from the old tables to the new ones;
- the single-player game screen of `client/src/pages/game.tsx`, modelled as
  a state machine. Its state holds the component's fields, the check-answer
  requests in flight and the 2-second follow-ups queued after each result.
  The `Game` class performs the same steps field by field.

Files:

- `wrappers.dfy`: `Option`.
- `query.dfy`: WHERE, ORDER BY and LIMIT over a sequence of rows.
- `storage.dfy`: the store.
- `registry.dfy`: the WebSocket registry.
- `rest.dfy`: the REST decisions.
- `game.dfy`: the game screen.

Some behaviours of the code are stated as lemmas rather than hidden:

- The registry keeps only one direction of agreement between its two maps.
  Every `userRooms` entry is backed by a `roomConnections` entry
  (`ReverseBacked`). Joining a second room leaves a stale entry in the first
  room, and closing the socket later misses that entry
  (`RejoinBreaksAgreement`, `CloseMissesStaleEntry`).
- `leaveRoom` decrements `currentPlayers` even when it deletes no row
  (`LeaveWithoutRowDrifts`).
- A negative `limit` passes the `|| 50` default and reaches the query
  (`NegativeLimitFails`).
- The webhook keeps no record of the payments it has handled, so a repeated
  notification credits the user again (`WebhookReplayCreditsTwice`).
- The game's 2-second follow-up runs `nextQuestion`/`endGame` with the values
  its callback saw before that callback's own updates. So the session update
  sent at the end leaves out the last answer's points
  (`EndRecordsValuesSeenBefore`).
- The game grants an extra life even when the store refused the item
  (`ExtraLifeWithoutStock`).

## Model

| member | source | states |
|---|---|---|
| Query.Filter | server/storage.ts:250 | WHERE: the result holds exactly the rows that satisfy the condition, each as often as in the table, and is no longer than the table |
| Query.SortBy | server/storage.ts:251 | ORDER BY: the result is a permutation of its input, in non-decreasing key order |
| Query.Take | server/storage.ts:178 | LIMIT n: the first n rows, or all of them when there are fewer |
| Storage.FindUser | server/storage.ts:59-62 | `getUser`: None exactly when no row has the id; otherwise a row of the table with that id |
| Storage.UpdateUser | server/storage.ts:79-95 | UPDATE users ... WHERE id: the row with the id becomes its update, every other user is found as before, and the table keeps its length |
| Storage.CoinsUpdated | server/storage.ts:79-84 | `updateUserCoins` sets the user's coins to the given value; other users and other tables are unchanged |
| Storage.StatsUpdated | server/storage.ts:86-95 | `updateUserStats` adds the score to `totalScore` and 1 to `gamesPlayed` (a NULL column stays NULL); coins, other users and other tables are unchanged |
| Storage.AdjustPlayers | server/storage.ts:223-226 | `currentPlayers + d` on every row with the id; every other room is unchanged |
| Storage.RemovePair | server/storage.ts:232-237 | the DELETE leaves no row for the (room, user) pair, and is the identity when there was none |
| Storage.RemovePairMultiset | server/storage.ts:232-237 | the DELETE removes exactly the rows of the pair and keeps every other row |
| Storage.RemovePairRoomCount | server/storage.ts:232-237 | the DELETE lowers a room's row count by the pair's rows in that room |
| Storage.CountsAppend | server/storage.ts:217-220 | an appended row adds one to its room's count and to its pair's count |
| Storage.JoinedRoom | server/storage.ts:216-229 | the writes of `joinRoom` once the insert is accepted: exactly one row appended with no duplicate or capacity check, the pair's count grows by one, and only that room's `currentPlayers` grows by 1 |
| Storage.JoinRoomChecked | server/storage.ts:216-229 | `joinRoom` against the foreign keys of `room_participants` (shared/schema.ts:109-110): fails with nothing written exactly when the room or the user does not exist; otherwise the writes of `JoinedRoom`; the foreign keys stay satisfied |
| Storage.AdjustKeepsRooms | server/storage.ts:223-226 | the player-count update neither adds nor removes a room id |
| Storage.LeaveKeepsReferences | server/storage.ts:231-244 | `leaveRoom` keeps the foreign keys satisfied |
| Storage.LeftRoom | server/storage.ts:231-244 | `leaveRoom` deletes every row of the pair, keeps all other rows, and lowers that room's `currentPlayers` by 1 |
| Storage.JoinLeaveRoundTrip | server/storage.ts:216-244 | join then leave, for a user with no row in the room, restores the tables exactly |
| Storage.RemoveAppendedPair | server/storage.ts:216-237 | deleting the pair right after appending its only row gives back the old rows |
| Storage.LeaveWithoutRowDrifts | server/storage.ts:231-244 | a leave with no row to delete still lowers `currentPlayers` by 1 |
| Storage.GetRoomParticipants | server/storage.ts:246-252 | exactly the room's rows, each as often as in the table, ascending by `joinedAt` |
| Storage.GetRoomsIncludingPrivate | server/storage.ts:192-205 | `getRooms(true)`: exactly the active, not started rooms, newest first |
| Storage.GetUserGameSessions | server/storage.ts:151-157 | exactly the user's sessions, newest first |
| Storage.Ranking | server/storage.ts:176-177 | the users with `totalScore > 0`, each as often as in the table, by non-increasing score |
| Storage.Numbered | server/storage.ts:173 | ROW_NUMBER: line i has rank i + 1 |
| Storage.GetLeaderboard | server/storage.ts:160-181 | None exactly for a negative limit. Otherwise: exactly min(`limit`, number of scoring users) lines; line i is the i-th user of the ranking with rank i + 1, so no user is listed twice unless the table holds it twice; scores non-increasing; a left-out user scores no more than any listed one; a short board lists every scoring user |
| Storage.InRanking | server/storage.ts:176 | a user is ranked exactly when in the table with a positive score |
| Storage.BoardIsRankedPrefix | server/storage.ts:173-178 | the board is the first min(limit, ranking length) users of the ranking, numbered from 1 |
| Storage.BoardSorted | server/storage.ts:177 | board scores are non-increasing and ranks increasing |
| Storage.ListedAreOnBoard | server/storage.ts:176 | every listed user is in the table with a positive score |
| Storage.LeftOutScoresNoMore | server/storage.ts:177-178 | a scoring user left off the board scores no more than anyone on it |
| Storage.LeftOutBelowLine | server/storage.ts:177-178 | one scoring user left off the board scores no more than the user on any one line |
| Storage.ShortBoardListsAll | server/storage.ts:178 | a board shorter than the limit lists every scoring user |
| Storage.AdjustQuantity | server/storage.ts:288-297 | `quantity + d` on the (user, item) row only; keys unchanged |
| Storage.QuantityOfAppend | server/storage.ts:263-265 | an inserted row is found only when no earlier row has its key |
| Storage.QuantityOfFound | server/storage.ts:276-283 | the SELECT of `useInventoryItem` (`QuantityOf`) finds nothing exactly when no row has the key, and a quantity it returns belongs to a row with that user and item |
| Storage.AddedToInventory | server/storage.ts:262-273 | the upsert once accepted: the item's quantity becomes old (or 0) + q, other items unchanged, one row per key kept |
| Storage.AddToInventoryChecked | server/storage.ts:262-273 | `addToInventory` against the foreign key of `user_inventory` (shared/schema.ts:119): fails with nothing written exactly when the user does not exist; otherwise the writes of `AddedToInventory`; the foreign keys stay satisfied |
| Storage.UsedInventory | server/storage.ts:275-300 | true exactly when a row holds at least q. Then the quantity drops by exactly q and stays ≥ 0. Otherwise nothing changes. Other items are never touched |
| Storage.UseKeepsReferences | server/storage.ts:275-300 | using items keeps the foreign keys satisfied |
| Storage.UserUpdatesKeepReferences | server/storage.ts:79-95 | updating coins or statistics keeps the foreign keys satisfied |
| Storage.AddThenUse | server/storage.ts:262-300 | using what was just added succeeds and restores the quantity |
| Storage.UseAvailable | server/storage.ts:284-299 | with `held ≥ q` the use succeeds and leaves `held − q` |
| Storage.Store.JoinRoom | server/storage.ts:216-229 | with the foreign keys as an invariant: None and no write when the room or the user is missing; otherwise the tables become `JoinedRoom` of the old ones and the new row is returned |
| Storage.Store.LeaveRoom | server/storage.ts:231-244 | the tables become `LeftRoom` of the old ones |
| Storage.Store.AddToInventory | server/storage.ts:262-273 | false and no write when the user is missing; otherwise the tables become `AddedToInventory` of the old ones; one row per key and the foreign keys are kept |
| Storage.Store.UseInventoryItem | server/storage.ts:275-300 | answer and tables are `UsedInventory` of the old tables |
| Storage.Store.UpdateUserStats | server/storage.ts:86-95 | the tables become `StatsUpdated` of the old ones |
| Storage.Store.UpdateUserCoins | server/storage.ts:79-84 | the tables become `CoinsUpdated` of the old ones |
| Registry.Joined | server/routes.ts:478-482 | `join_room`: the user's entry in the room's map (created if missing) is the socket; the reverse entry names the room; other entries and other rooms' maps are unchanged; `ReverseBacked` is kept |
| Registry.Left | server/routes.ts:494-495 | `leave_room`: the user leaves that room's map; the reverse entry is deleted whatever room it named; an emptied map stays; `ReverseBacked` is kept |
| Registry.HeldBy | server/routes.ts:547-551 | the users the close handler finds holding the socket all have a reverse entry |
| Registry.HeldExactly | server/routes.ts:547-551 | under `ReverseBacked`, a user with a reverse entry is held exactly when its entry in the room it names is on the closing socket |
| Registry.Strip | server/routes.ts:547-551 | the removals of the close handler: the reverse map loses exactly the gone users, and no room map is created or dropped |
| Registry.StripRemovesExactly | server/routes.ts:547-551 | a room's entry is removed exactly when its user is gone and its reverse entry names that room; kept entries keep their socket; nothing is added |
| Registry.Closed | server/routes.ts:547-551 | `close`: exactly the users whose reverse room maps them to this socket lose both entries; every other entry stays; `ReverseBacked` is kept; no entry found through the reverse map still holds the socket |
| Registry.CloseIdempotent | server/routes.ts:545-563 | closing the same socket twice is the same as closing it once |
| Registry.RejoinReplacesSocket | server/routes.ts:478-482 | a second join to the same room replaces the socket and adds no second entry |
| Registry.JoinLeaveRoundTrip | server/routes.ts:476-495 | join then leave of a user in no room restores both maps |
| Registry.RejoinBreaksAgreement | server/routes.ts:476-482 | after joining r1 then r2, the user is in both rooms' maps: `ReverseBacked` holds, two-way agreement does not |
| Registry.CloseMissesStaleEntry | server/routes.ts:545-551 | after that double join, close removes the r2 entry but leaves r1's entry on the closed socket |
| Registry.ConnectionRegistry.constructor | server/routes.ts:464-465 | both maps start empty and `ReverseBacked` holds |
| Registry.ConnectionRegistry.BroadcastToRoom | server/routes.ts:566-576 | the same message exactly once per entry of the room's map whose socket is open; nothing for a room without a map; no change |
| Registry.ConnectionRegistry.Send | server/routes.ts:566-576 | the deliveries are a broadcast of the message to the room, all to open sockets |
| Registry.ConnectionRegistry.JoinRoom | server/routes.ts:476-490 | maps become `Joined` of the old ones, then `user_joined` is broadcast on the new maps, so the joiner gets its own message when its socket is open |
| Registry.ConnectionRegistry.LeaveRoom | server/routes.ts:492-502 | maps become `Left` of the old ones, then `user_left` is broadcast without the leaver |
| Registry.ConnectionRegistry.GameStart | server/routes.ts:504-511 | `game_started` with the fetched questions is broadcast; maps unchanged |
| Registry.ConnectionRegistry.SubmitAnswer | server/routes.ts:513-530 | `answer_result` goes first and only to the submitting socket; the broadcast `player_answered` carries user and question, never the verdict |
| Registry.ConnectionRegistry.NextQuestion | server/routes.ts:532-538 | the payload is broadcast unchanged to the room |
| Registry.ConnectionRegistry.Close | server/routes.ts:545-563 | maps become `Closed` of the old ones; one `user_left` broadcast per removed user, to the room it was in, on the maps after all removals |
| Registry.ConnectionRegistry.RemoveHeld | server/routes.ts:547-551 | the walk over `userRooms` removes every user held by the socket, each once, going on past the first match |
| Registry.ConnectionRegistry.AnnounceLeft | server/routes.ts:553-559 | one `user_left` broadcast per leaver, in order, to the room it left |
| Registry.ConnectionRegistry.Handle | server/routes.ts:470-543 | the `switch` on the message type: each type runs its handler; an unknown type sends nothing and changes nothing |
| Rest.TrimStart | server/routes.ts:189 | the white space `parseInt` skips: a suffix of the input, everything dropped is white space, and what is left does not start with it |
| Rest.DigitPrefix | server/routes.ts:189 | the longest run of digits of the radix at the start |
| Rest.ParseInt | server/routes.ts:189 | no number from blank input; a negative result only after a leading `-` |
| Rest.ParseNumber | server/routes.ts:189 | no number from empty input; a negative result only with a `-` sign |
| Rest.ParseUnsigned | server/routes.ts:189 | no number from empty input |
| Rest.ValueOfNumeral | server/routes.ts:189 | a decimal numeral's digits denote its number |
| Rest.ParseIntOfNumeral | server/routes.ts:189 | `parseInt` reads back every integer's numeral, negative ones included |
| Rest.NumeralStart | server/routes.ts:189 | a numeral starts with a sign or a digit, never white space |
| Rest.DigitsNumber | server/routes.ts:189 | the digits of n read back as n |
| Rest.SignedNumber | server/routes.ts:189 | a minus sign and the digits of n read back as −n |
| Rest.Negated | server/routes.ts:189 | a leading `-` negates what follows, NaN staying NaN |
| Rest.UnsignedNumeral | server/routes.ts:189 | without a sign, a numeral reads back as its number |
| Rest.ParseIntSkipsSpace | server/routes.ts:189 | leading white space does not change what `parseInt` reads |
| Rest.LimitOrDefault | server/routes.ts:189 | `parseInt(limit) \|\| dflt` (also the default of 10 at lines 77 and 88): a missing or unreadable parameter, or 0, gives the default; any other number, negative included, is used |
| Rest.LimitOfNumeral | server/routes.ts:189 | a numeral parameter gives its number, except that 0 gives the default |
| Rest.LeaderboardRoute | server/routes.ts:187-196 | no parameter gives at most 50 lines; the query fails exactly for a negative limit |
| Rest.NegativeLimitFails | server/routes.ts:187-196 | a negative numeral reaches the query, which fails |
| Rest.CheckAnswer | server/routes.ts:99-114 | a missing or empty answer is incorrect without asking the store; otherwise the store's verdict |
| Rest.Balance | server/routes.ts:431 | `user.coins \|\| 0`: a NULL balance reads as 0, any other as itself |
| Rest.BuyItem | server/routes.ts:425-443 | refused with nothing written exactly when the user is missing or its balance (NULL as 0) is below the cost. Otherwise the buyer's row is the old row with coins = balance − cost ≥ 0 and nothing else of it changed, the item's quantity grows by `quantity`, and nothing else changes |
| Rest.BuyItemKeepsUniqueItems | server/routes.ts:425-443 | a purchase keeps one inventory row per (user, item) |
| Rest.BuyCoins | server/routes.ts:398-423 | turned away exactly when the payment provider is configured; 404 exactly for a missing user; otherwise the user's row is the old row with coins = balance + `coins`, no payment is taken, and nothing else changes |
| Rest.PaymentOf | server/routes.ts:369 | `req.body.object \|\| req.body`: the wrapped payment when there is one, else the body itself |
| Rest.ZeroNumeral | server/routes.ts:373 | the `'0'` default for a missing amount reads as 0 |
| Rest.CoinsOf | server/routes.ts:373 | `parseInt(metadata.coins \|\| '0')`: a missing or empty amount reads as 0 (see `ZeroNumeral`), any other is what `parseInt` reads |
| Rest.CoinsOfNumeral | server/routes.ts:373 | an amount written as a numeral reads as its number |
| Rest.Credit | server/routes.ts:377-379 | the user's row is the old row with its balance (NULL as 0) grown by the amount and nothing else of it changed; other users and tables unchanged |
| Rest.Settle | server/routes.ts:369-391 | coins are credited exactly when `Pays` holds: the status is `succeeded`, a user id is present, the amount is positive and the user exists (server/routes.ts:371-378); then only the user's coins change; otherwise nothing is written |
| Rest.Webhook | server/routes.ts:365-396 | always answers 200; writes nothing unless `Credits` holds (the payment pays its parsed coins), and then credits those coins |
| Rest.WebhookReplayCreditsTwice | server/routes.ts:365-396 | the same notification delivered twice still credits the second time, and credits twice |
| Rest.CreditTwice | server/routes.ts:377-379 | crediting the same amount twice adds twice the amount |
| GamePage.MaxTime | client/src/pages/game.tsx:38 | a 30-second clock exactly in "timed" mode |
| GamePage.MaxLives | client/src/pages/game.tsx:39 | 5 lives in "infinite" mode, 1 in every other |
| GamePage.QuestionsPerGame | client/src/pages/game.tsx:40 | 50 questions in "infinite" mode, 10 in every other |
| GamePage.Points | client/src/pages/game.tsx:164 | always ≥ 100; 100 outside "timed" mode; in "timed" mode 10 per second left when that exceeds 100, else 100 (no clock or 0 included) |
| GamePage.Verdict | client/src/pages/game.tsx:151 | no answer or an empty one is wrong without the server; otherwise the server's verdict |
| GamePage.Begin | client/src/pages/game.tsx:100-115 | after loading: the mode's clock and lives, nothing scored, nothing pending |
| GamePage.Chosen | client/src/pages/game.tsx:142-146 | `handleAnswerSelect`: nothing changes while a result shows or after the end; otherwise only the selection changes and, when there is a current question, one check-answer request for that answer is added |
| GamePage.Ticked | client/src/pages/game.tsx:118-139 | no change without a clock, while a result shows or after the end; above 1 second only the clock drops by one; at ≤ 1 the clock stops at 0 and an empty answer is submitted only if `handleTimeUp` has been rebuilt since loading and there is a current question; nothing else changes |
| GamePage.Answered | client/src/pages/game.tsx:159-170 | a reply to no request changes nothing; otherwise the request is gone and the result shows; a correct answer adds exactly `Points` and one correct answer and keeps the lives; a wrong one keeps score and correct answers and costs a life only in "infinite" mode; one follow-up with the values seen before is queued; nothing else changes |
| GamePage.Ended | client/src/pages/game.tsx:203-220 | `endGame`: the game is over; with a session exactly one update is sent, with `questionsAnswered` = index seen + 1 and the seen score, correct answers and lives; nothing else changes |
| GamePage.Next | client/src/pages/game.tsx:191-200 | `nextQuestion`: after the last question it is `Ended`; otherwise index + 1, no selection, no result, a full 30-second clock in "timed" mode, nothing else changed |
| GamePage.Resumed | client/src/pages/game.tsx:172-178 | no follow-up, no change; otherwise the oldest follow-up is dropped and the game ends when `Finishes` holds (last question reached, or a wrong answer in "infinite" mode seen with at most one life), else `Next` runs with the values seen |
| GamePage.ItemUsed | client/src/pages/game.tsx:223-253 | nothing without a signed-in user or a resolved request; then "extra_life" adds exactly one life, "extra_time" adds 30 seconds only in "timed" mode, and any other item ("50_50" included) changes nothing |
| GamePage.BeginInv | client/src/pages/game.tsx:100-115 | the invariant holds after loading |
| GamePage.StepKeepsInv | client/src/pages/game.tsx:118-253 | every callback keeps the invariant: score ≥ 100 per correct answer (also in follow-ups and recorded updates); a clock only in "timed" mode and never below 0; no life lost outside "infinite" mode |
| GamePage.AnsweredKeepsInv | client/src/pages/game.tsx:159-170 | a result keeps the invariant |
| GamePage.ResumedKeepsInv | client/src/pages/game.tsx:172-178 | a follow-up keeps the invariant and records only values that satisfy it |
| GamePage.RunKeepsInv | client/src/pages/game.tsx:118-253 | every sequence of callbacks keeps the invariant |
| GamePage.StepNeverUndoes | client/src/pages/game.tsx:142-253 | no callback lowers score or correct answers, reopens a finished game or withdraws a sent update |
| GamePage.RunNeverUndoes | client/src/pages/game.tsx:142-253 | the same over any sequence of callbacks |
| GamePage.EndsExactlyWhen | client/src/pages/game.tsx:172-200 | a running game ends exactly on a follow-up after the last question, or after a wrong answer in "infinite" mode seen with at most one life; so in other modes a wrong answer never ends it early |
| GamePage.TimeUpIsWrong | client/src/pages/game.tsx:135-151 | a time-up reply scores nothing, and costs a life in "infinite" mode |
| GamePage.FirstTimeUpIsLost | client/src/pages/game.tsx:118-188 | before any result has shown, time-up stops the clock at 0 but submits nothing, and an answer chosen afterwards still scores 100 points |
| GamePage.EndRecordsValuesSeenBefore | client/src/pages/game.tsx:159-219 | one correct answer with the full clock shows 300 points, yet the session update records score 0 and 0 correct answers |
| GamePage.ExtraLifeWithoutStock | client/src/pages/game.tsx:233-237 | with no such item in the inventory, the store refuses the use, and the screen still adds a life |
| GamePage.Game.constructor | client/src/pages/game.tsx:100-115 | the fields start as `Begin` says, satisfying the invariant |
| GamePage.Game.Select | client/src/pages/game.tsx:142-146 | the fields become `Chosen` of the old ones |
| GamePage.Game.Tick | client/src/pages/game.tsx:118-139 | the fields become `Ticked` of the old ones |
| GamePage.Game.Reply | client/src/pages/game.tsx:159-178 | the fields become `Answered` of the old ones |
| GamePage.Game.Resume | client/src/pages/game.tsx:172-178 | the fields become `Resumed` of the old ones |
| GamePage.Game.NextQuestion | client/src/pages/game.tsx:191-200 | the fields become `Next` of the old ones |
| GamePage.Game.EndGame | client/src/pages/game.tsx:203-220 | the fields become `Ended` of the old ones |
| GamePage.Game.UseItem | client/src/pages/game.tsx:223-253 | the fields become `ItemUsed` of the old ones |
| GamePage.Game.Handle | client/src/pages/game.tsx:118-253 | each event runs its callback, and the invariant is kept |

## Left out

- Transport: WebSocket framing, JSON parsing and `readyState`. A socket is an identity, and being OPEN is membership in a set supplied by the caller. Malformed JSON, which the `catch` at server/routes.ts:540-542 swallows, is not modelled.
- Concurrency: each handler is one atomic step. The awaits between a registry change and its broadcast, and the `.then` in `close`, do not interleave with other handlers. `Close` broadcasts after all its removals.
- JavaScript `Map` iteration order is not modelled. `BroadcastToRoom` returns the recipients it visited and proves each open entry is visited exactly once.
- `storage.getQuestionsForGame`, `storage.checkAnswer` and `storage.updateRoomPlayerCount` are not defined in server/storage.ts and are not part of this model. Their results are supplied as functions (`Registry.Collaborators`, the `server` verdict of `GamePage.Reply`).
- `getQuestionsByCategory` and `getRandomQuestions` order rows by `RANDOM()`. They are left out, as are the routes that return questions (only their `limit` default is modelled).
- `getRooms(false)` calls `.where` a second time. Whether that replaces or combines the first filter depends on the query library, so only `getRooms(true)` is modelled.
- Storage: the join route (server/routes.ts:237-251) answers 500 when `joinRoom` throws; the model gives `None` from `JoinRoomChecked` and `Store.JoinRoom` and leaves the HTTP reply out. `updateRoomPlayerCount` is not part of this model. The foreign key of `game_sessions` (shared/schema.ts:76) is not modelled, since no modelled writer inserts sessions.
- `addToInventory` names `(userId, itemType)` as its conflict target, but shared/schema.ts declares no unique constraint on that pair. The model gives the intended upsert and keeps one row per key as an invariant of `Store`.
- Storage.Ranking: rows with equal `totalScore` come out in a fixed order, whereas the database may return ties in any order. ROW_NUMBER (server/storage.ts:173) and the outer ORDER BY (line 177) may even break a tie differently, so a real row's rank can differ from its position; `GetLeaderboard` numbers every line by its position.
- The other CRUD operations, authentication, YooKassa payment creation, HTTP status plumbing, the seed and migration scripts, and the UI pages and components.
- Storage: NULL in `currentPlayers` and in `quantity` is not modelled; these columns are held as integers, whereas `coins`, `totalScore` and `gamesPlayed` are nullable.
- Columns the modelled logic does not read (names, e-mails, timestamps other than `joinedAt` and `createdAt`) are dropped. Database integer widths are not modelled; integers are unbounded.
- Rest.ParseInt: JavaScript numbers are doubles, so very long numerals lose precision; the model reads them exactly. Non-string JSON values (a numeric `coins` in the metadata, a non-string `answer`, an undefined `cost`) are not modelled.
- Rest.ParseInt: its own contract states only the blank and negative cases; the numeral round trip is `ParseIntOfNumeral`.
- Rest.ParseNumber: its own contract states only the empty and negative cases; what it reads is stated by `DigitsNumber`, `SignedNumber` and `Negated`.
- Rest.ParseUnsigned: its own contract states only the empty case; what it reads is stated by `UnsignedNumeral`.
- Rest.Webhook: the payment is taken from `object` when that field is present; a present but falsy `object` is not distinguished from an absent one.
- GamePage: React's closures are modelled only for the 2-second follow-up. That follow-up keeps the values its callback saw, and `lives > 1` reads the value before the decrement. `handleTimeUp` is memoised on `showResult` alone; the model keeps whether it has been rebuilt since loading (`timeUpBound`). The first one was built before the questions loaded, so the first question's time-up submits nothing: the clock stays at 0 and the player can still answer for 100 points (`FirstTimeUpIsLost`). A rebuilt one reads the question index current at its rebuild, which is the current one, since every index change comes with a `showResult` change.
- GamePage: creating the game session is assumed to succeed in every mode but "guest". The session's id, the cache invalidations, toasts, the accuracy percentage (floating point) and `restartGame` (a page reload) are left out.
- GamePage.Game.UseItem: `resolved` is false when the use-item request fails; the effect does not depend on the server's `success` flag.
