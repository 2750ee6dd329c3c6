# Bingo backend: a verified model of the game logic

This project models the game core of the `bingo-backend` service in Dafny
and proves properties of it. The core covers:

- **Win evaluation.** A player claims bingo, and the server checks the claim
  against the player's card and marked numbers.
- **Card generation.** 100 cards are generated, each with five distinct,
  sorted numbers per B/I/N/G/O column.
- **The game engine.** Per game: a 60-second countdown, the start (which
  debits each player's stake), a number drawn every two seconds, marking
  numbers, and settling the first valid claim. A process-wide registry
  holds one engine per game.
- **Small bot-side services:**
  - transaction-id validation and phone-number normalisation
  - per-chat pending transfers and name changes
  - balance credit, debit and transfer
  - referral-code generation with a bounded number of retries
  - parsing of the comma-separated support-username setting

The system's surroundings are made explicit:

- The Mongo `User`, `Game` and `Card` collections are the fields of one
  `Database` object (`Models.Database`).
- Socket.IO broadcasts are appended to an `EventLog`.
- Each `setInterval` handle is an `Option<TimerId>` slot. The engine keeps
  the set of intervals it has set and not cleared.
- A timer callback firing is a call of `CountdownTick` or `DrawNumber`.
- `Math.random` is a nondeterministic choice.
- `crypto.randomBytes` and the referral-code lookup are function parameters.

| module | source file |
|---|---|
| `WinDetector` | src/game/winDetector.ts |
| `CardGenerator` | src/game/cardGenerator.ts |
| `Models` | the stored documents (src/models/User.model.ts and the game and card documents) |
| `GameEngine` | src/game/gameEngine.ts |
| `JsString` | JavaScript `String.prototype.trim` and `split` |
| `Validators` | src/bot/utils/validators.ts |
| `SupportHandler` | src/bot/handlers/supportHandler.ts |
| `Referral` | src/utils/referral.ts |
| `UserService` | src/bot/services/userService.ts |
| `TransferService` | src/bot/services/transferService.ts |
| `ChangeNameService` | src/bot/services/changeNameService.ts |

## Model

| member | source | states |
|---|---|---|
| WinDetector.FirstFullLine | src/game/winDetector.ts:31-55 | the index returned by a row or column scan is a fully marked line, and no earlier line is full; no index means no line is full |
| WinDetector.CheckWin | src/game/winDetector.ts:14-81 | `corners` means B[0], B[4], O[0], O[4] are marked; a horizontal line i (i < 5) means B[i]..O[i] are marked; a vertical line i (i < 5) means column i is marked; diagonal 0 and 1 mean their five cells are marked |
| WinDetector.CheckWinIsFirstFullPattern | src/game/winDetector.ts:24-80 | the answer is the first full pattern in the order corners, rows 0-4, columns B-O, diagonal 0, diagonal 1; no win exactly when none of the 13 patterns is full |
| WinDetector.CornersTakePriority | src/game/winDetector.ts:24-28 | with all four corners marked the answer is `corners`, whatever else is marked |
| WinDetector.MoreMarksKeepWin | src/game/winDetector.ts:25-71 | marking more numbers keeps a win a win, and the reported pattern can only move earlier in priority |
| WinDetector.ColumnForNumber | src/game/winDetector.ts:86-93 | 1-15 map to B, 16-30 to I, 31-45 to N, 46-60 to G, 61-75 to O; anything outside 1..75 is an error (the engine's copy at src/game/gameEngine.ts:271-278 is identical) |
| Models.FindCard | src/game/cardGenerator.ts:62-65 | `Card.findOne({cardId})`: none exactly when no stored card has the id, otherwise the numbers of a stored card with that id |
| Models.IncBalance | src/game/gameEngine.ts:100-102 | a `$inc` of the balance: the same users, only that user's balance moved by the amount, an unknown id changes nothing |
| CardGenerator.SortAscending | src/game/cardGenerator.ts:23 | the ascending sort: sorted, same length, same multiset of values |
| CardGenerator.SortDistinct | src/game/cardGenerator.ts:23 | sorting distinct values gives a strictly ascending sequence |
| CardGenerator.GetRandomNumbers | src/game/cardGenerator.ts:14-24 | given count <= max-min+1: exactly `count` values, strictly ascending (so distinct and sorted), all in [min, max] |
| CardGenerator.GenerateCardNumbers | src/game/cardGenerator.ts:7-33 | every column holds five strictly ascending numbers from its own range (B 1-15 ... O 61-75); generation cannot fail |
| CardGenerator.CardColumnsMatchLetters | src/game/cardGenerator.ts:26-32 | every number of a generated card lies in the column whose letter the draw announces for it |
| CardGenerator.InitializeCards | src/game/cardGenerator.ts:38-57 | with 100 or more stored cards nothing changes; otherwise 100 well-formed cards with ids 1..100, in order, are appended after the stored ones |
| GameEngine.FindPlayer | src/game/gameEngine.ts:160-162 | `players.find`: the first seat with that user and card, or none when no seat matches |
| GameEngine.FindPlayerAfterUpdate | src/game/gameEngine.ts:236-238 | rewriting a seat's marks does not change which seat `find` picks |
| GameEngine.MarkOn | src/game/gameEngine.ts:226-251 | a refused mark leaves the game as it was; an accepted one puts the number among the matched seat's marks; status, stake, draws, prize, winner and the number of seats never change |
| GameEngine.MarkChangesOneSeat | src/game/gameEngine.ts:226-251 | marking adds exactly the marked number to exactly the matched seat; status, draws, prize, winner and every other seat are untouched |
| GameEngine.MarkIsIdempotent | src/game/gameEngine.ts:236-249 | a second identical mark is refused and leaves the game as the first one left it |
| GameEngine.MarkKeepsMarksDistinct | src/game/gameEngine.ts:236-237 | marked numbers never contain a duplicate |
| GameEngine.MarkKeepsSingleWinner | src/game/gameEngine.ts:226-251 | marking keeps the at-most-one-winner invariant |
| GameEngine.DrawKeepsWellFormed | src/game/gameEngine.ts:127-132 | appending an undrawn number from 1..75 keeps the drawn numbers distinct and in 1..75 |
| GameEngine.DrawsBounded | src/game/gameEngine.ts:127-130 | at most 75 numbers are ever drawn, and a draw is possible exactly when fewer than 75 are |
| GameEngine.DebitAll | src/game/gameEngine.ts:99-103 | the debit loop on balances: the same users are known afterwards, and a user holding no seat keeps the record unchanged |
| GameEngine.DebitAllTakesStakePerSeat | src/game/gameEngine.ts:99-103 | after the debit loop each known user has lost `gameType` once per seat held; unknown users are skipped; nothing but balances changes |
| GameEngine.StartedGame | src/game/gameEngine.ts:85-96 | only the status changes: cancelled exactly when there are no players, playing exactly when there are some |
| GameEngine.StartKeepsSingleWinner | src/game/gameEngine.ts:85-96 | starting a waiting game with no winner leaves it with no seat marked `hasWon` |
| GameEngine.RestartReopensFinishedGame | src/game/gameEngine.ts:81-96 | `startGame` does not check the status: run on a finished two-seat game it makes the game playing again with the old `hasWon` still set, and a second accepted claim then leaves two seats marked `hasWon` |
| GameEngine.StartGameOutcome | src/game/gameEngine.ts:85-103 | with no players the game is cancelled and nobody is debited; otherwise it is playing and every player has paid the stake per seat |
| GameEngine.EvaluateClaim | src/game/gameEngine.ts:155-181 | "not active" exactly when the game is missing or not playing; "player not found" exactly when it is playing and no seat has that user and card; "card not found" exactly when the seat exists and no stored card has the id; otherwise the claim is won exactly when `checkWin` on the card and that seat's marks finds a pattern (and then names the first such seat and that result), and invalid exactly when it finds none |
| GameEngine.ReplyFor | src/game/gameEngine.ts:157-220 | the reply to a claim: `hasWon` and a pattern name exactly for an accepted claim, the name being the one `checkWin` found |
| GameEngine.RepliesTellOutcomesApart | src/game/gameEngine.ts:157-220 | two outcomes with the same reply are of the same kind, and two wins name the same pattern |
| GameEngine.ClaimIsBackedByCard | src/game/gameEngine.ts:155-181 | an accepted claim was made on a playing game, and its pattern is what `checkWin` finds on the stored card with the claimant's own marks |
| GameEngine.WinSettlesGame | src/game/gameEngine.ts:156-190 | after a win the game is finished with the claimant as winner, and the next claim, by anyone, is "Game is not active" |
| GameEngine.AfterWin | src/game/gameEngine.ts:183-190 | the settled game: finished, the winner is the seat's user, that seat has `hasWon`, every other seat, the draws, the stake and the prize are untouched, and `find` still picks the same seats |
| GameEngine.WinKeepsSingleWinner | src/game/gameEngine.ts:183-190 | a finished game has exactly one seat marked `hasWon`, belonging to the recorded winner; a game that is not finished has none |
| GameEngine.CountdownCountsDown | src/game/gameEngine.ts:41-56 | from a counter of 60 the ticks broadcast exactly 60 values, 60 down to 1 |
| GameEngine.GameEngine.constructor | src/game/gameEngine.ts:20-29 | a new engine: countdown 60, not counting down, no interval handles |
| GameEngine.GameEngine.StartCountdown | src/game/gameEngine.ts:34-57 | nothing unless the game is waiting; then the countdown is 60, counting down, and a new countdown interval is set (an older handle is overwritten, not cleared) |
| GameEngine.GameEngine.CountdownTick | src/game/gameEngine.ts:41-56 | at a positive counter: one broadcast of the current value, the counter lowered by 1, broadcasts made plus still owed unchanged; otherwise the countdown interval is cleared, counting stops, and the game is started as `startGame` does |
| GameEngine.GameEngine.StopCountdown | src/game/gameEngine.ts:62-76 | the countdown handle is cleared and gone, not counting down, the counter is 60; `countdown-stopped` is broadcast only when the game has no players |
| GameEngine.GameEngine.StartGame | src/game/gameEngine.ts:81-114 | missing game: nothing; no players: cancelled and `game-cancelled`; otherwise playing, each seat debited the stake, `game-started`, and a draw interval set; the status is not checked first |
| GameEngine.GameEngine.DebitSeats | src/game/gameEngine.ts:98-103 | the debit loop: the users become `DebitAll` of the seats, one `$inc` of minus the stake per seat in seat order; games and cards untouched |
| GameEngine.GameEngine.DrawNumber | src/game/gameEngine.ts:119-145 | a game that is not playing draws nothing and both timers are cleared; otherwise exactly one number from 1..75 not yet drawn is appended and broadcast with its column |
| GameEngine.GameEngine.CheckPlayerWin | src/game/gameEngine.ts:150-221 | replies "Game is not active", "Player not found in game", "Card not found" or "Invalid bingo" and changes nothing; a win stops the timers, leaves the countdown counter and flag as they were, finishes the game with the claimant as winner and `hasWon`, credits exactly the prize pool and broadcasts `game-won` |
| GameEngine.GameEngine.MarkNumber | src/game/gameEngine.ts:226-252 | true exactly when the game and seat exist and the number is not yet marked; then it is appended once and broadcast; otherwise nothing changes; the status and drawn numbers are not consulted |
| GameEngine.GameEngine.StopGame | src/game/gameEngine.ts:257-266 | both handles cleared and their intervals stopped; a second call changes nothing |
| GameEngine.Registry.GetGameEngine | src/game/gameEngine.ts:284-289 | a registered id returns the same engine and changes nothing; an unknown id gets a fresh engine, registered; the registry stays valid and so does every engine in it, the returned one included |
| GameEngine.Registry.RemoveGameEngine | src/game/gameEngine.ts:291-297 | the engine is stopped as `stopGame` says (both handles cleared, their intervals stopped, countdown counter, flag and handle counter unchanged), stays valid, and is unregistered; an unknown id changes nothing |
| JsString.Trim | src/bot/utils/validators.ts:3 | the trimmed string neither starts nor ends with whitespace |
| JsString.TrimSplitsInput | src/bot/utils/validators.ts:3 | the input is whitespace, then the trimmed string, then whitespace |
| JsString.TrimIgnoresSurroundingWhitespace | src/bot/utils/validators.ts:3 | whitespace added around a string does not change its trim |
| JsString.Split | src/bot/handlers/supportHandler.ts:20-21 | one piece more than there are commas, no piece holds a comma, every character comes from the input |
| JsString.JoinSplit | src/bot/handlers/supportHandler.ts:20-21 | joining the pieces with commas gives back the input |
| Validators.ValidateTransactionId | src/bot/utils/validators.ts:1-4 | an id is accepted exactly when it is whitespace, then 6-20 ASCII letters or digits, then whitespace |
| Validators.TransactionIdIgnoresCase | src/bot/utils/validators.ts:3 | two ids that agree up to letter case get the same verdict |
| Validators.TransactionIdIgnoresSurroundingWhitespace | src/bot/utils/validators.ts:3 | whitespace around an id never changes the verdict |
| Validators.NormalizePhoneNumber | src/bot/utils/validators.ts:19-21 | the result starts with '+'; a number already starting with '+' is unchanged, any other gets exactly one '+' in front |
| Validators.NormalizeIdempotent | src/bot/utils/validators.ts:19-21 | normalising twice is normalising once |
| SupportHandler.TrimAll | src/bot/handlers/supportHandler.ts:22 | one entry per piece, each the piece's `trim` |
| SupportHandler.KeepNonEmpty | src/bot/handlers/supportHandler.ts:23 | the kept entries are all non-empty, are the input's non-empty entries each as often as it occurs (same multiset once the empty string is removed), and keep their order |
| SupportHandler.KeptEntries | src/bot/handlers/supportHandler.ts:23 | every kept entry comes from the input, every non-empty entry is kept, and an input of empty strings keeps nothing |
| SupportHandler.ParseSupportUsernames | src/bot/handlers/supportHandler.ts:20-23 | every username is non-empty, holds no comma, has no leading or trailing whitespace; there are at most commas + 1 of them |
| SupportHandler.ReplyFor | src/bot/handlers/supportHandler.ts:12-32 | "not configured" exactly when the setting is unset or empty; "no support channels" exactly when it is set but parses to nothing; otherwise the parsed usernames |
| SupportHandler.CommasAndWhitespaceOnly | src/bot/handlers/supportHandler.ts:20-28 | a setting of only commas and whitespace parses to nothing and gets "no support channels" |
| Referral.Hex | src/utils/referral.ts:15 | hex encoding: two lowercase hex digits per byte |
| Referral.HexRoundTrip | src/utils/referral.ts:15 | decoding the hex string gives back the bytes |
| Referral.Candidate | src/utils/referral.ts:15 | every candidate code is 8 lowercase hex characters |
| Referral.FirstFree | src/utils/referral.ts:14-24 | the first attempt whose code the lookup reports free (a failed lookup counts as free), or none when all are taken |
| Referral.TryCodes | src/utils/referral.ts:9-27 | the retry loop: `exists` stays true exactly when all ten codes are taken; the number of lookups is the first free attempt plus one, or ten; the code it ends with is the first free one |
| Referral.GenerateReferralCode | src/utils/referral.ts:8-34 | as written: at most 10 lookups, stopping at the first free code; success exactly when that code came at attempt 1..9, and then it is that code; otherwise the "Failed to generate" error |
| Referral.GenerateReferralCodeChecked | src/utils/referral.ts:8-34 | corrected: success exactly when one of the 10 codes is free, with the first free one returned |
| Referral.TenthFreeCodeIsRejected | src/utils/referral.ts:29-31 | with only the tenth code free, the first free attempt is the tenth |
| UserService.Credit | src/bot/services/userService.ts:43-51 | "User not found" exactly for an unknown id; otherwise only that balance moves, by `amount` of any sign |
| UserService.Debit | src/bot/services/userService.ts:53-64 | "User not found" for an unknown id, "Insufficient balance" when the balance is below `amount`; otherwise only that balance drops by `amount` and stays non-negative |
| UserService.DebitThenCreditRestores | src/bot/services/userService.ts:43-64 | crediting back a successful debit restores every record |
| UserService.CreditThenDebitRestores | src/bot/services/userService.ts:43-64 | a debit of what was just credited to a non-negative balance succeeds and restores every record |
| UserService.UpdateUserBalance | src/bot/services/userService.ts:43-51 | the stored users change as `Credit` says and the updated record is returned; on error nothing changes |
| UserService.DeductUserBalance | src/bot/services/userService.ts:53-64 | the stored users change as `Debit` says and the updated record is returned; on error nothing changes |
| UserService.CreateUser | src/bot/services/userService.ts:18-41 | uses the generator as written: fails with the generator's error and stores nothing exactly when no code is free or the first free one is the tenth; otherwise the stored record has the normalised phone (leading '+'), balance 5 and demo games 3 when omitted (an explicit value is kept), and the first referral code reported free |
| TransferService.Transfer | src/bot/services/transferService.ts:23-46 | "User not found" if either party is missing, "Insufficient balance" if the sender has less than `amount`; on success for two users: sender loses `amount` and stays non-negative, receiver gains it, the total is conserved, nobody else changes; for a self-transfer the balance ends `amount` higher |
| TransferService.TransferIsDebitThenCredit | src/bot/services/transferService.ts:35-40 | between two different users a transfer is a debit of the sender followed by a credit of the receiver |
| TransferService.TransferService.GetPendingTransfer | src/bot/services/transferService.ts:15-17 | the chat's entry when there is one, nothing otherwise |
| TransferService.TransferService.SetPendingTransfer | src/bot/services/transferService.ts:11-13 | afterwards the chat's entry is the given transfer; every other chat's entry is unchanged |
| TransferService.TransferService.ClearPendingTransfer | src/bot/services/transferService.ts:19-21 | afterwards the chat has no entry; every other chat's entry is unchanged |
| TransferService.TransferService.ExecuteTransfer | src/bot/services/transferService.ts:23-46 | the stored users change as `Transfer` says and the two saved records are returned; on error nothing changes |
| ChangeNameService.ChangeNameService.GetPendingNameChange | src/bot/services/changeNameService.ts:12-14 | the chat's entry when there is one, nothing otherwise |
| ChangeNameService.ChangeNameService.SetPendingNameChange | src/bot/services/changeNameService.ts:8-10 | afterwards the chat's entry is exactly the given record (replaced, not merged); other chats unchanged |
| ChangeNameService.ChangeNameService.ClearPendingNameChange | src/bot/services/changeNameService.ts:16-18 | afterwards the chat has no entry; other chats unchanged; clearing a chat without an entry changes nothing |

## Left out

- Concurrency: the async callbacks of the timers, the HTTP handlers and the bot interleave at every `await` in the source. Here each operation is one atomic step, and a timer callback runs only when its method is called.
- Real timers and clocks: `setInterval` and `clearInterval` are modelled by handle slots and a set of live intervals. `startTime` and `endTime` are not modelled.
- Socket.IO: `getIO()` throwing before the server is attached is not modelled. Every broadcast is an `Event` appended to the log. The winner's display name in `game-won` (a second user lookup) is not part of the event.
- GameEngine.GameEngine.DrawNumber: the rejection loop `do … while (drawnNumbers.includes(n))` is modelled by its outcome, any undrawn number in 1..75. The method requires that such a number exists (`CanDraw`). With 75 numbers drawn, the source loops forever, and this model does not describe that behaviour.
- GameEngine.GameEngine.CountdownTick: the tick that starts the game clears the countdown interval but, as in the source, leaves its handle in the `countdownInterval` slot.
- GameEngine.WinSettlesGame: covers the claim that follows a win. `startGame` does not check the status, and an orphaned countdown interval (its handle overwritten by a second `startCountdown`) can run it again; that re-opens a finished game, debits every seat again and lets a second claim win, so the one-winner invariant does not survive a restart (`RestartReopensFinishedGame`).
- GameEngine.GameEngine.StartGame: the engine holds at most one draw interval at a time only if callers do not start a game twice; a second `startGame` overwrites `intervalId` without clearing it, as in the source.
- Storage failures: a failing Mongo `save`, `findById` or `insertMany`, and the unique-index violations declared in src/models/User.model.ts, are not modelled. The id of a new user document is a parameter the store picks fresh.
- Models: the `Game` and `Card` schemas are not part of this model. Game statuses are the four the engine reads and writes (waiting, playing, finished, cancelled). Stored cards are assumed to hold five numbers per column, as generated cards do (`Database.Valid`).
- Number representation: JavaScript numbers are doubles, but balances, stakes, prizes, amounts and card ids are unbounded integers here. Fractional amounts and rounding are not modelled.
- Card listing: `getAllCards` (src/game/cardGenerator.ts:70-73) is a sorted query with no logic of its own and is not modelled.
- Validators: `validateAmount` (src/bot/utils/validators.ts:6-17) depends on `parseFloat` prefix parsing and floating point, and is not modelled. `normalizePhoneNumber` of `undefined` (the `?.` path, which gives `"+undefined"`) is outside the string-typed model.
- Validators.TransactionIdIgnoresCase: case is folded for ASCII letters only, the letters the pattern admits. JavaScript's full Unicode case folding under the `i` flag could only matter for characters the pattern rejects either way.
- Referral: `crypto.randomBytes` is the `random` parameter, and attempt k uses `random(k)`. `apiClient.getUserByReferralCode` is the `lookup` parameter, and any failed call counts as `LookupError`.
- UserService: `findUserByTelegramId`, `findUserByPhone` and `findUserByReferralCode` are plain store queries and are not modelled.
- UserService.CreateUser: inherits the generator's off-by-one (see Findings); a user whose only free code is the tenth is not created.
- Telegram handlers, message texts, keyboards, the HTTP API client, the wallet service, the Express routes and the websocket stubs are not part of this model.

## Findings

| source | as written | input that shows it | evidently intended | confidence | as-written member | corrected member |
|---|---|---|---|---|---|---|
| src/utils/referral.ts:29 | after the loop, `attempts >= maxAttempts` is treated as failure. A free code found at the tenth attempt also leaves `attempts == 10`, so that code is thrown away. | Random bytes `00 00 00 k` at attempt k. The directory holds every code except `00000009`. The tenth code is free, yet the call throws "Failed to generate unique referral code after multiple attempts". | fail only when all ten codes are taken, i.e. test `exists` instead of the attempt count | not executed | Referral.GenerateReferralCode, Referral.TenthFreeCodeIsRejected | Referral.GenerateReferralCodeChecked |
