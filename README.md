# Code-Duel server core, modelled in Dafny

Code-Duel runs one-on-one duels between bot strategies written by players in JavaScript.
Two bots start on a 10×10 grid at (1,5) and (8,5), each with 100 health and facing right.
Every tick, each player in insertion order whose code is non-empty and whose bot is alive gets a turn:
- the game builds a context from the player's own bot and the first other player's bot;
- the strategy runs in a sandbox;
- its answer is validated and falls back to "do nothing" when it is invalid or the run threw;
- the action is carried out at once: a one-cell move inside the grid, or a 10-point attack on the adjacent cell.

After the turns, a tick either declares the sole survivor the winner or advances the tick counter.
Around the duel sit:
- a first-come-first-served matchmaking queue that pairs the two oldest waiting players;
- a registry mapping game ids to games and socket ids to game ids;
- the disconnect path, which finishes a game and declares the other player the winner.

The model follows the TypeScript classes:
- `Bots` (Bot.ts): a `class Bot` whose `Move` and `TakeDamage` update fields in place. Each is proved equal to a pure function on `BotState` values (`Moved`, `Damaged`).
- `CodeExecution` (CodeExecutor.ts): JavaScript values as a datatype, `isValidAction`, and the fallback logic of `execute`. The sandbox's run is an input (`RunOutcome`).
- `GameRules` (the logic of Game.ts, as functions on values):
  - one turn (`Turn`) and the turn loop (`Turns`);
  - the context and the attack, with the JavaScript `find` modelled as `FirstOther`;
  - the winner check and the whole tick (`TickStep`).

  The strategy runner is a parameter: `Sandbox` maps (player position, code, context) to a run outcome.
- `Games` (Game.ts): `class Game` holds a `GameState` whose player records point to the `Bot` objects. Its methods are proved to act on the heap exactly as the `GameRules` functions say. The `players` Map becomes a sequence in insertion order, and `set` on an existing key keeps that key's position (`MapSet`).
- `GameRegistry` (GameManager.ts): `class GameManager` with its two maps.
- `MatchQueue` (Matchmaking.ts): `class Matchmaking` with its queue.
- `DuelScenarios`: consequences over a whole duel, and one client run that chains the classes together.

Edge cases of JavaScript that the code relies on are modelled explicitly:
- Truthiness of `''`: `tick` never declares an empty socket id winner through `checkWinner`, and an empty game id is never looked up. `handlePlayerDisconnect` tests the remaining player record rather than its id, so it can declare an empty id winner.
- `typeof null === 'object'`, and a function is not an `'object'`.
- `includes` matches a string primitive only.
- A missing opponent makes `buildGameContext` throw a `TypeError` out of `tick`. The model's tick outcome for this is `Crashed`.

### Behaviour of the code that is easy to get wrong

- **Sandbox.** The code builds one `VM` per game, and both players' strategies run in it on every tick; nothing isolates one call from the next. The model treats one run as an opaque input, so it neither relies on isolation nor models leakage between runs.
- **Turn order.** Actions are not resolved against a start-of-tick snapshot: each action is applied before the next player's context is built (`SecondContextSeesFirstMove`, `KilledBotDoesNotAct`).
- **Walking into the opponent.** A bot that starts on (1,5) and walks right for 7 ticks reaches (8,5), the other bot's own cell, rather than stopping next to it, because moves ignore other bots. An attack to the right on tick 8 then aims at (9,5) and misses (`WalkReachesOpponentCell`, `AttackFromSharedCellMisses`). An attack on a full-health bot on the adjacent cell takes it from 100 to 90 (`AttackOnFullHealthOpponent`).
- **No draws.** A tick cannot end with every bot dead: the acting bot is alive, and its own action never harms it (`TurnsKeepSomeoneAlive`, `TwoPlayerTickHasNoDraw`).
- **Disconnect before start.** A disconnect during the 3-second delay before `start` finishes the game with the other player as winner. The delayed `start` then sets the status back to running, and the winner stays recorded (`DisconnectDuringStartDelay`).
- **One player matched twice.** When the same socket id is in both slots, the Map holds one player, on the second start cell (`InitialRoster`). That game's first tick throws in `buildGameContext` when the player has submitted code; otherwise it names that player winner at once, unless the id is empty (`SinglePlayerTick`).

## Model

| member | source | states |
|---|---|---|
| Bots.Step | code-duel-server/src/Bot.ts:20-27 | the neighbouring cell in a direction always lies at grid distance exactly 1 |
| Bots.StepDirections | code-duel-server/src/Bot.ts:22-27 | up and down change only y, left and right only x, each by one; up and left decrease |
| Bots.Moved | code-duel-server/src/Bot.ts:19-37 | a move reports success only for an in-grid target, and then faces the direction; it travels distance 1 on success and 0 otherwise; a failed move changes nothing; health is never touched |
| Bots.MoveInBounds | code-duel-server/src/Bot.ts:30-36 | an in-grid target: the bot moves there, faces the direction, and `move` returns true |
| Bots.MoveOutOfBounds | code-duel-server/src/Bot.ts:30-32 | an off-grid target: false, and the bot is unchanged |
| Bots.MoveKeepsWellFormed | code-duel-server/src/Bot.ts:19-37 | a bot on the grid with valid health stays so after any move |
| Bots.BotsMayShareCell | code-duel-server/src/Bot.ts:29-33 | the bounds check is the only check: two bots can step into the same cell |
| Bots.Damaged | code-duel-server/src/Bot.ts:39-41 | health drops by the amount and is floored at 0; position, facing and maximum are unchanged |
| Bots.DeadStaysDead | code-duel-server/src/Bot.ts:39-45 | a bot at 0 health stays at 0 and is not alive after further damage |
| Bots.DamageKeepsWellFormed | code-duel-server/src/Bot.ts:39-41 | damage keeps health within 0..max and never raises it |
| Bots.Bot.constructor | code-duel-server/src/Bot.ts:11-17 | a new bot stands on the start cell with 100/100 health, facing right |
| Bots.Bot.Move | code-duel-server/src/Bot.ts:19-37 | the in-place update and the returned flag are exactly those of `Moved` |
| Bots.Bot.TakeDamage | code-duel-server/src/Bot.ts:39-41 | the in-place update is exactly `Damaged` |
| Bots.Bot.IsAlive | code-duel-server/src/Bot.ts:43-45 | a bot is alive exactly when its health is positive |
| CodeExecution.IsValidAction | code-duel-server/src/CodeExecutor.ts:34-44 | a valid action is always a plain object; the full shape is stated by `ValidActionShape` |
| CodeExecution.ValidActionShape | code-duel-server/src/CodeExecutor.ts:34-44 | `isValidAction` holds iff the value is a plain object (not null, not a function) whose `action` is one of move/attack/none and whose `direction` is one of up/down/left/right, all as strings |
| CodeExecution.DecodeEncode | code-duel-server/src/CodeExecutor.ts:34-44 | every action's object literal is valid and reads back as the same action |
| CodeExecution.EncodeDecode | code-duel-server/src/CodeExecutor.ts:34-44 | a valid value agrees with the literal of its action on both fields the game reads |
| CodeExecution.Execute | code-duel-server/src/CodeExecutor.ts:14-32 | the result is always valid; a valid returned value passes through as it is; any other value or a thrown error gives the fallback |
| CodeExecution.ExecutedAction | code-duel-server/src/CodeExecutor.ts:23-31 | the action performed is the strategy's own when it returned a valid value, and none/up otherwise |
| GameRules.FirstOther | code-duel-server/src/Game.ts:124-125 | the `find` of the first player whose key differs: absent iff all keys are equal; otherwise the least such position |
| GameRules.IndexOf | code-duel-server/src/Game.ts:164 | Map `get`: the first position holding the key; absent iff the key is not there |
| GameRules.ContextFor | code-duel-server/src/Game.ts:84-104 | the context holds the player's own position, health and facing, and the grid size; it is absent (the code throws) iff no other key exists |
| GameRules.ContextOpponent | code-duel-server/src/Game.ts:86-98 | a context's opponent is the position and health of the first player, in Map order, whose key differs |
| GameRules.TwoPlayerContexts | code-duel-server/src/Game.ts:84-98 | with two distinct keys both contexts exist, and each shows the other player's bot |
| GameRules.AttackTarget | code-duel-server/src/Game.ts:114-129 | the only candidate is the first player in Map order whose key differs; it is the target exactly when its bot stands on the adjacent cell in the given direction |
| GameRules.Attacked | code-duel-server/src/Game.ts:114-133 | the number of players is kept and the attacker's own record is unchanged |
| GameRules.AttackedEffect | code-duel-server/src/Game.ts:114-133 | keys and codes are kept; the attacker and every non-target are unchanged; the target takes exactly 10 damage |
| GameRules.AttackOnFullHealthOpponent | code-duel-server/src/Game.ts:124-130 | with two players, an attack on the cell where the opponent stands takes its full-health bot from 100 to 90 health and changes nothing else |
| GameRules.ApplyAction | code-duel-server/src/Game.ts:106-112 | the number of players is kept |
| GameRules.ApplyActionEffect | code-duel-server/src/Game.ts:106-112 | a move changes only the mover's bot; an attack is exactly `performAttack` (so its target takes the 10 damage) and changes neither the attacker nor anyone but the target; "none" changes nothing |
| GameRules.Turn | code-duel-server/src/Game.ts:66-71 | a turn keeps the number of players, and a turn that throws changes nothing |
| GameRules.TurnKeepsRoster | code-duel-server/src/Game.ts:66-71 | a turn keeps every key and every code in place |
| GameRules.StrategyActs | code-duel-server/src/Game.ts:67-70 | a player with code, a living bot and an opponent, whose strategy answers the context built for it with a valid value, performs the action that value names |
| GameRules.ConstantStrategyActs | code-duel-server/src/Game.ts:67-70 | a player with code, a living bot and an opponent, whose strategy always answers a valid action, performs exactly that action |
| GameRules.Turns | code-duel-server/src/Game.ts:66-72 | the loop keeps the number of players |
| GameRules.TurnsKeepRoster | code-duel-server/src/Game.ts:66-72 | the loop keeps keys and codes in order |
| GameRules.TurnsStep | code-duel-server/src/Game.ts:66-72 | when the loop has not thrown, one more pass is exactly one more turn on the current records |
| GameRules.TurnsAfterCrash | code-duel-server/src/Game.ts:66-72 | once a turn has thrown, no later turn runs |
| GameRules.LivingFrom | code-duel-server/src/Game.ts:136-137 | the `filter` of living players: exactly the living positions, in increasing order |
| GameRules.CheckWinner | code-duel-server/src/Game.ts:135-144 | a declared winner is one of the players' keys; when one is declared is stated by `CheckWinnerSoleSurvivor` and `CheckWinnerOfTwo` |
| GameRules.CheckWinnerSoleSurvivor | code-duel-server/src/Game.ts:135-144 | `checkWinner` names a player iff exactly one bot is alive, and then it names that bot's player |
| GameRules.CheckWinnerOfTwo | code-duel-server/src/Game.ts:135-144 | with two players it names the one alive when the other is dead, and nobody when both are alive or both dead |
| GameRules.Settle | code-duel-server/src/Game.ts:74-81 | the records and the grid are kept; the game ends iff `checkWinner` names a non-empty key, and then it is finished with that winner and an unchanged counter; otherwise only the counter advances, by one |
| GameRules.TickStep | code-duel-server/src/Game.ts:65-82 | a tick keeps the grid size and the number of players, and a tick that throws leaves status, winner and counter alone; the rest is stated by `TickStepBookkeeping`, `TickStepKeepsWellFormed` and `TwoPlayerTickHasNoDraw` |
| GameRules.TickStepBookkeeping | code-duel-server/src/Game.ts:65-82 | a game-ending tick sets finished and the winner, the sole survivor, without advancing the counter; a completed tick otherwise advances the counter by one and keeps status and winner; a tick that throws changes neither |
| GameRules.ApplyActionKeepsWellFormed | code-duel-server/src/Game.ts:106-112 | an action keeps every bot on the grid with health within 0..max |
| GameRules.TurnsKeepWellFormed | code-duel-server/src/Game.ts:66-72 | the turn loop keeps every bot well-formed |
| GameRules.TurnKeepsWellFormed | code-duel-server/src/Game.ts:67-71 | one turn keeps every bot well-formed |
| GameRules.TickStepKeepsWellFormed | code-duel-server/src/Game.ts:65-82 | a tick keeps every bot well-formed |
| GameRules.TurnsNeverCrash | code-duel-server/src/Game.ts:84-87 | with two or more distinct keys, context building always finds an opponent, so the loop never throws |
| GameRules.SinglePlayerTick | code-duel-server/src/Game.ts:65-87 | in a game of one player with a living bot, a tick throws when the player has code; without code it declares that player winner, or only advances the counter when its key is empty |
| GameRules.InactivePlayerSkipped | code-duel-server/src/Game.ts:67 | a player with empty code or a dead bot does nothing, whatever its strategy would return |
| GameRules.KilledBotDoesNotAct | code-duel-server/src/Game.ts:66-72 | a bot killed by the first player's attack gets no turn in the same tick |
| GameRules.FirstStrikeKills | code-duel-server/src/Game.ts:114-133 | a first-turn attack on an adjacent bot with at most 10 health leaves it at 0 health and changes nothing else |
| GameRules.SecondContextSeesFirstMove | code-duel-server/src/Game.ts:66-70 | the second player's context already shows the first player's move of the same tick |
| GameRules.FirstMovesRight | code-duel-server/src/Game.ts:66-70 | a first player that always moves right, from a column short of the last, ends its turn one cell right, facing right, with nothing else changed |
| GameRules.MoveRightApplied | code-duel-server/src/Game.ts:107-108 | a move right from a column short of the last steps the mover one cell right and turns it right, and changes nobody else |
| GameRules.TurnKeepsSomeoneAlive | code-duel-server/src/Game.ts:67-70 | a turn never leaves every bot dead when one was alive |
| GameRules.TurnsKeepSomeoneAlive | code-duel-server/src/Game.ts:66-72 | the turn loop never leaves every bot dead when one was alive |
| GameRules.TwoPlayerTickHasNoDraw | code-duel-server/src/Game.ts:65-82 | a two-player tick that starts with a living bot leaves one alive; a tick that goes on (both keys non-empty) leaves both bots alive |
| GameRules.InitialViews | code-duel-server/src/Game.ts:24-46 | the roster after the two `players.set` calls: the first record carries the first key and the last the second, one record exactly when the keys are equal; the bots and codes are stated by `InitialRoster` |
| GameRules.DisconnectWinner | code-duel-server/src/Game.ts:180-184 | the declared winner is a present key other than the one leaving; there is none iff every key is the leaving one; with two players it is the other one |
| Games.MapSet | code-duel-server/src/Game.ts:27-46 | Map `set`: a new key is appended; an existing key keeps its place and gets the new record; distinct keys stay distinct |
| Games.Game.constructor | code-duel-server/src/Game.ts:13-56 | the new game holds the two players in insertion order, the second's record replacing the first's for an equal key; empty code, 0 wins and losses, fresh bots on (1,5) and (8,5); grid 10×10 with no obstacles; waiting, no winner, tick 0 |
| Games.Game.Start | code-duel-server/src/Game.ts:58-63 | only the status changes, to running, whatever it was before |
| Games.Game.PerformAttack | code-duel-server/src/Game.ts:114-133 | the bots end exactly as `Attacked` says |
| Games.Game.ExecuteAction | code-duel-server/src/Game.ts:106-112 | the bots end exactly as `ApplyAction` says |
| Games.Game.RunTurn | code-duel-server/src/Game.ts:67-71 | the bots and the throw flag are exactly those of `Turn` |
| Games.Game.RunTurns | code-duel-server/src/Game.ts:66-72 | the loop leaves the bots and the throw flag exactly as `Turns` says |
| Games.Game.Tick | code-duel-server/src/Game.ts:65-82 | the new state and the outcome are exactly `TickStep` of the old state; the records, grid and id are unchanged; the game stays valid |
| Games.Game.Settle | code-duel-server/src/Game.ts:74-81 | the state and outcome after the loop are exactly `GameRules.Settle` of the state before; the records, grid and id are unchanged; the game stays valid |
| Games.Game.EndGame | code-duel-server/src/Game.ts:146-149 | status becomes finished and the winner is recorded; nothing else changes |
| Games.Game.UpdatePlayerCode | code-duel-server/src/Game.ts:163-169 | only the named player's code changes; an unknown key changes nothing |
| Games.Game.HandlePlayerDisconnect | code-duel-server/src/Game.ts:171-191 | status becomes finished; the winner becomes and is announced as the first other player, if any, and is otherwise left as it was |
| Games.Game.GetPlayers | code-duel-server/src/Game.ts:193-195 | the player records the game holds, in Map order, the same records and bot objects (`RemoveGame` walks them) |
| GameRegistry.GameManager.constructor | code-duel-server/src/GameManager.ts:6-9 | both maps start empty |
| GameRegistry.GameManager.GetGameByPlayer | code-duel-server/src/GameManager.ts:22-26 | a game is found iff the socket maps to a non-empty id that has a game, and then it is that game |
| GameRegistry.GameManager.CreateGame | code-duel-server/src/GameManager.ts:11-20 | the fresh game is registered under its id; both sockets map to it and then find it; every other entry is kept |
| GameRegistry.GameManager.RemoveGame | code-duel-server/src/GameManager.ts:28-37 | a known game is dropped along with the mapping of every one of its players' sockets; an unknown id changes nothing |
| GameRegistry.GameManager.HandleDisconnect | code-duel-server/src/GameManager.ts:39-44 | it forwards to the socket's game, if any, which then changes as `handlePlayerDisconnect` says; neither map changes |
| MatchQueue.Enqueue | code-duel-server/src/Matchmaking.ts:13-26 | the reported position is the new length; a match is made iff someone was already waiting; the match is the two oldest, in order, and the rest wait in order; the queue never holds more than one after matching |
| MatchQueue.Without | code-duel-server/src/Matchmaking.ts:57 | exactly the entries of other sockets are kept |
| MatchQueue.WithoutAppend | code-duel-server/src/Matchmaking.ts:57 | the filter keeps the original order |
| MatchQueue.WithoutAbsent | code-duel-server/src/Matchmaking.ts:55-61 | removing a socket that is not queued leaves the queue as it was |
| MatchQueue.WithoutKeepsOthers | code-duel-server/src/Matchmaking.ts:57 | every other socket's entry keeps its multiplicity |
| MatchQueue.ArrivalsPairInOrder | code-duel-server/src/Matchmaking.ts:13-26 | from an empty queue, arrivals are paired first with second, third with fourth, and so on; an odd one out waits |
| MatchQueue.Matchmaking.constructor | code-duel-server/src/Matchmaking.ts:6 | the queue starts empty |
| MatchQueue.Matchmaking.AddPlayer | code-duel-server/src/Matchmaking.ts:13-22 | the new queue, the reported position and the match are exactly those of `Enqueue` |
| MatchQueue.Matchmaking.CreateMatch | code-duel-server/src/Matchmaking.ts:24-26 | the two oldest are taken off in order and the rest wait |
| MatchQueue.Matchmaking.RemovePlayer | code-duel-server/src/Matchmaking.ts:55-61 | the queue becomes `Without` of the old queue |
| DuelScenarios.ThrowingStrategyIdles | code-duel-server/src/CodeExecutor.ts:28-31 | a strategy that always throws or times out leaves the board unchanged on its turn |
| DuelScenarios.InvalidStrategyIdles | code-duel-server/src/CodeExecutor.ts:23-25 | a strategy that always returns an invalid value leaves the board unchanged on its turn |
| DuelScenarios.WalkMove | code-duel-server/src/Bot.ts:19-37 | in the walk, a move right advances the first bot by one cell and changes nothing else |
| DuelScenarios.WalkFirstTurn | code-duel-server/src/Game.ts:67-70 | in the walk, the first player's turn is a move one cell right |
| DuelScenarios.WalkTurns | code-duel-server/src/Game.ts:66-72 | one tick of the walk: the first bot steps right and the second player, with no code, is skipped |
| DuelScenarios.WalkOneTick | code-duel-server/src/Game.ts:65-82 | that tick declares no winner and advances the counter by one |
| DuelScenarios.WalkRepeat | code-duel-server/src/Game.ts:65-82 | repeating a step that advances the walk by one cell, k times from cell d, advances it to d + k |
| DuelScenarios.WalkReachesOpponentCell | code-duel-server/src/Bot.ts:19-37 | walking right from (1,5), the bot is at x = 1 + k after k ticks, and stands on the opponent's cell (8,5) exactly after 7 |
| DuelScenarios.AttackFromSharedCellMisses | code-duel-server/src/Game.ts:114-133 | from the shared cell an attack to the right misses: no health changes and the duel goes on |
| DuelScenarios.KillingBlowEndsDuel | code-duel-server/src/Game.ts:65-82 | the killing blow ends the duel in the same tick, with the attacker as winner and the counter not advanced |
| DuelScenarios.InitialRoster | code-duel-server/src/Game.ts:23-56 | a new game's bots are well-formed and alive with empty code; two distinct sockets sit on the two start cells with no winner; one socket twice gives a single player on (8,5) |
| DuelScenarios.DisconnectDuringStartDelay | code-duel-server/src/Matchmaking.ts:49-52 | the flow is: queue two players, create the game, disconnect the first before the delayed `start`, then run `start`; the game is left running with the second player recorded as winner |

## Left out

- The vm2 sandbox itself is not modelled: the 100 ms timeout, splicing the JSON-serialised context into the program text, and the running of untrusted code. One run is an input (`Sandbox`), a function of the player's position, code and context. It therefore cannot show state that persists in the game's shared VM from one call or tick to the next.
- JavaScript values are plain data (`JsValue`). Getters, proxies, inherited properties, NaN and non-integer numbers are not modelled. The model assumes each field of the returned value reads the same every time. A getter read by `isValidAction` inside `execute`'s `try` could throw, and `execute` would catch that and fall back to 'none'. But `execute` hands back the strategy's own object, and `executeAction` reads `action` and `direction` again outside any `try`. A getter there could throw out of `tick`, as the missing-opponent `TypeError` does, or answer differently from what `isValidAction` saw. Neither case is modelled.
- Timers are not modelled: the 100 ms `setInterval` in `start`, `clearInterval` in `endGame` and `handlePlayerDisconnect`, and the 3-second `setTimeout` in `createMatch`. `Tick` is a method the caller invokes, and it can be called in any status. The `tickInterval` field is not modelled.
- Emits, room joins, `broadcastState` and `serializeState` are not modelled. The 'queueJoined' position, the match and the disconnect winner are returned values instead. So are the 'gameOver' payloads: the tick outcome, and `notified`.
- Logging (`console.log` and `console.error`) is not modelled.
- uuid generation is not modelled: game ids are parameters. The uuid `id` of a player record and of a bot is never read by the game logic (`serializeState` only passes it on to clients), so it is left out. The `language` field is never set, so it is left out too.
- MatchQueue.Matchmaking.CreateMatch: only the two `shift`s are modelled. The call to `gameManager.createGame`, the joins, the emits and the delayed `start` are wiring. `DuelScenarios.DisconnectDuringStartDelay` puts them together.
- What happens to the process after `buildGameContext` throws inside the interval callback is not modelled: the tick outcome is `Crashed` and the state is left as the turns made it.
- GameServer.ts and index.ts (the socket.io server, the HTTP health check and the bootstrap) are not part of this model. Only the record shapes of types.ts are used. Its `opponents` list in the context is never filled in by `buildGameContext`, so the context has no such field.
