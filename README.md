# Lighthouse bot: turn decision

This project models the turn routine of a Python bot for the "lighthouses"
territory game. Each turn the game server sends the bot its position, whether
it holds a key, the lighthouses it can see (position, owner, connections) and
the cells it can see (position, energy). `BotGame.new_turn_action` answers with
exactly one action, and it is always CONNECT or MOVE. It records the turn and
the action in `turn_states` and increments `countT`. The decision is a short
cascade:

- **Connect.** The bot holds the key and stands on one of its own lighthouses.
  It connects to one of its other lighthouses, chosen at random. A comment and
  a filter in the source mean to skip the lighthouses already connected to this
  one. As written, the filter keeps them all (see Findings).
- **Approach.** With the key but nothing to connect from here, the bot heads
  for the nearest lighthouse that passes that filter. Without the key, it heads
  for its nearest other lighthouse. Ties between equally near lighthouses go to
  the one that comes first in the `lighthouses` dictionary. It takes the step to a neighbour on the 15x15
  board that maximises `(15 - dist) * 2 + energy`. Ties go to the first entry
  of the `moves` table.
- **Richest neighbour.** Without the key but on an own lighthouse, the bot
  first tries the neighbour on the board with the most energy. The energy must
  beat -1, and ties again go to the first entry of `moves`.
- **Random step.** Otherwise the bot takes a random king move. This move is not
  bounds-checked.

Module layout:

- `Board` (`board.dfy`) holds positions, the board, the distances and the `moves` table.
- `Dict` (`dict.dfy`) models Python dicts keyed by position. They keep insertion order, and a later value for a key overwrites an earlier one.
- `Messages` (`messages.dfy`) holds the protocol messages as values.
- `Steps` (`steps.dfy`) specifies the three scoring loops.
- `Targets` (`targets.dfy`) holds the target lists and `min`.
- `Decision` (`decision.dfy`) is the whole decision as a function of the turn.
  It is parameterised by a `Reading` of the connection filter. `AsWritten` is
  the routine of `main.py`, and `BotGame` uses it. `Intended` is the filter
  the source's comment describes.
- `Bot` (`bot.dfy`) holds the `BotGame` class, the loops written as methods, and the cascade as a method proved equal to the decision function.

The two `random.choice` calls become two numbers, `connectPick` and `movePick`.
The caller draws them, and each is taken modulo the length of the list it
picks from. `Decision.ConnectEveryCandidate` shows that every lighthouse in
that list is the result of some draw.

## Model

| member | source | states |
|---|---|---|
| `Board.Step` | main.py:41-43 | each entry of `moves` leads to a cell at king-move distance 1, never the current cell |
| `Board.NeighbourIndex` | main.py:41-43 | every cell at king-move distance 1 is reached by exactly one entry of `moves` |
| `Board.NeighbourOnBoard` | main.py:85 | a position on the 15x15 board has at least one neighbour on the board |
| `Board.Manhattan` | main.py:46-47 | `manhattan(a, b)`, the sum of the absolute coordinate differences; no contract of its own, and `Targets.Nearest` and `Decision.ApproachMove` state what the routine does with it |
| `Dict.Get` | main.py:34 | `d.get(k)` returns the value of an entry with key `k`, and None only when no entry has that key |
| `Dict.GetEntry` | main.py:33 | in a dict, looking up an entry's key returns that entry's value |
| `Dict.Put` | main.py:33 | `d[k] = v`: afterwards `k` maps to `v` and every other key is unchanged; keys stay distinct; an existing key keeps its place and a new key goes last |
| `Dict.FromEntries` | main.py:36 | a dict comprehension yields distinct keys; `Dict.FromEntriesOrder` gives its key order and `Dict.FromEntriesGet` its values |
| `Dict.FromEntriesOrder` | main.py:33 | a comprehension lists each key where it FIRST occurs in the input (the reference `FirstKeys`); a repeated key keeps its first place and takes the later value |
| `Dict.DistinctFromEntries` | main.py:33 | over input with distinct keys, the comprehension is exactly the input pairs, in input order |
| `Dict.FromEntriesGet` | main.py:33 | looking up a comprehension-built dict gives the value of the LAST entry with that key |
| `Dict.LastValueIn` | main.py:36 | that last value comes from one of the entries, and a miss means no entry has the key |
| `Dict.EnergyAt` | main.py:87 | `local_energy.get(p, 0)`; no contract of its own, `Dict.EnergyAtEntry` states it |
| `Dict.EnergyAtEntry` | main.py:87 | `get(p, 0)` returns the energy stored under `p`, and 0 when no entry has that key |
| `Steps.Scan` | main.py:81-92 | the loop state after k moves: a kept move is on the board and at king-move distance 1, and the kept score is that move's score |
| `Steps.ScanCorrect` | main.py:83-92 | the loop keeps the first move on the board with the greatest score, and keeps none exactly when no move on the board beats the initial bar |
| `Steps.ScanFindsNone` | main.py:114-122 | the loop keeps no move exactly when no move on the board beats the initial bar |
| `Steps.ScanFindsFirstBest` | main.py:137-145 | a kept move is on the board, beats the bar, scores at least as much as every move on the board, and strictly more than every earlier one |
| `Steps.FirstBestUnique` | main.py:90 | the strict `>` makes the first best move unique |
| `Steps.TowardTarget` | main.py:89 | the approach score `(15 - dist) * 2 + energy_here`; no contract of its own, `Steps.GreedyStepIsBest` states that the step maximises it |
| `Steps.MostEnergy` | main.py:119 | the keyless score, the cell energy; no contract of its own, `Steps.RichestStepIsBest` states that the step maximises it |
| `Steps.GreedyStep` | main.py:81-92 | the move the approach loop keeps; no contract of its own, `Steps.GreedyStepIsBest` states it |
| `Steps.RichestStep` | main.py:114-122 | the move the keyless loop keeps; no contract of its own, `Steps.RichestStepIsBest` states it |
| `Steps.GreedyStepIsBest` | main.py:81-92 | the approach step maximises `(15 - dist) * 2 + energy` over the neighbours on the board, the first winning a tie; a step exists exactly when some neighbour is on the board, so always when the bot is on the board |
| `Steps.RichestStepIsBest` | main.py:114-122 | the keyless step goes to the richest neighbour on the board, the first winning a tie; there is none exactly when every neighbour on the board has negative energy |
| `Steps.RichestStepExists` | main.py:111-123 | with no negative energy and the bot on the board, the keyless step always exists |
| `Targets.OwnOthers` | main.py:53-56 | the target list holds exactly the positions of lighthouses owned by the player other than the current position, each once and in the dictionary's order |
| `Targets.Unconnected` | main.py:58-62 | the intended with-key filter keeps exactly the targets whose connections do not include the current position, and keeps them in dictionary order (see Findings) |
| `Targets.Nearest` | main.py:79 | `min` by Manhattan distance returns a member of the list that is at least as close as every other |
| `Targets.NearestIsFirst` | main.py:134 | no earlier member of the list is as close: ties go to the first |
| `Targets.UnconnectedAsWritten` | main.py:59-62 | the connection filter as written, the one `BotGame` runs; no contract of its own, `Targets.UnconnectedAsWrittenKeepsAll` states that it keeps every target |
| `Targets.UnconnectedAsWrittenKeepsAll` | main.py:61 | as written, the connection filter never removes a lighthouse |
| `Targets.ConnectionFilterCounterexample` | main.py:59-62 | a lighthouse already connected to the current one survives the filter as written, and the intended filter drops it |
| `Decision.LighthouseDict` | main.py:33 | the `lighthouses` dict has distinct keys |
| `Decision.LighthouseDictInTurnOrder` | main.py:33 | when the turn sends each position once, the `lighthouses` dict holds the turn's lighthouses in the turn's order, so the i-th lighthouse sent is at dictionary index i |
| `Decision.LighthouseDictGet` | main.py:33-34 | a lookup finds a lighthouse of the turn at that position, and misses only when the turn has none there |
| `Decision.EnergyDict` | main.py:36 | the `local_energy` dict has distinct keys; `Decision.EnergyDictNonNegative` and `Dict.EnergyAtEntry` state its values |
| `Decision.EnergyDictNonNegative` | main.py:36 | if no cell has negative energy, no value in `local_energy` is negative |
| `Decision.OnOwnLighthouse` | main.py:65 | `current_lh and current_lh.Owner == self.player_num`; no contract of its own, used by `Decision.ConnectOnlyWhenAllowed` and `Decision.KeylessOnOwnStepsToRichest` |
| `Decision.KeyTargets` | main.py:53-56 | the list of own lighthouses other than the current one; no contract of its own, `Targets.OwnOthers` and `Decision.CandidatesAre` state it |
| `Decision.ConnectTargets` | main.py:59-62 | the with-key list under each reading of the filter; no contract of its own, `Decision.CandidatesAre` states it |
| `Decision.Candidates` | main.py:53-62 | the list the bot connects to or heads for; no contract of its own, `Decision.CandidatesAre` states it |
| `Decision.CandidatesAre` | main.py:53-62 | the target list holds exactly the player's lighthouses other than the current one, each once and in dictionary order, with or without the key; under the intended reading, with the key, it also excludes those connected to the current position |
| `Decision.Target` | main.py:79 | `min(target_lighthouses, key=...)`; no contract of its own, `Decision.ApproachMove` states that it is the nearest candidate and the first in dictionary order on a tie |
| `Decision.BranchOf` | main.py:49-163 | which exit of the routine the turn takes; no contract of its own, `Decision.ConnectOnlyWhenAllowed`, `Decision.ConnectEveryCandidate`, `Decision.NoRandomStepWithCandidate` and `Decision.KeylessOnOwnStepsToRichest` state when each exit is taken |
| `Decision.Decide` | main.py:29-163 | every turn yields exactly one action, and its kind is CONNECT or MOVE |
| `Decision.ConnectOnlyWhenAllowed` | main.py:49-68 | CONNECT only when the bot holds the key on its own lighthouse, and only toward a lighthouse of the turn that the player owns and that stands elsewhere; under the intended reading, also only toward one not connected to the current position |
| `Decision.ReconnectAsWritten` | main.py:58-68 | as written, a bot with the key on its lighthouse at (0, 0) connects to its lighthouse at (3, 3) although (3, 3) already lists (0, 0), whatever the draw; the intended reading moves instead |
| `Decision.ConnectEveryCandidate` | main.py:65-72 | with the key on an own lighthouse the bot always connects when some lighthouse is in the target list, and each one in it is chosen by some draw |
| `Decision.MoveIsKingStep` | main.py:156-159 | every MOVE goes to one of the eight neighbours, never to the current cell |
| `Decision.ScoredMovesOnBoard` | main.py:139 | moves chosen by the three scoring loops stay on the board |
| `Decision.NoRandomStepWithCandidate` | main.py:132-153 | a bot on the board with a lighthouse to head for never falls back to the random step |
| `Decision.KeylessOnOwnStepsToRichest` | main.py:111-130 | without the key on an own lighthouse, with no negative cell energy and the bot on the board, the bot always steps to the richest neighbour |
| `Decision.RichestNeighbourMove` | main.py:114-126 | the richest-neighbour move is the first neighbour on the board with the greatest energy, and that energy is at least 0 |
| `Decision.ApproachMove` | main.py:77-100 | the target is in the target list and at least as close as every lighthouse in it; of the equally close ones it comes first in the `lighthouses` dictionary, which is the order the turn lists them when each position is sent once (`Decision.LighthouseDictInTurnOrder`); the move is the first best greedy step toward it |
| `Decision.NearestFirstInKeyOrder` | main.py:79 | `min` over a list in dictionary order returns, of the nearest positions, the one that comes first in the dictionary |
| `Decision.RandomStepMayLeaveBoard` | main.py:155-163 | from (0, 0) with no lighthouse in sight the random step can leave the board |
| `Bot.GreedyMove` | main.py:135-145 | the greedy loop computes the approach step |
| `Bot.RichestMove` | main.py:114-122 | the keyless loop computes the richest-neighbour step |
| `Bot.BotGameTurn` | main.py:16-19 | the record of one answered turn, the turn and the action; a datatype with no contract, `Bot.BotGame.NewTurnAction` states what is recorded |
| `Bot.ChooseAction` | main.py:49-163 | the cascade returns the action decided under the as-written reading |
| `Bot.WithKey` | main.py:49-100 | the with-key exits, with the connection filter as written, return the decided action, and fall through exactly when the random step is taken |
| `Bot.WithoutKey` | main.py:102-153 | the keyless exits return the decided action, and fall through exactly when the random step is taken |
| `Bot.BotGame.constructor` | main.py:23-27 | a new game has the given player number, no initial state, no recorded turns and `countT` 1 |
| `Bot.BotGame.NewTurnAction` | main.py:29-163 | returns the decided action and appends one `BotGameTurn` holding that turn and that same action. It increments `countT` by 1 and leaves the player number and the initial state unchanged. `countT` stays one more than the number of recorded turns |

## Left out

- `BotComs.wait_to_join_game` and `BotComs.start_listening` (main.py:166-212) are left out. They are gRPC channel and server set-up, a thread pool, and a join retry loop with `time.sleep`, which is network I/O and concurrency.
- `ServerInterceptor` (main.py:215-226) is left out. It only times and logs RPC calls.
- `ClientServer` (main.py:229-249) is left out. It prints, stores the initial state in `initial_state` and forwards a turn to `new_turn_action`. Because it is left out, nothing in the model ever sets `initialState`.
- `ensure_params` and `main` (main.py:252-285) are left out. They parse arguments and start the process.
- The protobuf message classes and `json_format` are replaced by plain datatypes. Only the fields the routine reads are kept. This drops each lighthouse's energy and key flag, the bot's energy, and the action's energy.
- The `random` module is not modelled. Each `random.choice` becomes a number supplied by the caller. The model does not capture the uniform distribution.
- The floating-point `-float('inf')` is not modelled. It only means "no best yet", and the model uses None for it.
- `player_num` defaults to None in the constructor, but `ClientServer` always passes the joined player ID. The model therefore takes an integer.
- Python truthiness is read as presence. `if current_lh` holds exactly when a lighthouse was found, because protocol messages are truthy. `if best_move` holds exactly when a move was kept, because a pair is a non-empty tuple.
- The five exits of `new_turn_action` each append to `turn_states` and increment `countT`. `Bot.BotGame.NewTurnAction` does this bookkeeping once, after `Bot.ChooseAction` has decided. The effect on the object is the same.

## Findings

| source | as written | input that shows it | evidently intended | confidence | as-written member | corrected member |
|---|---|---|---|---|---|---|
| main.py:59-62 | `current_pos not in lighthouses[pos].Connections` tests a Python tuple against a list of Position messages. A tuple never compares equal to a message, so the test is always true and no lighthouse is filtered out. | The bot holds the key and stands on its own lighthouse at (0, 0). Its lighthouse at (3, 3) lists (0, 0) among its connections. The bot still connects to (3, 3). | Drop the lighthouses that are already connected to the current position, as the comment at main.py:58 says. The model keeps the routine as written (`Reading.AsWritten`, used by `BotGame`) and states the intended behaviour as `Decision.Decide` under `Reading.Intended`, which never connects to a lighthouse already connected to the current one | medium, not executed; it assumes `Connections` is a repeated Position field and that Position messages never equal tuples | `Decision.ReconnectAsWritten` | `Decision.ConnectOnlyWhenAllowed` |
