# Street Fighter neuroevolution: a Dafny model of the match state machine, the fitness score and the genetic operators

The repository trains a recurrent network to play Street Fighter II by
neuroevolution. Every individual of a population of 20 plays one live
best-of-three match against the game's opponent. A controller process
watches the match frame by frame and writes a results record. The trainer
turns that record into a fitness score and breeds the next generation by
truncation selection, elitist single-point crossover and per-layer noise.

This project models three pure cores of it.

- **The controller's match state machine** (`controller.dfy`, module
  `Controller`). The socket loop is a pure `Step` over an explicit state
  record. Each frame, the state and the emulator's snapshot go in; the next
  state and the command to send come out. The machine has four phases:
  character select, idle, fighting and match over. It detects rising edges
  of the round flags and counts frames on which the timer is stuck. It
  detects a round's end along three paths in priority order, resolves the
  winner, accumulates damage while ignoring the 255 health sentinel, and
  keeps the best-of-three history. `Run` folds `Step` over a stream of
  frames. `Finalize` builds the results record.
- **The evaluator's fitness score** (`fitness.dfy`, module `Fitness`). It is
  the weighted sum of five policies over a results record. Missing optional
  keys take defaults. A missing file, or a record without the outcome or
  the history, scores the sentinel −9999.
- **The genetic operators and best tracking** (`genetics.dfy`, module
  `Genetics`; `training.dfy`, module `Training`). An individual is its list of
  weight layers, each a flat `seq<real>` with a shape.
- **The bot adapter** (`bot.dfy`, module `Bot`). It builds the 15-feature
  input vector from one slot's point of view, thresholds the network's ten
  outputs into buttons, and routes them to the slot's pad.

`game.dfy` (module `Game`) holds the snapshot, pad and command records,
reduced to the fields the code uses. `opt.dfy` (module `Opt`) holds `Option`.

Parameters stand in for everything that is not pure:

- The network's answer for a frame is a `Prediction`: ten reals. The
  network is a stateful GRU, so its answer is not a function of the feature
  vector alone.
- The character-select length drawn from [5, 15] is the argument of
  `Controller.Init`. The random cursor directions of each select frame are
  part of each `Frame`.
- The crossover parent pair and split points are `Draw`s. The mutation coin
  rolls, the rate and the noise vectors are arguments of `Mutation`.
- The scores of a generation are inputs to the training functions. Each
  score is the result of a live match.

Floating-point numbers are modelled as exact `real`s. Python's unbounded
integers are modelled as `int`/`nat`.

## Model

| member | source | states |
|---|---|---|
| `Bot.InputVector` | bot.py:14-52 | exactly 15 features: the bot's normalised health, x, y and jumping and crouching flags (0-4), the opponent's same five plus its in-move flag and normalised move id (5-11), then relative x, relative health and the normalised timer (12-14); the jumping, crouching and in-move features are exactly 1.0 or 0.0 and are 1.0 iff the flag is set for the right player; relative x and relative health are the differences of the bot's and the opponent's normalised x and health |
| `Bot.PerspectiveFeatures` | bot.py:19-45 | between slot "1" and slot "2" the bot's and the opponent's own features trade places, relative x and relative health change sign, and the timer feature is the same |
| `Bot.OtherSlotIsSwappedFrame` | bot.py:19-24 | any slot other than "1" sees a frame exactly as slot "1" sees the same frame with the players exchanged |
| `Bot.Threshold` | bot.py:88-101 | combat button i (up, down, left, right, Y, B, A, X, L, R) is pressed iff output i is strictly above 0.5; select and start are never pressed |
| `Bot.ThresholdRecoversPad` | bot.py:88-101 | every pad with select and start released is produced by thresholding some answer (a confident 1.0/0.0 answer for it), so the thresholding loses nothing |
| `Bot.Fight` | bot.py:73-109 | slot "1" gets the thresholded pad on the first pad and slot "2" on the second pad; the other pad is unchanged; any other slot leaves the command unchanged; the driven pad never has select or start pressed |
| `Controller.Init` | controller.py:55-81 | the initial state satisfies the machine invariant, is in character select with no frames waited and an empty history |
| `Controller.RoundEnd` | controller.py:145-162 | a round ends iff one of the three detectors fires: a rising edge of "round over" with a result other than NOT_OVER/NONE, a stuck count above 60, or a player at health 255; the cause reported is the first detector in that order that fires |
| `Controller.ResolveRound` | controller.py:170-203 | on a timeout the bot wins iff its health is strictly higher, so a draw is a loss; otherwise an explicit result naming the bot's slot wins, an inconclusive result (TIME_OVER, DRAW, empty) is decided by strictly higher health, and any other result is a win iff the opponent is at 255 and the bot is not |
| `Controller.ResolveSymmetric` | controller.py:171-203 | slot "2" resolves every round of the mirrored frame (players and P1/P2 exchanged) exactly as slot "1" resolves the original |
| `Controller.Drop` | controller.py:227-234 | damage is credited iff neither the last nor the current reading is 255 and health strictly fell, and then it is exactly the fall |
| `Controller.SelectStep` | controller.py:97-121 | the first charSelectFrames frames send the random directions and count; the next frame presses start and counts; later frames release start; the machine can enter FIGHTING only in that release phase and exactly on a round-begins edge, resetting both last-health trackers to 176 and the bot's command |
| `Controller.IdleStep` | controller.py:123-137 | every idle frame counts; FIGHTING is entered iff a round-begins edge comes with more than 60 idle frames counted, and then the idle counter, both last-health trackers and the command are reset |
| `Controller.CloseRound` | controller.py:164-221 | a round end appends exactly one outcome (1 won, 0 lost); a win adds the bot's health to the health bonus and the timer's excess over 48 (never negative) to the time bonus; a loss changes neither; the stuck and idle counters are reset; the match is over iff one outcome now occurs twice, otherwise the machine goes idle |
| `Controller.ContinueRound` | controller.py:222-242 | on a fighting frame with no round end, damage dealt and taken grow by the sentinel-guarded health drop, the last-health trackers take this frame's readings, the players' distance is appended, and the command sent is the bot's thresholded answer |
| `Controller.Step` | controller.py:83-249 | the stuck-timer counter is untouched outside FIGHTING, reset on every round end, and otherwise increments when the timer equals the previous one and resets to 0 when it differs; the edge memory takes this frame's flags; damage and bonuses never decrease and damage only changes on fighting frames without a round end; the history grows by one exactly on a round end; one distance is recorded per fighting frame without a round end |
| `Controller.StepKeepsInv` | controller.py:83-249 | one frame of an unfinished match keeps the controller invariant: counters within their bounds, a history of 0/1 outcomes, MATCH_OVER exactly when one outcome has two occurrences |
| `Controller.EnteringFight` | controller.py:97-137 | FIGHTING is entered iff a round-begins edge comes and the phase allows it (character select after the start release, or more than 60 idle frames); both last-health trackers are then 176 |
| `Controller.MatchTermination` | controller.py:217-219 | from a reachable state that is not over, the next state is MATCH_OVER iff this frame ends a round and the history now holds one outcome twice; before it, neither outcome occurred twice |
| `Controller.HistoryShape` | controller.py:205-255 | a reachable history has at most three rounds; a finished one has at least two, and the match is won exactly when its last round was won |
| `Controller.Run` | controller.py:83-249 | over any stream of frames the history only grows at the end, damage, bonuses and recorded distances never decrease, and a finished match does not change |
| `Controller.SelectScript` | controller.py:73-114 | from a character-select state, frames that do not go past the start press keep the machine in character select and each one is counted |
| `Controller.NoEarlyFight` | controller.py:97-121 | from the initial state, no round can begin during the first charSelectFrames + 1 frames |
| `Controller.MatchOutcome` | controller.py:83-255 | every state reachable from the start satisfies the invariant and has at most three rounds; a finished match is won iff its last round was won |
| `Controller.Mean` | controller.py:258 | the average distance is 0 when nothing was recorded; otherwise, times the number of samples, it equals their sum; it is never negative |
| `Controller.RunKeepsInv` | controller.py:83-249 | every state the loop reaches from a state satisfying the invariant satisfies it too |
| `Controller.MeanBound` | controller.py:239-258 | the average distance never exceeds a bound that every recorded distance respects |
| `Controller.Finalize` | controller.py:251-269 | the match is won iff at least two rounds were won; the other fields carry the machine's accumulators and the mean distance |
| `Fitness.Score` | evolution.py:143-185 | a missing results file, or a record without the outcome or without the history, scores exactly −9999 |
| `Fitness.ScoreExample` | evolution.py:149-175 | a won 2-0 match with 50 dealt, 20 taken, health bonus 100, time bonus 10 and distance 50 scores 1747.5 |
| `Fitness.ScoreDefaults` | evolution.py:158-170 | a missing damage, health bonus or time bonus key scores as 0; a missing average distance scores as 255 |
| `Fitness.ScoreMinimalRecord` | evolution.py:149-175 | a record with only the outcome and history scores ±1000 plus 500 iff the history is exactly [1, 1] |
| `Fitness.WinWorth` | evolution.py:152-155 | all else equal, winning instead of losing the match adds exactly 2000 |
| `Fitness.ScoreSlopes` | evolution.py:157-171 | each extra unit of damage dealt adds 1.5, of damage taken subtracts 2.0, and of average distance subtracts 0.5 |
| `Fitness.Encode` | controller.py:260-269 | the record written for a match carries every one of its seven keys with the match's values |
| `Fitness.ScoreOfMatch` | evolution.py:149-178 | a record the controller wrote never takes the sentinel or a default: its score is the five policies over the match's own figures |
| `Fitness.FlawlessMeansTwoStraightWins` | evolution.py:173-175 | for a finished match the 500 flawless bonus is paid exactly when the bot won the first two rounds |
| `Genetics.BestRemaining` | evolution.py:188-194 | returns a position in the remaining indices whose score is at least every remaining index's score |
| `Genetics.Selection` | evolution.py:188-194 | returns min(20 / 5, population size) distinct indices and the individuals at them, in non-increasing score order, and every selected score is at least every unselected score |
| `Genetics.Splice` | evolution.py:217-218 | a spliced layer has the parents' length, the first parent's values before the split and the second's from the split on |
| `Genetics.Cross` | evolution.py:214-221 | a child keeps the architecture; each of its layers is the first parent's prefix before that layer's split and the second parent's suffix, in the first parent's shape |
| `Genetics.GeneLocality` | evolution.py:214-221 | in either child of a breeding, each value equals the same-position value of the child's first parent before the split and of the other parent from the split on, so it always comes from one of the two; the shape is kept |
| `Genetics.Crossover` | evolution.py:196-231 | the offspring has exactly 20 members; member 0 is parents[0]; each later member is the first or second child of its draw's breeding, in order; every member keeps the architecture |
| `Genetics.MutateLayer` | evolution.py:239-244 | a layer keeps its shape and length; it is unchanged when the roll is not below the rate, and becomes layer + noise elementwise when it is |
| `Genetics.Mutation` | evolution.py:233-247 | the population size and member 0 are unchanged; every other member keeps its layer count, and each of its layers either stays unchanged or becomes layer + noise with the same shape, as its roll decides; the architecture is kept |
| `Training.Argmax` | evolution.py:288-290 | the generation's best is a position of a highest score, the first such position |
| `Training.Track` | evolution.py:301-304 | the best-so-far fitness never decreases, is at least every score of the generation, and is replaced only by the generation's best and only on strict improvement |
| `Training.BestOverall` | evolution.py:279-307 | after any number of generations the best-so-far fitness is at least every score seen, and the stored individual and fitness are an individual and the score it was given in some generation |
| `Training.BestNeverDecreases` | evolution.py:301-304 | the best-so-far fitness after a prefix of the generations is at most the one after all of them |
| `Training.NextGeneration` | evolution.py:309-312 | selection, crossover and mutation give exactly 20 individuals of the same architecture, and individual 0 is, unchanged, a highest scorer of the previous generation |

## Left out

- Process orchestration (evolution.py:42-141): launching the emulator, the controller and the mouse-automation helper, timeouts, terminate/kill cleanup and sleeps. These are OS process management.
- The socket connect/send/receive and JSON encoding (controller.py:12-30, 244). The ready file and the results-file write (controller.py:51-53, 271-278). The results-file read (evolution.py:144-146), which becomes the `Option<Record>` argument of `Fitness.Score`. All of this is I/O.
- The network (ann.py): prediction, the recurrent hidden state and its reset in `Bot.reset`, and weight get/set/save/load. The network's answer is an input. `Bot.reset` is modelled only as the fresh command it creates.
- `create_initial_population` (evolution.py:24-30): it builds fresh random networks. The initial population is an input.
- The mouse automation scripts (auto_gui.py, coord_test.py).
- The distributions of `random.randint`, `random.choice`, `np.random.choice`, `np.random.randint`, `np.random.rand` and `np.random.normal`. Only the outcomes are modelled, as parameters. The requirements on them (distinct parents, splits below the layer size, noise of the layer's shape) are preconditions.
- Loading a previous best model by parsing its file name, and saving models under formatted names (evolution.py:262-277, 296-299, 305-307). This is file I/O and float formatting.
- All log output.
- Floating-point rounding: scores, features and averages are exact reals.
- The `command`, `buttons` and `game_state` modules are not part of this model. `Command()` and `Buttons()` are taken to start with every button released. Only the two pads of a command are modelled. Health readings are taken to be bytes (0 to 255), as the 255 sentinel implies.
- `Fitness.Score`: records whose values have the wrong JSON type (raising inside the scoring and so giving −9999) are not modelled. The record's fields are typed, so only missing keys and a missing file reach the sentinel path.
- `Controller.Step`: the controller refuses slots other than "1" and "2" (no socket is ever bound), so `Step` requires one of them.
- `Genetics.Selection`: `np.argsort` is not stable, so ties may come in any order. The model picks the first remaining index among tied scores. The contract holds for every order the sort could produce.
- `Genetics.Mutation`: the coin rolls and noise for member 0 are accepted but never used.
- `Genetics.Selection` keeps ⌊20 / 5⌋ = 4 parents. The count is fixed by the configured population size, not by the actual population, and a smaller population just yields fewer parents (the slice keeps what there is).
- `Genetics.Crossover` requires at least two parents, because the pair is drawn without replacement and `np.random.choice(..., replace=False)` raises otherwise.
