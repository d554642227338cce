# Fruit merge game: the merge and game-over controller

A Dafny model of the game logic of a Suika-style browser game (`script.js`).
Fruits of seven tiers fall into a box. Two touching fruits of the same tier,
below the top tier, merge into one fruit of the next tier, and the player
scores twice the tier's score. If some fruit rests above the limit line on
three consecutive one-second checks, the game is over. The physics engine
(Matter.js) is outside the model. The world is a map from body id to what the
controller reads of a body: its kind, centre, radius and speed. One
`collisionStart` event is the sequence of pairs the engine reports.

The modules follow the sections of `script.js`:

- `Fruits` (`fruits.dfy`): the FRUITS table, the layout constants, the
  `Math.round` scaling of sizes, and the clamp of the drop position.
- `Labels` (`labels.dfy`): the body label `"fruit_" + index` and its parse,
  `parseInt(label.split('_')[1])`. The rest of the model carries the tier as a
  typed `Tag`, and `TagRoundTrip` shows that nothing is lost by doing so.
- `World` (`world.dfy`): bodies, collision pairs, and the merge rule.
  `MergeStep` is one iteration of the handler's loop and `MergeBatch` the
  whole handler. It also holds the removed-id cleanup `Prune` and the danger
  condition of the game-over check.
- `DangerClock` (`clock.dfy`): the danger timer and the game-over flag as a
  value. `Tick` is one check, and `Run` is a sequence of checks.
- `Game` (`game.dfy`): the class `MergeGame`. It holds the module-level
  variables (`score`, `bestScore`, `isGameOver`, `canDrop`, `gameOverTimer`,
  `currentFruitX`, `nextFruitIndex`), the `removedBodies` set and the world,
  and its methods are the handlers that change them. Each method is proved
  against the specification functions above. `Valid()` is the invariant they
  all keep:
  - no live body is marked removed;
  - the boundary bodies stay in the world;
  - the score is a non-negative multiple of 20;
  - the next fruit is one of the first three tiers;
  - the timer and the game-over flag are what `Run` gives for the danger
    verdicts seen since the last `initGame`.

Timer and interval callbacks are explicit method calls: `CheckGameOver` (every
second), `Cleanup` (every five seconds) and `CooldownElapsed` (500 ms after a
drop). The random choice of the next fruit is a parameter `choice < 3`. The
responsive scale factor is a parameter, and every size is derived from it as
the source does. The speed threshold and the limit line are parameters of the
danger predicate.

Ids come from a counter, as Matter.js hands them out (`Common.nextId`). Matter.js
appends new bodies to the world, so `Composite.allBodies` lists bodies in
increasing id order. The danger scan and the cleanup therefore visit ids in
increasing order. The cleanup's result does not depend on that order.

The model follows the code as written. Behaviours worth noting:

- The collision handler does not look at `isGameOver`. Merges go on after the
  game is over until the physics runner stops 500 ms later, so the score can
  still grow after `bestScore` has taken it in.
- The cooldown timeout sets `canDrop` back to true even when the game ended
  during the cooldown. `dropFruit` still refuses, because it checks
  `isGameOver` first.
- `initGame` empties the world of fruits but keeps the four boundary bodies.
  It does not clear `removedBodies` and does not reset the id counter.
- No live body is ever marked removed, so the cleanup always empties
  `removedBodies`. The `removedBodies` guard only matters among the pairs of a
  single event.

## Model

| member | source | states |
|---|---|---|
| `Fruits.Round` | script.js:21-22 | Math.round gives the integer nearest to x, with halves rounded up |
| `Fruits.Score` | script.js:42-50 | the score of tier k is 10 × (k + 1) for each of the seven tiers |
| `Fruits.BaseRadius` | script.js:42-50 | the radii lie in 15..100 and grow strictly with the tier |
| `Fruits.ClampDropX` | script.js:328-331 | the drop position is never left of r + 5; when [r + 5, width − r − 5] is non-empty it lies inside it, equals the pointer when the pointer is inside, and otherwise sits at the nearer bound; when the interval is empty the lower bound wins |
| `Fruits.ClampIdempotent` | script.js:328-331 | clamping an already clamped position does not move it |
| `Fruits.Radius` | script.js:43-49 | FRUITS[k].radius is a whole number within 0.5 of base radius × SCALE, and never smaller than the radius of the tier below |
| `Fruits.GameWidth` | script.js:21 | GAME_WIDTH is a whole number within 0.5 of 450 × SCALE |
| `Fruits.GameHeight` | script.js:22 | GAME_HEIGHT is a whole number within 0.5 of 600 × SCALE |
| `Fruits.DropY` | script.js:63 | DROP_Y is a whole number within 0.5 of 50 × SCALE |
| `Fruits.LimitY` | script.js:64 | LIMIT_Y is a whole number within 0.5 of 150 × SCALE |
| `Labels.Decimal` | script.js:290 | String(index) is a non-empty string of decimal digits |
| `Labels.FirstField` | script.js:485 | split('_')[1] of a fruit label is the longest prefix of the rest that holds no '_' |
| `Labels.DigitPrefix` | script.js:485 | parseInt, on an argument without sign, blanks or hex prefix, reads the longest run of digits that starts it |
| `Labels.ParseInt` | script.js:485 | parseInt, on an argument without sign, blanks or hex prefix, gives NaN exactly when it does not start with a digit |
| `Labels.DecimalValue` | script.js:290 | the value of the digits of String(n) is n |
| `Labels.FormatParse` | script.js:485-486 | a label made by createFruit passes the "fruit_" prefix test and parses back to the index it was made from |
| `Labels.FormatInjective` | script.js:290 | different tiers get different labels |
| `Labels.FormatLabel` | script.js:290 | "fruit_" + index starts with "fruit_" and continues with a non-empty run of decimal digits holding no '_' |
| `Labels.IsFruitLabel` | script.js:482 | label.startsWith('fruit_') holds exactly when the first six characters of the label are f, r, u, i, t, _ |
| `Labels.ParseTier` | script.js:485 | parseInt(label.split('_')[1]) on a label starting with "fruit_" is NaN exactly when no decimal digit follows the prefix |
| `Labels.TagRoundTrip` | script.js:482-486 | a label passes the prefix test exactly when its body is a fruit, and parses to that fruit's tier |
| `World.MergesByLabels` | script.js:482-488 | when no static body's label starts with "fruit_", the typed merge rule holds exactly when the handler's string tests pass: both labels start with "fruit_", neither id is in removedBodies, the parsed indices are equal numbers below FRUITS.length − 1 |
| `World.NewFruit` | script.js:285-291 | createFruit(x, y, k) makes a body at (x, y) with FRUITS[k].radius, at rest, whose label starts with "fruit_" and parses back to k |
| `World.MergeStep` | script.js:479-505 | one pair changes the state exactly when it merges; the score grows by a multiple of 20, removedBodies only grows, and at most one id is handed out |
| `World.MergeBatch` | script.js:475-507 | over one event the score never drops, removedBodies only grows, and at most one id is handed out per pair |
| `World.MergeStepEffect` | script.js:488-500 | a merge adds exactly 20 × (k + 1) to the score, records both ids as removed, removes exactly the two bodies, adds exactly one tier k + 1 fruit under a fresh id at their midpoint, changes no other body, and leaves one body fewer |
| `World.MergeStepWellFormed` | script.js:492-500 | one pair keeps the world invariant and never un-marks an id |
| `World.MergeBatchPreserves` | script.js:475-507 | one event keeps the world invariant; the score only grows, by a multiple of 20; ids only advance; removed ids stay removed |
| `World.RemovedGrows` | script.js:492-493 | later in an event, removedBodies holds at least what it held earlier |
| `World.NoDoubleConsumption` | script.js:483-493 | when a pair merges, no later pair of the same event sharing a body with it merges |
| `World.MergedStayGone` | script.js:492-494 | after the event, both bodies of every merged pair are marked removed and are gone from the world |
| `World.UnmergeableStays` | script.js:482-488 | top-tier fruits (watermelons) and non-fruit bodies are never consumed: they are in the world after an event exactly as before |
| `World.Prune` | script.js:510-515 | the cleanup keeps exactly the removed ids still present in the world: present ids are never dropped |
| `World.PruneThenBatch` | script.js:510-515 | for an event among live bodies, cleaning up first changes nothing but the removed set: same merges, world, score and ids |
| `World.PruneEmpties` | script.js:510-515 | under the invariant, the cleanup leaves removedBodies empty |
| `World.InDanger` | script.js:525-526 | only a body whose label starts with "fruit_" can be in danger |
| `World.ScanForDanger` | script.js:521-531 | the scan with its break finds danger exactly when some fruit slower than the threshold has its top above the limit line |
| `DangerClock.Tick` | script.js:519-541 | a check after game over changes nothing; a clear check resets timer and flag; the game ends only on a danger check that brings the timer to 3000 or more; the timer stays a multiple of 1000 |
| `DangerClock.Run` | script.js:273 | over any number of checks, the game is over only if it already was or the timer reached 3000; the timer stays a multiple of 1000 |
| `DangerClock.RunFromStart` | script.js:533-541 | from a fresh game, the game is over exactly when three consecutive checks found danger; until then the timer is 1000 ms times the current run of danger checks, reset to 0 by a clear check; at game over it is exactly 3000 |
| `DangerClock.OverIsFinal` | script.js:519 | once over, further checks change nothing |
| `DangerClock.NeverBeforeThird` | script.js:534-537 | the game cannot end before the third check |
| `DangerClock.ThreeDangerChecks` | script.js:534-537 | three danger checks in a row end the game on the third, with the timer at 3000, and not on the first or second |
| `DangerClock.GapRestartsCount` | script.js:539-541 | for danger, danger, clear, then danger three times, the clear check resets the clock and the game ends only on the sixth check |
| `Game.Walls` | script.js:96-115 | the four boundary bodies take ids 0..3, are static, and their labels do not pass the fruit prefix test |
| `Game.MergeGame.constructor` | script.js:53-60 | initial state: score 0, best score from storage, not over, drop allowed, timer 0, drop position at mid-width, first fruit a grape, world holding the boundary bodies |
| `Game.MergeGame.InitGame` | script.js:254-276 | score 0, not over, drop allowed, timer 0, drop position at mid-width, world back to the boundary bodies, next fruit chosen; best score, removedBodies and the id counter unchanged |
| `Game.MergeGame.SpawnNextFruit` | script.js:278-283 | the next fruit is the chosen one of the first three tiers |
| `Game.MergeGame.DropFruit` | script.js:294-301 | no effect when the game is over or a drop is cooling down; otherwise exactly one fruit of the next tier is added at (currentFruitX, DROP_Y) under a fresh id and drops are blocked |
| `Game.MergeGame.CooldownElapsed` | script.js:302-305 | drops are allowed again and the next fruit is chosen |
| `Game.MergeGame.UpdateCurrentFruitPosition` | script.js:328-331 | the drop position becomes the pointer clamped for the next fruit's radius |
| `Game.MergeGame.EngineStep` | script.js:594-595 | the engine between handlers moves bodies and changes their speeds; ids, kinds, radii and the boundary bodies stay; the invariant is kept |
| `Game.MergeGame.CollisionStart` | script.js:475-507 | the world, removedBodies, score and id counter become MergeBatch of the old ones; nothing else changes; the invariant is kept |
| `Game.MergeGame.HandlePair` | script.js:479-505 | one pair updates the handler's state as MergeStep says |
| `Game.MergeGame.Cleanup` | script.js:510-515 | removedBodies becomes its intersection with the live ids, which is empty |
| `Game.MergeGame.CheckGameOver` | script.js:518-543 | no effect after game over; otherwise the danger verdict is appended, the timer grows by exactly 1000 with danger and becomes exactly 0 without, the game ends exactly when the grown timer reaches 3000 and then drops stop and the best score takes in the score; afterwards the game is over exactly when three consecutive checks found danger |
| `Game.MergeGame.EndGame` | script.js:545-559 | the game is over, drops stop, and the best score becomes the larger of the old best and the score |

## Left out

- Matter.js physics: collision detection, gravity, body motion and the
  choice of which pairs an event reports, along with the engine, renderer and
  wall set-up calls (script.js:33-39, 80-117). A collision event is an input
  sequence of pairs. `World.Reported` states what the engine guarantees about
  them.
- Body speed and position come from the engine. `EngineStep` stands for the
  engine between two handlers: it installs any new positions and speeds that
  keep every body's id, kind and radius and leave the boundary bodies in
  place. Which values the engine computes is not modelled. A freshly created
  fruit is recorded with speed 0.
- Rendering: the `afterRender` drawing, particles, score pop-ups and the
  danger flash, all canvas and DOM output with floating-point motion and
  `Math.random` (script.js:172-251, 391-470, 535, 541, 548, 561-565).
- Audio: `getAudioCtx`, `createSound`, `playDrop`, `playMerge`, `playGameOver`,
  all Web Audio calls (script.js:122-170).
- Responsive scaling: `calcScale` and `adjustContainer` read the page layout
  (script.js:5-30). The scale factor is a parameter.
- Browser I/O: the DOM elements, `updateScoreDisplay`, the `localStorage` read
  and write of the best score (the stored value is a constructor parameter),
  the input listeners, `getCanvasX`, the splash screen and the restart button
  (script.js:55, 70-77, 308-311, 319-387, 558, 575-602).
- Timers: `setTimeout`, `setInterval`, `clearInterval` and `Runner.stop`
  (script.js:271-273, 302, 510, 550-553, 569-571). Each callback is a method
  the caller invokes. There is no real time.
- `Math.random` in `spawnNextFruit` (script.js:279): the choice is a parameter.
- JavaScript numbers: the score and the timer are unbounded integers, and
  positions, radii and speeds are exact reals. Doubles are not modelled.
- `Labels.ParseInt`: leading blanks, a + or − sign and the "0x"/"0X" hex
  prefix that parseInt accepts are not modelled (parseInt("0x1") is 1, the
  model reads 0). The labels `createFruit` writes ("fruit_0" to "fruit_6")
  contain none of them.
- `Labels.DigitPrefix`: decimal digits only; the "0x"/"0X" hex prefix of
  parseInt is not modelled, for the same reason.
- `World.ScanForDanger`: visits bodies in increasing id order. That is the
  order Matter.js lists them in, because ids increase and new bodies are
  appended.
- `Game.MergeGame.Cleanup`: visits the ids below the id counter in increasing
  order, not `removedBodies` in insertion order. The result does not depend
  on the order.
