/**
 * The game state that script.js keeps in module-level variables and the
 * handlers that change it (script.js:52-67, 254-306, 328-331, 473-572).
 * Timer and interval callbacks are explicit method calls: CheckGameOver for
 * the one-second danger check, Cleanup for the five-second removed-id
 * cleanup, CooldownElapsed for the end of the drop cooldown. The random
 * choice of the next fruit is a parameter.
 */
module Game {
  import opened Fruits
  import opened Labels
  import opened World
  import opened DangerClock

  /** The first id a fruit can get: ids 0 to 3 belong to the boundary bodies. */
  const FirstFruitId: int := 4

  /**
   * The floor, the two side walls and the top sensor (script.js:96-115),
   * created once at start-up and added back by initGame. Rectangles have no
   * circleRadius; their radius here is 0.
   */
  function Walls(scale: real): (w: map<int, Body>)
    ensures w.Keys == {0, 1, 2, 3}
    ensures forall id :: id in w ==> w[id].tag.Static? && !IsFruitLabel(w[id].tag.name)
  {
    assert !IsFruitLabel("Rectangle Body") by { assert "Rectangle Body"[0] != FruitPrefix[0]; }
    assert !IsFruitLabel("topSensor") by { assert "topSensor"[0] != FruitPrefix[0]; }
    var width, height := GameWidth(scale), GameHeight(scale);
    map[0 := Body(Static("Rectangle Body"), width / 2.0, height + 10.0, 0.0, 0.0),
        1 := Body(Static("Rectangle Body"), -10.0, height / 2.0, 0.0, 0.0),
        2 := Body(Static("Rectangle Body"), width + 10.0, height / 2.0, 0.0, 0.0),
        3 := Body(Static("topSensor"), width / 2.0, 0.0, 0.0, 0.0)]
  }

  /** No collision event takes a static body: the boundary bodies survive every event. */
  lemma WallsSurvive(s: MergeState, pairs: seq<CollisionPair>, scale: real, walls: map<int, Body>)
    requires WellFormed(s) && Reported(s, pairs)
    requires forall id :: id in walls ==> walls[id].tag.Static? && id in s.world && s.world[id] == walls[id]
    ensures forall id :: id in walls ==>
      id in MergeBatch(s, pairs, scale).world && MergeBatch(s, pairs, scale).world[id] == walls[id]
  {
    forall id | id in walls
      ensures id in MergeBatch(s, pairs, scale).world && MergeBatch(s, pairs, scale).world[id] == walls[id]
    {
      UnmergeableStays(s, pairs, id, scale);
    }
  }

  class MergeGame {
    /** The responsive scale factor every size derives from. */
    const scale: real
    const gameWidth: real
    const dropY: real
    const limitY: real
    /** The boundary bodies, as built at start-up. */
    const walls: map<int, Body>

    /** The bodies of the physics world, by id. */
    var world: map<int, Body>
    /** removedBodies: ids of bodies consumed by a merge. */
    var removed: set<int>
    /** The id the engine hands out next. */
    var nextId: int
    var score: int
    var bestScore: int
    var isGameOver: bool
    var canDrop: bool
    var gameOverTimer: int
    var currentFruitX: real
    var nextFruitIndex: nat
    /** The danger verdicts of the checks since the last initGame, oldest first. */
    ghost var checks: seq<bool>

    /** The part of the state the collision handler reads and writes. */
    ghost function State(): MergeState
      reads this
    {
      MergeState(world, removed, score, nextId)
    }

    /** The boundary bodies are in the world, as they were built. */
    ghost predicate WallsPresent()
      reads this
    {
      forall id :: id in walls ==> id in world && world[id] == walls[id]
    }

    ghost predicate Valid()
      reads this
    {
      && walls.Keys == {0, 1, 2, 3} && (forall id :: id in walls ==> walls[id].tag.Static?)
      && WellFormed(State())
      && WallsPresent()
      && 0 <= score && score % 20 == 0
      && nextFruitIndex < SpawnChoices
      && Clock(gameOverTimer, isGameOver) == Run(Start, checks)
    }

    /** The state when the script is loaded (script.js:53-60, 115, 473). */
    constructor (scale: real, storedBest: int)
      ensures Valid()
      ensures this.scale == scale && gameWidth == GameWidth(scale)
      ensures dropY == DropY(scale) && limitY == LimitY(scale) && walls == Walls(scale)
      ensures world == walls && removed == {} && nextId == FirstFruitId
      ensures score == 0 && bestScore == storedBest
      ensures !isGameOver && canDrop && gameOverTimer == 0
      ensures currentFruitX == GameWidth(scale) / 2.0 && nextFruitIndex == 0
      ensures checks == []
    {
      this.scale := scale;
      gameWidth := GameWidth(scale);
      dropY := DropY(scale);
      limitY := LimitY(scale);
      walls := Walls(scale);
      world := walls;
      removed := {};
      nextId := FirstFruitId;
      score := 0;
      bestScore := storedBest;
      isGameOver := false;
      canDrop := true;
      gameOverTimer := 0;
      currentFruitX := GameWidth(scale) / 2.0;
      nextFruitIndex := 0;
      checks := [];
    }

    /**
     * initGame: back to the boundary bodies alone, score and timer zero, the
     * game running and a drop allowed. removedBodies and the id counter are
     * left as they are.
     */
    method InitGame(choice: nat)
      requires Valid() && choice < SpawnChoices
      modifies this`world, this`score, this`isGameOver, this`canDrop, this`gameOverTimer
      modifies this`currentFruitX, this`checks, this`nextFruitIndex
      ensures Valid()
      ensures world == walls && removed == old(removed) && nextId == old(nextId)
      ensures score == 0 && bestScore == old(bestScore)
      ensures !isGameOver && canDrop && gameOverTimer == 0
      ensures currentFruitX == gameWidth / 2.0 && nextFruitIndex == choice
      ensures checks == []
    {
      world := walls;
      score := 0;
      isGameOver := false;
      canDrop := true;
      gameOverTimer := 0;
      currentFruitX := gameWidth / 2.0;
      checks := [];
      SpawnNextFruit(choice);
    }

    /**
     * spawnNextFruit, with Math.floor(Math.random() * 3) given as choice. An
     * internal step of InitGame and CooldownElapsed.
     */
    method SpawnNextFruit(choice: nat)
      requires choice < SpawnChoices
      modifies this`nextFruitIndex
      ensures nextFruitIndex == choice
    {
      nextFruitIndex := choice;
    }

    /**
     * dropFruit: nothing happens after game over or during the cooldown;
     * otherwise one fruit of the next tier appears at the drop position under
     * a fresh id, and drops are blocked until CooldownElapsed.
     */
    method DropFruit()
      requires Valid()
      modifies this`canDrop, this`world, this`nextId
      ensures Valid()
      ensures old(isGameOver) || !old(canDrop) ==>
        world == old(world) && nextId == old(nextId) && canDrop == old(canDrop)
      ensures !old(isGameOver) && old(canDrop) ==>
        && old(nextId) !in old(world)
        && world == old(world)[old(nextId) := NewFruit(nextFruitIndex, currentFruitX, dropY, scale)]
        && nextId == old(nextId) + 1 && !canDrop
    {
      if isGameOver || !canDrop {
        return;
      }
      canDrop := false;
      var body := NewFruit(nextFruitIndex, currentFruitX, dropY, scale);
      world := world[nextId := body];
      nextId := nextId + 1;
    }

    /**
     * The timeout of dropFruit, DropCooldown milliseconds after a drop: drops
     * are allowed again and a new next fruit is chosen.
     */
    method CooldownElapsed(choice: nat)
      requires Valid() && choice < SpawnChoices
      modifies this`canDrop, this`nextFruitIndex
      ensures Valid()
      ensures canDrop && nextFruitIndex == choice
    {
      canDrop := true;
      SpawnNextFruit(choice);
    }

    /** updateCurrentFruitPosition: the drop position follows the pointer, clamped to the field. */
    method UpdateCurrentFruitPosition(canvasX: real)
      requires Valid()
      modifies this`currentFruitX
      ensures Valid()
      ensures currentFruitX == ClampDropX(canvasX, Radius(nextFruitIndex, scale), gameWidth)
    {
      currentFruitX := ClampDropX(canvasX, Radius(nextFruitIndex, scale), gameWidth);
    }

    /**
     * The physics engine between two handlers: bodies move and their speeds
     * change, but no body appears or disappears, none changes kind or radius,
     * and the static boundary bodies stay where they are. The new positions and
     * speeds are whatever the engine computed.
     */
    method EngineStep(w: map<int, Body>)
      requires Valid()
      requires w.Keys == world.Keys
      requires forall id :: id in w ==> w[id].tag == world[id].tag && w[id].radius == world[id].radius
      requires forall id :: id in walls ==> w[id] == walls[id]
      modifies this`world
      ensures world == w && Valid()
    {
      world := w;
    }

    /**
     * The collisionStart handler: the pairs of one event, in order, each
     * merged or skipped by the rule of MergeStep. It does not look at
     * isGameOver.
     */
    method CollisionStart(pairs: seq<CollisionPair>)
      requires Valid() && Reported(State(), pairs)
      modifies this`world, this`removed, this`score, this`nextId
      ensures Valid()
      ensures State() == MergeBatch(old(State()), pairs, scale)
    {
      ghost var s0 := State();
      var i := 0;
      while i < |pairs|
        invariant 0 <= i <= |pairs|
        invariant State() == MergeBatch(s0, pairs[..i], scale)
      {
        HandlePair(pairs[i]);
        MergeBatchSnoc(s0, pairs, i, scale);
        i := i + 1;
      }
      assert pairs[..|pairs|] == pairs;
      MergeBatchPreserves(s0, pairs, scale);
      WallsSurvive(s0, pairs, scale, walls);
    }

    /**
     * One iteration of the handler's loop (script.js:479-505). An internal
     * step of CollisionStart, which re-establishes Valid() for the whole event.
     */
    method HandlePair(pair: CollisionPair)
      modifies this`world, this`removed, this`score, this`nextId
      ensures State() == MergeStep(old(State()), pair, scale)
    {
      var bodyA, bodyB := pair.bodyA, pair.bodyB;
      if !bodyA.tag.Fruit? || !bodyB.tag.Fruit? {
        return;
      }
      if pair.idA in removed || pair.idB in removed {
        return;
      }
      var indexA, indexB := bodyA.tag.tier, bodyB.tag.tier;
      if indexA == indexB && indexA < TopTier {
        var midX := (bodyA.x + bodyB.x) / 2.0;
        var midY := (bodyA.y + bodyB.y) / 2.0;
        removed := removed + {pair.idA};
        removed := removed + {pair.idB};
        world := world - {pair.idA, pair.idB};
        score := score + Score(indexA) * 2;
        world := world[nextId := NewFruit(indexA + 1, midX, midY, scale)];
        nextId := nextId + 1;
      }
    }

    /**
     * The cleanup run every CleanupInterval milliseconds: every id of removedBodies whose body is no
     * longer in the world is deleted from the set. Since no live body is ever
     * marked removed, the set ends up empty.
     */
    method Cleanup()
      requires Valid()
      modifies this`removed
      ensures Valid()
      ensures removed == Prune(old(removed), world)
      ensures removed == {}
    {
      ghost var before := removed;
      var id := 0;
      while id < nextId
        invariant removed <= before
        invariant forall j :: j in before && (id <= j || j in world) ==> j in removed
        invariant forall j :: j in removed && j < id ==> j in world
      {
        if id in removed && id !in world {
          removed := removed - {id};
        }
        id := id + 1;
      }
      PruneEmpties(MergeState(world, before, score, nextId));
    }

    /**
     * checkGameOver: nothing after game over. Otherwise the timer grows by
     * one check interval when some fruit is in danger, and the game ends once
     * it reaches the threshold; with no fruit in danger the timer is reset.
     */
    method CheckGameOver()
      requires Valid()
      modifies this`gameOverTimer, this`isGameOver, this`canDrop, this`bestScore, this`checks
      ensures Valid()
      ensures old(isGameOver) ==> unchanged(this)
      ensures !old(isGameOver) ==>
        var danger := AnyDanger(world, limitY, SpeedThreshold);
        && checks == old(checks) + [danger]
        && Clock(gameOverTimer, isGameOver) == Tick(Clock(old(gameOverTimer), false), danger)
        && (danger ==> gameOverTimer == old(gameOverTimer) + CheckInterval)
        && (!danger ==> gameOverTimer == 0)
        && (isGameOver ==> !canDrop && bestScore == (if score > old(bestScore) then score else old(bestScore)))
        && (!isGameOver ==> canDrop == old(canDrop) && bestScore == old(bestScore))
      ensures isGameOver <==> ThreeInARow(checks)
    {
      if isGameOver {
        RunFromStart(checks);
        return;
      }
      var danger := ScanForDanger(world, nextId, limitY, SpeedThreshold);
      RunSnoc(Start, checks, danger);
      checks := checks + [danger];
      if danger {
        gameOverTimer := gameOverTimer + CheckInterval;
        if gameOverTimer >= GameOverThreshold {
          EndGame();
        }
      } else {
        gameOverTimer := 0;
      }
      RunFromStart(checks);
    }

    /**
     * endGame: the game stops accepting drops and the best score takes in the
     * final score. An internal step of CheckGameOver, which calls it only when
     * the timer has reached the threshold and so keeps Valid().
     */
    method EndGame()
      modifies this`isGameOver, this`canDrop, this`bestScore
      ensures isGameOver && !canDrop
      ensures bestScore == if score > old(bestScore) then score else old(bestScore)
      ensures bestScore >= score && bestScore >= old(bestScore)
    {
      isGameOver := true;
      canDrop := false;
      if score > bestScore {
        bestScore := score;
      }
    }
  }
}
