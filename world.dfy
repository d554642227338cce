/**
 * The physics world as the merge controller sees it, and the merge rule of
 * the collisionStart handler (script.js:473-507). Matter.js is outside the
 * model: its world is a map from body id to what the controller reads of a
 * body, and one collisionStart event is the sequence of pairs it reports.
 */
module World {
  import opened Fruits
  import opened Labels
  import opened Wrappers

  /** What the controller reads of a body: kind, centre, circleRadius, speed. */
  datatype Body = Body(tag: Tag, x: real, y: real, radius: real, speed: real)

  /** One reported pair, with the two bodies as they were when it was reported. */
  datatype CollisionPair = CollisionPair(idA: int, bodyA: Body, idB: int, bodyB: Body)

  /**
   * What the handler reads and writes: the live bodies, the removedBodies
   * set, the score, and the next id the engine will hand out.
   */
  datatype MergeState = MergeState(world: map<int, Body>, removed: set<int>, score: int, nextId: int)

  /**
   * The invariant the game keeps: every id in use was handed out already,
   * every fruit has a tier of the table, and no live body is marked removed.
   */
  ghost predicate WellFormed(s: MergeState)
  {
    && (forall id :: id in s.world ==> 0 <= id < s.nextId)
    && (forall id :: id in s.removed ==> 0 <= id < s.nextId)
    && (forall id :: id in s.world && s.world[id].tag.Fruit? ==> s.world[id].tag.tier < TierCount)
    && s.removed !! s.world.Keys
  }

  /**
   * What the engine guarantees of the pairs of one event: each pair joins two
   * different bodies that were live when the event fired, as they were then.
   */
  ghost predicate Reported(s: MergeState, pairs: seq<CollisionPair>)
  {
    forall i :: 0 <= i < |pairs| ==>
      && pairs[i].idA != pairs[i].idB
      && pairs[i].idA in s.world && s.world[pairs[i].idA] == pairs[i].bodyA
      && pairs[i].idB in s.world && s.world[pairs[i].idB] == pairs[i].bodyB
  }

  /**
   * The guard of the handler: both bodies are fruits, neither was consumed
   * already, the tiers are equal and not the top tier.
   */
  predicate Merges(s: MergeState, p: CollisionPair)
  {
    && p.bodyA.tag.Fruit? && p.bodyB.tag.Fruit?
    && p.idA !in s.removed && p.idB !in s.removed
    && p.bodyA.tag.tier == p.bodyB.tag.tier
    && p.bodyA.tag.tier < TopTier
  }

  /**
   * The guard as the handler writes it, on label strings: both labels start
   * with "fruit_", neither id is in removedBodies, and the two parsed indices
   * are equal (NaN equals nothing) and below FRUITS.length - 1.
   */
  predicate LabelGuard(s: MergeState, p: CollisionPair)
  {
    var la, lb := Label(p.bodyA.tag), Label(p.bodyB.tag);
    && IsFruitLabel(la) && IsFruitLabel(lb)
    && p.idA !in s.removed && p.idB !in s.removed
    && ParseTier(la).Some? && ParseTier(la) == ParseTier(lb)
    && ParseTier(la).value < TierCount - 1
  }

  /**
   * The typed guard is the handler's guard: as long as no static body carries
   * a label starting with "fruit_", a pair merges exactly when the string
   * tests of the handler let it through.
   */
  lemma MergesByLabels(s: MergeState, p: CollisionPair)
    requires p.bodyA.tag.Static? ==> !IsFruitLabel(p.bodyA.tag.name)
    requires p.bodyB.tag.Static? ==> !IsFruitLabel(p.bodyB.tag.name)
    ensures Merges(s, p) <==> LabelGuard(s, p)
  {
    TagRoundTrip(p.bodyA.tag);
    TagRoundTrip(p.bodyB.tag);
  }

  /** createFruit(x, y, k): a fresh circle of FRUITS[k].radius, at rest. */
  function NewFruit(k: nat, x: real, y: real, scale: real): (b: Body)
    requires k < TierCount
    ensures IsFruitLabel(Label(b.tag)) && ParseTier(Label(b.tag)) == Some(k)
    ensures b.x == x && b.y == y && b.radius == Radius(k, scale) && b.speed == 0.0
  {
    FormatParse(k);
    Body(Fruit(k), x, y, Radius(k, scale), 0.0)
  }

  /** The fruit a merge of a pair of tier-k fruits creates, at the midpoint of the pair. */
  function MergedFruit(p: CollisionPair, scale: real): Body
    requires p.bodyA.tag.Fruit? && p.bodyA.tag.tier < TopTier
  {
    NewFruit(p.bodyA.tag.tier + 1, (p.bodyA.x + p.bodyB.x) / 2.0, (p.bodyA.y + p.bodyB.y) / 2.0, scale)
  }

  /** One iteration of the handler's loop over the pairs. */
  function MergeStep(s: MergeState, p: CollisionPair, scale: real): (r: MergeState)
    ensures r != s <==> Merges(s, p)
    ensures s.score <= r.score && (r.score - s.score) % 20 == 0
    ensures s.removed <= r.removed && s.nextId <= r.nextId <= s.nextId + 1
  {
    if Merges(s, p) then
      MergeState(
        (s.world - {p.idA, p.idB})[s.nextId := MergedFruit(p, scale)],
        s.removed + {p.idA, p.idB},
        s.score + 2 * Score(p.bodyA.tag.tier),
        s.nextId + 1)
    else
      s
  }

  /** The whole handler: the pairs in the order they were reported. */
  function MergeBatch(s: MergeState, pairs: seq<CollisionPair>, scale: real): (r: MergeState)
    ensures s.score <= r.score && s.removed <= r.removed
    ensures s.nextId <= r.nextId <= s.nextId + |pairs|
    decreases |pairs|
  {
    if pairs == [] then s
    else MergeStep(MergeBatch(s, pairs[..|pairs| - 1], scale), pairs[|pairs| - 1], scale)
  }

  /** One more pair of an event: the handler's loop runs MergeStep on it after the pairs before it. */
  lemma MergeBatchSnoc(s: MergeState, pairs: seq<CollisionPair>, i: nat, scale: real)
    requires i < |pairs|
    ensures MergeBatch(s, pairs[..i + 1], scale) == MergeStep(MergeBatch(s, pairs[..i], scale), pairs[i], scale)
  {
    assert pairs[..i + 1][..i] == pairs[..i];
  }

  /** Whether pair i of the event merges, given everything the pairs before it did. */
  predicate MergedAt(s: MergeState, pairs: seq<CollisionPair>, i: nat, scale: real)
    requires i < |pairs|
  {
    Merges(MergeBatch(s, pairs[..i], scale), pairs[i])
  }

  /**
   * The effect of one merge: the score grows by twice the tier's score,
   * exactly the two bodies go, exactly one fruit of the next tier arrives
   * under a fresh id at their midpoint, both ids are recorded as removed,
   * nothing else in the world changes, and the world holds one body fewer.
   */
  lemma MergeStepEffect(s: MergeState, p: CollisionPair, scale: real)
    requires WellFormed(s)
    requires p.idA != p.idB && p.idA in s.world && p.idB in s.world
    requires Merges(s, p)
    ensures var t, k := MergeStep(s, p, scale), p.bodyA.tag.tier;
      && t.score == s.score + 20 * (k + 1)
      && t.removed == s.removed + {p.idA, p.idB}
      && s.nextId !in s.world
      && t.world.Keys == s.world.Keys - {p.idA, p.idB} + {s.nextId}
      && t.world[s.nextId] == Body(Fruit(k + 1), (p.bodyA.x + p.bodyB.x) / 2.0, (p.bodyA.y + p.bodyB.y) / 2.0, Radius(k + 1, scale), 0.0)
      && (forall id :: id in s.world && id != p.idA && id != p.idB ==> t.world[id] == s.world[id])
      && |t.world| == |s.world| - 1
      && WellFormed(t)
  {
  }

  /** One step keeps the invariant, when the pair's ids were handed out already. */
  lemma MergeStepWellFormed(s: MergeState, p: CollisionPair, scale: real)
    requires WellFormed(s)
    requires 0 <= p.idA < s.nextId && 0 <= p.idB < s.nextId
    ensures WellFormed(MergeStep(s, p, scale))
    ensures s.nextId <= MergeStep(s, p, scale).nextId
    ensures s.removed <= MergeStep(s, p, scale).removed
  {
  }

  /**
   * A whole event keeps the invariant, the score only grows and always by a
   * multiple of 20, ids only advance, and ids once marked removed stay marked.
   */
  lemma {:induction false} MergeBatchPreserves(s: MergeState, pairs: seq<CollisionPair>, scale: real)
    requires WellFormed(s) && Reported(s, pairs)
    ensures var t := MergeBatch(s, pairs, scale);
      && WellFormed(t)
      && s.score <= t.score && (t.score - s.score) % 20 == 0
      && s.nextId <= t.nextId
      && s.removed <= t.removed
    decreases |pairs|
  {
    if pairs != [] {
      var init := pairs[..|pairs| - 1];
      assert Reported(s, init) by {
        forall i | 0 <= i < |init| ensures init[i] == pairs[i] { }
      }
      MergeBatchPreserves(s, init, scale);
      var m := MergeBatch(s, init, scale);
      var p := pairs[|pairs| - 1];
      assert p.idA in s.world && p.idB in s.world;
      MergeStepWellFormed(m, p, scale);
      if Merges(m, p) {
        var k := p.bodyA.tag.tier;
        assert MergeBatch(s, pairs, scale).score - s.score == (m.score - s.score) + 20 * (k + 1);
      }
    }
  }

  /** Running the first j pairs of an event marks removed at least what the first i did. */
  lemma {:induction false} RemovedGrows(s: MergeState, pairs: seq<CollisionPair>, i: nat, j: nat, scale: real)
    requires i <= j <= |pairs|
    ensures MergeBatch(s, pairs[..i], scale).removed <= MergeBatch(s, pairs[..j], scale).removed
    decreases j - i
  {
    if i < j {
      RemovedGrows(s, pairs, i, j - 1, scale);
      assert pairs[..j][..j - 1] == pairs[..j - 1];
    }
  }

  /**
   * No body is consumed twice: when pair i merges, no later pair of the same
   * event that shares a body with it merges.
   */
  lemma NoDoubleConsumption(s: MergeState, pairs: seq<CollisionPair>, i: nat, j: nat, scale: real)
    requires i < j < |pairs|
    requires MergedAt(s, pairs, i, scale)
    requires {pairs[i].idA, pairs[i].idB} * {pairs[j].idA, pairs[j].idB} != {}
    ensures !MergedAt(s, pairs, j, scale)
  {
    assert pairs[..i + 1][..i] == pairs[..i];
    RemovedGrows(s, pairs, i + 1, j, scale);
    assert {pairs[i].idA, pairs[i].idB} <= MergeBatch(s, pairs[..i + 1], scale).removed;
  }

  /**
   * After an event, every body of a pair that merged is marked removed and is
   * no longer in the world.
   */
  lemma {:induction false} MergedStayGone(s: MergeState, pairs: seq<CollisionPair>, i: nat, scale: real)
    requires WellFormed(s) && Reported(s, pairs)
    requires i < |pairs| && MergedAt(s, pairs, i, scale)
    ensures var t := MergeBatch(s, pairs, scale);
      && pairs[i].idA in t.removed && pairs[i].idB in t.removed
      && pairs[i].idA !in t.world && pairs[i].idB !in t.world
    decreases |pairs|
  {
    var init := pairs[..|pairs| - 1];
    assert Reported(s, init) by {
      forall k | 0 <= k < |init| ensures init[k] == pairs[k] { }
    }
    MergeBatchPreserves(s, pairs, scale);
    if i < |pairs| - 1 {
      assert init[..i] == pairs[..i];
      MergedStayGone(s, init, i, scale);
      MergeBatchPreserves(s, init, scale);
      RemovedGrows(s, pairs, |pairs| - 1, |pairs|, scale);
      assert pairs[..|pairs|] == pairs;
    }
  }

  /** A body the merge rule can never take: a static body or a top-tier fruit. */
  predicate Unmergeable(b: Body)
  {
    b.tag.Static? || b.tag.tier >= TopTier
  }

  /**
   * Walls, the sensor and watermelons are never consumed: a body that cannot
   * merge is in the world after an event exactly as it was before.
   */
  lemma {:induction false} UnmergeableStays(s: MergeState, pairs: seq<CollisionPair>, id: int, scale: real)
    requires WellFormed(s) && Reported(s, pairs)
    requires id in s.world && Unmergeable(s.world[id])
    ensures id in MergeBatch(s, pairs, scale).world
    ensures MergeBatch(s, pairs, scale).world[id] == s.world[id]
    decreases |pairs|
  {
    if pairs != [] {
      var init := pairs[..|pairs| - 1];
      assert Reported(s, init) by {
        forall k | 0 <= k < |init| ensures init[k] == pairs[k] { }
      }
      UnmergeableStays(s, init, id, scale);
      MergeBatchPreserves(s, init, scale);
    }
  }

  /**
   * The removed-id cleanup: removedBodies cut down to the ids still in the
   * world. Ids of live bodies are never dropped, and only they are kept.
   */
  function Prune(removed: set<int>, world: map<int, Body>): (r: set<int>)
    ensures r <= removed
    ensures forall id :: id in removed && id in world ==> id in r
    ensures forall id :: id in r ==> id in world
  {
    removed * world.Keys
  }

  /**
   * The cleanup is safe: for an event whose bodies are all live, running it
   * after the cleanup merges the same pairs, with the same world, score and
   * ids, as running it before; only the pruned ids are missing from the
   * removed set.
   */
  lemma {:induction false} PruneThenBatch(s: MergeState, pairs: seq<CollisionPair>, scale: real)
    requires Reported(s, pairs)
    ensures var pruned := MergeState(s.world, Prune(s.removed, s.world), s.score, s.nextId);
      var t, u := MergeBatch(s, pairs, scale), MergeBatch(pruned, pairs, scale);
      && u.world == t.world && u.score == t.score && u.nextId == t.nextId
      && u.removed == t.removed - (s.removed - s.world.Keys)
    decreases |pairs|
  {
    if pairs != [] {
      var init := pairs[..|pairs| - 1];
      assert Reported(s, init) by {
        forall k | 0 <= k < |init| ensures init[k] == pairs[k] { }
      }
      PruneThenBatch(s, init, scale);
      var p := pairs[|pairs| - 1];
      assert p.idA in s.world && p.idB in s.world;
    }
  }

  /** Under the invariant no live body is marked removed, so the cleanup empties the set. */
  lemma PruneEmpties(s: MergeState)
    requires WellFormed(s)
    ensures Prune(s.removed, s.world) == {}
  {
  }

  /**
   * The danger condition of the game-over check: a fruit at rest whose top
   * pokes above the limit line.
   */
  predicate InDanger(b: Body, limitY: real, speedLimit: real): (r: bool)
    ensures r ==> IsFruitLabel(Label(b.tag))
  {
    b.tag.Fruit? && b.speed < speedLimit && b.y - b.radius < limitY
  }

  /** Some body of the world is in danger. */
  ghost predicate AnyDanger(world: map<int, Body>, limitY: real, speedLimit: real)
  {
    exists id :: id in world && InDanger(world[id], limitY, speedLimit)
  }

  /**
   * The scan of checkGameOver (a loop with a break): visit the bodies in the
   * order Matter.js lists them until one is in danger. Matter.js appends new
   * bodies to the world and hands out ids in increasing order, so that order
   * is the order of ids, all of them in [0, idBound).
   */
  method ScanForDanger(world: map<int, Body>, idBound: int, limitY: real, speedLimit: real) returns (danger: bool)
    requires forall id :: id in world ==> 0 <= id < idBound
    ensures danger <==> AnyDanger(world, limitY, speedLimit)
  {
    danger := false;
    var id := 0;
    while id < idBound
      invariant forall j :: j in world && j < id ==> !InDanger(world[j], limitY, speedLimit)
    {
      if id in world {
        var body := world[id];
        if body.tag.Fruit? && body.speed < speedLimit {
          if body.y - body.radius < limitY {
            danger := true;
            break;
          }
        }
      }
      id := id + 1;
    }
  }
}
