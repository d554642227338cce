/**
 * The fruit table and the layout constants of the game (script.js:2-3,
 * 21-22, 42-50, 62-67). Every pixel size is a base size multiplied by the
 * responsive scale factor and rounded with Math.round; the scale factor
 * itself is measured from the page and is a parameter here.
 */
module Fruits {

  /** Number of entries in the FRUITS table (grape .. watermelon). */
  const TierCount: nat := 7

  /** Index of the watermelon, the last tier: it cannot merge any further. */
  const TopTier: nat := TierCount - 1

  const BaseWidth: real := 450.0
  const BaseHeight: real := 600.0
  const BaseDropY: real := 50.0
  const BaseLimitY: real := 150.0

  /** Delay before the next drop is allowed, in milliseconds. */
  const DropCooldown: nat := 500

  /** Accumulated danger time that ends the game, in milliseconds. */
  const GameOverThreshold: nat := 3000

  /** Period of the danger check, and the amount the danger timer grows by per check. */
  const CheckInterval: nat := 1000

  /** Period of the removed-id cleanup, in milliseconds. */
  const CleanupInterval: nat := 5000

  /** Gap kept between a fruit about to be dropped and the side walls. */
  const WallPadding: real := 5.0

  /** A fruit moving slower than this counts as resting. */
  const SpeedThreshold: real := 0.2

  /** Only the first three tiers are offered as the next fruit to drop. */
  const SpawnChoices: nat := 3

  /** JavaScript's Math.round: the nearest integer, halves rounded up. */
  function Round(x: real): (r: int)
    ensures x - 0.5 < r as real <= x + 0.5
  {
    (x + 0.5).Floor
  }

  /** FRUITS[k].score. */
  function Score(k: nat): (r: nat)
    requires k < TierCount
    ensures r == 10 * (k + 1)
  {
    [10, 20, 30, 40, 50, 60, 70][k]
  }

  /** The unscaled radius of FRUITS[k]; larger tiers are strictly larger. */
  function BaseRadius(k: nat): (r: nat)
    requires k < TierCount
    ensures 15 <= r <= 100
    ensures 0 < k ==> BaseRadius(k - 1) < r
  {
    [15, 25, 35, 45, 60, 80, 100][k]
  }

  lemma RoundMonotone(x: real, y: real)
    requires x <= y
    ensures Round(x) <= Round(y)
  {
  }

  lemma ScaleMonotone(a: real, b: real, scale: real)
    requires a <= b && 0.0 <= scale
    ensures a * scale <= b * scale
  {
  }

  /** FRUITS[k].radius = Math.round(base radius * SCALE). */
  function Radius(k: nat, scale: real): (r: real)
    requires k < TierCount
    ensures r == r.Floor as real
    ensures BaseRadius(k) as real * scale - 0.5 < r <= BaseRadius(k) as real * scale + 0.5
    ensures 0 < k && 0.0 <= scale ==> Radius(k - 1, scale) <= r
  {
    if 0 < k && 0.0 <= scale then
      ScaleMonotone(BaseRadius(k - 1) as real, BaseRadius(k) as real, scale);
      RoundMonotone(BaseRadius(k - 1) as real * scale, BaseRadius(k) as real * scale);
      Round(BaseRadius(k) as real * scale) as real
    else
      Round(BaseRadius(k) as real * scale) as real
  }

  /** GAME_WIDTH. */
  function GameWidth(scale: real): (r: real)
    ensures r == r.Floor as real && BaseWidth * scale - 0.5 < r <= BaseWidth * scale + 0.5
  {
    Round(BaseWidth * scale) as real
  }

  /** GAME_HEIGHT. */
  function GameHeight(scale: real): (r: real)
    ensures r == r.Floor as real && BaseHeight * scale - 0.5 < r <= BaseHeight * scale + 0.5
  {
    Round(BaseHeight * scale) as real
  }

  /** DROP_Y, the height at which a dropped fruit appears. */
  function DropY(scale: real): (r: real)
    ensures r == r.Floor as real && BaseDropY * scale - 0.5 < r <= BaseDropY * scale + 0.5
  {
    Round(BaseDropY * scale) as real
  }

  /** LIMIT_Y, the height of the limit line. */
  function LimitY(scale: real): (r: real)
    ensures r == r.Floor as real && BaseLimitY * scale - 0.5 < r <= BaseLimitY * scale + 0.5
  {
    Round(BaseLimitY * scale) as real
  }

  function Min(a: real, b: real): real { if a <= b then a else b }

  function Max(a: real, b: real): real { if a >= b then a else b }

  /**
   * The horizontal drop position for a pointer at canvasX, for a fruit of the
   * given radius in a field of the given width: Math.max(r + 5,
   * Math.min(canvasX, width - r - 5)). When the allowed interval is empty, the
   * lower bound wins.
   */
  function ClampDropX(canvasX: real, radius: real, width: real): (x: real)
    ensures x >= radius + WallPadding
    ensures radius + WallPadding <= width - radius - WallPadding ==> x <= width - radius - WallPadding
    ensures radius + WallPadding <= canvasX <= width - radius - WallPadding ==> x == canvasX
    ensures canvasX < radius + WallPadding ==> x == radius + WallPadding
    ensures radius + WallPadding <= width - radius - WallPadding < canvasX ==> x == width - radius - WallPadding
    ensures width - radius - WallPadding < radius + WallPadding ==> x == radius + WallPadding
  {
    Max(radius + WallPadding, Min(canvasX, width - radius - WallPadding))
  }

  /** Clamping an already clamped position leaves it where it is. */
  lemma ClampIdempotent(canvasX: real, radius: real, width: real)
    ensures ClampDropX(ClampDropX(canvasX, radius, width), radius, width) == ClampDropX(canvasX, radius, width)
  {
  }
}
