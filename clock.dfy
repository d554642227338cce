/**
 * The danger timer of checkGameOver (script.js:518-543): every check adds
 * 1000 ms while some fruit rests above the limit line and resets to zero
 * otherwise; the game ends when the timer reaches GAME_OVER_THRESHOLD. Here
 * the timer and the game-over flag are a value, and a sequence of checks is
 * the sequence of their danger verdicts.
 */
module DangerClock {
  import opened Fruits

  /** gameOverTimer and isGameOver. */
  datatype Clock = Clock(timer: int, over: bool)

  /** The clock as initGame leaves it. */
  const Start: Clock := Clock(0, false)

  /** One call of checkGameOver, given whether some body was in danger. */
  function Tick(c: Clock, danger: bool): (r: Clock)
    ensures c.over ==> r == c
    ensures !c.over && !danger ==> r == Start
    ensures r.over ==> c.over || (danger && r.timer >= GameOverThreshold)
    ensures c.timer % CheckInterval == 0 ==> r.timer % CheckInterval == 0
  {
    if c.over then c
    else if danger then
      var t := c.timer + CheckInterval;
      Clock(t, t >= GameOverThreshold)
    else
      Clock(0, false)
  }

  /** A sequence of checks, oldest verdict first. */
  function Run(c: Clock, dangers: seq<bool>): (r: Clock)
    ensures r.over ==> c.over || r.timer >= GameOverThreshold
    ensures c.timer % CheckInterval == 0 ==> r.timer % CheckInterval == 0
    decreases |dangers|
  {
    if dangers == [] then c
    else Tick(Run(c, dangers[..|dangers| - 1]), dangers[|dangers| - 1])
  }

  /** The number of danger verdicts at the end of the sequence, back to the last clear one. */
  function TrailingDanger(dangers: seq<bool>): (n: nat)
    ensures n <= |dangers|
    decreases |dangers|
  {
    if dangers == [] || !dangers[|dangers| - 1] then 0
    else TrailingDanger(dangers[..|dangers| - 1]) + 1
  }

  /** Three danger verdicts in a row occur somewhere in the sequence. */
  ghost predicate ThreeInARow(dangers: seq<bool>)
  {
    exists i :: 0 <= i && i + 2 < |dangers| && dangers[i] && dangers[i + 1] && dangers[i + 2]
  }

  /** A run of three in a sequence is one in its prefix or one at its very end. */
  lemma ThreeInARowSplit(dangers: seq<bool>)
    requires dangers != []
    ensures var n := |dangers|;
      ThreeInARow(dangers) <==>
        ThreeInARow(dangers[..n - 1]) || (n >= 3 && dangers[n - 3] && dangers[n - 2] && dangers[n - 1])
  {
  }

  /** The trailing run is at least three long exactly when the last three verdicts are all danger. */
  lemma TrailingThree(dangers: seq<bool>)
    ensures var n := |dangers|;
      TrailingDanger(dangers) >= 3 <==> (n >= 3 && dangers[n - 3] && dangers[n - 2] && dangers[n - 1])
  {
  }

  /**
   * From a fresh game: the game is over exactly when three consecutive checks
   * found danger; until then the timer is 1000 ms per check of the current
   * run of danger verdicts (a clear check restarts it at zero); and when the
   * game ends the timer stands at exactly GAME_OVER_THRESHOLD.
   */
  lemma {:induction false} RunFromStart(dangers: seq<bool>)
    ensures Run(Start, dangers).over <==> ThreeInARow(dangers)
    ensures !Run(Start, dangers).over ==>
      TrailingDanger(dangers) < 3 && Run(Start, dangers).timer == CheckInterval * TrailingDanger(dangers)
    ensures Run(Start, dangers).over ==> Run(Start, dangers).timer == GameOverThreshold
    decreases |dangers|
  {
    if dangers != [] {
      var n := |dangers|;
      var init := dangers[..n - 1];
      RunFromStart(init);
      ThreeInARowSplit(dangers);
      TrailingThree(dangers);
      TrailingThree(init);
      if n >= 2 {
        assert init[..n - 2] == dangers[..n - 2];
      }
    }
  }

  /** Game over is final: further checks change nothing. */
  lemma {:induction false} OverIsFinal(c: Clock, dangers: seq<bool>)
    requires c.over
    ensures Run(c, dangers) == c
    decreases |dangers|
  {
    if dangers != [] {
      OverIsFinal(c, dangers[..|dangers| - 1]);
    }
  }

  /** The game never ends before the third check. */
  lemma NeverBeforeThird(dangers: seq<bool>)
    requires |dangers| < 3
    ensures !Run(Start, dangers).over
  {
    RunFromStart(dangers);
  }

  /** Danger on three consecutive checks ends the game on the third, not before. */
  lemma ThreeDangerChecks()
    ensures !Run(Start, [true]).over && !Run(Start, [true, true]).over
    ensures Run(Start, [true, true, true]) == Clock(GameOverThreshold, true)
  {
  }

  /** One more check after a sequence of checks. */
  lemma RunSnoc(c: Clock, dangers: seq<bool>, d: bool)
    ensures Run(c, dangers + [d]) == Tick(Run(c, dangers), d)
  {
    assert (dangers + [d])[..|dangers|] == dangers;
  }

  /**
   * Danger twice, one clear check, then danger three times: the clear check
   * resets the timer, and the game ends only on the sixth check.
   */
  lemma GapRestartsCount()
    ensures var ds := [true, true, false, true, true, true];
      && Run(Start, ds[..3]) == Start
      && (forall n :: 0 <= n < 6 ==> !Run(Start, ds[..n]).over)
      && Run(Start, ds).over
  {
    var ds := [true, true, false, true, true, true];
    var expected := [Start, Clock(1000, false), Clock(2000, false), Start,
                     Clock(1000, false), Clock(2000, false), Clock(3000, true)];
    forall n | 0 <= n <= 6 ensures Run(Start, ds[..n]) == expected[n] {
      RunMatches(ds, expected, n);
    }
    assert ds[..6] == ds;
  }

  /** Helper of GapRestartsCount: the scenario's clock values, check by check. */
  lemma {:induction false} RunMatches(ds: seq<bool>, expected: seq<Clock>, n: nat)
    requires ds == [true, true, false, true, true, true]
    requires expected == [Start, Clock(1000, false), Clock(2000, false), Start,
                          Clock(1000, false), Clock(2000, false), Clock(3000, true)]
    requires n <= 6
    ensures Run(Start, ds[..n]) == expected[n]
  {
    if n > 0 {
      RunMatches(ds, expected, n - 1);
      RunSnoc(Start, ds[..n - 1], ds[n - 1]);
      assert ds[..n - 1] + [ds[n - 1]] == ds[..n];
    }
  }
}
