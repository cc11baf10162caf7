/**
 * The statistics cards on a profile: uploads, votes and streak shown as given,
 * and a level derived from uploads and votes. The source computes the level
 * in floating point as floor((uploads + votes / 10) / 10) + 1; here the same
 * expression is taken over exact reals and shown equal to an integer formula.
 */
module UserStats {

  /** The level as an integer: one level per 100 points, an upload worth 10 points and a
      vote 1. Dafny's `/` on a positive divisor rounds down, like `Math.floor`. */
  function Level(uploads: int, votes: int): int {
    (10 * uploads + votes) / 100 + 1
  }

  /** The level as written, over exact reals. */
  function RealLevel(uploads: int, votes: int): int {
    ((uploads as real + votes as real / 10.0) / 10.0).Floor + 1
  }

  lemma FloorOfHundredth(n: int)
    ensures (n as real / 100.0).Floor == n / 100
  {
    var q, r := n / 100, n % 100;
    assert n == 100 * q + r && 0 <= r < 100;
    assert n as real / 100.0 == q as real + r as real / 100.0;
  }

  /** The real-valued formula and the integer one agree on every input. */
  lemma RealLevelIsLevel(uploads: int, votes: int)
    ensures RealLevel(uploads, votes) == Level(uploads, votes)
  {
    var n := 10 * uploads + votes;
    assert (uploads as real + votes as real / 10.0) / 10.0 == n as real / 100.0;
    FloorOfHundredth(n);
  }

  /** Level 1 is the floor for a new user and is reached with nothing uploaded or voted. */
  lemma LevelAtLeastOne(uploads: nat, votes: nat)
    ensures Level(uploads, votes) >= 1
    ensures Level(0, 0) == 1
  {
  }

  /** More uploads or more votes never lower the level. */
  lemma LevelMonotone(u1: int, v1: int, u2: int, v2: int)
    requires u1 <= u2 && v1 <= v2
    ensures Level(u1, v1) <= Level(u2, v2)
  {
    MonotoneDivision(10 * u1 + v1, 10 * u2 + v2);
  }

  lemma MonotoneDivision(a: int, b: int)
    requires a <= b
    ensures a / 100 <= b / 100
  {
  }

  /** Ten more uploads, or a hundred more votes, is exactly one more level. */
  lemma LevelSteps(uploads: int, votes: int)
    ensures Level(uploads + 10, votes) == Level(uploads, votes) + 1
    ensures Level(uploads, votes + 100) == Level(uploads, votes) + 1
  {
    var n := 10 * uploads + votes;
    assert (n + 100) / 100 == n / 100 + 1;
  }

  /** The four card values: the three totals as given, then the level. */
  function CardValues(uploads: int, votes: int, streak: int): (r: seq<int>)
    ensures |r| == 4 && r[..3] == [uploads, votes, streak]
    ensures uploads >= 0 && votes >= 0 ==> r[3] >= 1
  {
    [uploads, votes, streak, RealLevel(uploads, votes)]
  }
}
