/**
 * The experience curve of the progression engine: what each level costs,
 * and how a cumulative experience total is turned into a level and the
 * experience still missing to reach the next one.
 */
module Curve {

  /** b raised to the n-th power, on unbounded naturals. */
  function Pow(b: nat, n: nat): (r: nat)
    ensures b > 0 ==> r > 0
  {
    if n == 0 then 1 else b * Pow(b, n - 1)
  }

  /**
   * Cost of `level`: 100 * 1.5^(level - 1), truncated, written on integers as
   * floor(100 * 3^(level-1) / 2^(level-1)). Every level costs at least 100.
   */
  function XpForLevel(level: int): (cost: nat)
    requires level >= 1
    ensures cost >= 100
  {
    PowThreeDominatesPowTwo(level - 1);
    DivAtLeast(100 * Pow(3, level - 1), Pow(2, level - 1), 100);
    (100 * Pow(3, level - 1)) / Pow(2, level - 1)
  }

  lemma {:induction false} PowThreeDominatesPowTwo(n: nat)
    ensures 0 < Pow(2, n) <= Pow(3, n)
  {
    if n > 0 {
      PowThreeDominatesPowTwo(n - 1);
    }
  }

  /** If k copies of d fit into x, the quotient x / d is at least k. */
  lemma DivAtLeast(x: int, d: int, k: int)
    requires d > 0 && k * d <= x
    ensures k <= x / d
  {
    var q, r := x / d, x % d;
    assert x == q * d + r && r < d;
    if q < k {
      MulMonotone(q + 1, k, d);
    }
  }

  lemma MulMonotone(a: int, b: int, d: int)
    requires a <= b && d >= 0
    ensures a * d <= b * d
  {
  }

  /** The first level costs 100 experience. */
  lemma FirstLevelCostsHundred()
    ensures XpForLevel(1) == 100
  {
  }

  /** The next levels cost 150, 225 and 337, the truncated values of 100 * 1.5^(level-1). */
  lemma SmallLevelCosts()
    ensures XpForLevel(2) == 150 && XpForLevel(3) == 225 && XpForLevel(4) == 337
  {
    assert Pow(3, 3) == 27 && Pow(2, 3) == 8;
  }

  /** Each level costs strictly more than the one before it. */
  lemma XpForLevelStep(level: int)
    requires level >= 1
    ensures XpForLevel(level) < XpForLevel(level + 1)
  {
    var n := level - 1;
    var a, b := 100 * Pow(3, n), Pow(2, n);
    assert Pow(3, n + 1) == 3 * Pow(3, n);
    assert Pow(2, n + 1) == 2 * Pow(2, n);
    assert 100 * Pow(3, n + 1) == 3 * a;
    var q := a / b;
    assert q == XpForLevel(level) && q >= 100;
    assert a == q * b + a % b && a % b >= 0;
    assert 3 * a >= 3 * (q * b);
    assert 2 * b <= q * b;
    assert (q + 1) * (2 * b) == 2 * (q * b) + 2 * b;
    DivAtLeast(3 * a, 2 * b, q + 1);
  }

  /** The curve is strictly increasing: a higher level always costs more. */
  lemma {:induction false} XpForLevelIncreasing(lo: int, hi: int)
    requires 1 <= lo < hi
    ensures XpForLevel(lo) < XpForLevel(hi)
    decreases hi - lo
  {
    XpForLevelStep(lo);
    if lo + 1 < hi {
      XpForLevelIncreasing(lo + 1, hi);
    }
  }

  /** Total cost of levels 1 .. level-1: the cumulative experience at which `level` is reached. */
  function XpBelow(level: int): (total: nat)
    requires level >= 1
    decreases level
  {
    if level == 1 then 0 else XpBelow(level - 1) + XpForLevel(level - 1)
  }

  /** Reaching a higher level always takes strictly more cumulative experience. */
  lemma {:induction false} XpBelowIncreasing(lo: int, hi: int)
    requires 1 <= lo < hi
    ensures XpBelow(lo) + XpForLevel(lo) <= XpBelow(hi)
    decreases hi - lo
  {
    if lo + 1 < hi {
      XpBelowIncreasing(lo + 1, hi);
    }
  }

  /**
   * The walk of the level loop: starting at `level` with `remaining`
   * experience left, pay for each level while the remainder covers it.
   */
  function LevelWalk(remaining: int, level: int): (r: (int, int))
    requires level >= 1
    ensures r.0 >= level
    decreases remaining
  {
    var cost := XpForLevel(level);
    if remaining < cost then (level, cost - remaining)
    else LevelWalk(remaining - cost, level + 1)
  }

  /** The (level, experience to next level) pair for a cumulative total. */
  function LevelOf(totalXp: int): (r: (int, int))
    ensures r.0 >= 1
  {
    LevelWalk(totalXp, 1)
  }

  /**
   * `level` and `xpToNext` describe `totalXp`: the total has reached `level`
   * (a negative total still sits at level 1), has not reached `level + 1`,
   * and `xpToNext` is exactly what is missing to get there.
   */
  ghost predicate IsLevelOf(totalXp: int, level: int, xpToNext: int)
  {
    && level >= 1
    && (level == 1 || XpBelow(level) <= totalXp)
    && totalXp < XpBelow(level + 1)
    && xpToNext == XpBelow(level + 1) - totalXp
  }

  lemma {:induction false} LevelWalkReaches(remaining: int, level: int)
    requires level >= 1
    ensures var r := LevelWalk(remaining, level);
      && r.0 >= level
      && (r.0 == level || XpBelow(r.0) <= XpBelow(level) + remaining)
      && XpBelow(level) + remaining < XpBelow(r.0 + 1)
      && r.1 == XpBelow(r.0 + 1) - (XpBelow(level) + remaining)
    decreases remaining
  {
    var cost := XpForLevel(level);
    if remaining >= cost {
      LevelWalkReaches(remaining - cost, level + 1);
    }
  }

  /** LevelOf gives the level the cumulative total has reached, and what is missing to the next. */
  lemma LevelOfIsLevel(totalXp: int)
    ensures IsLevelOf(totalXp, LevelOf(totalXp).0, LevelOf(totalXp).1)
  {
    LevelWalkReaches(totalXp, 1);
  }

  /**
   * For a non-negative total: the level is at least 1, 0 < xpToNext <= cost
   * of the level, and the total is the cost of all completed levels plus the
   * part of the current level already paid.
   */
  lemma LevelOfBounds(totalXp: int)
    requires totalXp >= 0
    ensures var (level, xpToNext) := LevelOf(totalXp);
      && level >= 1
      && 0 < xpToNext <= XpForLevel(level)
      && totalXp == XpBelow(level) + XpForLevel(level) - xpToNext
  {
    LevelOfIsLevel(totalXp);
  }

  /** At most one (level, xpToNext) pair describes a total. */
  lemma IsLevelOfUnique(totalXp: int, l1: int, x1: int, l2: int, x2: int)
    requires IsLevelOf(totalXp, l1, x1) && IsLevelOf(totalXp, l2, x2)
    ensures l1 == l2 && x1 == x2
  {
    if l1 < l2 {
      XpBelowIncreasing(l1 + 1, l2);
      assert false;
    } else if l2 < l1 {
      XpBelowIncreasing(l2 + 1, l1);
      assert false;
    }
  }

  /** More experience never gives a lower level. */
  lemma LevelOfMonotone(x: int, y: int)
    requires x <= y
    ensures LevelOf(x).0 <= LevelOf(y).0
  {
    LevelOfIsLevel(x);
    LevelOfIsLevel(y);
    var lx, ly := LevelOf(x).0, LevelOf(y).0;
    if ly < lx {
      XpBelowIncreasing(ly + 1, lx);
      assert false;
    }
  }

  /** No experience: level 1 with 100 to go, the figures a new account starts with. */
  lemma LevelOfZero()
    ensures LevelOf(0) == (1, 100)
  {
  }

  /**
   * The level loop: starting from level 1, subtract the cost of each level
   * from the total while the total covers it, then report the level reached
   * and the experience missing to the next one.
   */
  method CalculateLevelFromXp(totalXp: int) returns (level: int, xpToNext: int)
    ensures IsLevelOf(totalXp, level, xpToNext)
    ensures (level, xpToNext) == LevelOf(totalXp)
  {
    level := 1;
    var remaining := totalXp;
    while true
      invariant level >= 1
      invariant remaining == totalXp - XpBelow(level)
      invariant level > 1 ==> remaining >= 0
      invariant LevelWalk(remaining, level) == LevelOf(totalXp)
      decreases remaining
    {
      var xpNeeded := XpForLevel(level);
      if remaining < xpNeeded {
        break;
      }
      remaining := remaining - xpNeeded;
      level := level + 1;
    }
    xpToNext := XpForLevel(level) - remaining;
    LevelOfIsLevel(totalXp);
  }
}
