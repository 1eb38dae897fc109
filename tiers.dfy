/** The cosmetic avatar tier, derived from the level by fixed breakpoints. */
module Tiers {

  datatype AvatarTier = Bronze | Silver | Gold | Diamond | Shadow

  /** The tier for a level: Shadow from 50, Diamond from 30, Gold from 20, Silver from 10, else Bronze. */
  function AvatarTierOf(level: int): (t: AvatarTier)
    ensures t == Bronze <==> level < 10
    ensures t == Silver <==> 10 <= level < 20
    ensures t == Gold <==> 20 <= level < 30
    ensures t == Diamond <==> 30 <= level < 50
    ensures t == Shadow <==> 50 <= level
  {
    if level >= 50 then Shadow
    else if level >= 30 then Diamond
    else if level >= 20 then Gold
    else if level >= 10 then Silver
    else Bronze
  }

  /** The name stored in the user record. */
  function TierName(t: AvatarTier): string
  {
    match t
    case Bronze => "Bronze"
    case Silver => "Silver"
    case Gold => "Gold"
    case Diamond => "Diamond"
    case Shadow => "Shadow"
  }

  /** Position of a tier in the order Bronze < Silver < Gold < Diamond < Shadow. */
  function Rank(t: AvatarTier): nat
  {
    match t
    case Bronze => 0
    case Silver => 1
    case Gold => 2
    case Diamond => 3
    case Shadow => 4
  }

  /** The levels at which a new tier starts. */
  const TierBreakpoints: seq<int> := [10, 20, 30, 50]

  /** How many of the breakpoints `level` has reached. */
  function CountReached(breakpoints: seq<int>, level: int): (n: nat)
    ensures n <= |breakpoints|
  {
    if breakpoints == [] then 0
    else (if breakpoints[0] <= level then 1 else 0) + CountReached(breakpoints[1..], level)
  }

  /** Reaching more levels never reaches fewer breakpoints. */
  lemma {:induction false} CountReachedMonotone(breakpoints: seq<int>, lo: int, hi: int)
    requires lo <= hi
    ensures CountReached(breakpoints, lo) <= CountReached(breakpoints, hi)
  {
    if breakpoints != [] {
      CountReachedMonotone(breakpoints[1..], lo, hi);
    }
  }

  /** The tier's rank is the number of breakpoints reached: an independent reading of the if-chain. */
  lemma AvatarTierMatchesBreakpoints(level: int)
    ensures Rank(AvatarTierOf(level)) == CountReached(TierBreakpoints, level)
  {
    var b := TierBreakpoints;
    var c := if level >= 10 then 1 else 0;
    assert CountReached(b, level) == c + CountReached(b[1..], level);
    assert b[1..] == [20, 30, 50];
    var b1: seq<int> := [20, 30, 50];
    assert CountReached(b1, level) == (if level >= 20 then 1 else 0) + CountReached(b1[1..], level);
    assert b1[1..] == [30, 50];
    var b2: seq<int> := [30, 50];
    assert CountReached(b2, level) == (if level >= 30 then 1 else 0) + CountReached(b2[1..], level);
    assert b2[1..] == [50];
    var b3: seq<int> := [50];
    assert CountReached(b3, level) == (if level >= 50 then 1 else 0) + CountReached(b3[1..], level);
    assert b3[1..] == [];
  }

  /** A higher level never has a lower tier. */
  lemma AvatarTierMonotone(lo: int, hi: int)
    requires lo <= hi
    ensures Rank(AvatarTierOf(lo)) <= Rank(AvatarTierOf(hi))
  {
    AvatarTierMatchesBreakpoints(lo);
    AvatarTierMatchesBreakpoints(hi);
    CountReachedMonotone(TierBreakpoints, lo, hi);
  }

  /** Level 1, where every account starts, is Bronze. */
  lemma LevelOneIsBronze()
    ensures AvatarTierOf(1) == Bronze && TierName(AvatarTierOf(1)) == "Bronze"
  {
  }

  /** Distinct tiers are stored under distinct names. */
  lemma TierNameInjective(s: AvatarTier, t: AvatarTier)
    requires TierName(s) == TierName(t)
    ensures s == t
  {
  }
}
