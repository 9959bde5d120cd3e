/** The concentration of a wallet's volume over its tokens (packages/domain/src/trader-intelligence.ts), over reals. */
module Concentration {

  datatype Index = NoVolume | Index(value: real)

  /** A token's volume, or nothing when it is negative. */
  function Counted(v: real): real {
    if v > 0.0 then v else 0.0
  }

  function Total(volumes: seq<real>): (total: real)
    ensures total >= 0.0
  {
    if volumes == [] then 0.0 else Total(volumes[..|volumes| - 1]) + Counted(volumes[|volumes| - 1])
  }

  function Over(part: real, whole: real): real
    requires whole > 0.0
  {
    part / whole
  }

  function Shares(volumes: seq<real>, total: real): (shares: seq<real>)
    requires total > 0.0
    ensures |shares| == |volumes|
  {
    seq(|volumes|, i requires 0 <= i < |volumes| => Over(Counted(volumes[i]), total))
  }

  function Squared(d: real): real {
    d * d
  }

  function SumOfSquares(shares: seq<real>): real {
    if shares == [] then 0.0 else SumOfSquares(shares[..|shares| - 1]) + Squared(shares[|shares| - 1])
  }

  lemma {:induction false} TotalIsPositive(volumes: seq<real>)
    ensures Total(volumes) == 0.0 <==> forall i | 0 <= i < |volumes| :: volumes[i] <= 0.0
  {
    if volumes != [] {
      var n := |volumes| - 1;
      TotalIsPositive(volumes[..n]);
      assert forall i | 0 <= i < n :: volumes[..n][i] == volumes[i];
      if forall i | 0 <= i < n :: volumes[..n][i] <= 0.0 {
        assert forall i | 0 <= i < n :: volumes[i] <= 0.0;
      }
    }
  }

  function ComputeConcentrationIndex(volumes: seq<real>): (index: Index)
    ensures index.NoVolume? <==> forall i | 0 <= i < |volumes| :: volumes[i] <= 0.0
  {
    TotalIsPositive(volumes);
    if Total(volumes) <= 0.0 then NoVolume else Index(SumOfSquares(Shares(volumes, Total(volumes))))
  }

  lemma OverFacts(part: real, whole: real)
    requires whole > 0.0
    ensures Over(part, whole) * whole == part
    ensures Over(part, whole) > 0.0 <==> part > 0.0
    ensures Over(part, whole) >= 0.0 <==> part >= 0.0
  {
    var q := part / whole;
    assert q * whole == part;
    if q > 0.0 {
      assert q * whole > 0.0;
    } else if q < 0.0 {
      assert (-q) * whole > 0.0;
    }
  }

  lemma OverAdds(a: real, b: real, whole: real)
    requires whole > 0.0
    ensures Over(a + b, whole) == Over(a, whole) + Over(b, whole)
    ensures Over(whole, whole) == 1.0 && Over(0.0, whole) == 0.0
  {
  }

  // ---------------------------------------------------------------------------------------
  // Sums over the shares
  // ---------------------------------------------------------------------------------------

  function Sum(xs: seq<real>): real {
    if xs == [] then 0.0 else Sum(xs[..|xs| - 1]) + xs[|xs| - 1]
  }

  /** How many tokens have any volume. */
  function Traded(xs: seq<real>): (k: nat)
    ensures k <= |xs|
  {
    if xs == [] then 0 else Traded(xs[..|xs| - 1]) + (if xs[|xs| - 1] > 0.0 then 1 else 0)
  }

  /** How far the traded shares are from `level`, squared and added up. */
  function Spread(xs: seq<real>, level: real): real {
    if xs == [] then 0.0
    else
      var x := xs[|xs| - 1];
      Spread(xs[..|xs| - 1], level) + (if x > 0.0 then Squared(x - level) else 0.0)
  }

  function Rest(x: real): real {
    x * (1.0 - x)
  }

  function Twice(level: real, x: real): real {
    2.0 * level * x
  }

  /** What each share falls short of everything, weighted by the share. */
  function Slack(xs: seq<real>): real {
    if xs == [] then 0.0 else Slack(xs[..|xs| - 1]) + Rest(xs[|xs| - 1])
  }

  predicate NonNegative(xs: seq<real>) {
    forall i | 0 <= i < |xs| :: xs[i] >= 0.0
  }

  predicate EachIs(xs: seq<real>, level: real) {
    forall i | 0 <= i < |xs| && xs[i] > 0.0 :: xs[i] == level
  }

  lemma EachIsPrefix(xs: seq<real>, level: real)
    requires xs != []
    ensures EachIs(xs, level) <==> EachIs(xs[..|xs| - 1], level) && (xs[|xs| - 1] > 0.0 ==> xs[|xs| - 1] == level)
  {
    var n := |xs| - 1;
    assert forall i | 0 <= i < n :: xs[..n][i] == xs[i];
  }

  lemma ProductIsPositive(a: real, b: real)
    requires a > 0.0 && b > 0.0
    ensures a * b > 0.0
  {
  }

  lemma PositiveSquare(d: real)
    requires d > 0.0
    ensures Squared(d) > 0.0
  {
    var inverse := 1.0 / d;
    assert inverse * d == 1.0;
    assert inverse * (d * d) == (inverse * d) * d;
    ProductIsPositive(inverse, d);
    assert d * d != 0.0;
  }

  lemma SquareSign(d: real)
    ensures Squared(d) >= 0.0
    ensures Squared(d) == 0.0 <==> d == 0.0
  {
    if d == 0.0 {
      assert Squared(d) == 0.0;
    } else {
      assert Squared(d) == Squared(-d);
      hide Squared;
      PositiveSquare(if d > 0.0 then d else -d);
    }
  }

  lemma Square(x: real, level: real)
    ensures Squared(x) == Squared(x - level) + Twice(level, x) - Squared(level)
    ensures Squared(x) == x - Rest(x)
  {
    var d := x - level;
    assert d * d == x * x - 2.0 * level * x + level * level;
  }

  lemma Expand(c: real, a: real, b: real)
    ensures c * (a + b) == c * a + c * b
  {
  }

  lemma {:induction false} SquaresBySlack(xs: seq<real>)
    ensures SumOfSquares(xs) == Sum(xs) - Slack(xs)
  {
    hide Squared, Rest;
    if xs != [] {
      SquaresBySlack(xs[..|xs| - 1]);
      Square(xs[|xs| - 1], 0.0);
    }
  }

  /** Twice the level times each share, and the level squared for each traded one. */
  function Cross(xs: seq<real>, level: real): real {
    if xs == [] then 0.0 else Cross(xs[..|xs| - 1], level) + Twice(level, xs[|xs| - 1])
  }

  function Levels(xs: seq<real>, level: real): real {
    if xs == [] then 0.0 else Levels(xs[..|xs| - 1], level) + (if xs[|xs| - 1] > 0.0 then Squared(level) else 0.0)
  }

  lemma NoShareNoTerms(level: real)
    ensures Squared(0.0) == 0.0 && Twice(level, 0.0) == 0.0
  {
  }

  lemma {:induction false} SquaresBySpread(xs: seq<real>, level: real)
    requires NonNegative(xs)
    ensures SumOfSquares(xs) == Spread(xs, level) + Cross(xs, level) - Levels(xs, level)
  {
    if xs != [] {
      var x := xs[|xs| - 1];
      NoShareNoTerms(level);
      hide Squared, Twice;
      SquaresBySpread(xs[..|xs| - 1], level);
      Square(x, level);
    }
  }

  lemma TwiceAdds(level: real, a: real, b: real)
    ensures Twice(level, a + b) == Twice(level, a) + Twice(level, b)
    ensures Twice(level, 0.0) == 0.0
  {
    Expand(2.0 * level, a, b);
  }

  lemma {:induction false} CrossIs(xs: seq<real>, level: real)
    ensures Cross(xs, level) == Twice(level, Sum(xs))
  {
    hide Twice;
    if xs == [] {
      TwiceAdds(level, 0.0, 0.0);
    } else {
      CrossIs(xs[..|xs| - 1], level);
      TwiceAdds(level, Sum(xs[..|xs| - 1]), xs[|xs| - 1]);
    }
  }

  lemma {:induction false} LevelsAre(xs: seq<real>, level: real)
    ensures Levels(xs, level) == Squared(level) * Traded(xs) as real
  {
    hide Squared;
    if xs != [] {
      LevelsAre(xs[..|xs| - 1], level);
      Expand(Squared(level), Traded(xs[..|xs| - 1]) as real, 1.0);
    }
  }

  lemma {:induction false} SpreadIsZero(xs: seq<real>, level: real)
    ensures Spread(xs, level) >= 0.0
    ensures Spread(xs, level) == 0.0 <==> EachIs(xs, level)
  {
    hide Squared;
    if xs != [] {
      SpreadIsZero(xs[..|xs| - 1], level);
      SquareSign(xs[|xs| - 1] - level);
      EachIsPrefix(xs, level);
    }
  }

  lemma PartOf(x: real)
    requires 0.0 <= x <= 1.0
    ensures Rest(x) >= 0.0
    ensures Rest(x) == 0.0 <==> x == 0.0 || x == 1.0
  {
    if 0.0 < x < 1.0 {
      assert x * (1.0 - x) > 0.0;
    }
  }

  lemma {:induction false} SumIsNonNegative(xs: seq<real>)
    requires NonNegative(xs)
    ensures Sum(xs) >= 0.0
    ensures Sum(xs) == 0.0 <==> Traded(xs) == 0
  {
    if xs != [] {
      SumIsNonNegative(xs[..|xs| - 1]);
    }
  }

  lemma {:induction false} SlackIsZero(xs: seq<real>)
    requires NonNegative(xs) && Sum(xs) <= 1.0
    ensures Slack(xs) >= 0.0
    ensures Slack(xs) == 0.0 <==> EachIs(xs, 1.0)
  {
    hide Rest;
    if xs != [] {
      var n := |xs| - 1;
      SumIsNonNegative(xs[..n]);
      SlackIsZero(xs[..n]);
      PartOf(xs[n]);
      EachIsPrefix(xs, 1.0);
    }
  }

  lemma {:induction false} SumOfEqual(xs: seq<real>, level: real)
    requires NonNegative(xs) && EachIs(xs, level)
    ensures Sum(xs) == level * Traded(xs) as real
  {
    if xs != [] {
      var n := |xs| - 1;
      EachIsPrefix(xs, level);
      SumOfEqual(xs[..n], level);
      Expand(level, Traded(xs[..n]) as real, 1.0);
    }
  }

  lemma {:induction false} NoneTraded(xs: seq<real>)
    requires Traded(xs) == 0
    ensures forall level :: EachIs(xs, level)
  {
    if xs != [] {
      NoneTraded(xs[..|xs| - 1]);
      forall level ensures EachIs(xs, level) {
        EachIsPrefix(xs, level);
      }
    }
  }

  lemma {:induction false} OneTraded(xs: seq<real>)
    requires NonNegative(xs) && Traded(xs) == 1
    ensures EachIs(xs, Sum(xs))
  {
    var n := |xs| - 1;
    if xs[n] > 0.0 {
      SumIsNonNegative(xs[..n]);
      NoneTraded(xs[..n]);
    } else {
      OneTraded(xs[..n]);
    }
    EachIsPrefix(xs, Sum(xs));
  }

  lemma SharesPrefix(volumes: seq<real>, total: real)
    requires total > 0.0 && volumes != []
    ensures Shares(volumes, total)[..|volumes| - 1] == Shares(volumes[..|volumes| - 1], total)
    ensures Shares(volumes, total)[|volumes| - 1] == Over(Counted(volumes[|volumes| - 1]), total)
  {
    hide Over;
  }

  lemma {:induction false} SharesSum(volumes: seq<real>, total: real)
    requires total > 0.0
    ensures Sum(Shares(volumes, total)) == Over(Total(volumes), total)
    ensures Traded(Shares(volumes, total)) == Traded(volumes)
  {
    hide Over, Shares;
    if volumes == [] {
      OverAdds(0.0, 0.0, total);
      assert Shares(volumes, total) == [];
    } else {
      var n := |volumes| - 1;
      SharesSum(volumes[..n], total);
      SharesPrefix(volumes, total);
      OverFacts(Counted(volumes[n]), total);
      OverAdds(Total(volumes[..n]), Counted(volumes[n]), total);
    }
  }

  lemma SharesAreNonNegative(volumes: seq<real>, total: real)
    requires total > 0.0
    ensures NonNegative(Shares(volumes, total))
    ensures forall i | 0 <= i < |volumes| :: Shares(volumes, total)[i] > 0.0 <==> volumes[i] > 0.0
  {
    hide Over;
    forall i | 0 <= i < |volumes|
      ensures Shares(volumes, total)[i] >= 0.0
      ensures Shares(volumes, total)[i] > 0.0 <==> volumes[i] > 0.0
    {
      OverFacts(Counted(volumes[i]), total);
    }
  }

  // ---------------------------------------------------------------------------------------
  // The documented range
  // ---------------------------------------------------------------------------------------

  /** The squares of the volumes themselves, nothing counting for a negative one. */
  function SquaredVolumes(volumes: seq<real>): real {
    if volumes == [] then 0.0
    else
      var v := volumes[|volumes| - 1];
      SquaredVolumes(volumes[..|volumes| - 1]) + (if v > 0.0 then v * v else 0.0)
  }

  function Volume(volumes: seq<real>): real {
    if volumes == [] then 0.0
    else
      var v := volumes[|volumes| - 1];
      Volume(volumes[..|volumes| - 1]) + (if v > 0.0 then v else 0.0)
  }

  lemma {:induction false} TotalIsVolume(volumes: seq<real>)
    ensures Total(volumes) == Volume(volumes)
  {
    if volumes != [] {
      TotalIsVolume(volumes[..|volumes| - 1]);
    }
  }

  function Scaled(x: real, factor: real): real {
    x * factor
  }

  lemma ScaledAdds(a: real, b: real, factor: real)
    ensures Scaled(a + b, factor) == Scaled(a, factor) + Scaled(b, factor)
    ensures Scaled(0.0, factor) == 0.0
  {
  }

  lemma SquareOfShare(v: real, total: real)
    requires total > 0.0
    ensures Scaled(Squared(Over(Counted(v), total)), Squared(total)) == if v > 0.0 then v * v else 0.0
  {
    var s := Over(Counted(v), total);
    OverFacts(Counted(v), total);
    assert (s * s) * (total * total) == (s * total) * (s * total);
  }

  lemma {:induction false} SquaresScale(volumes: seq<real>, total: real)
    requires total > 0.0
    ensures Scaled(SumOfSquares(Shares(volumes, total)), Squared(total)) == SquaredVolumes(volumes)
  {
    hide Over, Shares, Squared, Scaled, Counted;
    if volumes == [] {
      assert Shares(volumes, total) == [];
      ScaledAdds(0.0, 0.0, Squared(total));
    } else {
      var n := |volumes| - 1;
      SquaresScale(volumes[..n], total);
      SharesPrefix(volumes, total);
      SquareOfShare(volumes[n], total);
      ScaledAdds(SumOfSquares(Shares(volumes[..n], total)), Squared(Over(Counted(volumes[n]), total)), Squared(total));
    }
  }

  /** The formula: the index times the square of the whole volume is the sum of the squared volumes. */
  lemma IndexIsSumOfSquares(volumes: seq<real>)
    requires ComputeConcentrationIndex(volumes).Index?
    ensures ComputeConcentrationIndex(volumes).value * (Volume(volumes) * Volume(volumes)) == SquaredVolumes(volumes)
  {
    hide SumOfSquares, Shares, SquaredVolumes, Volume, Total;
    TotalIsVolume(volumes);
    SquaresScale(volumes, Total(volumes));
  }

  lemma LevelTerms(level: real, k: real)
    requires level * k == 1.0
    ensures Twice(level, 1.0) - Squared(level) * k == level
  {
    assert level * level * k == level * (level * k);
  }

  lemma LowerBound(xs: seq<real>)
    requires NonNegative(xs) && Sum(xs) == 1.0
    ensures Traded(xs) > 0
    ensures var level := Over(1.0, Traded(xs) as real);
            SumOfSquares(xs) >= level && (SumOfSquares(xs) == level <==> EachIs(xs, level))
  {
    hide *;
    SumIsNonNegative(xs);
    var k := Traded(xs) as real;
    var level := Over(1.0, k);
    OverFacts(1.0, k);
    SquaresBySpread(xs, level);
    CrossIs(xs, level);
    LevelsAre(xs, level);
    SpreadIsZero(xs, level);
    LevelTerms(level, k);
  }

  lemma UpperBound(xs: seq<real>)
    requires NonNegative(xs) && Sum(xs) == 1.0
    ensures SumOfSquares(xs) <= 1.0 && (SumOfSquares(xs) == 1.0 <==> Traded(xs) == 1)
  {
    SquaresBySlack(xs);
    SlackIsZero(xs);
    if Traded(xs) == 1 {
      OneTraded(xs);
    }
    if EachIs(xs, 1.0) {
      SumOfEqual(xs, 1.0);
    }
  }

  predicate EquallyTraded(volumes: seq<real>) {
    forall i, j | 0 <= i < |volumes| && 0 <= j < |volumes| && volumes[i] > 0.0 && volumes[j] > 0.0 :: volumes[i] == volumes[j]
  }

  lemma ShareDetermines(volumes: seq<real>, total: real, i: nat, j: nat)
    requires total > 0.0 && i < |volumes| && j < |volumes| && volumes[i] > 0.0 && volumes[j] > 0.0
    ensures Shares(volumes, total)[i] == Shares(volumes, total)[j] <==> volumes[i] == volumes[j]
  {
    OverFacts(volumes[i], total);
    OverFacts(volumes[j], total);
  }

  lemma LevelIs(level: real, k: real)
    requires k > 0.0 && level * k == 1.0
    ensures level == Over(1.0, k)
  {
  }

  lemma EqualShares(volumes: seq<real>)
    requires Total(volumes) > 0.0 && Traded(volumes) > 0
    ensures EquallyTraded(volumes) <==> EachIs(Shares(volumes, Total(volumes)), Over(1.0, Traded(volumes) as real))
  {
    hide Over, Shares, Total, Traded, Sum;
    var total := Total(volumes);
    var xs := Shares(volumes, total);
    SharesSum(volumes, total);
    SharesAreNonNegative(volumes, total);
    OverAdds(0.0, 0.0, total);
    TotalIsPositive(volumes);
    forall i, j | 0 <= i < |volumes| && 0 <= j < |volumes| && volumes[i] > 0.0 && volumes[j] > 0.0
      ensures xs[i] == xs[j] <==> volumes[i] == volumes[j]
    {
      ShareDetermines(volumes, total, i, j);
    }
    if EquallyTraded(volumes) {
      var i :| 0 <= i < |volumes| && volumes[i] > 0.0;
      assert EachIs(xs, xs[i]);
      SumOfEqual(xs, xs[i]);
      LevelIs(xs[i], Traded(volumes) as real);
    }
  }

  /**
    With k tokens of any volume the index lies between 1/k and 1: it is 1 exactly when k is 1, and
    1/k exactly when every traded token has the same volume.
  */
  lemma IndexRange(volumes: seq<real>)
    requires ComputeConcentrationIndex(volumes).Index?
    ensures Traded(volumes) >= 1
    ensures var index, least := ComputeConcentrationIndex(volumes).value, Over(1.0, Traded(volumes) as real);
            least <= index <= 1.0 &&
            (index == 1.0 <==> Traded(volumes) == 1) &&
            (index == least <==> EquallyTraded(volumes))
  {
    hide Over, Shares, Total, Traded, Sum, EachIs, EquallyTraded, NonNegative, SumOfSquares;
    var total := Total(volumes);
    var xs := Shares(volumes, total);
    SharesSum(volumes, total);
    SharesAreNonNegative(volumes, total);
    OverAdds(0.0, 0.0, total);
    LowerBound(xs);
    UpperBound(xs);
    EqualShares(volumes);
  }
}
