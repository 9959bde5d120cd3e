/**
  Whole percentages by largest remainder (packages/domain/src/predictions.ts). Votes are natural
  numbers and the exact percentages are kept as integer fractions over the total.
*/
module PredictionShares {
  import opened Sequences

  function Total(counts: seq<nat>): (total: int)
    ensures total >= 0
  {
    if counts == [] then 0 else Total(counts[..|counts| - 1]) + counts[|counts| - 1]
  }

  /** The exact percentage of `votes` is (Floor + Remainder / total). */
  function Floor(votes: nat, total: int): int
    requires total > 0
  {
    100 * votes / total
  }

  function Remainder(votes: nat, total: int): int
    requires total > 0
  {
    100 * votes % total
  }

  function Floors(counts: seq<nat>): (floors: seq<int>)
    requires Total(counts) > 0
    ensures |floors| == |counts|
  {
    seq(|counts|, i requires 0 <= i < |counts| => Floor(counts[i], Total(counts)))
  }

  function Remainders(counts: seq<nat>): (remainders: seq<int>)
    requires Total(counts) > 0
    ensures |remainders| == |counts|
  {
    seq(|counts|, i requires 0 <= i < |counts| => Remainder(counts[i], Total(counts)))
  }

  lemma FloorsAt(counts: seq<nat>, i: nat)
    requires Total(counts) > 0 && i < |counts|
    ensures Floors(counts)[i] == Floor(counts[i], Total(counts))
    ensures Remainders(counts)[i] == Remainder(counts[i], Total(counts))
  {
    hide Floor, Remainder, Total;
  }

  lemma Division(votes: nat, total: int)
    requires total > 0
    ensures Floor(votes, total) * total + Remainder(votes, total) == 100 * votes
    ensures 0 <= Remainder(votes, total) < total
  {
  }

  function Indices(n: nat): seq<int> {
    seq(n, i => i)
  }

  function Descending(remainders: seq<int>): int -> real {
    i => if 0 <= i < |remainders| then -(remainders[i] as real) else 0.0
  }

  /** The options by falling remainder, the earlier first among equals. */
  function Order(counts: seq<nat>): (order: seq<int>)
    requires Total(counts) > 0
    ensures |order| == |counts|
  {
    SortBy(Indices(|counts|), Descending(Remainders(counts)))
  }

  /** Each of `n` options at most once. */
  predicate IsRanking(order: seq<int>, n: nat) {
    (forall p | 0 <= p < |order| :: 0 <= order[p] < n) && Distinct(order)
  }

  /** One more for each of the first `k` options of `order`. */
  function Bumped(floors: seq<int>, order: seq<int>, k: nat): (out: seq<int>)
    requires k <= |order| && forall p | 0 <= p < k :: 0 <= order[p] < |floors|
    ensures |out| == |floors|
  {
    if k == 0 then floors
    else
      var out := Bumped(floors, order, k - 1);
      out[order[k - 1] := out[order[k - 1]] + 1]
  }

  function Left(counts: seq<nat>): int
    requires Total(counts) > 0
  {
    100 - Sum(Floors(counts))
  }

  // ---------------------------------------------------------------------------------------
  // The order and what is left to hand out
  // ---------------------------------------------------------------------------------------

  lemma {:induction false} IndexOnce(n: nat, x: int)
    ensures multiset(Indices(n))[x] == if 0 <= x < n then 1 else 0
  {
    if n > 0 {
      IndexOnce(n - 1, x);
      assert Indices(n) == Indices(n - 1) + [n - 1];
    }
  }

  lemma TwiceCounted(s: seq<int>, p: nat, q: nat)
    requires p < q < |s| && s[p] == s[q]
    ensures multiset(s)[s[p]] >= 2
  {
    assert s == s[..p] + [s[p]] + s[p + 1..q] + [s[q]] + s[q + 1..];
  }

  lemma RanksAll(order: seq<int>, n: nat)
    requires multiset(order) == multiset(Indices(n))
    ensures IsRanking(order, n)
    ensures forall p | 0 <= p < |order| :: 0 <= order[p] < n
    ensures forall i | 0 <= i < n :: i in order
  {
    forall p | 0 <= p < |order| ensures 0 <= order[p] < n {
      IndexOnce(n, order[p]);
      assert order[p] in multiset(order);
    }
    forall p, q | 0 <= p < q < |order| ensures order[p] != order[q] {
      IndexOnce(n, order[p]);
      if order[p] == order[q] {
        TwiceCounted(order, p, q);
      }
    }
    forall i | 0 <= i < n ensures i in order {
      IndexOnce(n, i);
      assert i in multiset(order);
    }
  }

  lemma OrderIsPermutation(counts: seq<nat>)
    requires Total(counts) > 0
    ensures IsRanking(Order(counts), |counts|)
    ensures forall p | 0 <= p < |counts| :: 0 <= Order(counts)[p] < |counts|
    ensures forall i | 0 <= i < |counts| :: i in Order(counts)
  {
    hide IsRanking, Descending, Indices, Total;
    RanksAll(Order(counts), |counts|);
  }

  lemma RankedOnce(order: seq<int>, n: nat, p: nat, k: nat)
    requires IsRanking(order, n) && p < |order|
    ensures 0 <= order[p] < n
    ensures k <= |order| ==> (order[p] in order[..k] <==> p < k)
  {
    if p < k <= |order| {
      assert order[..k][p] == order[p];
    }
  }

  function Position(): int -> int {
    i => i
  }

  lemma FallsAt(order: seq<int>, r: seq<int>, p: nat, q: nat)
    requires AscendingThen(order, Descending(r), Position()) && IsRanking(order, |r|) && p < q < |order|
    ensures 0 <= order[p] < |r| && 0 <= order[q] < |r|
    ensures r[order[p]] > r[order[q]] || (r[order[p]] == r[order[q]] && order[p] < order[q])
  {
    assert Position()(order[p]) <= Position()(order[q]) || Descending(r)(order[p]) < Descending(r)(order[q]);
  }

  lemma IndicesRise(n: nat)
    ensures forall i, j | 0 <= i < j < |Indices(n)| :: Position()(Indices(n)[i]) <= Position()(Indices(n)[j])
  {
  }

  /** Falling remainders, and the earlier option first among equals. */
  lemma OrderFalls(counts: seq<nat>, p: nat, q: nat)
    requires Total(counts) > 0 && p < q < |counts|
    ensures var order, r := Order(counts), Remainders(counts);
            0 <= order[p] < |counts| && 0 <= order[q] < |counts| &&
            (r[order[p]] > r[order[q]] || (r[order[p]] == r[order[q]] && order[p] < order[q]))
  {
    hide IsRanking, Descending, Indices, Total, AscendingThen, SortBy, Position, Remainders;
    OrderIsPermutation(counts);
    IndicesRise(|counts|);
    SortIsStable(Indices(|counts|), Descending(Remainders(counts)), Position());
    FallsAt(Order(counts), Remainders(counts), p, q);
  }

  lemma {:induction false} TotalIsSum(counts: seq<nat>, hundredfold: seq<int>)
    requires |counts| == |hundredfold| && forall i | 0 <= i < |counts| :: hundredfold[i] == 100 * counts[i]
    ensures Sum(hundredfold) == 100 * Total(counts)
  {
    if counts != [] {
      TotalIsSum(counts[..|counts| - 1], hundredfold[..|counts| - 1]);
    }
  }

  /** What the floors leave over is what the remainders add up to. */
  lemma LeftIsRemainders(counts: seq<nat>)
    requires Total(counts) > 0
    ensures Left(counts) * Total(counts) == Sum(Remainders(counts))
    ensures forall i | 0 <= i < |counts| :: 0 <= Remainders(counts)[i] < Total(counts)
  {
    hide Floor, Remainder, Sum, Total;
    var n, total := |counts|, Total(counts);
    var scaled := seq(n, i requires 0 <= i < n => total * Floors(counts)[i]);
    var whole := seq(n, i requires 0 <= i < n => 100 * counts[i]);
    forall i | 0 <= i < n
      ensures whole[i] == scaled[i] + Remainders(counts)[i]
      ensures 0 <= Remainders(counts)[i] < total
    {
      FloorsAt(counts, i);
      Division(counts[i], total);
      assert total * Floor(counts[i], total) == Floor(counts[i], total) * total;
    }
    SumOfScaled(Floors(counts), scaled, total);
    SumOfSums(scaled, Remainders(counts), whole);
    TotalIsSum(counts, whole);
  }

  function Positive(s: seq<int>): set<int> {
    set i | 0 <= i < |s| && s[i] > 0
  }

  lemma {:induction false} SumBelowCount(s: seq<int>, most: nat)
    requires forall i | 0 <= i < |s| :: 0 <= s[i] <= most
    ensures 0 <= Sum(s) <= most * |Positive(s)|
  {
    if s != [] {
      var n := |s| - 1;
      SumBelowCount(s[..n], most);
      if s[n] > 0 {
        assert Positive(s) == Positive(s[..n]) + {n};
        assert most * (|Positive(s[..n])| + 1) == most * |Positive(s[..n])| + most;
      } else {
        assert Positive(s) == Positive(s[..n]);
      }
    }
  }

  lemma {:induction false} SetOfSize(s: seq<int>)
    ensures |set x | x in s| <= |s|
  {
    if s == [] {
      assert (set x | x in s) == {};
    } else {
      var n := |s| - 1;
      SetOfSize(s[..n]);
      assert s == s[..n] + [s[n]];
      assert (set x | x in s) == (set x | x in s[..n]) + {s[n]};
    }
  }

  lemma FewElements(s: seq<int>, xs: set<int>)
    requires forall x | x in xs :: x in s
    ensures |xs| <= |s|
  {
    var all := set x | x in s;
    SetOfSize(s);
    assert xs <= all by {
      forall x | x in xs ensures x in all {
        assert x in s;
      }
    }
    assert all == xs + (all - xs);
  }

  lemma PositiveListed(r: seq<int>, order: seq<int>)
    requires |order| == |r| && forall i | 0 <= i < |r| :: i in order
    ensures |Positive(r)| <= |r|
  {
    FewElements(order, Positive(r));
  }

  /** Past an option with no remainder there is no more remainder to come. */
  lemma PositiveBefore(counts: seq<nat>, p: nat)
    requires Total(counts) > 0 && p < |counts|
    requires 0 <= Order(counts)[p] < |counts| && Remainders(counts)[Order(counts)[p]] == 0
    ensures |Positive(Remainders(counts))| <= p
  {
    hide Order, Remainders;
    var r, order := Remainders(counts), Order(counts);
    OrderIsPermutation(counts);
    forall i | i in Positive(r) ensures i in order[..p] {
      assert i in order;
      var q :| 0 <= q < |order| && order[q] == i;
      if p < q {
        OrderFalls(counts, p, q);
      }
      assert order[..p][q] == i;
    }
    FewElements(order[..p], Positive(r));
  }

  lemma SignOfFactor(t: int, x: int)
    requires t > 0
    ensures t * x >= 0 ==> x >= 0
    ensures t * x > 0 ==> x > 0
  {
    if x <= 0 {
      assert t * -x >= -x;
      assert t * x == -(t * -x);
    }
  }

  lemma Squeeze(left: int, total: int, n: nat)
    requires total > 0 && 0 <= left * total <= (total - 1) * n
    ensures 0 <= left <= n
    ensures left > 0 ==> left < n
  {
    assert total * left == left * total;
    assert total * (n - left) == (total - 1) * n + n - left * total;
    SignOfFactor(total, left);
    SignOfFactor(total, n - left);
  }

  /** There is something to round up for every unit left over. */
  lemma LeftIsCovered(counts: seq<nat>)
    requires Total(counts) > 0
    ensures 0 <= Left(counts) <= |counts|
    ensures forall p | 0 <= p < Left(counts) :: 0 <= Order(counts)[p] < |counts| && Remainders(counts)[Order(counts)[p]] > 0
  {
    hide *;
    var left, total, r, order := Left(counts), Total(counts), Remainders(counts), Order(counts);
    LeftIsRemainders(counts);
    SumBelowCount(r, total - 1);
    OrderIsPermutation(counts);
    PositiveListed(r, order);
    Squeeze(left, total, |Positive(r)|);
    forall p | 0 <= p < left
      ensures r[order[p]] > 0
    {
      if r[order[p]] == 0 {
        PositiveBefore(counts, p);
      }
    }
  }

  lemma {:induction false} BumpedAt(floors: seq<int>, order: seq<int>, k: nat, i: nat)
    requires k <= |order| && i < |floors| && IsRanking(order, |floors|)
    ensures Bumped(floors, order, k)[i] == floors[i] + (if i in order[..k] then 1 else 0)
  {
    if k > 0 {
      BumpedAt(floors, order, k - 1, i);
      assert order[..k] == order[..k - 1] + [order[k - 1]];
    }
  }

  lemma {:induction false} BumpedSum(floors: seq<int>, order: seq<int>, k: nat)
    requires k <= |order| && IsRanking(order, |floors|)
    ensures Sum(Bumped(floors, order, k)) == Sum(floors) + k
  {
    if k > 0 {
      BumpedSum(floors, order, k - 1);
      var before := Bumped(floors, order, k - 1);
      SumUpdate(before, order[k - 1], before[order[k - 1]] + 1);
    }
  }

  // ---------------------------------------------------------------------------------------
  // The shares
  // ---------------------------------------------------------------------------------------

  function Shares(counts: seq<nat>): (shares: seq<int>)
    ensures |shares| == |counts|
  {
    if Total(counts) == 0 then seq(|counts|, _ => 0)
    else
      OrderIsPermutation(counts);
      LeftIsCovered(counts);
      Bumped(Floors(counts), Order(counts), Left(counts))
  }

  /** A share is the floor of the exact percentage, or one more for the first in the order. */
  lemma ShareAt(counts: seq<nat>, i: nat)
    requires Total(counts) > 0 && i < |counts|
    ensures 0 <= Left(counts) <= |counts|
    ensures Shares(counts)[i] == Floors(counts)[i] + (if i in Order(counts)[..Left(counts)] then 1 else 0)
    ensures i in Order(counts)[..Left(counts)] ==> Remainders(counts)[i] > 0
  {
    OrderIsPermutation(counts);
    LeftIsCovered(counts);
    BumpedAt(Floors(counts), Order(counts), Left(counts), i);
  }

  /** Hands the units left over to the options in their order, one each. */
  method BumpInOrder(floors: array<int>, order: seq<int>, units: nat)
    requires IsRanking(order, floors.Length) && units <= |order|
    modifies floors
    ensures floors[..] == Bumped(old(floors[..]), order, units)
  {
    ghost var exact := floors[..];
    var left := units;
    for k := 0 to |order|
      invariant left == if k <= units then units - k else 0
      invariant floors[..] == Bumped(exact, order, units - left)
    {
      if left <= 0 {
        break;
      }
      floors[order[k]] := floors[order[k]] + 1;
      left := left - 1;
    }
  }

  method CountVotes(counts: seq<nat>) returns (total: int)
    ensures total == Total(counts)
  {
    total := 0;
    for i := 0 to |counts|
      invariant total == Total(counts[..i])
    {
      assert counts[..i + 1][..i] == counts[..i];
      total := total + counts[i];
    }
    assert counts[..|counts|] == counts;
  }

  method PredictionShares(counts: seq<nat>) returns (floors: array<int>)
    ensures fresh(floors) && floors[..] == Shares(counts)
  {
    var total := CountVotes(counts);
    if total == 0 {
      floors := new int[|counts|](_ => 0);
      return;
    }
    hide Floor, Remainder, Bumped, Order, Left, Total;
    var exact := Floors(counts);
    floors := new int[|counts|](i requires 0 <= i < |exact| => exact[i]);
    assert floors[..] == exact;
    OrderIsPermutation(counts);
    LeftIsCovered(counts);
    BumpInOrder(floors, Order(counts), Left(counts));
  }

  // ---------------------------------------------------------------------------------------
  // What the shares promise
  // ---------------------------------------------------------------------------------------

  lemma SharesSumToHundred(counts: seq<nat>)
    ensures Sum(Shares(counts)) == if Total(counts) == 0 then 0 else 100
    ensures Total(counts) == 0 ==> forall i | 0 <= i < |counts| :: Shares(counts)[i] == 0
  {
    if Total(counts) == 0 {
      SumOfScaled(Shares(counts), Shares(counts), 0);
    } else {
      OrderIsPermutation(counts);
      LeftIsCovered(counts);
      BumpedSum(Floors(counts), Order(counts), Left(counts));
    }
  }

  lemma CloseToExact(floor: int, r: int, total: int, votes: int, up: bool)
    requires 0 <= r < total && floor * total + r == 100 * votes && 0 <= votes <= total && (up ==> r > 0)
    ensures var share := if up then floor + 1 else floor;
            -total < share * total - 100 * votes < total && 0 <= share <= 100 &&
            (r == 0 ==> share * total == 100 * votes)
  {
    var share := if up then floor + 1 else floor;
    assert (floor + 1) * total == floor * total + total;
    assert total * (share + 1) == share * total + total;
    assert total * (101 - share) == 101 * total - share * total;
    SignOfFactor(total, share + 1);
    SignOfFactor(total, 101 - share);
  }

  lemma {:induction false} VotesWithinTotal(counts: seq<nat>, i: nat)
    requires i < |counts|
    ensures counts[i] <= Total(counts)
  {
    if i < |counts| - 1 {
      VotesWithinTotal(counts[..|counts| - 1], i);
    }
  }

  /** Each share is less than one away from the exact percentage, and equal to it when that is whole. */
  lemma SharesAreClose(counts: seq<nat>, i: nat)
    requires Total(counts) > 0 && i < |counts|
    ensures -Total(counts) < Shares(counts)[i] * Total(counts) - 100 * counts[i] < Total(counts)
    ensures Remainder(counts[i], Total(counts)) == 0 ==> Shares(counts)[i] * Total(counts) == 100 * counts[i]
    ensures 0 <= Shares(counts)[i] <= 100
  {
    hide *;
    VotesWithinTotal(counts, i);
    ShareAt(counts, i);
    FloorsAt(counts, i);
    Division(counts[i], Total(counts));
    CloseToExact(Floor(counts[i], Total(counts)), Remainder(counts[i], Total(counts)), Total(counts), counts[i],
                 i in Order(counts)[..Left(counts)]);
  }

  lemma AtLeastOne(d: int, total: int)
    requires d >= 1 && total > 0
    ensures d * total >= total
  {
    assert d * total == (d - 1) * total + total;
  }

  lemma FloorsFollowVotes(fa: int, ra: int, fb: int, rb: int, total: int)
    requires 0 <= ra < total && 0 <= rb < total
    requires fa * total + ra <= fb * total + rb
    ensures fa <= fb
  {
    assert (fa - fb) * total == fa * total - fb * total;
    if fa > fb {
      AtLeastOne(fa - fb, total);
    }
  }

  /** Who comes earlier in the order is rounded up first. */
  lemma UpInOrder(counts: seq<nat>, i: nat, j: nat)
    requires Total(counts) > 0 && i < |counts| && j < |counts|
    requires Remainders(counts)[i] > Remainders(counts)[j] || (Remainders(counts)[i] == Remainders(counts)[j] && i < j)
    ensures 0 <= Left(counts) <= |counts|
    ensures j in Order(counts)[..Left(counts)] ==> i in Order(counts)[..Left(counts)]
  {
    hide *;
    OrderIsPermutation(counts);
    LeftIsCovered(counts);
    var order, k := Order(counts), Left(counts);
    if j in order[..k] {
      var q :| 0 <= q < k && order[..k][q] == j;
      assert i in order;
      var p :| 0 <= p < |order| && order[p] == i;
      if q < p {
        OrderFalls(counts, q, p);
      }
      assert order[..k][p] == i;
    }
  }

  /** More votes never get a smaller share, and of equal votes the earlier option never does. */
  lemma SharesFollowVotes(counts: seq<nat>, i: nat, j: nat)
    requires i < |counts| && j < |counts|
    requires counts[i] > counts[j] || (counts[i] == counts[j] && i < j)
    ensures Shares(counts)[i] >= Shares(counts)[j]
  {
    var total := Total(counts);
    if total > 0 {
      hide Floor, Remainder, Left;
      ShareAt(counts, i);
      ShareAt(counts, j);
      Division(counts[i], total);
      Division(counts[j], total);
      FloorsFollowVotes(Floor(counts[j], total), Remainder(counts[j], total), Floor(counts[i], total), Remainder(counts[i], total), total);
      if Floor(counts[i], total) == Floor(counts[j], total) {
        UpInOrder(counts, i, j);
      }
    }
  }

  // ---------------------------------------------------------------------------------------
  // Optimality
  // ---------------------------------------------------------------------------------------

  function Abs(x: int): nat {
    if x < 0 then -x else x
  }

  /** How far each option of a split is from its exact percentage, times the total number of votes. */
  function Errors(counts: seq<nat>, split: seq<int>): (errors: seq<int>)
    requires |split| == |counts|
    ensures |errors| == |counts|
  {
    seq(|counts|, i requires 0 <= i < |counts| => Abs(split[i] * Total(counts) - 100 * counts[i]))
  }

  /** The remainder at which rounding up stops, as a price on each percent handed out. */
  function Price(counts: seq<nat>): int
    requires Total(counts) > 0
  {
    OrderIsPermutation(counts);
    LeftIsCovered(counts);
    if Left(counts) == 0 then -Total(counts)
    else Total(counts) - 2 * Remainders(counts)[Order(counts)[Left(counts) - 1]]
  }

  /** Where an option stands in the order, and that the options that stand before `Left` are the ones rounded up. */
  lemma PlaceOf(counts: seq<nat>, i: nat) returns (p: nat)
    requires Total(counts) > 0 && i < |counts|
    ensures p < |counts| && Order(counts)[p] == i && 0 <= Left(counts) <= |counts|
    ensures i in Order(counts)[..Left(counts)] <==> p < Left(counts)
  {
    hide *;
    OrderIsPermutation(counts);
    LeftIsCovered(counts);
    assert i in Order(counts);
    p :| 0 <= p < |counts| && Order(counts)[p] == i;
    RankedOnce(Order(counts), |counts|, p, Left(counts));
  }

  lemma RemainderInRange(counts: seq<nat>, i: nat)
    requires Total(counts) > 0 && i < |counts|
    ensures 0 <= Remainders(counts)[i] < Total(counts)
  {
    hide *;
    LeftIsRemainders(counts);
  }

  lemma PriceIs(counts: seq<nat>)
    requires Total(counts) > 0
    ensures 0 <= Left(counts) <= |counts|
    ensures Left(counts) == 0 ==> Price(counts) == -Total(counts)
    ensures Left(counts) > 0 ==> 0 <= Order(counts)[Left(counts) - 1] < |counts|
    ensures Left(counts) > 0 ==> Price(counts) == Total(counts) - 2 * Remainders(counts)[Order(counts)[Left(counts) - 1]]
  {
    hide Left, Total, Order, Remainders;
    OrderIsPermutation(counts);
    LeftIsCovered(counts);
  }

  lemma PriceInRange(counts: seq<nat>)
    requires Total(counts) > 0
    ensures -Total(counts) <= Price(counts) <= Total(counts)
  {
    hide *;
    PriceIs(counts);
    if Left(counts) > 0 {
      RemainderInRange(counts, Order(counts)[Left(counts) - 1]);
    }
  }

  lemma NoSmallerRemainder(counts: seq<nat>, p: nat, q: nat)
    requires Total(counts) > 0 && p <= q < |counts|
    ensures 0 <= Order(counts)[p] < |counts| && 0 <= Order(counts)[q] < |counts|
    ensures Remainders(counts)[Order(counts)[p]] >= Remainders(counts)[Order(counts)[q]]
  {
    hide *;
    OrderIsPermutation(counts);
    if p < q {
      OrderFalls(counts, p, q);
    }
  }

  lemma PriceSeparates(counts: seq<nat>, i: nat)
    requires Total(counts) > 0 && i < |counts|
    ensures 0 <= Left(counts) <= |counts|
    ensures -Total(counts) <= Price(counts) <= Total(counts)
    ensures i in Order(counts)[..Left(counts)] ==> Total(counts) - 2 * Remainders(counts)[i] <= Price(counts)
    ensures i !in Order(counts)[..Left(counts)] ==> Price(counts) <= Total(counts) - 2 * Remainders(counts)[i]
  {
    hide *;
    var p := PlaceOf(counts, i);
    PriceIs(counts);
    var k := Left(counts);
    if k > 0 {
      if p < k {
        NoSmallerRemainder(counts, p, k - 1);
      } else {
        NoSmallerRemainder(counts, k - 1, p);
      }
    }
    PriceInRange(counts);
    RemainderInRange(counts, i);
  }

  lemma Steeper(d: int, total: int, price: int)
    requires -total <= price <= total
    ensures d >= 1 ==> d * total - price * d >= total - price
    ensures d <= 0 ==> -(d * total) - price * d >= 0
  {
    assert (d - 1) * (total - price) == d * total - price * d - total + price;
    assert -d * (total + price) == -(d * total) - price * d;
    if d >= 1 {
      assert (d - 1) * (total - price) >= 0;
    } else {
      assert -d * (total + price) >= 0;
    }
  }

  /** Paid the price for each percent, no option does better with another share than with its own. */
  lemma NoBetterShare(total: int, floor: int, r: int, exact: int, price: int, up: bool, other: int)
    requires 0 <= r < total && -total <= price <= total && floor * total + r == exact
    requires if up then total - 2 * r <= price else price <= total - 2 * r
    ensures var share := if up then floor + 1 else floor;
            Abs(other * total - exact) - price * other >= Abs(share * total - exact) - price * share
  {
    var d := other - floor;
    assert other * total == floor * total + d * total;
    assert price * other == price * floor + price * d;
    assert (floor + 1) * total == floor * total + total;
    assert price * (floor + 1) == price * floor + price;
    Steeper(d, total, price);
  }

  lemma NetNoBetter(counts: seq<nat>, i: nat, other: int)
    requires Total(counts) > 0 && i < |counts|
    ensures Abs(other * Total(counts) - 100 * counts[i]) - Price(counts) * other >=
            Abs(Shares(counts)[i] * Total(counts) - 100 * counts[i]) - Price(counts) * Shares(counts)[i]
  {
    hide Floor, Remainder, Left, Total, Order, Price, Abs, Shares;
    Division(counts[i], Total(counts));
    ShareAt(counts, i);
    PriceSeparates(counts, i);
    NoBetterShare(Total(counts), Floors(counts)[i], Remainders(counts)[i], 100 * counts[i], Price(counts),
                  i in Order(counts)[..Left(counts)], other);
  }

  /** What a split costs when each percent handed out is paid for. */
  function Bills(split: seq<int>, price: int): (bills: seq<int>)
    ensures |bills| == |split|
  {
    seq(|split|, i requires 0 <= i < |split| => -price * split[i])
  }

  function Nets(errors: seq<int>, bills: seq<int>): (nets: seq<int>)
    requires |errors| == |bills|
    ensures |nets| == |errors|
  {
    seq(|errors|, i requires 0 <= i < |errors| => errors[i] + bills[i])
  }

  lemma NetSum(errors: seq<int>, split: seq<int>, price: int)
    requires |errors| == |split| && Sum(split) == 100
    ensures Sum(Nets(errors, Bills(split, price))) == Sum(errors) - 100 * price
  {
    SumOfSums(errors, Bills(split, price), Nets(errors, Bills(split, price)));
    SumOfScaled(split, Bills(split, price), -price);
  }

  /** No other whole split of a hundred is closer in total to the exact percentages. */
  lemma SharesAreOptimal(counts: seq<nat>, split: seq<int>)
    requires Total(counts) > 0 && |split| == |counts| && Sum(split) == 100
    ensures Sum(Errors(counts, Shares(counts))) <= Sum(Errors(counts, split))
  {
    hide Floor, Remainder, Left, Total, Order, Price, Abs, Shares, Sum;
    var price, shares := Price(counts), Shares(counts);
    SharesSumToHundred(counts);
    var ours := Nets(Errors(counts, shares), Bills(shares, price));
    var theirs := Nets(Errors(counts, split), Bills(split, price));
    forall i | 0 <= i < |counts| ensures ours[i] <= theirs[i] {
      NetNoBetter(counts, i, split[i]);
    }
    SumAtMost(ours, theirs);
    NetSum(Errors(counts, shares), shares, price);
    NetSum(Errors(counts, split), split, price);
  }
}
