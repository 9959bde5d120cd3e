/** The pool to trust for a coin's price (packages/domain/src/pair-sanity.ts). Prices are positive reals when they are numbers at all. */
module PairSanity {
  import opened Common
  import opened Sequences

  /** `price` is none for NaN and the infinities. */
  datatype Pair = Pair(price: Option<real>, liquidity: real, quote: Option<string>, pool: Option<string>)

  function PriceOf(p: Pair): real {
    match p.price
    case None => 0.0
    case Some(v) => v
  }

  function IsValid(): Pair -> bool {
    (p: Pair) => p.price.Some? && p.price.value > 0.0
  }

  function IsStandard(quotes: set<string>): Pair -> bool {
    (p: Pair) => p.quote.Some? && p.quote.value in quotes
  }

  /** Within a factor of two of `middle`. */
  function IsNear(middle: real): Pair -> bool {
    (p: Pair) => middle / 2.0 <= PriceOf(p) <= middle * 2.0
  }

  function Candidates(pairs: seq<Pair>, standardQuotes: Option<set<string>>): (out: seq<Pair>)
    ensures forall i | 0 <= i < |out| :: out[i] in pairs && IsValid()(out[i])
    ensures out == [] <==> forall i | 0 <= i < |pairs| :: !IsValid()(pairs[i])
  {
    var valid := Filter(pairs, IsValid());
    var standard := if standardQuotes.Some? then Filter(valid, IsStandard(standardQuotes.value)) else [];
    if |standard| > 0 then standard else valid
  }

  function Prices(pairs: seq<Pair>): (prices: seq<real>)
    ensures |prices| == |pairs|
  {
    seq(|pairs|, i requires 0 <= i < |pairs| => PriceOf(pairs[i]))
  }

  function Itself(): real -> real {
    x => x
  }

  function Median(prices: seq<real>): (median: real)
    requires prices != []
    ensures median in prices
  {
    var sorted := SortBy(prices, Itself());
    SameElements(sorted, prices, sorted[|sorted| / 2]);
    sorted[|sorted| / 2]
  }

  /** The deepest pool, the first of them on a tie. */
  function Deepest(pairs: seq<Pair>): Pair
    requires pairs != []
  {
    var n := |pairs| - 1;
    if n == 0 then pairs[0]
    else
      var best := Deepest(pairs[..n]);
      if pairs[n].liquidity > best.liquidity then pairs[n] else best
  }

  /** The pool priced at the median is always among the sane ones. */
  lemma MedianIsSane(candidates: seq<Pair>)
    requires candidates != [] && forall k | 0 <= k < |candidates| :: IsValid()(candidates[k])
    ensures exists i :: 0 <= i < |candidates| && IsNear(Median(Prices(candidates)))(candidates[i])
  {
    var i :| 0 <= i < |candidates| && Prices(candidates)[i] == Median(Prices(candidates));
    assert IsValid()(candidates[i]);
  }

  function Sane(candidates: seq<Pair>): (sane: seq<Pair>)
    requires candidates != [] && forall i | 0 <= i < |candidates| :: IsValid()(candidates[i])
    ensures sane != []
  {
    MedianIsSane(candidates);
    Filter(candidates, IsNear(Median(Prices(candidates))))
  }

  function PickSanePair(pairs: seq<Pair>, standardQuotes: Option<set<string>>): (pick: Option<Pair>)
    ensures pick.None? <==> forall i | 0 <= i < |pairs| :: !IsValid()(pairs[i])
  {
    var candidates := Candidates(pairs, standardQuotes);
    if candidates == [] then None else Some(Deepest(Sane(candidates)))
  }

  /** The first pool of that address. */
  function FindPool(pairs: seq<Pair>, pool: string): Option<Pair> {
    if pairs == [] then None
    else if pairs[0].pool.Some? && Lower(pairs[0].pool.value) == Lower(pool) then Some(pairs[0])
    else FindPool(pairs[1..], pool)
  }

  function PickChartPair(pairs: seq<Pair>, preferredPool: Option<string>, standardQuotes: Option<set<string>>): Option<Pair> {
    var best := PickSanePair(pairs, standardQuotes);
    if best.None? || preferredPool.None? || preferredPool.value == "" then best
    else
      var preferred := FindPool(pairs, preferredPool.value);
      if preferred.None? || !IsValid()(preferred.value) then best
      else if IsNear(PriceOf(best.value))(preferred.value) then preferred
      else best
  }

  // ---------------------------------------------------------------------------------------
  // The pick
  // ---------------------------------------------------------------------------------------

  predicate IsDeepestAt(pairs: seq<Pair>, k: int) {
    0 <= k < |pairs| &&
    (forall i | 0 <= i < k :: pairs[i].liquidity < pairs[k].liquidity) &&
    (forall i | k <= i < |pairs| :: pairs[i].liquidity <= pairs[k].liquidity)
  }

  lemma DeepestStep(pairs: seq<Pair>, k: nat)
    requires pairs != [] && IsDeepestAt(pairs[..|pairs| - 1], k)
    ensures IsDeepestAt(pairs, if pairs[|pairs| - 1].liquidity > pairs[k].liquidity then |pairs| - 1 else k)
  {
    var n := |pairs| - 1;
    assert forall i | 0 <= i < n :: pairs[..n][i] == pairs[i];
  }

  /** No pool is deeper than the one chosen, and none before it is as deep. */
  lemma {:induction false} DeepestIs(pairs: seq<Pair>)
    requires pairs != []
    ensures exists k :: IsDeepestAt(pairs, k) && pairs[k] == Deepest(pairs)
  {
    var n := |pairs| - 1;
    if n == 0 {
      assert IsDeepestAt(pairs, 0);
    } else {
      DeepestIs(pairs[..n]);
      hide IsDeepestAt;
      var k :| 0 <= k < n && IsDeepestAt(pairs[..n], k) && pairs[..n][k] == Deepest(pairs[..n]);
      DeepestStep(pairs, k);
    }
  }

  lemma DeepestOfCandidates(candidates: seq<Pair>)
    requires candidates != [] && forall i | 0 <= i < |candidates| :: IsValid()(candidates[i])
    ensures var pick := Deepest(Sane(candidates));
            pick in candidates && IsNear(Median(Prices(candidates)))(pick) &&
            forall i | 0 <= i < |candidates| && IsNear(Median(Prices(candidates)))(candidates[i]) ::
              candidates[i].liquidity <= pick.liquidity
  {
    hide Median, Prices, Deepest, Filter, IsValid, IsNear;
    var sane := Sane(candidates);
    DeepestIs(sane);
    var k :| IsDeepestAt(sane, k) && sane[k] == Deepest(sane);
    forall i | 0 <= i < |candidates| && IsNear(Median(Prices(candidates)))(candidates[i])
      ensures candidates[i].liquidity <= sane[k].liquidity
    {
      assert candidates[i] in sane;
      var m :| 0 <= m < |sane| && sane[m] == candidates[i];
    }
  }

  /** The pick is a candidate within a factor of two of the median, and no other such candidate is deeper. */
  lemma PickIsDeepestSane(pairs: seq<Pair>, standardQuotes: Option<set<string>>)
    ensures var pick, candidates := PickSanePair(pairs, standardQuotes), Candidates(pairs, standardQuotes);
            pick.Some? ==>
            candidates != [] && pick.value in candidates && IsNear(Median(Prices(candidates)))(pick.value) &&
            forall i | 0 <= i < |candidates| && IsNear(Median(Prices(candidates)))(candidates[i]) ::
              candidates[i].liquidity <= pick.value.liquidity
  {
    if PickSanePair(pairs, standardQuotes).Some? {
      DeepestOfCandidates(Candidates(pairs, standardQuotes));
    }
  }

  /** Some pool with a usable price is quoted in a standard token. */
  predicate HasStandard(pairs: seq<Pair>, quotes: set<string>) {
    exists i | 0 <= i < |pairs| ::
      pairs[i].price.Some? && pairs[i].price.value > 0.0 && pairs[i].quote.Some? && pairs[i].quote.value in quotes
  }

  /** Who is considered: the pools with a usable price quoted in a standard token if there are any, else all with a usable price. */
  lemma CandidatesAre(pairs: seq<Pair>, standardQuotes: Option<set<string>>, p: Pair)
    ensures p in Candidates(pairs, standardQuotes) <==>
            p in pairs && p.price.Some? && p.price.value > 0.0 &&
            (standardQuotes.Some? && HasStandard(pairs, standardQuotes.value) ==> p.quote.Some? && p.quote.value in standardQuotes.value)
  {
    var valid := Filter(pairs, IsValid());
    assert p in valid <==> p in pairs && IsValid()(p) by {
      FilterHolds(pairs, IsValid(), p);
    }
    if standardQuotes.Some? {
      var quotes := standardQuotes.value;
      var standard := Filter(valid, IsStandard(quotes));
      FilterHolds(valid, IsStandard(quotes), p);
      if i :| 0 <= i < |pairs| && IsValid()(pairs[i]) && IsStandard(quotes)(pairs[i]) {
        FilterHolds(pairs, IsValid(), pairs[i]);
        FilterHolds(valid, IsStandard(quotes), pairs[i]);
      }
      if standard != [] {
        FilterHolds(valid, IsStandard(quotes), standard[0]);
        FilterHolds(pairs, IsValid(), standard[0]);
        var i :| 0 <= i < |pairs| && pairs[i] == standard[0];
        assert HasStandard(pairs, quotes);
      }
    }
  }

  /** The pick is quoted in a standard token whenever any usable pool is. */
  lemma PickPrefersStandard(pairs: seq<Pair>, quotes: set<string>)
    requires HasStandard(pairs, quotes)
    ensures var pick := PickSanePair(pairs, Some(quotes)); pick.Some? && pick.value.quote.Some? && pick.value.quote.value in quotes
  {
    hide Candidates, Median, Filter, Deepest;
    var i :| 0 <= i < |pairs| && pairs[i].price.Some? && pairs[i].price.value > 0.0 && pairs[i].quote.Some? && pairs[i].quote.value in quotes;
    assert IsValid()(pairs[i]);
    PickIsDeepestSane(pairs, Some(quotes));
    CandidatesAre(pairs, Some(quotes), PickSanePair(pairs, Some(quotes)).value);
  }

  // ---------------------------------------------------------------------------------------
  // Robustness
  // ---------------------------------------------------------------------------------------

  function Band(low: real, high: real): real -> bool {
    x => low <= x <= high
  }

  /** How many of a sorted list can be in a band that its middle misses. */
  lemma FewInBand(t: seq<real>, low: real, high: real, m: nat)
    requires Ascending(t, Itself()) && m < |t|
    ensures t[m] < low ==> CountIf(t, Band(low, high)) <= |t| - m - 1
    ensures t[m] > high ==> CountIf(t, Band(low, high)) <= m
  {
    hide CountIf;
    var p := Band(low, high);
    assert forall i | 0 <= i < m :: Itself()(t[i]) <= Itself()(t[m]);
    assert forall i | m < i < |t| :: Itself()(t[m]) <= Itself()(t[i]);
    assert t == t[..m + 1] + t[m + 1..] && t == t[..m] + t[m..];
    CountConcat(t[..m + 1], t[m + 1..], p);
    CountConcat(t[..m], t[m..], p);
    if t[m] < low {
      CountAll(t[..m + 1], p, false);
    }
    if t[m] > high {
      CountAll(t[m..], p, false);
    }
  }

  lemma MedianInBand(prices: seq<real>, low: real, high: real)
    requires prices != [] && 2 * CountIf(prices, Band(low, high)) > |prices|
    ensures low <= Median(prices) <= high
  {
    hide CountIf, SortBy, Band, Itself, Ascending;
    var t := SortBy(prices, Itself());
    SortAscends(prices, Itself());
    CountSorted(prices, Itself(), Band(low, high));
    FewInBand(t, low, high, |t| / 2);
  }

  lemma CountNone(prices: seq<real>, p: real -> bool)
    requires prices == []
    ensures CountIf(prices, p) == 0
  {
  }

  function AtMost(bound: real): real -> bool {
    x => x <= bound
  }

  function AtLeast(bound: real): real -> bool {
    x => x >= bound
  }

  lemma MiddleSplits(t: seq<real>, m: nat)
    requires Ascending(t, Itself()) && m < |t|
    ensures CountIf(t, AtMost(t[m])) >= m + 1 && CountIf(t, AtLeast(t[m])) >= |t| - m
  {
    hide CountIf;
    assert forall i | 0 <= i < m :: Itself()(t[i]) <= Itself()(t[m]);
    assert forall i | m < i < |t| :: Itself()(t[m]) <= Itself()(t[i]);
    assert t == t[..m + 1] + t[m + 1..] && t == t[..m] + t[m..];
    CountConcat(t[..m + 1], t[m + 1..], AtMost(t[m]));
    CountConcat(t[..m], t[m..], AtLeast(t[m]));
    CountAll(t[..m + 1], AtMost(t[m]), true);
    CountAll(t[m..], AtLeast(t[m]), true);
  }

  /** The median: more than half of the prices are no higher, and at least half are no lower. */
  lemma MedianSplits(prices: seq<real>)
    requires prices != []
    ensures var n := |prices|;
            CountIf(prices, AtMost(Median(prices))) >= n / 2 + 1 && CountIf(prices, AtLeast(Median(prices))) >= n - n / 2
  {
    hide CountIf, SortBy, Ascending;
    var t, m := SortBy(prices, Itself()), |prices| / 2;
    SortAscends(prices, Itself());
    CountSorted(prices, Itself(), AtMost(t[m]));
    CountSorted(prices, Itself(), AtLeast(t[m]));
    MiddleSplits(t, m);
  }

  /**
    A minority of mispriced pools cannot move the price far: when more than half of the candidates
    are priced in a band, the pick is priced within a factor of two of that band, however deep the
    others are.
  */
  lemma MinorityCannotMislead(pairs: seq<Pair>, standardQuotes: Option<set<string>>, low: real, high: real)
    ensures var pick, candidates := PickSanePair(pairs, standardQuotes), Candidates(pairs, standardQuotes);
            2 * CountIf(Prices(candidates), Band(low, high)) > |candidates| ==>
            pick.Some? && low / 2.0 <= PriceOf(pick.value) <= 2.0 * high
  {
    hide Median, CountIf, Deepest;
    var candidates := Candidates(pairs, standardQuotes);
    PickIsDeepestSane(pairs, standardQuotes);
    if candidates != [] && 2 * CountIf(Prices(candidates), Band(low, high)) > |candidates| {
      MedianInBand(Prices(candidates), low, high);
    } else if candidates == [] {
      assert CountIf(Prices(candidates), Band(low, high)) == 0 by {
        CountNone(Prices(candidates), Band(low, high));
      }
    }
  }

  predicate HasAddress(p: Pair, pool: string) {
    p.pool.Some? && Lower(p.pool.value) == Lower(pool)
  }

  /** The pool asked for is the first of that address, whatever the case. */
  lemma {:induction false} FoundPool(pairs: seq<Pair>, pool: string)
    ensures match FindPool(pairs, pool)
            case None => forall i | 0 <= i < |pairs| :: !HasAddress(pairs[i], pool)
            case Some(p) => exists k :: 0 <= k < |pairs| && pairs[k] == p && HasAddress(p, pool) &&
                                        forall i | 0 <= i < k :: !HasAddress(pairs[i], pool)
  {
    hide Lower;
    if pairs != [] && !HasAddress(pairs[0], pool) {
      FoundPool(pairs[1..], pool);
      if FindPool(pairs, pool).Some? {
        var p := FindPool(pairs, pool).value;
        var k :| 0 <= k < |pairs[1..]| && pairs[1..][k] == p && HasAddress(p, pool) && forall i | 0 <= i < k :: !HasAddress(pairs[1..][i], pool);
        assert pairs[k + 1] == p && forall i | 0 < i < k + 1 :: pairs[i] == pairs[1..][i - 1];
      } else {
        assert forall i | 0 < i < |pairs| :: pairs[i] == pairs[1..][i - 1];
      }
    }
  }

  /**
    The chart shows the asked-for pool exactly when that pool has a price within a factor of two of
    the pick's, and otherwise the pick.
  */
  lemma ChartStaysNearThePick(pairs: seq<Pair>, asked: Option<string>, standardQuotes: Option<set<string>>)
    ensures var best, chart := PickSanePair(pairs, standardQuotes), PickChartPair(pairs, asked, standardQuotes);
            var preferred := if asked.Some? && asked.value != "" then FindPool(pairs, asked.value) else None;
            if best.None? then chart.None?
            else chart.Some? && IsNear(PriceOf(best.value))(chart.value) && (chart == preferred || chart == best) &&
                 (chart == preferred <==>
                  preferred.Some? && IsValid()(preferred.value) && IsNear(PriceOf(best.value))(preferred.value))
  {
    hide PickSanePair, Candidates, FindPool, Median;
    PickIsDeepestSane(pairs, standardQuotes);
  }

  lemma FirstDeepest(a: Pair, b: Pair, c: Pair)
    requires a.liquidity > b.liquidity > c.liquidity
    ensures Deepest([a, b, c]) == a
  {
    assert [a, b, c][..2] == [a, b] && [a, b][..1] == [a];
    assert Deepest([a]) == a;
    assert Deepest([a, b]) == a;
  }

  lemma {:induction false} FilterKeepsAll<T>(s: seq<T>, p: T -> bool)
    requires forall i | 0 <= i < |s| :: p(s[i])
    ensures Filter(s, p) == s
  {
    if s != [] {
      FilterKeepsAll(s[..|s| - 1], p);
    }
  }

  lemma ThreePools(a: Pair, b: Pair, c: Pair)
    requires a.price == Some(1.0) && b.price == Some(2.0) && c.price == Some(4.0)
    requires a.liquidity > b.liquidity > c.liquidity
    ensures Candidates([a, b, c], None) == [a, b, c] == Sane([a, b, c])
    ensures PickSanePair([a, b, c], None) == Some(a)
  {
    hide SortBy, Filter;
    var pairs := [a, b, c];
    FilterKeepsAll(pairs, IsValid());
    assert Prices(pairs) == [1.0, 2.0, 4.0];
    SortedStays(Prices(pairs), Itself());
    FilterKeepsAll(pairs, IsNear(2.0));
    FirstDeepest(a, b, c);
  }

  lemma ThirdFound(a: Pair, b: Pair, c: Pair)
    requires a.pool == Some("a") && b.pool == Some("b") && c.pool == Some("c")
    ensures FindPool([a, b, c], "c") == Some(c)
  {
    assert Lower("a")[0] != Lower("c")[0] && Lower("b")[0] != Lower("c")[0];
    assert [a, b, c][1..] == [b, c] && [b, c][1..] == [c];
    assert FindPool([c], "c") == Some(c);
    assert FindPool([b, c], "c") == Some(c);
  }

  /**
    Being sane is not enough for the chart's pool to be followed: priced at twice the median, it
    loses to a deeper pool priced at half of it.
  */
  lemma SaneChartPoolCanLose()
    ensures var pairs := [Pair(Some(1.0), 3.0, None, Some("a")), Pair(Some(2.0), 2.0, None, Some("b")), Pair(Some(4.0), 1.0, None, Some("c"))];
            pairs[2] in Sane(Candidates(pairs, None)) && FindPool(pairs, "c") == Some(pairs[2]) &&
            PickChartPair(pairs, Some("c"), None) == Some(pairs[0])
  {
    var a, b, c := Pair(Some(1.0), 3.0, None, Some("a")), Pair(Some(2.0), 2.0, None, Some("b")), Pair(Some(4.0), 1.0, None, Some("c"));
    ThreePools(a, b, c);
    ThirdFound(a, b, c);
  }
}
