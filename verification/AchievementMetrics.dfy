/** The loops behind the achievement metrics (apps/api/src/achievements/achievement-metrics.ts). */
module AchievementMetrics {
  import opened Sequences
  import opened DayStreaks

  // ---------------------------------------------------------------------------------------
  // The busiest window
  // ---------------------------------------------------------------------------------------

  /** The times in the closed interval of the given width that starts at `from`. */
  function Window(from: int, width: int): int -> bool {
    t => from <= t <= from + width
  }

  function At(): int -> real {
    t => t as real
  }

  /** The largest number of times that any such interval holds. */
  ghost predicate IsBusiest(times: seq<int>, width: int, best: nat) {
    (forall from :: CountIf(times, Window(from, width)) <= best) &&
    exists from :: CountIf(times, Window(from, width)) == best
  }

  predicate Sorted(t: seq<int>) {
    forall i, j | 0 <= i <= j < |t| :: t[i] <= t[j]
  }

  /** No stretch of at most the given width is longer than `best` among the first `n` times. */
  predicate Bounds(t: seq<int>, width: int, n: nat, best: nat)
    requires n <= |t|
  {
    forall i, j | 0 <= i <= j < n && t[j] - t[i] <= width :: j - i + 1 <= best
  }

  predicate Reaches(t: seq<int>, width: int, best: nat) {
    best == 0 || exists i :: 0 <= i && i + best <= |t| && t[i + best - 1] - t[i] <= width
  }

  lemma CountAround(t: seq<int>, from: int, width: int, a: nat, b: nat)
    requires a <= b <= |t|
    requires forall i | 0 <= i < |t| :: Window(from, width)(t[i]) <==> a <= i < b
    ensures CountIf(t, Window(from, width)) == b - a
  {
    hide CountIf;
    var p := Window(from, width);
    assert t == t[..a] + t[a..b] + t[b..];
    CountConcat(t[..a] + t[a..b], t[b..], p);
    CountConcat(t[..a], t[a..b], p);
    CountAll(t[..a], p, false);
    CountAll(t[a..b], p, true);
    CountAll(t[b..], p, false);
  }

  /** In a sorted list an interval holds one stretch, which is no wider than the interval. */
  lemma CountIsStretch(t: seq<int>, from: int, width: int) returns (a: nat, b: nat)
    requires Sorted(t)
    ensures a <= b <= |t| && CountIf(t, Window(from, width)) == b - a
    ensures forall i | a <= i < b :: from <= t[i] <= from + width
    ensures forall i | 0 <= i < |t| && from <= t[i] <= from + width :: a <= i < b
  {
    a := 0;
    while a < |t| && t[a] < from
      invariant a <= |t| && forall i | 0 <= i < a :: t[i] < from
    {
      a := a + 1;
    }
    b := a;
    while b < |t| && t[b] <= from + width
      invariant a <= b <= |t| && forall i | a <= i < b :: from <= t[i] <= from + width
    {
      b := b + 1;
    }
    CountAround(t, from, width, a, b);
  }

  lemma NoneBusier(t: seq<int>, width: int, best: nat, from: int)
    requires Sorted(t) && Bounds(t, width, |t|, best)
    ensures CountIf(t, Window(from, width)) <= best
  {
    hide CountIf, Window;
    var a, b := CountIsStretch(t, from, width);
    if a < b {
      assert t[b - 1] - t[a] <= width;
    }
  }

  lemma OneAsBusy(t: seq<int>, width: int, best: nat) returns (from: int)
    requires Sorted(t) && width >= 0 && Bounds(t, width, |t|, best) && Reaches(t, width, best)
    ensures CountIf(t, Window(from, width)) == best
  {
    hide CountIf, Window;
    from := 0;
    if best > 0 {
      var i :| 0 <= i && i + best <= |t| && t[i + best - 1] - t[i] <= width;
      from := t[i];
      var a, b := CountIsStretch(t, from, width);
      assert from <= t[i] <= from + width && from <= t[i + best - 1] <= from + width;
      assert a <= i && i + best <= b;
    }
    NoneBusier(t, width, best, from);
  }

  lemma StretchIsBusiest(times: seq<int>, width: int, best: nat)
    requires width >= 0
    requires Sorted(SortBy(times, At()))
    requires Bounds(SortBy(times, At()), width, |times|, best) && Reaches(SortBy(times, At()), width, best)
    ensures IsBusiest(times, width, best)
  {
    hide CountIf, SortBy, Window, At, Sorted, Bounds, Reaches;
    var t := SortBy(times, At());
    forall from
      ensures CountIf(times, Window(from, width)) <= best
    {
      CountSorted(times, At(), Window(from, width));
      NoneBusier(t, width, best, from);
    }
    var from := OneAsBusy(t, width, best);
    CountSorted(times, At(), Window(from, width));
  }

  method MaxInWindow(times: seq<int>, width: int) returns (best: nat)
    requires width >= 0
    ensures IsBusiest(times, width, best)
  {
    var t := SortBy(times, At());
    SortAscends(times, At());
    assert Sorted(t);
    best := 0;
    var i := 0;
    for j := 0 to |t|
      invariant 0 <= i <= j
      invariant forall k | 0 <= k < i :: j < |t| ==> t[j] - t[k] > width
      invariant Bounds(t, width, j, best)
      invariant Reaches(t, width, best)
    {
      while t[j] - t[i] > width
        invariant 0 <= i <= j
        invariant forall k | 0 <= k < i :: t[j] - t[k] > width
        decreases j - i
      {
        i := i + 1;
      }
      if j - i + 1 > best {
        best := j - i + 1;
        assert t[i + best - 1] - t[i] <= width;
      }
    }
    StretchIsBusiest(times, width, best);
  }

  // ---------------------------------------------------------------------------------------
  // Winning streaks
  // ---------------------------------------------------------------------------------------

  datatype Sell = Sell(at: int, pnlUsd: real)

  function SoldAt(): Sell -> real {
    (s: Sell) => s.at as real
  }

  predicate AllWins(sells: seq<Sell>, from: int, to: int) {
    forall k | from <= k < to && 0 <= k < |sells| :: sells[k].pnlUsd > 0.0
  }

  /** The most sells in a row, in time order, that all made money. */
  ghost predicate IsWinStreak(sells: seq<Sell>, best: nat) {
    (exists from, to :: 0 <= from <= to <= |sells| && to - from == best && AllWins(sells, from, to)) &&
    forall from, to | 0 <= from <= to <= |sells| && AllWins(sells, from, to) :: to - from <= best
  }

  method WinStreak(sells: seq<Sell>) returns (best: nat)
    ensures IsWinStreak(SortBy(sells, SoldAt()), best)
  {
    var ordered := SortBy(sells, SoldAt());
    best := 0;
    var streak := 0;
    ghost var from := 0;
    for i := 0 to |ordered|
      invariant 0 <= streak <= i && streak <= best
      invariant AllWins(ordered, i - streak, i)
      invariant streak < i ==> ordered[i - streak - 1].pnlUsd <= 0.0
      invariant 0 <= from && from + best <= i && AllWins(ordered, from, from + best)
      invariant forall a, b | 0 <= a <= b <= i && AllWins(ordered, a, b) :: b - a <= best
    {
      if ordered[i].pnlUsd > 0.0 {
        streak := streak + 1;
        if streak > best {
          best := streak;
          from := i + 1 - streak;
        }
      } else {
        streak := 0;
      }
      forall a, b | 0 <= a <= b <= i + 1 && AllWins(ordered, a, b)
        ensures b - a <= best
      {
      }
    }
  }

  // ---------------------------------------------------------------------------------------
  // Early-bird streak
  // ---------------------------------------------------------------------------------------

  const EARLY_MS := 6 * 3_600_000

  predicate IsEarly(at: int) {
    at % DAY_MS < EARLY_MS
  }

  /** The UTC days with a trade before six in the morning. */
  function EarlyDays(trades: seq<int>): set<int> {
    set at | at in trades && IsEarly(at) :: DayOf(at)
  }

  /** Those are the days that have a trade in their first six hours. */
  lemma EarlyDaysAre(trades: seq<int>, day: int)
    ensures day in EarlyDays(trades) <==>
            exists k :: 0 <= k < |trades| && day * 86_400_000 <= trades[k] < day * 86_400_000 + 21_600_000
  {
    if k :| 0 <= k < |trades| && day * 86_400_000 <= trades[k] < day * 86_400_000 + 21_600_000 {
      assert DayOf(trades[k]) == day && IsEarly(trades[k]);
    }
    if at :| at in trades && IsEarly(at) && DayOf(at) == day {
      var k :| 0 <= k < |trades| && trades[k] == at;
    }
  }

  /** Puts a day into a rising list of days unless it is there. */
  function AddDay(days: seq<int>, day: int): (out: seq<int>)
    requires StrictlyRising(days)
    ensures StrictlyRising(out)
    ensures forall d :: d in out <==> d == day || d in days
  {
    if days == [] then [day]
    else
      var n := |days| - 1;
      assert forall d :: d in days <==> d in days[..n] || d == days[n];
      if days[n] < day then days + [day]
      else if days[n] == day then days
      else
        var rest := AddDay(days[..n], day);
        assert forall d | d in days[..n] :: d < days[n];
        assert forall k | 0 <= k < |rest| :: rest[k] in rest;
        rest + [days[n]]
  }

  ghost function Seen(early: seq<int>, n: nat): set<int>
    requires n <= |early|
  {
    set k | 0 <= k < n :: early[k]
  }

  lemma EarlyDaysOfOneMore(trades: seq<int>)
    requires trades != []
    ensures var n := |trades| - 1;
            EarlyDays(trades) == EarlyDays(trades[..n]) + (if IsEarly(trades[n]) then {DayOf(trades[n])} else {})
  {
    var n := |trades| - 1;
    assert trades == trades[..n] + [trades[n]];
    assert forall at :: at in trades <==> at in trades[..n] || at == trades[n];
  }

  method EarlyBirdStreak(trades: seq<int>) returns (best: nat)
    ensures if EarlyDays(trades) == {} then best == 0 else IsLongest(EarlyDays(trades), best)
  {
    var early: seq<int> := [];
    for k := 0 to |trades|
      invariant StrictlyRising(early)
      invariant forall d :: d in early <==> d in EarlyDays(trades[..k])
    {
      EarlyDaysOfOneMore(trades[..k + 1]);
      assert trades[..k + 1][..k] == trades[..k];
      if IsEarly(trades[k]) {
        early := AddDay(early, DayOf(trades[k]));
      }
    }
    assert trades[..|trades|] == trades;
    best := 0;
    var run := 0;
    for i := 0 to |early|
      invariant i == 0 ==> best == 0
      invariant i > 0 ==> NoneAfter(Seen(early, i), early[i - 1]) && early[i - 1] in Seen(early, i)
      invariant i > 0 ==> IsRunTo(Seen(early, i), early[i - 1], run) && IsLongest(Seen(early, i), best)
    {
      assert Seen(early, i + 1) == Seen(early, i) + {early[i]};
      if i > 0 {
        LaterDay(Seen(early, i), early[i - 1], run, best, early[i]);
      } else {
        FirstDay(Seen(early, 1), early[0]);
      }
      run := if i > 0 && early[i] - early[i - 1] == 1 then run + 1 else 1;
      best := if run > best then run else best;
    }
    assert Seen(early, |early|) == EarlyDays(trades);
  }
}
