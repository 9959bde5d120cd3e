/** Runs of consecutive UTC days: what the visit streak and the early-bird streak both count. */
module DayStreaks {

  const DAY_MS := 86_400_000

  /** The UTC calendar day of a time in milliseconds. */
  function DayOf(ms: int): (day: int)
    ensures day * 86_400_000 <= ms < (day + 1) * 86_400_000
  {
    ms / DAY_MS
  }

  /** The `n` days up to and including `last` are all in the set. */
  predicate Consecutive(days: set<int>, last: int, n: nat) {
    forall d | last - n < d <= last :: d in days
  }

  /** `n` is how many days in a row, ending at `last`, are in the set. */
  predicate IsRunTo(days: set<int>, last: int, n: nat) {
    Consecutive(days, last, n) && last - n !in days
  }

  ghost predicate IsLongest(days: set<int>, best: nat) {
    (exists last :: Consecutive(days, last, best)) &&
    forall last, n: nat | Consecutive(days, last, n) :: n <= best
  }

  predicate NoneAfter(days: set<int>, last: int) {
    forall d | d in days :: d <= last
  }

  lemma RunWithin(days: set<int>, low: int, high: int, last: int, n: nat)
    requires low <= high + 1 && (forall d | d in days :: low <= d <= high) && Consecutive(days, last, n)
    ensures n <= high - low + 1
  {
    if n > 0 {
      assert last in days;
      assert last - n + 1 in days;
    }
  }

  lemma FirstDay(days: set<int>, day: int)
    requires days == {day}
    ensures IsRunTo(days, day, 1) && IsLongest(days, 1)
  {
    assert Consecutive(days, day, 1);
    forall last, n: nat | Consecutive(days, last, n)
      ensures n <= 1
    {
      RunWithin(days, day, day, last, n);
    }
  }

  /** A day later than any other lengthens the run to it by one, or starts a new run. */
  lemma LaterDay(days: set<int>, last: int, run: nat, best: nat, day: int)
    requires NoneAfter(days, last) && last in days && last < day
    requires IsRunTo(days, last, run) && IsLongest(days, best)
    ensures var run' := if day == last + 1 then run + 1 else 1;
            NoneAfter(days + {day}, day) && IsRunTo(days + {day}, day, run') &&
            IsLongest(days + {day}, if run' > best then run' else best)
  {
    var after := days + {day};
    var run' := if day == last + 1 then run + 1 else 1;
    var best' := if run' > best then run' else best;
    assert IsRunTo(after, day, run');
    if best' == run' {
      assert Consecutive(after, day, best');
    } else {
      var end :| Consecutive(days, end, best);
      assert Consecutive(after, end, best');
    }
    forall end, n: nat | Consecutive(after, end, n)
      ensures n <= best'
    {
      if n > 0 && end == day {
        assert n > run' ==> day - run' in after;
      } else if n > 0 {
        assert end in after;
        assert Consecutive(days, end, n);
      }
    }
  }
}
