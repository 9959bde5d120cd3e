/**
  The visit streak (packages/domain/src/retention.ts) and the read-compute-write around it
  (apps/api/src/discovery/services/return-loop.service.ts).
*/
module VisitStreak {
  import opened Common
  import opened DayStreaks

  datatype Row = Row(last: Option<int>, current: nat, longest: nat)

  const EMPTY := Row(None, 0, 0)

  /** The streaks after a visit, as a pair of the current and the longest. */
  function ComputeStreak(previous: Row, now: int): (nat, nat) {
    if previous.last.None? then (1, Max(1, previous.longest))
    else
      var today, lastDay := DayOf(now), DayOf(previous.last.value);
      if lastDay == today then (previous.current, previous.longest)
      else
        var next := if today - lastDay == 1 then previous.current + 1 else 1;
        (next, Max(next, previous.longest))
  }

  function MarkSeen(row: Row, now: int): Row {
    var (current, longest) := ComputeStreak(row, now);
    Row(Some(now), current, longest)
  }

  // ---------------------------------------------------------------------------------------
  // The row against the history
  // ---------------------------------------------------------------------------------------

  function After(visits: seq<int>): Row {
    if visits == [] then EMPTY else MarkSeen(After(visits[..|visits| - 1]), visits[|visits| - 1])
  }

  function Days(visits: seq<int>): set<int> {
    set v | v in visits :: DayOf(v)
  }

  predicate InTimeOrder(visits: seq<int>) {
    forall i, j | 0 <= i < j < |visits| :: visits[i] <= visits[j]
  }

  lemma DaysOfOneMore(visits: seq<int>)
    requires visits != []
    ensures Days(visits) == Days(visits[..|visits| - 1]) + {DayOf(visits[|visits| - 1])}
  {
    var n := |visits| - 1;
    assert visits == visits[..n] + [visits[n]];
    assert forall v :: v in visits <==> v in visits[..n] || v == visits[n];
  }

  /**
    For every sequence of visits in time order: the current streak is the number of consecutive days
    visited up to the last visit, and the longest is the longest such run there has ever been.
  */
  lemma {:induction false} StreakIsTheHistory(visits: seq<int>)
    requires visits != [] && InTimeOrder(visits)
    ensures var row, today := After(visits), DayOf(visits[|visits| - 1]);
            row.last == Some(visits[|visits| - 1]) && NoneAfter(Days(visits), today) &&
            IsRunTo(Days(visits), today, row.current) && IsLongest(Days(visits), row.longest)
  {
    var n := |visits| - 1;
    var today := DayOf(visits[n]);
    DaysOfOneMore(visits);
    if n == 0 {
      assert Days(visits) == {today};
      FirstDay(Days(visits), today);
      assert After(visits[..0]) == EMPTY;
    } else {
      var before := visits[..n];
      StreakIsTheHistory(before);
      var row, lastDay := After(before), DayOf(visits[n - 1]);
      assert visits[n - 1] in before;
      assert lastDay in Days(before);
      if lastDay == today {
        assert Days(visits) == Days(before);
      } else {
        LaterDay(Days(before), lastDay, row.current, row.longest, today);
      }
    }
  }

  /** Whatever the row held before, a visit on its last day changes neither count; any other keeps the longest up with both. */
  lemma VisitKeepsLongest(row: Row, now: int)
    ensures var after := MarkSeen(row, now);
            after.last == Some(now) &&
            if row.last.Some? && DayOf(row.last.value) == DayOf(now) then after.current == row.current && after.longest == row.longest
            else after.longest == (if after.current > row.longest then after.current else row.longest) &&
                 after.current == if row.last.Some? && DayOf(now) == DayOf(row.last.value) + 1 then row.current + 1 else 1
  {
  }

  // ---------------------------------------------------------------------------------------
  // Racing calls
  // ---------------------------------------------------------------------------------------

  /** Calls of one user that have read the row and not yet written it back. */
  datatype Race = Race(row: Row, pending: map<nat, (Row, int)>)

  datatype Move = Read(caller: nat, now: int) | Write(caller: nat)

  function Apply(race: Race, move: Move): Race {
    match move
    case Read(caller, now) => race.(pending := race.pending[caller := (race.row, now)])
    case Write(caller) =>
      if caller !in race.pending then race
      else Race(MarkSeen(race.pending[caller].0, race.pending[caller].1), race.pending - {caller})
  }

  function Play(race: Race, moves: seq<Move>): Race {
    if moves == [] then race else Apply(Play(race, moves[..|moves| - 1]), moves[|moves| - 1])
  }

  /** The row as one call on that day leaves it; only the time within the day may differ. */
  predicate MarkedOn(row: Row, day: int, counts: (nat, nat)) {
    row.last.Some? && DayOf(row.last.value) == day && (row.current, row.longest) == counts
  }

  predicate Settling(race: Race, before: Row, day: int, counts: (nat, nat)) {
    (race.row == before || MarkedOn(race.row, day, counts)) &&
    forall c | c in race.pending ::
      DayOf(race.pending[c].1) == day && (race.pending[c].0 == before || MarkedOn(race.pending[c].0, day, counts))
  }

  lemma MoveSettles(race: Race, move: Move, before: Row, now: int)
    requires Settling(race, before, DayOf(now), ComputeStreak(before, now))
    requires move.Read? ==> DayOf(move.now) == DayOf(now)
    ensures Settling(Apply(race, move), before, DayOf(now), ComputeStreak(before, now))
    ensures MarkedOn(race.row, DayOf(now), ComputeStreak(before, now)) || (move.Write? && move.caller in race.pending) ==>
              MarkedOn(Apply(race, move).row, DayOf(now), ComputeStreak(before, now))
  {
  }

  lemma {:induction false} PlaySettles(before: Row, now: int, moves: seq<Move>)
    requires forall k | 0 <= k < |moves| && moves[k].Read? :: DayOf(moves[k].now) == DayOf(now)
    ensures Settling(Play(Race(before, map[]), moves), before, DayOf(now), ComputeStreak(before, now))
  {
    if moves != [] {
      PlaySettles(before, now, moves[..|moves| - 1]);
      MoveSettles(Play(Race(before, map[]), moves[..|moves| - 1]), moves[|moves| - 1], before, now);
    }
  }

  /**
    However many calls on one day interleave their reads and writes, once any has written the row
    holds what a single call would have left.
  */
  lemma {:induction false} SameDayCallsAgree(before: Row, now: int, moves: seq<Move>, w: nat)
    requires forall k | 0 <= k < |moves| && moves[k].Read? :: DayOf(moves[k].now) == DayOf(now)
    requires w < |moves| && moves[w].Write? && moves[w].caller in Play(Race(before, map[]), moves[..w]).pending
    ensures MarkedOn(Play(Race(before, map[]), moves).row, DayOf(now), ComputeStreak(before, now))
  {
    var n := |moves| - 1;
    PlaySettles(before, now, moves[..n]);
    MoveSettles(Play(Race(before, map[]), moves[..n]), moves[n], before, now);
    if w < n {
      assert moves[..n][..w] == moves[..w];
      SameDayCallsAgree(before, now, moves[..n], w);
    }
  }

  // Two calls that both read the row before either writes it, at times that are in order.

  function Raced(before: Row, first: int, second: int, firstWritesLast: bool): Row {
    var writes := if firstWritesLast then [Write(1), Write(0)] else [Write(0), Write(1)];
    Play(Race(before, map[]), [Read(0, first), Read(1, second)] + writes).row
  }

  /** Whichever call writes last has its own way. */
  lemma LastWriteWins(before: Row, first: int, second: int, firstWritesLast: bool)
    ensures Raced(before, first, second, firstWritesLast) == MarkSeen(before, if firstWritesLast then first else second)
  {
    var writes := if firstWritesLast then [Write(1), Write(0)] else [Write(0), Write(1)];
    var moves := [Read(0, first), Read(1, second)] + writes;
    var r0 := Race(before, map[]);
    assert moves[..3][..2] == moves[..2] && moves[..2][..1] == moves[..1] && moves[..1][..0] == [];
    assert Play(r0, moves[..1]) == Apply(r0, moves[0]);
    assert Play(r0, moves[..2]) == Apply(Play(r0, moves[..1]), moves[1]);
    assert Play(r0, moves[..3]) == Apply(Play(r0, moves[..2]), moves[2]);
  }

  /** The first of the two calls adds nothing that the second does not: what a caller can tell before either is made. */
  predicate FirstAddsNothing(before: Row, first: int, second: int) {
    || DayOf(first) == DayOf(second)
    || (before.last.Some? && DayOf(before.last.value) == DayOf(first))
    || (DayOf(second) > DayOf(first) + 1 &&
        (before.last.Some? && DayOf(first) == DayOf(before.last.value) + 1 ==> before.current + 1 <= Max(1, before.longest)))
  }

  lemma DaysInOrder(a: int, b: int)
    requires a <= b
    ensures DayOf(a) <= DayOf(b)
  {
  }

  /**
    When racing calls agree with the same calls made one after the other. If the later call writes
    last, they do exactly when the first adds nothing; if the earlier one does, the day and the
    counts agree exactly when both calls are on one day.
  */
  lemma RaceAgreesIff(before: Row, first: int, second: int)
    requires first <= second && (before.last.Some? ==> before.last.value <= first)
    ensures var inTurn := MarkSeen(MarkSeen(before, first), second);
            (Raced(before, first, second, false) == inTurn <==> FirstAddsNothing(before, first, second)) &&
            (MarkedOn(Raced(before, first, second, true), DayOf(second), (inTurn.current, inTurn.longest)) <==>
             DayOf(first) == DayOf(second))
  {
    LastWriteWins(before, first, second, false);
    LastWriteWins(before, first, second, true);
    DaysInOrder(first, second);
    if before.last.Some? {
      DaysInOrder(before.last.value, first);
    }
  }

  /** A race across midnight that ends a streak of three days instead of making it five. */
  lemma MidnightRaceEndsStreak()
    ensures var before := Row(Some(9 * DAY_MS), 3, 3);
            MarkSeen(MarkSeen(before, 10 * DAY_MS), 11 * DAY_MS).current == 5 &&
            Raced(before, 10 * DAY_MS, 11 * DAY_MS, false).current == 1
  {
    LastWriteWins(Row(Some(9 * DAY_MS), 3, 3), 10 * DAY_MS, 11 * DAY_MS, false);
  }
}
