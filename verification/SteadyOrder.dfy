/** A live list whose rows keep their places between re-sorts (apps/web/lib/use-steady-order.ts). */
module SteadyOrder {
  import opened Common
  import opened Sequences

  datatype Row<T> = Row(key: string, data: T)

  /** The two refs that outlive a render. */
  datatype Memory = Memory(order: Option<seq<string>>, sortedAt: int)

  const INITIAL := Memory(None, 0)

  function Keys<T>(rows: seq<Row<T>>): (keys: seq<string>)
    ensures |keys| == |rows|
  {
    seq(|rows|, i requires 0 <= i < |rows| => rows[i].key)
  }

  function ByKey<T>(rows: seq<Row<T>>): (byKey: map<string, Row<T>>)
    ensures forall k :: k in byKey <==> k in Keys(rows)
    ensures forall k | k in byKey :: byKey[k] in rows && byKey[k].key == k
  {
    if rows == [] then map[]
    else
      var n := |rows| - 1;
      var rest := ByKey(rows[..n]);
      assert Keys(rows) == Keys(rows[..n]) + [rows[n].key];
      assert forall k | k in rest :: rest[k] in rows[..n] && rest[k] in rows;
      rest[rows[n].key := rows[n]]
  }

  function Among(keys: seq<string>): string -> bool {
    k => k in keys
  }

  function NotAmong(keys: seq<string>): string -> bool {
    k => k !in keys
  }

  /** The remembered keys still listed, then the new ones in the order they came. */
  function Steadied(order: seq<string>, keys: seq<string>): seq<string> {
    var kept := Filter(order, Among(keys));
    kept + Filter(keys, NotAmong(kept))
  }

  predicate Resorts(memory: Memory, now: int, resortMs: int) {
    memory.order.None? || now - memory.sortedAt >= resortMs
  }

  function NextMemory<T>(memory: Memory, rows: seq<Row<T>>, now: int, resortMs: int): Memory {
    if Resorts(memory, now, resortMs) then Memory(Some(Keys(rows)), now)
    else memory.(order := Some(Steadied(memory.order.value, Keys(rows))))
  }

  /** The rows of the given keys, with the values they have now. */
  function Shown<T>(order: seq<string>, rows: seq<Row<T>>): (out: seq<Row<T>>)
    requires forall i | 0 <= i < |order| :: order[i] in Keys(rows)
    ensures |out| == |order|
  {
    seq(|order|, i requires 0 <= i < |order| => ByKey(rows)[order[i]])
  }

  lemma ShownKeys<T>(order: seq<string>, rows: seq<Row<T>>)
    requires forall i | 0 <= i < |order| :: order[i] in Keys(rows)
    ensures Keys(Shown(order, rows)) == order
    ensures forall i | 0 <= i < |order| :: Shown(order, rows)[i] in rows
  {
    forall i | 0 <= i < |order|
      ensures Shown(order, rows)[i].key == order[i] && Shown(order, rows)[i] in rows
    {
      assert order[i] in ByKey(rows);
      assert Shown(order, rows)[i] == ByKey(rows)[order[i]];
    }
  }

  lemma SteadiedIsListed(order: seq<string>, keys: seq<string>)
    ensures forall i | 0 <= i < |Steadied(order, keys)| :: Steadied(order, keys)[i] in keys
    ensures forall i | 0 <= i < |keys| :: keys[i] in Steadied(order, keys)
  {
    var kept := Filter(order, Among(keys));
    var added := Filter(keys, NotAmong(kept));
    forall i | 0 <= i < |Steadied(order, keys)|
      ensures Steadied(order, keys)[i] in keys
    {
      if i < |kept| {
        assert Among(keys)(kept[i]);
      } else {
        assert added[i - |kept|] in keys;
      }
    }
    forall i | 0 <= i < |keys|
      ensures keys[i] in kept + added
    {
      if keys[i] !in kept {
        assert NotAmong(kept)(keys[i]);
        assert keys[i] in added;
      }
    }
  }

  /** What a render shows: the rows as given at a re-sort, otherwise the current rows in the steady order. */
  function Rendered<T>(memory: Memory, rows: seq<Row<T>>, now: int, resortMs: int): seq<Row<T>> {
    if Resorts(memory, now, resortMs) then rows
    else
      SteadiedIsListed(memory.order.value, Keys(rows));
      Shown(Steadied(memory.order.value, Keys(rows)), rows)
  }

  /** What is shown is what is remembered, and nothing but current rows. */
  lemma RenderedKeys<T>(memory: Memory, rows: seq<Row<T>>, now: int, resortMs: int)
    ensures NextMemory(memory, rows, now, resortMs).order == Some(Keys(Rendered(memory, rows, now, resortMs)))
    ensures forall i | 0 <= i < |Rendered(memory, rows, now, resortMs)| :: Rendered(memory, rows, now, resortMs)[i] in rows
  {
    if !Resorts(memory, now, resortMs) {
      SteadiedIsListed(memory.order.value, Keys(rows));
      ShownKeys(Steadied(memory.order.value, Keys(rows)), rows);
    }
  }

  lemma {:induction false} LastOfKey<T>(rows: seq<Row<T>>, i: nat)
    requires i < |rows| && forall j | i < j < |rows| :: rows[j].key != rows[i].key
    ensures rows[i].key in ByKey(rows) && ByKey(rows)[rows[i].key] == rows[i]
  {
    var n := |rows| - 1;
    if i < n {
      LastOfKey(rows[..n], i);
      assert rows[n].key != rows[i].key;
    }
  }

  /** Between sorts, of rows that share a key the last is shown wherever that key is. */
  lemma LastRowShown<T>(memory: Memory, rows: seq<Row<T>>, now: int, resortMs: int, i: nat, k: nat)
    requires !Resorts(memory, now, resortMs) && k < |Rendered(memory, rows, now, resortMs)|
    requires i < |rows| && forall j | i < j < |rows| :: rows[j].key != rows[i].key
    requires Rendered(memory, rows, now, resortMs)[k].key == rows[i].key
    ensures Rendered(memory, rows, now, resortMs)[k] == rows[i]
  {
    LastOfKey(rows, i);
    SteadiedIsListed(memory.order.value, Keys(rows));
    ShownKeys(Steadied(memory.order.value, Keys(rows)), rows);
    assert Keys(Rendered(memory, rows, now, resortMs))[k] == rows[i].key;
  }

  lemma SteadiedIsDistinct(order: seq<string>, keys: seq<string>)
    requires Distinct(order) && Distinct(keys)
    ensures Distinct(Steadied(order, keys))
  {
    var kept := Filter(order, Among(keys));
    var added := Filter(keys, NotAmong(kept));
    FilterDistinct(order, Among(keys));
    FilterDistinct(keys, NotAmong(kept));
    forall i, j | 0 <= i < |kept| && 0 <= j < |added|
      ensures kept[i] != added[j]
    {
      assert NotAmong(kept)(added[j]);
    }
  }

  lemma DistinctByKey<T>(rows: seq<Row<T>>)
    requires Distinct(Keys(rows))
    ensures forall i, j | 0 <= i < j < |rows| :: rows[i] != rows[j]
  {
    forall i, j | 0 <= i < j < |rows| ensures rows[i] != rows[j] {
      assert Keys(rows)[i] != Keys(rows)[j];
    }
  }

  lemma SameKeysPermute<T>(out: seq<Row<T>>, rows: seq<Row<T>>)
    requires Distinct(Keys(out)) && Distinct(Keys(rows))
    requires forall i | 0 <= i < |out| :: out[i] in rows
    requires forall i | 0 <= i < |rows| :: Keys(rows)[i] in Keys(out)
    ensures multiset(out) == multiset(rows)
  {
    DistinctByKey(out);
    DistinctByKey(rows);
    forall i | 0 <= i < |rows|
      ensures rows[i] in out
    {
      var k :| 0 <= k < |out| && Keys(out)[k] == Keys(rows)[i];
      assert out[k] in rows;
      var m :| 0 <= m < |rows| && rows[m] == out[k];
      assert Keys(rows)[m] == Keys(rows)[i];
    }
    SameElementsPermute(out, rows);
  }

  /** Whatever a render shows is a permutation of the current rows, with their current values. */
  lemma ShownIsPermutation<T>(memory: Memory, rows: seq<Row<T>>, now: int, resortMs: int)
    requires Distinct(Keys(rows)) && (memory.order.Some? ==> Distinct(memory.order.value))
    ensures multiset(Rendered(memory, rows, now, resortMs)) == multiset(rows)
  {
    if !Resorts(memory, now, resortMs) {
      hide Rendered, Steadied, Shown;
      var order, keys := memory.order.value, Keys(rows);
      var out := Rendered(memory, rows, now, resortMs);
      SteadiedIsDistinct(order, keys);
      SteadiedIsListed(order, keys);
      RenderedKeys(memory, rows, now, resortMs);
      SameKeysPermute(out, rows);
    }
  }

  /** Rows that stay keep their relative places. */
  lemma KeptInOrder(order: seq<string>, keys: seq<string>, a: string, b: string)
    requires Before(order, a, b) && a in keys && b in keys
    ensures Before(Steadied(order, keys), a, b)
  {
    var kept := Filter(order, Among(keys));
    FilterKeepsOrder(order, Among(keys), a, b);
    var i, j :| 0 <= i < j < |kept| && kept[i] == a && kept[j] == b;
    assert Steadied(order, keys)[i] == a && Steadied(order, keys)[j] == b;
  }

  /** Newcomers come after every row that stays, and among themselves as they were given. */
  lemma NewcomersLast(order: seq<string>, keys: seq<string>, a: string, b: string)
    requires b in keys && b !in order
    requires (a in order && a in keys) || (a !in order && Before(keys, a, b))
    ensures Before(Steadied(order, keys), a, b)
  {
    var kept := Filter(order, Among(keys));
    var added := Filter(keys, NotAmong(kept));
    var steadied := Steadied(order, keys);
    assert b !in kept;
    assert NotAmong(kept)(b) && b in added;
    if a in order {
      var m :| 0 <= m < |order| && order[m] == a;
      assert Among(keys)(order[m]);
      var i :| 0 <= i < |kept| && kept[i] == a;
      var j :| 0 <= j < |added| && added[j] == b;
      assert steadied[i] == a && steadied[|kept| + j] == b;
    } else {
      assert a !in kept;
      FilterKeepsOrder(keys, NotAmong(kept), a, b);
      var i, j :| 0 <= i < j < |added| && added[i] == a && added[j] == b;
      assert steadied[|kept| + i] == a && steadied[|kept| + j] == b;
    }
  }

  class SteadyList<T> {
    var order: Option<seq<string>>
    var sortedAt: int

    ghost function Now(): Memory
      reads this
    {
      Memory(order, sortedAt)
    }

    constructor ()
      ensures Now() == INITIAL
    {
      order, sortedAt := None, 0;
    }

    method Use(rows: seq<Row<T>>, now: int, resortMs: int) returns (out: seq<Row<T>>)
      modifies this
      ensures Now() == NextMemory(old(Now()), rows, now, resortMs)
      ensures out == Rendered(old(Now()), rows, now, resortMs)
    {
      if order.None? || now - sortedAt >= resortMs {
        order := Some(Keys(rows));
        sortedAt := now;
        return rows;
      }
      var kept := Filter(order.value, Among(Keys(rows)));
      var added := Filter(Keys(rows), NotAmong(kept));
      SteadiedIsListed(order.value, Keys(rows));
      order := Some(kept + added);
      out := Shown(order.value, rows);
    }
  }

  // ---------------------------------------------------------------------------------------
  // Over any number of renders
  // ---------------------------------------------------------------------------------------

  datatype Render<T> = Render(rows: seq<Row<T>>, now: int)

  function After<T>(memory: Memory, renders: seq<Render<T>>, resortMs: int): Memory {
    if renders == [] then memory
    else
      var n := |renders| - 1;
      NextMemory(After(memory, renders[..n], resortMs), renders[n].rows, renders[n].now, resortMs)
  }

  predicate UniqueKeys<T>(renders: seq<Render<T>>) {
    forall k | 0 <= k < |renders| :: Distinct(Keys(renders[k].rows))
  }

  lemma {:induction false} MemoryIsDistinct<T>(renders: seq<Render<T>>, resortMs: int)
    requires UniqueKeys(renders)
    ensures After(INITIAL, renders, resortMs).order.Some? ==> Distinct(After(INITIAL, renders, resortMs).order.value)
  {
    if renders != [] {
      var n := |renders| - 1;
      var memory := After(INITIAL, renders[..n], resortMs);
      MemoryIsDistinct(renders[..n], resortMs);
      if memory.order.Some? {
        SteadiedIsDistinct(memory.order.value, Keys(renders[n].rows));
      }
    }
  }

  /** From the first render on, each shows a permutation of the rows it was given. */
  lemma EveryRenderPermutes<T>(renders: seq<Render<T>>, resortMs: int, k: nat)
    requires UniqueKeys(renders) && k < |renders|
    ensures var Render(rows, now) := renders[k];
            multiset(Rendered(After(INITIAL, renders[..k], resortMs), rows, now, resortMs)) == multiset(rows)
  {
    MemoryIsDistinct(renders[..k], resortMs);
    ShownIsPermutation(After(INITIAL, renders[..k], resortMs), renders[k].rows, renders[k].now, resortMs);
  }

  /** No render of the run re-sorts. */
  predicate Steady<T>(memory: Memory, renders: seq<Render<T>>, resortMs: int) {
    forall k | 0 <= k < |renders| :: !Resorts(After(memory, renders[..k], resortMs), renders[k].now, resortMs)
  }

  predicate ResortsAt<T>(renders: seq<Render<T>>, resortMs: int, k: nat)
    requires k < |renders|
  {
    Resorts(After(INITIAL, renders[..k], resortMs), renders[k].now, resortMs)
  }

  lemma {:induction false} LastSorted<T>(renders: seq<Render<T>>, resortMs: int, k: nat, m: nat)
    requires k < m <= |renders| && ResortsAt(renders, resortMs, k)
    requires forall j: nat | k < j < m :: !ResortsAt(renders, resortMs, j)
    ensures After(INITIAL, renders[..m], resortMs).order.Some? && After(INITIAL, renders[..m], resortMs).sortedAt == renders[k].now
    decreases m
  {
    assert renders[..m][..m - 1] == renders[..m - 1];
    if m - 1 > k {
      LastSorted(renders, resortMs, k, m - 1);
      assert !ResortsAt(renders, resortMs, m - 1);
    }
  }

  /** The first render sorts. After a sort the next one comes exactly when `resortMs` have passed since. */
  lemma ResortsIff<T>(renders: seq<Render<T>>, resortMs: int, k: nat, m: nat)
    requires k < m < |renders| && ResortsAt(renders, resortMs, k)
    requires forall j: nat | k < j < m :: !ResortsAt(renders, resortMs, j)
    ensures ResortsAt(renders, resortMs, 0)
    ensures ResortsAt(renders, resortMs, m) <==> renders[m].now - renders[k].now >= resortMs
  {
    LastSorted(renders, resortMs, k, m);
    assert renders[..0] == [];
  }

  lemma SortShowsAll<T>(renders: seq<Render<T>>, resortMs: int, k: nat)
    requires k < |renders| && ResortsAt(renders, resortMs, k)
    ensures Rendered(After(INITIAL, renders[..k], resortMs), renders[k].rows, renders[k].now, resortMs) == renders[k].rows
  {
  }

  /** So renders that come within `resortMs` of a sort leave the order alone, and a sort shows the rows as they were given. */
  lemma {:induction false} NoResortSoon<T>(renders: seq<Render<T>>, resortMs: int, k: nat, m: nat)
    requires k < m < |renders| && ResortsAt(renders, resortMs, k)
    requires forall j | k < j <= m :: renders[j].now - renders[k].now < resortMs
    ensures !ResortsAt(renders, resortMs, m)
    ensures Rendered(After(INITIAL, renders[..k], resortMs), renders[k].rows, renders[k].now, resortMs) == renders[k].rows
    decreases m
  {
    hide ResortsAt;
    forall j: nat | k < j < m ensures !ResortsAt(renders, resortMs, j) {
      NoResortSoon(renders, resortMs, k, j);
    }
    ResortsIff(renders, resortMs, k, m);
    SortShowsAll(renders, resortMs, k);
  }

  /** Between re-sorts, two rows that are never missing keep their relative order however often the list changes. */
  lemma {:induction false} PlacesHold<T>(memory: Memory, renders: seq<Render<T>>, resortMs: int, a: string, b: string)
    requires memory.order.Some? && Before(memory.order.value, a, b)
    requires Steady(memory, renders, resortMs)
    requires forall k | 0 <= k < |renders| :: a in Keys(renders[k].rows) && b in Keys(renders[k].rows)
    ensures After(memory, renders, resortMs).order.Some? && Before(After(memory, renders, resortMs).order.value, a, b)
  {
    if renders != [] {
      var n := |renders| - 1;
      forall k | 0 <= k < n ensures !Resorts(After(memory, renders[..n][..k], resortMs), renders[..n][k].now, resortMs) {
        assert renders[..n][..k] == renders[..k];
      }
      PlacesHold(memory, renders[..n], resortMs, a, b);
      KeptInOrder(After(memory, renders[..n], resortMs).order.value, Keys(renders[n].rows), a, b);
    }
  }
}
