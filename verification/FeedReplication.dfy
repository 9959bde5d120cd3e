/**
  What the diff/patch pair promises: a viewer that starts from a list and applies every patch holds
  exactly what a naive replica holds that is sent every row in full apart from the unsent fields;
  a viewer that is out of date never builds a row under the wrong key; and a full snapshot heals it.
*/
module FeedReplication {
  import opened Common
  import opened FeedDiff

  // ---------------------------------------------------------------------------------------
  // Lists as the server makes them
  // ---------------------------------------------------------------------------------------

  /** Every list is keyed one way: coins by their mint, markets by chain and token address. */
  datatype KeyStyle = ByMint | ByPair

  predicate Keyed(style: KeyStyle, row: Row) {
    match style
    case ByMint => MINT in row && row[MINT].Text?
    case ByPair => MINT !in row && CHAIN in row && row[CHAIN].Text? && TOKEN in row && row[TOKEN].Text?
  }

  predicate AllKeyed(style: KeyStyle, list: seq<Row>) {
    forall i | 0 <= i < |list| :: Keyed(style, list[i])
  }

  predicate Unique(list: seq<Row>) {
    forall i, j | 0 <= i < j < |list| :: KeyOf(list[i]) != KeyOf(list[j])
  }

  predicate Served(style: KeyStyle, list: seq<Row>) {
    AllKeyed(style, list) && Unique(list)
  }

  /** `view` holds the value of every field of `row` that patches carry. */
  predicate Agrees(view: Row, row: Row) {
    forall f | f in row && f !in UNSENT_FIELDS :: f in view && view[f] == row[f]
  }

  predicate Shows(view: seq<Row>, list: seq<Row>) {
    Keys(view) == Keys(list) && forall i | 0 <= i < |list| :: Agrees(view[i], list[i])
  }

  predicate InSync(style: KeyStyle, view: seq<Row>, list: seq<Row>) {
    AllKeyed(style, view) && Shows(view, list)
  }

  // ---------------------------------------------------------------------------------------
  // The naive replica
  // ---------------------------------------------------------------------------------------

  function Sendable(row: Row): Row {
    map f | f in row && f !in UNSENT_FIELDS :: row[f]
  }

  function Refreshed(held: map<string, Row>, row: Row): Row {
    if KeyOf(row) in held then held[KeyOf(row)] + Sendable(row) else row
  }

  /** Every row of `next`, laid over what the replica already held under the same key. */
  function Refresh(view: seq<Row>, next: seq<Row>): (out: seq<Row>)
    ensures |out| == |next|
  {
    seq(|next|, i requires 0 <= i < |next| => Refreshed(ByKey(view), next[i]))
  }

  // ---------------------------------------------------------------------------------------
  // Indexes and patches, pointwise
  // ---------------------------------------------------------------------------------------

  lemma {:induction false} HeldFrom(list: seq<Row>, key: string)
    requires key in ByKey(list)
    ensures exists i :: 0 <= i < |list| && KeyOf(list[i]) == key && ByKey(list)[key] == list[i]
  {
    var n := |list| - 1;
    if KeyOf(list[n]) != key {
      HeldFrom(list[..n], key);
      var i :| 0 <= i < n && KeyOf(list[..n][i]) == key && ByKey(list[..n])[key] == list[..n][i];
      assert list[..n][i] == list[i];
    } else {
      assert ByKey(list)[key] == list[n];
    }
  }

  lemma {:induction false} ListedHeld(list: seq<Row>, i: nat)
    requires i < |list|
    ensures KeyOf(list[i]) in ByKey(list)
  {
    var n := |list| - 1;
    if i < n {
      ListedHeld(list[..n], i);
      assert list[..n][i] == list[i];
    }
  }

  /** Of several rows with one key, the index holds the last. */
  lemma {:induction false} LastRowHeld(list: seq<Row>, i: nat)
    requires i < |list| && forall j | i < j < |list| :: KeyOf(list[j]) != KeyOf(list[i])
    ensures KeyOf(list[i]) in ByKey(list) && ByKey(list)[KeyOf(list[i])] == list[i]
  {
    hide KeyOf;
    var n := |list| - 1;
    if i < n {
      LastRowHeld(list[..n], i);
      assert KeyOf(list[n]) != KeyOf(list[i]);
    }
  }

  lemma IndexedFrom(list: seq<Row>, key: string)
    ensures key in ByKey(list) <==> exists i :: 0 <= i < |list| && KeyOf(list[i]) == key
    ensures key in ByKey(list) ==> ByKey(list)[key] in list && KeyOf(ByKey(list)[key]) == key
  {
    if key in ByKey(list) {
      HeldFrom(list, key);
    }
    if i :| 0 <= i < |list| && KeyOf(list[i]) == key {
      ListedHeld(list, i);
    }
  }

  lemma IndexedAt(list: seq<Row>, i: nat)
    requires i < |list| && Unique(list)
    ensures KeyOf(list[i]) in ByKey(list) && ByKey(list)[KeyOf(list[i])] == list[i]
  {
    ListedHeld(list, i);
    HeldFrom(list, KeyOf(list[i]));
  }

  lemma {:induction false} PatchedFrom(before: map<string, Row>, next: seq<Row>, key: string)
    requires key in PatchRows(before, next)
    ensures exists i :: 0 <= i < |next| && KeyOf(next[i]) == key && Sent(before, next[i]) &&
                        PatchRows(before, next)[key] == Delta(before, next[i])
  {
    var n := |next| - 1;
    if KeyOf(next[n]) != key || !Sent(before, next[n]) {
      PatchedFrom(before, next[..n], key);
      var i :| 0 <= i < n && KeyOf(next[..n][i]) == key && Sent(before, next[..n][i]) &&
               PatchRows(before, next[..n])[key] == Delta(before, next[..n][i]);
      assert next[i] == next[..n][i];
    }
  }

  lemma {:induction false} PatchedAt(before: map<string, Row>, next: seq<Row>, i: nat)
    requires i < |next| && Unique(next)
    ensures KeyOf(next[i]) in PatchRows(before, next) <==> Sent(before, next[i])
    ensures Sent(before, next[i]) ==> PatchRows(before, next)[KeyOf(next[i])] == Delta(before, next[i])
  {
    hide Sent, Delta, KeyOf;
    if KeyOf(next[i]) in PatchRows(before, next) {
      PatchedFrom(before, next, KeyOf(next[i]));
    }
    var n := |next| - 1;
    if i < n {
      PatchedAt(before, next[..n], i);
      assert next[..n][i] == next[i];
    }
  }

  // ---------------------------------------------------------------------------------------
  // A merged row keeps its key
  // ---------------------------------------------------------------------------------------

  lemma FieldNames()
    ensures MINT !in UNSENT_FIELDS && CHAIN !in UNSENT_FIELDS && TOKEN !in UNSENT_FIELDS
    ensures MINT != CHAIN && MINT != TOKEN && CHAIN != TOKEN
  {
    assert MINT[0] == 'm' && CHAIN[0] == 'c' && TOKEN[0] == 't';
    assert "lastPriceUpdateAt"[0] == 'l' && "discoveryScore"[0] == 'd';
  }

  predicate HalfReads(row: Row, field: string, text: string) {
    if field !in row then text == "undefined"
    else match row[field]
      case Null => text == "null"
      case Text(s) => text == s
      case Raw(json) => text == json
  }

  /** A row goes by its mint when it has one that is not null, else by its chain and token, an absent half reading undefined. */
  lemma KeyIs(row: Row)
    ensures "mintAddress" in row && row["mintAddress"].Text? ==> KeyOf(row) == row["mintAddress"].text
    ensures "mintAddress" !in row || row["mintAddress"] == Null ==>
              forall chain, token | HalfReads(row, "chainIdentifier", chain) && HalfReads(row, "tokenAddress", token) ::
                KeyOf(row) == chain + ":" + token
  {
    FieldNames();
  }

  /** Two pairs printed alike differ in both halves or in neither, wherever the colons fall. */
  lemma PrintedPair(a: string, b: string, c: string, d: string)
    requires a + ":" + b == c + ":" + d
    ensures a == c <==> b == d
  {
    var p, q := a + ":" + b, c + ":" + d;
    assert p[..|a|] == a && p[|a| + 1..] == b;
    assert q[..|c|] == c && q[|c| + 1..] == d;
    if b == d {
      assert |a| == |c|;
    }
  }

  lemma MergedKey(style: KeyStyle, base: Row, was: Row, row: Row)
    requires Keyed(style, base) && Keyed(style, was) && Keyed(style, row)
    requires KeyOf(base) == KeyOf(was) == KeyOf(row)
    ensures Keyed(style, base + Changed(was, row)) && KeyOf(base + Changed(was, row)) == KeyOf(row)
    ensures Keyed(style, base + row) && KeyOf(base + row) == KeyOf(row)
  {
    FieldNames();
    if style == ByPair {
      PrintedPair(was[CHAIN].text, was[TOKEN].text, row[CHAIN].text, row[TOKEN].text);
    }
  }

  // ---------------------------------------------------------------------------------------
  // One list, one step
  // ---------------------------------------------------------------------------------------

  /** No patch is made exactly when the old list already shows everything a patch of the new could say. */
  lemma NoPatchIffNothingVisible(prev: seq<Row>, next: seq<Row>)
    requires Unique(prev)
    ensures Diff(prev, next).None? <==> Shows(prev, next)
  {
    var before := ByKey(prev);
    if Keys(prev) == Keys(next) {
      forall i, j | 0 <= i < j < |next|
        ensures KeyOf(next[i]) != KeyOf(next[j])
      {
        assert Keys(prev)[i] == Keys(next)[i] && Keys(prev)[j] == Keys(next)[j];
      }
      forall i | 0 <= i < |next|
        ensures KeyOf(next[i]) in before && before[KeyOf(next[i])] == prev[i]
        ensures KeyOf(next[i]) in PatchRows(before, next) <==> !Agrees(prev[i], next[i])
      {
        IndexedAt(prev, i);
        PatchedAt(before, next, i);
        assert Keys(prev)[i] == Keys(next)[i];
        if !Agrees(prev[i], next[i]) {
          var f :| f in next[i] && f !in UNSENT_FIELDS && !(f in prev[i] && prev[i][f] == next[i][f]);
          assert f in Changed(prev[i], next[i]);
        }
      }
      if PatchRows(before, next) != map[] {
        var key :| key in PatchRows(before, next);
        PatchedFrom(before, next, key);
      }
    }
  }

  /** Laying a changed-fields row over a row that agrees with the old one is laying on all of it. */
  lemma ChangedIsEnough(view: Row, was: Row, row: Row)
    requires Agrees(view, was)
    ensures view + Changed(was, row) == view + Sendable(row)
  {
  }

  lemma HeldAt(style: KeyStyle, view: seq<Row>, list: seq<Row>, i: nat)
    requires Unique(list) && InSync(style, view, list) && i < |list|
    ensures KeyOf(view[i]) == KeyOf(list[i])
    ensures KeyOf(list[i]) in ByKey(view) && ByKey(view)[KeyOf(list[i])] == view[i]
    ensures KeyOf(list[i]) in ByKey(list) && ByKey(list)[KeyOf(list[i])] == list[i]
  {
    assert Keys(view)[i] == Keys(list)[i];
    assert Unique(view) by {
      forall a, b | 0 <= a < b < |view| ensures KeyOf(view[a]) != KeyOf(view[b]) {
        assert Keys(view)[a] == Keys(list)[a] && Keys(view)[b] == Keys(list)[b];
      }
    }
    IndexedAt(view, i);
    IndexedAt(list, i);
  }

  lemma HeldIffListed(style: KeyStyle, view: seq<Row>, list: seq<Row>, key: string)
    requires Unique(list) && InSync(style, view, list)
    ensures key in ByKey(view) <==> key in ByKey(list)
    ensures key in ByKey(list) ==> exists i :: 0 <= i < |list| && KeyOf(list[i]) == key
  {
    IndexedFrom(view, key);
    IndexedFrom(list, key);
    if i :| 0 <= i < |list| && KeyOf(list[i]) == key {
      HeldAt(style, view, list, i);
    }
    if i :| 0 <= i < |view| && KeyOf(view[i]) == key {
      HeldAt(style, view, list, i);
    }
  }

  ghost predicate GoodRefresh(style: KeyStyle, held: map<string, Row>, patch: ListPatch, row: Row) {
    var out := Refreshed(held, row);
    Rebuilt(held, patch, KeyOf(row)) == Some(out) && Keyed(style, out) && KeyOf(out) == KeyOf(row) && Agrees(out, row)
  }

  lemma MergeIsRefresh(style: KeyStyle, held: map<string, Row>, before: map<string, Row>, patch: ListPatch, view: Row, was: Row, row: Row)
    requires Keyed(style, view) && Keyed(style, was) && Keyed(style, row) && Agrees(view, was)
    requires KeyOf(view) == KeyOf(was) == KeyOf(row)
    requires KeyOf(row) in held && held[KeyOf(row)] == view && KeyOf(row) in before && before[KeyOf(row)] == was
    requires KeyOf(row) in patch.rows <==> Sent(before, row)
    requires Sent(before, row) ==> patch.rows[KeyOf(row)] == Delta(before, row)
    ensures GoodRefresh(style, held, patch, row)
  {
    hide KeyOf, Keyed;
    ChangedIsEnough(view, was, row);
    MergedKey(style, view, was, row);
    if !Sent(before, row) {
      assert view + Changed(was, row) == view;
    }
  }

  lemma KeptRow(style: KeyStyle, view: seq<Row>, prev: seq<Row>, next: seq<Row>, j: nat, i: nat)
    requires Served(style, prev) && Served(style, next) && InSync(style, view, prev)
    requires i < |next| && j < |prev| && KeyOf(prev[j]) == KeyOf(next[i])
    ensures GoodRefresh(style, ByKey(view), ListPatch(Keys(next), PatchRows(ByKey(prev), next)), next[i])
  {
    hide ByKey, PatchRows, KeyOf, Keyed, Agrees, GoodRefresh, Sent, Delta;
    HeldAt(style, view, prev, j);
    PatchedAt(ByKey(prev), next, i);
    MergeIsRefresh(style, ByKey(view), ByKey(prev), ListPatch(Keys(next), PatchRows(ByKey(prev), next)), view[j], prev[j], next[i]);
  }

  lemma RefreshedRow(style: KeyStyle, view: seq<Row>, prev: seq<Row>, next: seq<Row>, i: nat)
    requires Served(style, prev) && Served(style, next) && InSync(style, view, prev) && i < |next|
    ensures GoodRefresh(style, ByKey(view), ListPatch(Keys(next), PatchRows(ByKey(prev), next)), next[i])
  {
    var key := KeyOf(next[i]);
    HeldIffListed(style, view, prev, key);
    if key in ByKey(prev) {
      var j :| 0 <= j < |prev| && KeyOf(prev[j]) == key;
      KeptRow(style, view, prev, next, j, i);
    } else {
      PatchedAt(ByKey(prev), next, i);
    }
  }

  lemma NothingToRefresh(style: KeyStyle, view: seq<Row>, prev: seq<Row>, next: seq<Row>)
    requires Served(style, prev) && InSync(style, view, prev) && Diff(prev, next).None?
    ensures Refresh(view, next) == view
  {
    NoPatchIffNothingVisible(prev, next);
    forall i | 0 <= i < |next|
      ensures Refresh(view, next)[i] == view[i]
    {
      assert Keys(view)[i] == Keys(prev)[i] == Keys(next)[i];
      HeldAt(style, view, prev, i);
      assert Agrees(prev[i], next[i]) && Agrees(view[i], prev[i]);
      assert view[i] + Sendable(next[i]) == view[i];
    }
  }

  /** The step of replication: what is sent takes the viewer exactly where the naive replica goes. */
  lemma ListStep(style: KeyStyle, view: seq<Row>, prev: seq<Row>, next: seq<Row>)
    requires Served(style, prev) && Served(style, next) && InSync(style, view, prev)
    ensures match Diff(prev, next)
            case None => Refresh(view, next) == view
            case Some(patch) => Apply(view, patch) == Some(Refresh(view, next))
    ensures InSync(style, Refresh(view, next), next)
  {
    var patch := ListPatch(Keys(next), PatchRows(ByKey(prev), next));
    forall i | 0 <= i < |next|
      ensures Rebuilt(ByKey(view), patch, Keys(next)[i]) == Some(Refresh(view, next)[i])
      ensures CanRebuild(ByKey(view), patch, Keys(next)[i])
      ensures Keyed(style, Refresh(view, next)[i])
      ensures KeyOf(Refresh(view, next)[i]) == KeyOf(next[i])
      ensures Agrees(Refresh(view, next)[i], next[i])
    {
      RefreshedRow(style, view, prev, next, i);
    }
    assert Keys(Refresh(view, next)) == Keys(next);
    var built := Apply(view, patch);
    assert built.value == Refresh(view, next);
    if Diff(prev, next).None? {
      NothingToRefresh(style, view, prev, next);
    }
  }

  // ---------------------------------------------------------------------------------------
  // A viewer that is out of date
  // ---------------------------------------------------------------------------------------

  lemma KeyIsIndexed(list: seq<Row>, key: string)
    ensures key in Keys(list) <==> key in ByKey(list)
  {
    hide ByKey, KeyOf;
    IndexedFrom(list, key);
    if key in Keys(list) {
      var i :| 0 <= i < |list| && Keys(list)[i] == key;
      assert KeyOf(list[i]) == key;
    }
    if i :| 0 <= i < |list| && KeyOf(list[i]) == key {
      assert Keys(list)[i] == key;
    }
  }

  lemma MergedDelta(style: KeyStyle, before: map<string, Row>, held: Row, row: Row)
    requires Keyed(style, held) && Keyed(style, row) && KeyOf(held) == KeyOf(row)
    requires KeyOf(row) in before ==> Keyed(style, before[KeyOf(row)]) && KeyOf(before[KeyOf(row)]) == KeyOf(row)
    ensures Keyed(style, held + Delta(before, row)) && KeyOf(held + Delta(before, row)) == KeyOf(row)
  {
    hide Keyed, KeyOf, Changed;
    MergedKey(style, held, if KeyOf(row) in before then before[KeyOf(row)] else row, row);
  }

  lemma StaleRow(style: KeyStyle, current: seq<Row>, prev: seq<Row>, next: seq<Row>, key: string)
    requires AllKeyed(style, current) && AllKeyed(style, prev) && AllKeyed(style, next)
    requires key in Keys(next)
    ensures var patch := ListPatch(Keys(next), PatchRows(ByKey(prev), next));
            match Rebuilt(ByKey(current), patch, key)
            case None => key !in Keys(current)
            case Some(row) => KeyOf(row) == key &&
                              if key in Keys(current) then Keyed(style, row)
                              else key in patch.rows && row == patch.rows[key]
  {
    hide ByKey, PatchRows, Delta, Sent, Keyed, KeyOf;
    var before := ByKey(prev);
    IndexedFrom(current, key);
    KeyIsIndexed(current, key);
    if key in PatchRows(before, next) {
      PatchedFrom(before, next, key);
      var i :| 0 <= i < |next| && KeyOf(next[i]) == key && Sent(before, next[i]) &&
               PatchRows(before, next)[key] == Delta(before, next[i]);
      IndexedFrom(prev, key);
      if key in ByKey(current) {
        MergedDelta(style, before, ByKey(current)[key], next[i]);
      }
    }
  }

  /** Whatever list the viewer holds, it either refuses the patch or ends with exactly the patch's keys. */
  lemma StaleViewerKeys(style: KeyStyle, current: seq<Row>, prev: seq<Row>, next: seq<Row>)
    requires AllKeyed(style, current) && AllKeyed(style, prev) && AllKeyed(style, next)
    requires Diff(prev, next).Some?
    ensures var patch := Diff(prev, next).value;
            Apply(current, patch).Some? ==> Keys(Apply(current, patch).value) == patch.order == Keys(next)
  {
    var patch := Diff(prev, next).value;
    var out := Apply(current, patch);
    if out.Some? {
      forall i | 0 <= i < |next|
        ensures KeyOf(out.value[i]) == Keys(next)[i]
      {
        assert Keys(next)[i] in Keys(next);
        StaleRow(style, current, prev, next, Keys(next)[i]);
      }
    }
  }

  /** What a viewer should hold of a coin that is new to it: the server's row, all of it. */
  predicate NewRowsWhole(current: seq<Row>, next: seq<Row>, out: seq<Row>)
    requires |out| == |next|
  {
    forall i | 0 <= i < |next| && KeyOf(next[i]) !in ByKey(current) :: out[i] == next[i]
  }

  /**
    A changed-fields row, less than the server's row, that happens to print its own key. Such a row
    passes the guard meant to turn half rows away.
  */
  predicate HalfRowAt(prev: seq<Row>, next: seq<Row>, i: nat) {
    i < |next| &&
    var before, row := ByKey(prev), next[i];
    KeyOf(row) in before && Changed(before[KeyOf(row)], row) != map[] &&
    Changed(before[KeyOf(row)], row) != row && KeyOf(Changed(before[KeyOf(row)], row)) == KeyOf(row)
  }

  lemma IsListed(prev: seq<Row>, next: seq<Row>, i: nat)
    requires HalfRowAt(prev, next, i)
    ensures i < |next| && KeyOf(next[i]) in ByKey(prev)
  {
  }

  lemma PatchIs(prev: seq<Row>, next: seq<Row>)
    requires Diff(prev, next).Some?
    ensures Diff(prev, next).value == ListPatch(Keys(next), PatchRows(ByKey(prev), next))
  {
  }

  /** A row whose key the viewer does not hold is whole unless it is a half row, and a half row is shown as it is. */
  lemma NewRow(current: seq<Row>, prev: seq<Row>, next: seq<Row>, i: nat)
    requires Unique(next) && i < |next| && KeyOf(next[i]) !in ByKey(current)
    ensures var patch := ListPatch(Keys(next), PatchRows(ByKey(prev), next));
            match Rebuilt(ByKey(current), patch, KeyOf(next[i]))
            case None => KeyOf(next[i]) in ByKey(prev) && !HalfRowAt(prev, next, i)
            case Some(row) => row == next[i] <==> !HalfRowAt(prev, next, i)
  {
    hide ByKey, KeyOf, PatchRows, Changed;
    PatchedAt(ByKey(prev), next, i);
  }

  function Without(list: seq<Row>, key: string): seq<Row> {
    if list == [] then []
    else Without(list[..|list| - 1], key) + (if KeyOf(list[|list| - 1]) == key then [] else [list[|list| - 1]])
  }

  lemma {:induction false} WithoutHolds(list: seq<Row>, key: string)
    ensures forall row :: row in Without(list, key) <==> row in list && KeyOf(row) != key
  {
    if list != [] {
      WithoutHolds(list[..|list| - 1], key);
      assert list == list[..|list| - 1] + [list[|list| - 1]];
    }
  }

  lemma HeldWithout(style: KeyStyle, prev: seq<Row>, key: string)
    requires AllKeyed(style, prev)
    ensures AllKeyed(style, Without(prev, key))
    ensures forall k :: k in ByKey(Without(prev, key)) <==> k != key && k in ByKey(prev)
  {
    hide Keyed, KeyOf, ByKey, Without;
    var current := Without(prev, key);
    WithoutHolds(prev, key);
    forall c | 0 <= c < |current| ensures Keyed(style, current[c]) {
      assert current[c] in current;
      var j :| 0 <= j < |prev| && prev[j] == current[c];
    }
    forall k ensures k in ByKey(current) <==> k != key && k in ByKey(prev) {
      IndexedFrom(current, k);
      IndexedFrom(prev, k);
      if j :| 0 <= j < |prev| && KeyOf(prev[j]) == k && k != key {
        assert prev[j] in current;
      }
      if c :| 0 <= c < |current| && KeyOf(current[c]) == k {
        assert current[c] in current;
      }
    }
  }

  /** Any half row is shown: to a viewer that has the whole old list but for that row. */
  lemma HalfRowShown(style: KeyStyle, prev: seq<Row>, next: seq<Row>, i: nat)
    requires AllKeyed(style, prev) && Unique(next) && Diff(prev, next).Some? && HalfRowAt(prev, next, i)
    ensures var current, patch := Without(prev, KeyOf(next[i])), Diff(prev, next).value;
            AllKeyed(style, current) && KeyOf(next[i]) !in ByKey(current) &&
            Apply(current, patch).Some? && |Apply(current, patch).value| == |next| && Apply(current, patch).value[i] != next[i]
  {
    hide ByKey, KeyOf, PatchRows, HalfRowAt, Keyed, Without, Diff;
    IsListed(prev, next, i);
    var current, patch := Without(prev, KeyOf(next[i])), Diff(prev, next).value;
    PatchIs(prev, next);
    HeldWithout(style, prev, KeyOf(next[i]));
    forall k | 0 <= k < |patch.order| ensures CanRebuild(ByKey(current), patch, patch.order[k]) {
      if KeyOf(next[k]) !in ByKey(current) {
        NewRow(current, prev, next, k);
        assert KeyOf(next[k]) in ByKey(prev) ==> k == i;
      }
    }
    NewRow(current, prev, next, i);
    assert Some(Apply(current, patch).value[i]) == Rebuilt(ByKey(current), patch, patch.order[i]);
  }

  /** No half row in the patch: no viewer at all gets less than the server's row of a coin it does not hold. */
  lemma NoHalfRows(current: seq<Row>, prev: seq<Row>, next: seq<Row>)
    requires Unique(next) && Diff(prev, next).Some? && forall i: nat :: !HalfRowAt(prev, next, i)
    requires Apply(current, Diff(prev, next).value).Some?
    ensures var out := Apply(current, Diff(prev, next).value).value; |out| == |next| && NewRowsWhole(current, next, out)
  {
    hide ByKey, KeyOf, PatchRows, HalfRowAt, Diff;
    PatchIs(prev, next);
    var patch := Diff(prev, next).value;
    var out := Apply(current, patch).value;
    forall i | 0 <= i < |next| && KeyOf(next[i]) !in ByKey(current) ensures out[i] == next[i] {
      NewRow(current, prev, next, i);
      assert Some(out[i]) == Rebuilt(ByKey(current), patch, patch.order[i]);
    }
  }

  predicate AcceptedWhole(current: seq<Row>, next: seq<Row>, patch: ListPatch) {
    match Apply(current, patch)
    case None => true
    case Some(out) => |out| == |next| && NewRowsWhole(current, next, out)
  }

  /**
    Every viewer ends up with the server's whole row for each coin that is new to it, exactly when
    the patch has no half row that prints its own key.
  */
  lemma WholeRowsIff(style: KeyStyle, prev: seq<Row>, next: seq<Row>)
    requires AllKeyed(style, prev) && Unique(next) && Diff(prev, next).Some?
    ensures (forall current | AllKeyed(style, current) :: AcceptedWhole(current, next, Diff(prev, next).value)) <==>
            forall i: nat :: !HalfRowAt(prev, next, i)
  {
    hide Diff, Apply, HalfRowAt, AllKeyed, ByKey, KeyOf;
    if i: nat :| HalfRowAt(prev, next, i) {
      IsListed(prev, next, i);
      HalfRowShown(style, prev, next, i);
      assert !AcceptedWhole(Without(prev, KeyOf(next[i])), next, Diff(prev, next).value);
    } else {
      forall current | AllKeyed(style, current) ensures AcceptedWhole(current, next, Diff(prev, next).value) {
        if Apply(current, Diff(prev, next).value).Some? {
          NoHalfRows(current, prev, next);
        }
      }
    }
  }

  // ---------------------------------------------------------------------------------------
  // Which rows can be half rows
  // ---------------------------------------------------------------------------------------

  /** The key can be read only one way: a mint without a colon, or a pair whose token has none and that is not undefined:undefined. */
  predicate Plain(style: KeyStyle, row: Row)
    requires Keyed(style, row)
  {
    match style
    case ByMint => ':' !in row[MINT].text
    case ByPair => ':' !in row[TOKEN].text && KeyOf(row) != "undefined:undefined"
  }

  predicate AllPlain(style: KeyStyle, list: seq<Row>)
    requires AllKeyed(style, list)
  {
    forall i | 0 <= i < |list| :: Plain(style, list[i])
  }

  lemma SameHalves(a: string, b: string, c: string, d: string)
    requires a + ":" + b == c + ":" + d && ':' !in b && ':' !in d
    ensures a == c && b == d
  {
    var p, q := a + ":" + b, c + ":" + d;
    forall k | |a| < k < |p| ensures p[k] != ':' {
      assert p[k] == b[k - |a| - 1];
    }
    forall k | |c| < k < |q| ensures q[k] != ':' {
      assert q[k] == d[k - |c| - 1];
    }
    assert p[|a|] == ':' && q[|c|] == ':';
    assert p[..|a|] == a && q[..|c|] == c && p[|a| + 1..] == b && q[|c| + 1..] == d;
  }

  /** Which changed-fields rows print their own key, exactly. */
  lemma PrintsOwnKeyIff(style: KeyStyle, was: Row, row: Row)
    requires Keyed(style, was) && Keyed(style, row) && KeyOf(was) == KeyOf(row)
    ensures KeyOf(Changed(was, row)) == KeyOf(row) <==>
            match style
            case ByMint => PairKey(Changed(was, row)) == row[MINT].text
            case ByPair => was[CHAIN] != row[CHAIN] || KeyOf(row) == "undefined:undefined"
  {
    FieldNames();
    var delta := Changed(was, row);
    if style == ByPair {
      PrintedPair(was[CHAIN].text, was[TOKEN].text, row[CHAIN].text, row[TOKEN].text);
      assert CHAIN in delta <==> TOKEN in delta;
      assert CHAIN !in delta ==> PairKey(delta) == "undefined" + ":" + "undefined";
    } else {
      assert MINT !in delta;
    }
  }

  lemma PlainIsRejected(style: KeyStyle, was: Row, row: Row)
    requires Keyed(style, was) && Keyed(style, row) && KeyOf(was) == KeyOf(row)
    requires Plain(style, was) && Plain(style, row)
    ensures KeyOf(Changed(was, row)) != KeyOf(row)
  {
    hide Changed;
    PrintsOwnKeyIff(style, was, row);
    match style
    case ByMint =>
      var delta := Changed(was, row);
      assert PairKey(delta)[|Printed(delta, CHAIN)|] == ':';
    case ByPair =>
      SameHalves(was[CHAIN].text, was[TOKEN].text, row[CHAIN].text, row[TOKEN].text);
  }

  /**
    Where a half row can come from: a mint with a colon in it, a pair of which the old or the new
    token has one, or the pair undefined:undefined.
  */
  lemma HalfRowNeedsColon(style: KeyStyle, prev: seq<Row>, next: seq<Row>, i: nat)
    requires AllKeyed(style, prev) && AllKeyed(style, next) && HalfRowAt(prev, next, i)
    ensures var was := ByKey(prev)[KeyOf(next[i])];
            Keyed(style, was) && KeyOf(was) == KeyOf(next[i]) && !(Plain(style, was) && Plain(style, next[i]))
  {
    hide ByKey, KeyOf, Keyed, Changed, Plain;
    var was := ByKey(prev)[KeyOf(next[i])];
    IndexedFrom(prev, KeyOf(next[i]));
    var j :| 0 <= j < |prev| && prev[j] == was;
    if Plain(style, was) && Plain(style, next[i]) {
      PlainIsRejected(style, was, next[i]);
    }
  }

  lemma HeldIsPlain(style: KeyStyle, prev: seq<Row>, next: seq<Row>, i: nat)
    requires AllKeyed(style, prev) && AllPlain(style, prev) && i < |next| && KeyOf(next[i]) in ByKey(prev)
    ensures Keyed(style, ByKey(prev)[KeyOf(next[i])]) && Plain(style, ByKey(prev)[KeyOf(next[i])])
  {
    hide ByKey, KeyOf, Keyed, Plain;
    IndexedFrom(prev, KeyOf(next[i]));
    var j :| 0 <= j < |prev| && prev[j] == ByKey(prev)[KeyOf(next[i])];
    assert Plain(style, prev[j]);
  }

  lemma WholeIsKeyed(style: KeyStyle, prev: seq<Row>, next: seq<Row>, current: seq<Row>)
    requires AllKeyed(style, prev) && AllKeyed(style, next) && AllKeyed(style, current)
    requires Diff(prev, next).Some? && Apply(current, Diff(prev, next).value).Some?
    requires var out := Apply(current, Diff(prev, next).value).value; |out| == |next| && NewRowsWhole(current, next, out)
    ensures AllKeyed(style, Apply(current, Diff(prev, next).value).value)
  {
    hide Diff, ByKey, KeyOf, Keyed, PatchRows;
    PatchIs(prev, next);
    var patch := Diff(prev, next).value;
    forall i | 0 <= i < |next| ensures Keyed(style, Apply(current, patch).value[i]) {
      assert Keys(next)[i] in Keys(next);
      StaleRow(style, current, prev, next, Keys(next)[i]);
      KeyIsIndexed(current, Keys(next)[i]);
      assert Some(Apply(current, patch).value[i]) == Rebuilt(ByKey(current), patch, patch.order[i]);
    }
  }

  /**
    With plain keys the guard does what it is for: whatever a viewer holds, a patch it accepts gives
    it the server's whole row for each coin it did not hold, and every row stays keyed.
  */
  lemma PlainRowsAreWhole(style: KeyStyle, prev: seq<Row>, next: seq<Row>, current: seq<Row>)
    requires AllKeyed(style, prev) && Served(style, next) && AllPlain(style, prev) && AllPlain(style, next)
    requires Diff(prev, next).Some? && Apply(current, Diff(prev, next).value).Some?
    ensures var out := Apply(current, Diff(prev, next).value).value;
            |out| == |next| && NewRowsWhole(current, next, out) && (AllKeyed(style, current) ==> AllKeyed(style, out))
  {
    hide Diff, Apply, ByKey, KeyOf, Keyed, HalfRowAt, Plain, PatchRows;
    forall i: nat ensures !HalfRowAt(prev, next, i) {
      if HalfRowAt(prev, next, i) {
        IsListed(prev, next, i);
        HalfRowNeedsColon(style, prev, next, i);
        HeldIsPlain(style, prev, next, i);
      }
    }
    NoHalfRows(current, prev, next);
    if AllKeyed(style, current) {
      WholeIsKeyed(style, prev, next, current);
    }
  }

  lemma OneRowPatch(was: Row, row: Row)
    requires KeyOf(was) == KeyOf(row) && Changed(was, row) != map[]
    ensures Diff([was], [row]) == Some(ListPatch([KeyOf(row)], map[KeyOf(row) := Changed(was, row)]))
  {
    hide KeyOf, Changed;
    var before := map[KeyOf(was) := was];
    assert [was][..0] == [] && ByKey([]) == map[];
    assert ByKey([was]) == before;
    assert [row][..0] == [] && PatchRows(before, []) == map[];
    assert PatchRows(before, [row]) == map[KeyOf(row) := Changed(was, row)];
    assert KeyOf(row) in PatchRows(before, [row]);
    assert Keys([row]) == [KeyOf(row)];
  }

  lemma OneRowShown(key: string, delta: Row)
    requires KeyOf(delta) == key
    ensures Apply([], ListPatch([key], map[key := delta])) == Some([delta])
  {
    hide KeyOf;
    var patch := ListPatch([key], map[key := delta]);
    assert CanRebuild(ByKey([]), patch, key);
    assert Apply([], patch).value == [delta];
  }

  /** Half rows do pass: a mint that reads undefined:undefined, and a row of which only another field changed. */
  lemma HalfRowPasses()
    ensures var prev, next := [map[MINT := Text("undefined:undefined"), "x" := Raw("1")]],
                              [map[MINT := Text("undefined:undefined"), "x" := Raw("2")]];
            Served(ByMint, prev) && Served(ByMint, next) && Diff(prev, next).Some? &&
            HalfRowAt(prev, next, 0) && Apply([], Diff(prev, next).value) == Some([map["x" := Raw("2")]])
  {
    FieldNames();
    var key := "undefined:undefined";
    var was, row := map[MINT := Text(key), "x" := Raw("1")], map[MINT := Text(key), "x" := Raw("2")];
    var delta := map["x" := Raw("2")];
    assert "x" !in UNSENT_FIELDS && MINT != "x" && CHAIN != "x" && TOKEN != "x" by {
      assert |"x"| == 1;
    }
    assert Changed(was, row) == delta;
    assert "x" in delta && delta != map[];
    assert PairKey(delta) == "undefined" + ":" + "undefined" == key;
    hide Diff, Apply, Changed;
    OneRowPatch(was, row);
    OneRowShown(key, delta);
    IndexedAt([was], 0);
    assert delta != row by {
      assert MINT in row && MINT !in delta;
    }
  }

  /** And for pairs: the colon shifts from the chain to the token, and only the two halves are sent. */
  lemma ShiftedColonPasses()
    ensures var prev, next := [map[CHAIN := Text("a:b"), TOKEN := Text("c"), "x" := Raw("1")]],
                              [map[CHAIN := Text("a"), TOKEN := Text("b:c"), "x" := Raw("1")]];
            Served(ByPair, prev) && Served(ByPair, next) && Diff(prev, next).Some? && HalfRowAt(prev, next, 0) &&
            Apply([], Diff(prev, next).value) == Some([map[CHAIN := Text("a"), TOKEN := Text("b:c")]])
  {
    FieldNames();
    var was := map[CHAIN := Text("a:b"), TOKEN := Text("c"), "x" := Raw("1")];
    var row := map[CHAIN := Text("a"), TOKEN := Text("b:c"), "x" := Raw("1")];
    var delta := map[CHAIN := Text("a"), TOKEN := Text("b:c")];
    assert MINT != "x" && CHAIN != "x" && TOKEN != "x" by {
      assert |"x"| == 1;
    }
    assert "a:b" != "a" && "c" != "b:c" by {
      assert |"a"| == 1 && |"c"| == 1;
    }
    assert Changed(was, row) == delta;
    assert CHAIN in delta && delta != map[];
    assert KeyOf(was) == "a:b" + ":" + "c" == "a:b:c" == "a" + ":" + "b:c" == KeyOf(row) == KeyOf(delta);
    hide Diff, Apply, Changed;
    OneRowPatch(was, row);
    OneRowShown(KeyOf(row), delta);
    IndexedAt([was], 0);
    assert "x" in row && "x" !in delta;
  }
}
