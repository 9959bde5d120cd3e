/**
  Keyed feed lists and the patches between them (packages/domain/src/market-feeds.ts).

  A row is a JSON object: a finite map from field names to JSON values. A field that a row does
  not have reads as `undefined`, which no JSON value equals. Two values are equal exactly when
  their serialisations are.
*/
module FeedDiff {
  import opened Common

  /** A JSON value: null, a string, or the serialised text of anything else. */
  datatype Json = Null | Text(text: string) | Raw(json: string)

  type Row = map<string, Json>

  datatype ListPatch = ListPatch(order: seq<string>, rows: map<string, Row>)

  const UNSENT_FIELDS: set<string> := {"lastPriceUpdateAt", "discoveryScore"}

  const MINT: string := "mintAddress"
  const CHAIN: string := "chainIdentifier"
  const TOKEN: string := "tokenAddress"

  /** What a template string prints for a field: an absent one prints as "undefined". */
  function Printed(row: Row, field: string): string {
    if field !in row then "undefined"
    else match row[field]
      case Null => "null"
      case Text(t) => t
      case Raw(j) => j
  }

  function PairKey(row: Row): string {
    Printed(row, CHAIN) + ":" + Printed(row, TOKEN)
  }

  function KeyOf(row: Row): string {
    if MINT in row && row[MINT] != Null then Printed(row, MINT) else PairKey(row)
  }

  function Keys(list: seq<Row>): (keys: seq<string>)
    ensures |keys| == |list|
  {
    seq(|list|, i requires 0 <= i < |list| => KeyOf(list[i]))
  }

  /** The last row of each key wins, as in a JavaScript Map built from pairs. */
  function ByKey(list: seq<Row>): map<string, Row> {
    if list == [] then map[]
    else ByKey(list[..|list| - 1])[KeyOf(list[|list| - 1]) := list[|list| - 1]]
  }

  /** A field that a patch would carry for `row` when the receiver is believed to hold `was`. */
  predicate Differs(was: Row, row: Row, field: string) {
    field in row && field !in UNSENT_FIELDS && (field !in was || was[field] != row[field])
  }

  function Changed(was: Row, row: Row): Row {
    map f | f in row && Differs(was, row, f) :: row[f]
  }

  /** What the patch says about one row: all of it when its key is new, else what changed. */
  function Delta(before: map<string, Row>, row: Row): Row {
    var key := KeyOf(row);
    if key in before then Changed(before[key], row) else row
  }

  predicate Sent(before: map<string, Row>, row: Row) {
    KeyOf(row) !in before || Delta(before, row) != map[]
  }

  function PatchRows(before: map<string, Row>, next: seq<Row>): map<string, Row> {
    if next == [] then map[]
    else
      var row := next[|next| - 1];
      var rest := PatchRows(before, next[..|next| - 1]);
      if Sent(before, row) then rest[KeyOf(row) := Delta(before, row)] else rest
  }

  function Diff(prev: seq<Row>, next: seq<Row>): Option<ListPatch> {
    var rows := PatchRows(ByKey(prev), next);
    if Keys(next) == Keys(prev) && rows == map[] then None
    else Some(ListPatch(Keys(next), rows))
  }

  /** The row a viewer ends up with for `key`; none when it cannot build a row of that key. */
  function Rebuilt(held: map<string, Row>, patch: ListPatch, key: string): Option<Row> {
    if key in held then
      Some(if key in patch.rows then held[key] + patch.rows[key] else held[key])
    else if key in patch.rows && KeyOf(patch.rows[key]) == key then Some(patch.rows[key])
    else None
  }

  predicate CanRebuild(held: map<string, Row>, patch: ListPatch, key: string) {
    Rebuilt(held, patch, key).Some?
  }

  function Apply(current: seq<Row>, patch: ListPatch): (out: Option<seq<Row>>)
    ensures out.Some? <==> forall i | 0 <= i < |patch.order| :: CanRebuild(ByKey(current), patch, patch.order[i])
    ensures out.Some? ==> |out.value| == |patch.order|
    ensures out.Some? ==> forall i | 0 <= i < |patch.order| ::
                            Some(out.value[i]) == Rebuilt(ByKey(current), patch, patch.order[i])
  {
    var held := ByKey(current);
    if forall i | 0 <= i < |patch.order| :: CanRebuild(held, patch, patch.order[i]) then
      Some(seq(|patch.order|, i requires 0 <= i < |patch.order|
                                requires CanRebuild(held, patch, patch.order[i])
                                => Rebuilt(held, patch, patch.order[i]).value))
    else None
  }

  // ---------------------------------------------------------------------------------------
  // The loops
  // ---------------------------------------------------------------------------------------

  method IndexByKey(list: seq<Row>) returns (byKey: map<string, Row>)
    ensures byKey == ByKey(list)
  {
    byKey := map[];
    for i := 0 to |list|
      invariant byKey == ByKey(list[..i])
    {
      byKey := byKey[KeyOf(list[i]) := list[i]];
      assert list[..i + 1][..i] == list[..i];
    }
    assert list[..|list|] == list;
  }

  method ChangedFields(was: Row, row: Row) returns (changed: Row)
    ensures changed == Changed(was, row)
  {
    changed := map[];
    var left := row.Keys;
    while left != {}
      invariant left <= row.Keys
      invariant changed == map f | f in row && f !in left && Differs(was, row, f) :: row[f]
      decreases left
    {
      var field :| field in left;
      left := left - {field};
      if field in UNSENT_FIELDS {
        continue;
      }
      if field !in was || row[field] != was[field] {
        changed := changed[field := row[field]];
      }
    }
  }

  method SentRows(before: map<string, Row>, next: seq<Row>) returns (rows: map<string, Row>)
    ensures rows == PatchRows(before, next)
  {
    rows := map[];
    for i := 0 to |next|
      invariant rows == PatchRows(before, next[..i])
    {
      var row := next[i];
      var key := KeyOf(row);
      assert next[..i + 1][..i] == next[..i];
      if key !in before {
        rows := rows[key := row];
        continue;
      }
      var changed := ChangedFields(before[key], row);
      if changed != map[] {
        rows := rows[key := changed];
      }
    }
    assert next[..|next|] == next;
  }

  method SameOrder(order: seq<string>, prev: seq<Row>) returns (same: bool)
    ensures same <==> order == Keys(prev)
  {
    same := |order| == |prev|;
    for i := 0 to |order|
      invariant same <==> |order| == |prev| && forall j | 0 <= j < i :: order[j] == Keys(prev)[j]
    {
      same := same && order[i] == KeyOf(prev[i]);
    }
  }

  method DiffFeedList(prev: seq<Row>, next: seq<Row>) returns (patch: Option<ListPatch>)
    ensures patch == Diff(prev, next)
  {
    var before := IndexByKey(prev);
    var order := Keys(next);
    var rows := SentRows(before, next);
    var sameOrder := SameOrder(order, prev);
    patch := if sameOrder && rows == map[] then None else Some(ListPatch(order, rows));
  }

  method ApplyFeedList(current: seq<Row>, patch: ListPatch) returns (out: Option<seq<Row>>)
    ensures out == Apply(current, patch)
  {
    var byKey := IndexByKey(current);
    var built: seq<Row> := [];
    for i := 0 to |patch.order|
      invariant |built| == i
      invariant forall j | 0 <= j < i :: Some(built[j]) == Rebuilt(byKey, patch, patch.order[j])
    {
      var key := patch.order[i];
      if key !in byKey && key !in patch.rows {
        assert !CanRebuild(byKey, patch, key);
        return None;
      }
      if key !in byKey && KeyOf(patch.rows[key]) != key {
        assert !CanRebuild(byKey, patch, key);
        return None;
      }
      built := built + [if key in byKey
                        then (if key in patch.rows then byKey[key] + patch.rows[key] else byKey[key])
                        else patch.rows[key]];
    }
    assert forall i | 0 <= i < |patch.order| :: CanRebuild(byKey, patch, patch.order[i]);
    assert built == Apply(current, patch).value;
    out := Some(built);
  }
}
