/**
  A tab of one or more lists kept current by snapshots and patches: the server's choice of event
  (apps/api/src/market-feeds/market-feeds.service.ts) and the viewer's fold of it
  (apps/web/lib/market-feeds.ts), over whole runs.
*/
module TabReplication {
  import opened Common
  import opened FeedDiff
  import opened FeedReplication

  datatype Tab = Tab(lists: map<string, seq<Row>>, at: string)

  datatype TabEvent =
    | Snapshot(tab: Tab)
    | Patched(patches: map<string, ListPatch>, at: string)
    | Silent

  type Feeds = map<string, Tab>

  function ListOf(tab: Tab, field: string): seq<Row> {
    if field in tab.lists then tab.lists[field] else []
  }

  predicate Applies(tab: Tab, patches: map<string, ListPatch>, field: string) {
    field in patches && Apply(ListOf(tab, field), patches[field]).Some?
  }

  function PatchedList(tab: Tab, patches: map<string, ListPatch>, field: string): seq<Row> {
    if Applies(tab, patches, field) then Apply(ListOf(tab, field), patches[field]).value else ListOf(tab, field)
  }

  /** A tab's lists once the lists of `done` have been patched. */
  function PatchLists(tab: Tab, patches: map<string, ListPatch>, done: set<string>): map<string, seq<Row>> {
    map f | f in tab.lists.Keys + done :: if f in done then PatchedList(tab, patches, f) else ListOf(tab, f)
  }

  /** All of the tab's patched lists change together, or the tab stays as it is. */
  function PatchTab(tab: Tab, patches: map<string, ListPatch>, at: string): Tab {
    if forall f | f in patches.Keys :: Applies(tab, patches, f) then Tab(PatchLists(tab, patches, patches.Keys), at)
    else tab
  }

  function Fold(view: Tab, event: TabEvent): Tab {
    match event
    case Snapshot(tab) => tab
    case Patched(patches, at) => PatchTab(view, patches, at)
    case Silent => view
  }

  lemma PatchOneMore(tab: Tab, patches: map<string, ListPatch>, done: set<string>, field: string)
    ensures PatchLists(tab, patches, done + {field}) == PatchLists(tab, patches, done)[field := PatchedList(tab, patches, field)]
    ensures PatchLists(tab, patches, {}) == tab.lists
  {
    hide Applies;
  }

  method ApplyListPatch(state: Feeds, name: string, patches: map<string, ListPatch>, at: string) returns (out: Feeds)
    requires name in state
    ensures out == state[name := PatchTab(state[name], patches, at)]
  {
    hide Apply, PatchLists;
    var current := state[name];
    var next := current.lists;
    var left := patches.Keys;
    PatchOneMore(current, patches, {}, "");
    assert patches.Keys - left == {};
    while left != {}
      invariant left <= patches.Keys
      invariant forall f | f in patches.Keys - left :: Applies(current, patches, f)
      invariant next == PatchLists(current, patches, patches.Keys - left)
      decreases left
    {
      var field :| field in left;
      var rows := ApplyFeedList(ListOf(current, field), patches[field]);
      if rows.None? {
        assert !Applies(current, patches, field);
        assert state[name := current] == state;
        return state;
      }
      assert Applies(current, patches, field);
      PatchOneMore(current, patches, patches.Keys - left, field);
      assert patches.Keys - (left - {field}) == (patches.Keys - left) + {field};
      next := next[field := rows.value];
      left := left - {field};
    }
    assert patches.Keys - left == patches.Keys;
    out := state[name := Tab(next, at)];
  }

  method ApplyTabEvent(state: Feeds, name: string, event: TabEvent) returns (out: Feeds)
    requires name in state
    ensures out == state[name := Fold(state[name], event)]
  {
    match event
    case Patched(patches, at) => out := ApplyListPatch(state, name, patches, at);
    case Snapshot(tab) => out := state[name := tab];
    case Silent => out := state; assert state[name := state[name]] == state;
  }

  // ---------------------------------------------------------------------------------------
  // Runs
  // ---------------------------------------------------------------------------------------

  predicate Patchable(prev: Tab, next: Tab, field: string) {
    field in next.lists && Diff(ListOf(prev, field), next.lists[field]).Some?
  }

  /** The lists that changed, each with its patch. */
  function ServerPatches(prev: Tab, next: Tab): (patches: map<string, ListPatch>)
    ensures forall f :: f in patches <==> Patchable(prev, next, f)
    ensures forall f | f in patches :: Diff(ListOf(prev, f), ListOf(next, f)) == Some(patches[f])
  {
    map f | f in next.lists && Patchable(prev, next, f) :: Diff(ListOf(prev, f), next.lists[f]).value
  }

  /** Every so many rebuilds the whole tab is sent again; otherwise only what changed, if anything did. */
  function ServerEvent(prev: Tab, next: Tab, full: bool): TabEvent {
    if full then Snapshot(next)
    else
      var patches := ServerPatches(prev, next);
      if patches == map[] then Silent else Patched(patches, next.at)
  }

  /** The viewer after the first `n` events, having started from any state at all. */
  function Viewer(start: Tab, states: seq<Tab>, full: seq<bool>, n: nat): Tab
    requires |states| == |full| + 1 && n <= |full|
  {
    if n == 0 then start
    else Fold(Viewer(start, states, full, n - 1), ServerEvent(states[n - 1], states[n], full[n - 1]))
  }

  function RefreshLists(view: map<string, seq<Row>>, next: map<string, seq<Row>>): map<string, seq<Row>> {
    map f | f in next :: if f in view then Refresh(view[f], next[f]) else next[f]
  }

  /** The naive replica: each rebuild sends every row, all of it or all but the unsent fields. */
  function Replica(states: seq<Tab>, full: seq<bool>, n: nat): map<string, seq<Row>>
    requires |states| == |full| + 1 && n <= |full|
  {
    if n == 0 then states[0].lists
    else if full[n - 1] then states[n].lists
    else RefreshLists(Replica(states, full, n - 1), states[n].lists)
  }

  predicate ServedTab(fields: map<string, KeyStyle>, tab: Tab) {
    tab.lists.Keys == fields.Keys && forall f | f in fields :: Served(fields[f], tab.lists[f])
  }

  predicate ServedRun(fields: map<string, KeyStyle>, states: seq<Tab>) {
    forall i | 0 <= i < |states| :: ServedTab(fields, states[i])
  }

  predicate TabInSync(fields: map<string, KeyStyle>, view: Tab, tab: Tab) {
    view.lists.Keys == fields.Keys == tab.lists.Keys &&
    forall f | f in fields :: InSync(fields[f], view.lists[f], tab.lists[f])
  }

  predicate KeyedTab(fields: map<string, KeyStyle>, tab: Tab) {
    tab.lists.Keys == fields.Keys && forall f | f in fields :: AllKeyed(fields[f], tab.lists[f])
  }

  lemma ListServedInSync(style: KeyStyle, list: seq<Row>)
    requires Served(style, list)
    ensures InSync(style, list, list)
  {
  }

  /**
    What the server's patches say: a list is among them exactly when the old list does not show the
    new one, and whoever holds the old list can apply its patch and then shows the new one.
  */
  lemma PatchesBringUpToDate(fields: map<string, KeyStyle>, prev: Tab, next: Tab, field: string)
    requires ServedTab(fields, prev) && ServedTab(fields, next)
    ensures var patches := ServerPatches(prev, next);
            (field in patches <==> field in fields && !Shows(prev.lists[field], next.lists[field])) &&
            (field in patches ==>
               var out := Apply(prev.lists[field], patches[field]);
               out.Some? && Shows(out.value, next.lists[field]))
  {
    hide Apply, Diff, Keys;
    assert field in ServerPatches(prev, next) <==> Patchable(prev, next, field);
    if field in fields {
      ListServedInSync(fields[field], prev.lists[field]);
      NoPatchIffNothingVisible(prev.lists[field], next.lists[field]);
      ListStep(fields[field], prev.lists[field], prev.lists[field], next.lists[field]);
    }
  }

  lemma ServedInSync(fields: map<string, KeyStyle>, tab: Tab)
    requires ServedTab(fields, tab)
    ensures TabInSync(fields, tab, tab)
  {
    hide Served, InSync;
    forall f | f in fields ensures InSync(fields[f], tab.lists[f], tab.lists[f]) {
      ListServedInSync(fields[f], tab.lists[f]);
    }
  }

  predicate ListCaughtUp(view: Tab, prev: Tab, next: Tab, field: string) {
    match Diff(ListOf(prev, field), ListOf(next, field))
    case None => Refresh(ListOf(view, field), ListOf(next, field)) == ListOf(view, field)
    case Some(patch) => Apply(ListOf(view, field), patch) == Some(Refresh(ListOf(view, field), ListOf(next, field)))
  }

  lemma PatchedField(view: Tab, prev: Tab, next: Tab, field: string)
    requires field in next.lists && ListCaughtUp(view, prev, next, field)
    ensures field in ServerPatches(prev, next) ==> Applies(view, ServerPatches(prev, next), field)
    ensures (if field in ServerPatches(prev, next) then PatchedList(view, ServerPatches(prev, next), field) else ListOf(view, field))
            == Refresh(ListOf(view, field), ListOf(next, field))
  {
    var patches := ServerPatches(prev, next);
    assert field in patches <==> Patchable(prev, next, field);
  }

  lemma PatchableIsListed(prev: Tab, next: Tab, field: string)
    ensures Patchable(prev, next, field) ==> field in next.lists
  {
  }

  lemma PatchedKeys(tab: Tab, patches: map<string, ListPatch>)
    requires patches.Keys <= tab.lists.Keys
    ensures PatchLists(tab, patches, patches.Keys).Keys == tab.lists.Keys
  {
    assert tab.lists.Keys + patches.Keys == tab.lists.Keys;
  }

  lemma ListsAlike(view: Tab, next: Tab, patches: map<string, ListPatch>)
    requires view.lists.Keys == next.lists.Keys >= patches.Keys
    requires forall f | f in patches :: Applies(view, patches, f)
    requires forall f | f in next.lists ::
               (if f in patches then PatchedList(view, patches, f) else ListOf(view, f)) == Refresh(view.lists[f], next.lists[f])
    ensures PatchTab(view, patches, next.at).lists == RefreshLists(view.lists, next.lists)
    ensures patches == map[] ==> view.lists == RefreshLists(view.lists, next.lists)
  {
    hide Apply, Refresh;
    PatchedKeys(view, patches);
    forall f | f in next.lists
      ensures PatchLists(view, patches, patches.Keys)[f] == RefreshLists(view.lists, next.lists)[f]
    {
    }
  }

  lemma PatchesRefresh(fields: map<string, KeyStyle>, view: Tab, prev: Tab, next: Tab)
    requires view.lists.Keys == prev.lists.Keys == next.lists.Keys == fields.Keys
    requires forall f | f in fields :: ListCaughtUp(view, prev, next, f)
    ensures Fold(view, ServerEvent(prev, next, false)).lists == RefreshLists(view.lists, next.lists)
  {
    hide Apply, Refresh, Diff, Patchable;
    var patches := ServerPatches(prev, next);
    forall f | f in fields
      ensures f in patches ==> Applies(view, patches, f)
      ensures (if f in patches then PatchedList(view, patches, f) else ListOf(view, f)) == Refresh(view.lists[f], next.lists[f])
    {
      PatchedField(view, prev, next, f);
    }
    assert patches.Keys <= fields.Keys by {
      forall f | f in patches ensures f in fields {
        PatchableIsListed(prev, next, f);
      }
    }
    ListsAlike(view, next, patches);
  }

  lemma TabStep(fields: map<string, KeyStyle>, view: Tab, prev: Tab, next: Tab, full: bool)
    requires ServedTab(fields, prev) && ServedTab(fields, next) && TabInSync(fields, view, prev)
    ensures TabInSync(fields, Fold(view, ServerEvent(prev, next, full)), next)
    ensures Fold(view, ServerEvent(prev, next, full)).lists ==
            if full then next.lists else RefreshLists(view.lists, next.lists)
  {
    hide Diff, Apply, ByKey, Refresh, InSync, Served;
    if !full {
      forall f | f in fields
        ensures InSync(fields[f], Refresh(view.lists[f], next.lists[f]), next.lists[f])
        ensures ListCaughtUp(view, prev, next, f)
      {
        ListStep(fields[f], view.lists[f], prev.lists[f], next.lists[f]);
      }
      PatchesRefresh(fields, view, prev, next);
    } else {
      ServedInSync(fields, next);
    }
  }

  /**
    Replication over a whole run of snapshots and patches: after every event the viewer holds what
    the naive replica holds, in the server's order, with every field that patches carry up to date.
  */
  lemma {:induction false} ReplicationOverRun(fields: map<string, KeyStyle>, states: seq<Tab>, full: seq<bool>, n: nat)
    requires |states| == |full| + 1 && n <= |full| && ServedRun(fields, states)
    ensures Viewer(states[0], states, full, n).lists == Replica(states, full, n)
    ensures TabInSync(fields, Viewer(states[0], states, full, n), states[n])
  {
    if n > 0 {
      ReplicationOverRun(fields, states, full, n - 1);
      TabStep(fields, Viewer(states[0], states, full, n - 1), states[n - 1], states[n], full[n - 1]);
    }
  }

  /** After every event, only two fields of a row can be out of date. */
  lemma OnlyTwoFieldsAge(fields: map<string, KeyStyle>, states: seq<Tab>, full: seq<bool>, n: nat, list: string, i: nat, field: string)
    requires |states| == |full| + 1 && n <= |full| && ServedRun(fields, states) && list in fields
    requires i < |ListOf(states[n], list)| && field in ListOf(states[n], list)[i]
    requires field != "lastPriceUpdateAt" && field != "discoveryScore"
    ensures var rows := ListOf(Viewer(states[0], states, full, n), list);
            |rows| == |ListOf(states[n], list)| && KeyOf(rows[i]) == KeyOf(ListOf(states[n], list)[i]) &&
            field in rows[i] && rows[i][field] == ListOf(states[n], list)[i][field]
  {
    hide Viewer, KeyOf, Keyed;
    ReplicationOverRun(fields, states, full, n);
    var rows := ListOf(Viewer(states[0], states, full, n), list);
    assert InSync(fields[list], rows, ListOf(states[n], list));
    assert Keys(rows)[i] == Keys(ListOf(states[n], list))[i];
  }

  /** What a viewer shows in one field of the row of a key, if anything. */
  function Shown(tab: Tab, list: string, key: string, field: string): Option<Json> {
    var held := ByKey(ListOf(tab, list));
    if key in held && field in held[key] then Some(held[key][field]) else None
  }

  lemma StepFreezesUnsent(style: KeyStyle, view: seq<Row>, prev: seq<Row>, next: seq<Row>, key: string, field: string)
    requires Served(style, prev) && Served(style, next) && InSync(style, view, prev)
    requires key in Keys(prev) && key in Keys(next) && field in UNSENT_FIELDS
    ensures key in ByKey(view) && key in ByKey(Refresh(view, next))
    ensures field in ByKey(Refresh(view, next))[key] <==> field in ByKey(view)[key]
    ensures field in ByKey(view)[key] ==> ByKey(Refresh(view, next))[key][field] == ByKey(view)[key][field]
  {
    hide Diff, Apply, ByKey, InSync, AllKeyed;
    ListStep(style, view, prev, next);
    var j :| 0 <= j < |prev| && Keys(prev)[j] == key;
    var i :| 0 <= i < |next| && Keys(next)[i] == key;
    HeldAt(style, view, prev, j);
    HeldAt(style, Refresh(view, next), next, i);
  }

  lemma ServedAt(fields: map<string, KeyStyle>, states: seq<Tab>, i: nat)
    requires ServedRun(fields, states) && i < |states|
    ensures ServedTab(fields, states[i])
  {
  }

  lemma ViewerMoves(start: Tab, states: seq<Tab>, full: seq<bool>, n: nat)
    requires |states| == |full| + 1 && 0 < n <= |full|
    ensures Viewer(start, states, full, n) == Fold(Viewer(start, states, full, n - 1), ServerEvent(states[n - 1], states[n], full[n - 1]))
  {
    hide Fold, ServerEvent;
  }

  lemma FreezeTabStep(fields: map<string, KeyStyle>, view: Tab, prev: Tab, next: Tab, list: string, key: string, field: string)
    requires ServedTab(fields, prev) && ServedTab(fields, next) && TabInSync(fields, view, prev)
    requires list in fields && field in UNSENT_FIELDS
    requires key in Keys(ListOf(prev, list)) && key in Keys(ListOf(next, list))
    ensures Shown(Fold(view, ServerEvent(prev, next, false)), list, key, field) == Shown(view, list, key, field)
  {
    hide Fold, ServerEvent, Diff, Apply, ByKey, Refresh, InSync, Served, Keys;
    TabStep(fields, view, prev, next, false);
    StepFreezesUnsent(fields[list], view.lists[list], prev.lists[list], next.lists[list], key, field);
  }

  lemma UnsentByName(field: string)
    ensures field in UNSENT_FIELDS <==> field == "lastPriceUpdateAt" || field == "discoveryScore"
  {
  }

  /**
    The unsent fields of a row that stays listed are frozen for as long as only patches come: they
    read as they did when the row joined or when the last full snapshot came.
  */
  lemma {:induction false} UnsentFieldsFreeze(
      fields: map<string, KeyStyle>, states: seq<Tab>, full: seq<bool>, m: nat, n: nat, list: string, key: string, field: string)
    requires |states| == |full| + 1 && m <= n <= |full| && ServedRun(fields, states)
    requires list in fields && (field == "lastPriceUpdateAt" || field == "discoveryScore")
    requires forall k | m <= k < n :: !full[k]
    requires forall k | m <= k <= n :: key in Keys(ListOf(states[k], list))
    ensures Shown(Viewer(states[0], states, full, n), list, key, field) == Shown(Viewer(states[0], states, full, m), list, key, field)
    decreases n
  {
    hide *;
    if m < n {
      UnsentFieldsFreeze(fields, states, full, m, n - 1, list, key, field);
      ReplicationOverRun(fields, states, full, n - 1);
      ServedAt(fields, states, n - 1);
      ServedAt(fields, states, n);
      ViewerMoves(states[0], states, full, n);
      UnsentByName(field);
      FreezeTabStep(fields, Viewer(states[0], states, full, n - 1), states[n - 1], states[n], list, key, field);
    }
  }

  /** Whatever a viewer held before, one full snapshot puts it in sync for the rest of the run. */
  lemma {:induction false} SnapshotHeals(fields: map<string, KeyStyle>, start: Tab, states: seq<Tab>, full: seq<bool>, k: nat, n: nat)
    requires |states| == |full| + 1 && ServedRun(fields, states)
    requires k < n <= |full| && full[k]
    ensures TabInSync(fields, Viewer(start, states, full, n), states[n])
  {
    if n == k + 1 {
      assert Viewer(start, states, full, n) == states[n];
    } else {
      SnapshotHeals(fields, start, states, full, k, n - 1);
      TabStep(fields, Viewer(start, states, full, n - 1), states[n - 1], states[n], full[n - 1]);
    }
  }

  /** A viewer in any state takes a patch of the tab for every list it is about, or for none. */
  lemma StaleTabStep(fields: map<string, KeyStyle>, view: Tab, prev: Tab, next: Tab)
    requires ServedTab(fields, prev) && ServedTab(fields, next) && KeyedTab(fields, view)
    ensures var after := Fold(view, ServerEvent(prev, next, false));
            after == view ||
            (after.at == next.at && after.lists.Keys == view.lists.Keys &&
             forall f | f in fields ::
               if Shows(prev.lists[f], next.lists[f]) then after.lists[f] == view.lists[f]
               else Keys(after.lists[f]) == Keys(next.lists[f]))
  {
    var event := ServerEvent(prev, next, false);
    var after := Fold(view, event);
    if event.Patched? && after != view {
      forall f | f in fields
        ensures if Shows(prev.lists[f], next.lists[f]) then after.lists[f] == view.lists[f]
                else Keys(after.lists[f]) == Keys(next.lists[f])
      {
        NoPatchIffNothingVisible(prev.lists[f], next.lists[f]);
        if Patchable(prev, next, f) {
          StaleViewerKeys(fields[f], view.lists[f], prev.lists[f], next.lists[f]);
          assert Applies(view, event.patches, f);
        }
      }
    }
  }
}
