/**
  Realised profit by first-in-first-out lots (packages/domain/src/pnl.ts) and the ledger that the
  sweep keeps with it (apps/workers/src/pnl/pnl-ledger-sweep.ts). Quantities are exact integers;
  dollar amounts and ratios are exact reals. A trade that the sweep fails to process is tried again
  later, so buys can be filed out of their order.
*/
module FifoLedger {

  datatype Lot = Lot(id: string, original: int, remaining: int, cost: real, acquiredAt: int)

  datatype Match = Match(lotId: string, quantity: int, cost: real)

  datatype Realized = Realized(fill: Match, proceeds: real, pnl: real)

  /** What matching a sell gives; a negative quantity is an error. */
  datatype Fifo = NegativeSell | Fifo(fills: seq<Match>, unmatched: int)

  datatype Sale = Rejected | Matched(fills: seq<Realized>, unmatched: int)

  // ---------------------------------------------------------------------------------------
  // One sell
  // ---------------------------------------------------------------------------------------

  function Taken(lot: Lot, want: int): int {
    if want <= 0 || lot.remaining <= 0 then 0
    else if want < lot.remaining then want
    else lot.remaining
  }

  /** A part of an amount, by the ratio of two quantities. */
  function ShareOf(amount: real, part: int, whole: int): real {
    if whole > 0 then amount * (part as real / whole as real) else 0.0
  }

  function CostOf(lot: Lot, quantity: int): real {
    ShareOf(lot.cost, quantity, lot.original)
  }

  function Matches(lots: seq<Lot>, want: int): seq<Match> {
    if lots == [] || want <= 0 then []
    else if lots[0].remaining <= 0 then Matches(lots[1..], want)
    else
      var t := Taken(lots[0], want);
      [Match(lots[0].id, t, CostOf(lots[0], t))] + Matches(lots[1..], want - t)
  }

  function Unmatched(lots: seq<Lot>, want: int): int {
    if lots == [] then want else Unmatched(lots[1..], want - Taken(lots[0], want))
  }

  /** The lots once a sell of `want` has been written back to them. */
  function Settle(lots: seq<Lot>, want: int): (after: seq<Lot>)
    ensures |after| == |lots|
  {
    if lots == [] then []
    else
      var t := Taken(lots[0], want);
      [lots[0].(remaining := lots[0].remaining - t)] + Settle(lots[1..], want - t)
  }

  function Allocate(fill: Match, proceeds: real, total: int): Realized {
    var share := ShareOf(proceeds, fill.quantity, total);
    Realized(fill, share, share - fill.cost)
  }

  function AllocateAll(fills: seq<Match>, proceeds: real, total: int): (out: seq<Realized>)
    ensures |out| == |fills|
  {
    seq(|fills|, i requires 0 <= i < |fills| => Allocate(fills[i], proceeds, total))
  }

  function SaleOf(lots: seq<Lot>, quantity: int, proceeds: real): (sale: Sale)
    ensures sale.Rejected? <==> quantity < 0
  {
    if quantity < 0 then Rejected
    else Matched(AllocateAll(Matches(lots, quantity), proceeds, quantity), Unmatched(lots, quantity))
  }

  lemma {:induction false} NothingWanted(lots: seq<Lot>, want: int)
    requires want <= 0
    ensures Matches(lots, want) == [] && Unmatched(lots, want) == want && Settle(lots, want) == lots
  {
    if lots != [] {
      NothingWanted(lots[1..], want);
    }
  }

  /** What the lots from the i-th on give, by the i-th and the rest. */
  lemma NextLot(lots: seq<Lot>, i: nat, want: int)
    requires i < |lots| && want > 0
    ensures var lot, t := lots[i], Taken(lots[i], want);
            Matches(lots[i..], want) ==
              (if lot.remaining <= 0 then [] else [Match(lot.id, t, CostOf(lot, t))]) + Matches(lots[i + 1..], want - t) &&
            Unmatched(lots[i..], want) == Unmatched(lots[i + 1..], want - t)
  {
    hide ShareOf;
    assert lots[i..][0] == lots[i] && lots[i..][1..] == lots[i + 1..];
  }

  lemma NoneOpen(lots: seq<Lot>, want: int)
    requires lots == []
    ensures Matches(lots, want) == [] && Unmatched(lots, want) == want
  {
  }

  lemma Proportion(amount: real, part: int, whole: int)
    ensures whole > 0 ==> ShareOf(amount, part, whole) * whole as real == amount * part as real
    ensures whole <= 0 ==> ShareOf(amount, part, whole) == 0.0
  {
    if whole > 0 {
      var ratio := part as real / whole as real;
      assert ratio * whole as real == part as real;
      assert (amount * ratio) * whole as real == amount * (ratio * whole as real);
    }
  }

  /** A match takes units that its lot has, at the lot's own price per unit. */
  predicate IsPricedFrom(fill: Match, lot: Lot) {
    fill.lotId == lot.id && 0 < fill.quantity <= lot.remaining &&
    if lot.original > 0 then fill.cost * lot.original as real == lot.cost * fill.quantity as real else fill.cost == 0.0
  }

  predicate HasPrice(fill: Match, lots: seq<Lot>) {
    exists i :: 0 <= i < |lots| && IsPricedFrom(fill, lots[i])
  }

  lemma HeadIsPriced(lot: Lot, want: int)
    requires lot.remaining > 0 && want > 0
    ensures IsPricedFrom(Match(lot.id, Taken(lot, want), CostOf(lot, Taken(lot, want))), lot)
  {
    Proportion(lot.cost, Taken(lot, want), lot.original);
  }

  lemma {:induction false} MatchesArePriced(lots: seq<Lot>, want: int, k: nat)
    requires k < |Matches(lots, want)|
    ensures HasPrice(Matches(lots, want)[k], lots)
  {
    hide ShareOf, IsPricedFrom;
    var t := Taken(lots[0], want);
    var h := if lots[0].remaining <= 0 then 0 else 1;
    if k < h {
      HeadIsPriced(lots[0], want);
    } else {
      MatchesArePriced(lots[1..], want - t, k - h);
      var i :| 0 <= i < |lots[1..]| && IsPricedFrom(Matches(lots[1..], want - t)[k - h], lots[1..][i]);
      assert lots[i + 1] == lots[1..][i];
    }
  }

  /** Every match is priced from one of the lots. */
  predicate ArePriced(fills: seq<Match>, lots: seq<Lot>) {
    forall k | 0 <= k < |fills| :: HasPrice(fills[k], lots)
  }

  lemma AllArePriced(lots: seq<Lot>, want: int)
    ensures ArePriced(Matches(lots, want), lots)
  {
    hide Matches, HasPrice;
    forall k | 0 <= k < |Matches(lots, want)| ensures HasPrice(Matches(lots, want)[k], lots) {
      MatchesArePriced(lots, want, k);
    }
  }

  predicate SaleIsPriced(sale: Sale, lots: seq<Lot>) {
    sale.Matched? ==> forall k | 0 <= k < |sale.fills| :: HasPrice(sale.fills[k].fill, lots)
  }

  lemma SalesArePriced(lots: seq<Lot>, quantity: int, proceeds: real)
    ensures SaleIsPriced(SaleOf(lots, quantity, proceeds), lots)
  {
    hide Matches, HasPrice, Unmatched;
    AllArePriced(lots, quantity);
  }

  method MatchFifoSell(openLots: seq<Lot>, quantity: int) returns (result: Fifo)
    ensures result == if quantity < 0 then NegativeSell else Fifo(Matches(openLots, quantity), Unmatched(openLots, quantity))
    ensures result.Fifo? ==> ArePriced(result.fills, openLots)
  {
    hide Matches, Unmatched, ShareOf, ArePriced;
    AllArePriced(openLots, quantity);
    var remaining := quantity;
    if remaining < 0 {
      return NegativeSell;
    }
    var fills: seq<Match> := [];
    assert openLots[0..] == openLots;
    for i := 0 to |openLots|
      invariant remaining >= 0
      invariant fills + Matches(openLots[i..], remaining) == Matches(openLots, quantity)
      invariant Unmatched(openLots[i..], remaining) == Unmatched(openLots, quantity)
    {
      var lot := openLots[i];
      if remaining <= 0 {
        NothingWanted(openLots[i..], remaining);
        return Fifo(fills, remaining);
      }
      NextLot(openLots, i, remaining);
      if lot.remaining <= 0 {
        continue;
      }
      var quantity' := if remaining < lot.remaining then remaining else lot.remaining;
      fills := fills + [Match(lot.id, quantity', CostOf(lot, quantity'))];
      remaining := remaining - quantity';
    }
    NoneOpen(openLots[|openLots|..], remaining);
    return Fifo(fills, remaining);
  }

  // ---------------------------------------------------------------------------------------
  // The ledger of one wallet and one token
  // ---------------------------------------------------------------------------------------

  predicate WellFormed(lot: Lot) {
    0 <= lot.remaining <= lot.original
  }

  predicate UniqueIds(lots: seq<Lot>) {
    forall i, j | 0 <= i < j < |lots| :: lots[i].id != lots[j].id
  }

  /** Every lot older than one that has been drawn on is used up. */
  predicate OldestFirst(lots: seq<Lot>) {
    forall i, j | 0 <= i < j < |lots| && lots[j].remaining < lots[j].original :: lots[i].remaining == 0
  }

  predicate InTimeOrder(lots: seq<Lot>) {
    forall i, j | 0 <= i < j < |lots| :: lots[i].acquiredAt <= lots[j].acquiredAt
  }

  predicate Sound(lots: seq<Lot>) {
    (forall i | 0 <= i < |lots| :: WellFormed(lots[i])) && UniqueIds(lots) && InTimeOrder(lots)
  }

  /** Where a lot acquired at a time comes: after all that are no younger. */
  function Place(lots: seq<Lot>, at: int): (p: nat)
    ensures p <= |lots| && (forall i | 0 <= i < p :: lots[i].acquiredAt <= at) && (p < |lots| ==> at < lots[p].acquiredAt)
  {
    if lots == [] || at < lots[0].acquiredAt then 0 else 1 + Place(lots[1..], at)
  }

  function Filed(lots: seq<Lot>, lot: Lot): (out: seq<Lot>)
    ensures |out| == |lots| + 1
  {
    var p := Place(lots, lot.acquiredAt);
    lots[..p] + [lot] + lots[p..]
  }

  lemma FiledAt(lots: seq<Lot>, lot: Lot, i: nat)
    requires i <= |lots|
    ensures var p := Place(lots, lot.acquiredAt);
            Filed(lots, lot)[i] == if i < p then lots[i] else if i == p then lot else lots[i - 1]
  {
  }

  lemma BuyKeepsSound(lots: seq<Lot>, lot: Lot)
    requires Sound(lots) && 0 <= lot.remaining == lot.original
    requires forall i | 0 <= i < |lots| :: lots[i].id != lot.id
    ensures Sound(Filed(lots, lot))
  {
    hide Filed, Place;
    var out := Filed(lots, lot);
    forall i | 0 <= i < |out| ensures WellFormed(out[i]) {
      FiledAt(lots, lot, i);
    }
    forall i, j | 0 <= i < j < |out| ensures out[i].id != out[j].id && out[i].acquiredAt <= out[j].acquiredAt {
      FiledAt(lots, lot, i);
      FiledAt(lots, lot, j);
    }
  }

  /** The query behind a sell leaves out the lots that are used up. */
  function Open(lots: seq<Lot>): seq<Lot> {
    if lots == [] then []
    else if lots[0].remaining == 0 then Open(lots[1..])
    else [lots[0]] + Open(lots[1..])
  }

  function WriteBack(lots: seq<Lot>, fill: Match): (after: seq<Lot>)
    ensures |after| == |lots|
  {
    if lots == [] then []
    else if lots[0].id == fill.lotId then [lots[0].(remaining := lots[0].remaining - fill.quantity)] + lots[1..]
    else [lots[0]] + WriteBack(lots[1..], fill)
  }

  function WriteBackAll(lots: seq<Lot>, fills: seq<Match>): (after: seq<Lot>)
    ensures |after| == |lots|
    decreases |fills|
  {
    if fills == [] then lots else WriteBackAll(WriteBack(lots, fills[0]), fills[1..])
  }

  lemma {:induction false} UsedUpLotsDoNotMatter(lots: seq<Lot>, want: int)
    ensures Matches(Open(lots), want) == Matches(lots, want)
    ensures Unmatched(Open(lots), want) == Unmatched(lots, want)
  {
    hide ShareOf;
    if lots != [] {
      UsedUpLotsDoNotMatter(lots[1..], want - Taken(lots[0], want));
      if lots[0].remaining != 0 {
        assert Open(lots)[0] == lots[0] && Open(lots)[1..] == Open(lots[1..]);
      }
    }
  }

  lemma {:induction false} MatchedIdsAreListed(lots: seq<Lot>, want: int, k: nat)
    requires k < |Matches(lots, want)|
    ensures exists i :: 0 <= i < |lots| && lots[i].id == Matches(lots, want)[k].lotId
  {
    hide ShareOf;
    var h := if lots[0].remaining <= 0 then 0 else 1;
    if k >= h {
      var t := Taken(lots[0], want);
      MatchedIdsAreListed(lots[1..], want - t, k - h);
      var i :| 0 <= i < |lots[1..]| && lots[1..][i].id == Matches(lots[1..], want - t)[k - h].lotId;
      assert lots[i + 1] == lots[1..][i];
    }
  }

  lemma {:induction false} WriteBackSkips(head: Lot, tail: seq<Lot>, fills: seq<Match>)
    requires forall k | 0 <= k < |fills| :: fills[k].lotId != head.id
    ensures WriteBackAll([head] + tail, fills) == [head] + WriteBackAll(tail, fills)
    decreases |fills|
  {
    if fills != [] {
      assert ([head] + tail)[1..] == tail;
      WriteBackSkips(head, WriteBack(tail, fills[0]), fills[1..]);
    }
  }

  lemma WriteBackHead(lots: seq<Lot>, want: int)
    requires lots != [] && want > 0
    ensures var t := Taken(lots[0], want);
            WriteBackAll(lots, Matches(lots, want)) ==
            WriteBackAll([lots[0].(remaining := lots[0].remaining - t)] + lots[1..], Matches(lots[1..], want - t))
  {
    hide ShareOf;
    if lots[0].remaining > 0 {
      assert Matches(lots, want)[1..] == Matches(lots[1..], want - Taken(lots[0], want));
    } else {
      assert lots == [lots[0]] + lots[1..];
    }
  }

  lemma OtherIds(lots: seq<Lot>, want: int)
    requires lots != [] && UniqueIds(lots)
    ensures UniqueIds(lots[1..])
    ensures forall k | 0 <= k < |Matches(lots[1..], want)| :: Matches(lots[1..], want)[k].lotId != lots[0].id
  {
    hide Matches;
    forall k | 0 <= k < |Matches(lots[1..], want)| ensures Matches(lots[1..], want)[k].lotId != lots[0].id {
      MatchedIdsAreListed(lots[1..], want, k);
    }
  }

  /** Finding each match's lot by its id comes to the same as taking from the lots in order. */
  lemma {:induction false} WritingBackSettles(lots: seq<Lot>, want: int)
    requires UniqueIds(lots)
    ensures WriteBackAll(lots, Matches(lots, want)) == Settle(lots, want)
  {
    if want <= 0 {
      NothingWanted(lots, want);
    } else if lots != [] {
      hide ShareOf, Taken, Matches, WriteBackAll, UniqueIds;
      var t := Taken(lots[0], want);
      var head := lots[0].(remaining := lots[0].remaining - t);
      var rest := Matches(lots[1..], want - t);
      OtherIds(lots, want - t);
      WritingBackSettles(lots[1..], want - t);
      WriteBackSkips(head, lots[1..], rest);
      WriteBackHead(lots, want);
    }
  }

  /** How each lot stands after a sell: a lot gives only what all older ones could not. */
  lemma {:induction false} SettledAt(lots: seq<Lot>, want: int, i: nat)
    requires i < |lots| && forall k | 0 <= k < |lots| :: WellFormed(lots[k])
    ensures var after := Settle(lots, want);
            after[i] == lots[i].(remaining := after[i].remaining) &&
            0 <= after[i].remaining <= lots[i].remaining &&
            (after[i].remaining < lots[i].remaining ==> forall k | 0 <= k < i :: after[k].remaining == 0)
  {
    if want <= 0 {
      NothingWanted(lots, want);
    } else if i > 0 {
      SettledAt(lots[1..], want - Taken(lots[0], want), i - 1);
      if want <= lots[0].remaining {
        NothingWanted(lots[1..], want - Taken(lots[0], want));
      }
    }
  }

  lemma SettleKeepsSound(lots: seq<Lot>, want: int)
    requires Sound(lots)
    ensures Sound(Settle(lots, want))
    ensures OldestFirst(lots) ==> OldestFirst(Settle(lots, want))
  {
    var after := Settle(lots, want);
    forall i | 0 <= i < |lots|
      ensures WellFormed(after[i]) && after[i] == lots[i].(remaining := after[i].remaining)
      ensures after[i].remaining <= lots[i].remaining
      ensures after[i].remaining < lots[i].remaining ==> forall k | 0 <= k < i :: after[k].remaining == 0
    {
      SettledAt(lots, want, i);
    }
  }

  class Ledger {
    var lots: seq<Lot>

    constructor ()
      ensures lots == [] && Sound(lots)
    {
      lots := [];
    }

    /** Files the lot where the query behind a sell, which goes by the time of acquisition, will find it. */
    method Buy(id: string, quantity: int, cost: real, acquiredAt: int)
      requires Sound(lots) && quantity >= 0
      requires forall i | 0 <= i < |lots| :: lots[i].id != id
      modifies this
      ensures lots == Filed(old(lots), Lot(id, quantity, quantity, cost, acquiredAt))
      ensures Sound(lots)
    {
      BuyKeepsSound(lots, Lot(id, quantity, quantity, cost, acquiredAt));
      var p := 0;
      while p < |lots| && lots[p].acquiredAt <= acquiredAt
        invariant 0 <= p <= Place(lots, acquiredAt)
        decreases |lots| - p
      {
        p := p + 1;
      }
      lots := lots[..p] + [Lot(id, quantity, quantity, cost, acquiredAt)] + lots[p..];
    }

    method OpenLots() returns (open: seq<Lot>)
      ensures open == Open(lots)
    {
      open := [];
      for i := 0 to |lots|
        invariant open + Open(lots[i..]) == Open(lots)
      {
        assert lots[i..][0] == lots[i] && lots[i..][1..] == lots[i + 1..];
        if lots[i].remaining != 0 {
          open := open + [lots[i]];
        }
      }
    }

    /** Matches a sell against the open lots, writes each match back to its lot, and reports the profit. */
    method Sell(quantity: int, proceeds: real) returns (sale: Sale)
      requires Sound(lots)
      modifies this
      ensures sale == SaleOf(old(lots), quantity, proceeds)
      ensures lots == if quantity < 0 then old(lots) else Settle(old(lots), quantity)
      ensures Sound(lots)
      ensures SaleIsPriced(sale, old(lots))
    {
      hide SaleIsPriced, ArePriced, Matches, Unmatched, Settle;
      ghost var before := lots;
      SalesArePriced(before, quantity, proceeds);
      var open := OpenLots();
      var matched := MatchFifoSell(open, quantity);
      if matched.NegativeSell? {
        return Rejected;
      }
      var fills := matched.fills;
      UsedUpLotsDoNotMatter(lots, quantity);
      for i := 0 to |fills|
        invariant WriteBackAll(lots, fills[i..]) == WriteBackAll(before, fills)
      {
        assert fills[i..][0] == fills[i] && fills[i..][1..] == fills[i + 1..];
        lots := WriteBack(lots, fills[i]);
      }
      WritingBackSettles(before, quantity);
      SettleKeepsSound(before, quantity);
      sale := Matched(AllocateAll(fills, proceeds, quantity), matched.unmatched);
    }
  }

  /** Whatever came before, a sell draws on a lot only if it leaves nothing in any older one. */
  lemma SellDrawsOldestFirst(lots: seq<Lot>, want: int, older: nat, i: nat)
    requires Sound(lots) && older < |lots| && i < |lots| && lots[older].acquiredAt < lots[i].acquiredAt
    requires Settle(lots, want)[i].remaining < lots[i].remaining
    ensures Settle(lots, want)[older].remaining == 0
  {
    SettledAt(lots, want, i);
    assert older < i;
  }

  /** The lot brings something and a younger one has been drawn on already. */
  predicate FiledLate(lots: seq<Lot>, lot: Lot) {
    lot.original > 0 && exists i | 0 <= i < |lots| :: lots[i].acquiredAt > lot.acquiredAt && lots[i].remaining < lots[i].original
  }

  /** A buy keeps every lot before a drawn one used up if and only if it is not filed late. */
  lemma BuyKeepsOldestFirstIff(lots: seq<Lot>, lot: Lot)
    requires Sound(lots) && OldestFirst(lots) && 0 <= lot.remaining == lot.original
    ensures OldestFirst(Filed(lots, lot)) <==> !FiledLate(lots, lot)
  {
    hide Filed, Place;
    var p, out := Place(lots, lot.acquiredAt), Filed(lots, lot);
    if i :| 0 <= i < |lots| && lots[i].acquiredAt > lot.acquiredAt && lots[i].remaining < lots[i].original && lot.original > 0 {
      FiledAt(lots, lot, p);
      FiledAt(lots, lot, i + 1);
      assert p < i + 1;
    } else {
      forall i, j | 0 <= i < j < |out| && out[j].remaining < out[j].original ensures out[i].remaining == 0 {
        FiledAt(lots, lot, i);
        FiledAt(lots, lot, j);
      }
    }
  }

  // ---------------------------------------------------------------------------------------
  // Sums
  // ---------------------------------------------------------------------------------------

  function Quantity(fills: seq<Match>): int {
    if fills == [] then 0 else fills[0].quantity + Quantity(fills[1..])
  }

  function Cost(fills: seq<Match>): real {
    if fills == [] then 0.0 else fills[0].cost + Cost(fills[1..])
  }

  /** The fills of one lot. */
  function From(fills: seq<Match>, id: string): seq<Match> {
    if fills == [] then []
    else if fills[0].lotId == id then [fills[0]] + From(fills[1..], id)
    else From(fills[1..], id)
  }

  function Remaining(lots: seq<Lot>): int {
    if lots == [] then 0 else lots[0].remaining + Remaining(lots[1..])
  }

  /** What is still tied up in a lot: its cost less the share of the units that were sold from it. */
  function Unsold(lot: Lot): real {
    lot.cost - CostOf(lot, lot.original - lot.remaining)
  }

  function UnsoldCost(lots: seq<Lot>): real {
    if lots == [] then 0.0 else Unsold(lots[0]) + UnsoldCost(lots[1..])
  }

  lemma {:induction false} QuantityConcat(a: seq<Match>, b: seq<Match>)
    ensures Quantity(a + b) == Quantity(a) + Quantity(b)
    ensures Cost(a + b) == Cost(a) + Cost(b)
  {
    if a == [] {
      assert a + b == b;
    } else {
      assert (a + b)[1..] == a[1..] + b;
      QuantityConcat(a[1..], b);
    }
  }

  lemma {:induction false} FromConcat(a: seq<Match>, b: seq<Match>, id: string)
    ensures From(a + b, id) == From(a, id) + From(b, id)
  {
    if a == [] {
      assert a + b == b;
    } else {
      assert (a + b)[1..] == a[1..] + b;
      FromConcat(a[1..], b, id);
    }
  }

  lemma ShareIsLinear(amount: real, a: int, b: int, whole: int)
    ensures ShareOf(amount, a + b, whole) == ShareOf(amount, a, whole) + ShareOf(amount, b, whole)
  {
    if whole > 0 {
      var x, y, n := a as real, b as real, whole as real;
      assert (a + b) as real == x + y;
      assert (x + y) / n == x / n + y / n;
      assert amount * (x / n + y / n) == amount * (x / n) + amount * (y / n);
    }
  }

  lemma UnsoldFalls(lot: Lot, t: int)
    ensures Unsold(lot) == CostOf(lot, t) + Unsold(lot.(remaining := lot.remaining - t))
  {
    ShareIsLinear(lot.cost, lot.original - lot.remaining, t, lot.original);
  }

  lemma NoShare(amount: real, whole: int)
    ensures ShareOf(amount, 0, whole) == 0.0
  {
  }

  lemma NoCost(lot: Lot)
    ensures CostOf(lot, 0) == 0.0
  {
    NoShare(lot.cost, lot.original);
  }

  lemma SettledSplit(lots: seq<Lot>, want: int)
    requires lots != []
    ensures var t := Taken(lots[0], want);
            Settle(lots, want) == [lots[0].(remaining := lots[0].remaining - t)] + Settle(lots[1..], want - t) &&
            Unmatched(lots, want) == Unmatched(lots[1..], want - t)
  {
  }

  /** One sell: every unit is matched or left over, and every matched unit and dollar leaves the lots. */
  lemma {:induction false} SellConserves(lots: seq<Lot>, want: int)
    requires want >= 0
    ensures Quantity(Matches(lots, want)) + Unmatched(lots, want) == want
    ensures Unmatched(lots, want) >= 0
    ensures Remaining(lots) == Quantity(Matches(lots, want)) + Remaining(Settle(lots, want))
    ensures UnsoldCost(lots) == Cost(Matches(lots, want)) + UnsoldCost(Settle(lots, want))
  {
    hide ShareOf;
    if want == 0 {
      NothingWanted(lots, want);
    } else if lots != [] {
      var t := Taken(lots[0], want);
      SellConserves(lots[1..], want - t);
      SettledSplit(lots, want);
      UnsoldFalls(lots[0], t);
      if lots[0].remaining > 0 {
        assert Matches(lots, want)[1..] == Matches(lots[1..], want - t);
      } else {
        NoCost(lots[0]);
      }
    }
  }

  /** A sell leaves units unmatched only once every lot is empty. */
  lemma {:induction false} SellTakesAllItCan(lots: seq<Lot>, want: nat)
    requires forall k | 0 <= k < |lots| :: lots[k].remaining >= 0
    ensures Unmatched(lots, want) == (if want > Remaining(lots) then want - Remaining(lots) else 0)
    ensures Remaining(lots) >= 0
  {
    if lots != [] {
      SellTakesAllItCan(lots[1..], want - Taken(lots[0], want));
    }
  }

  // ---------------------------------------------------------------------------------------
  // Composition
  // ---------------------------------------------------------------------------------------

  lemma TakenTwice(lot: Lot, q1: int, q2: int)
    requires q1 >= 0 && q2 >= 0
    ensures var t1 := Taken(lot, q1);
            var t2 := Taken(lot.(remaining := lot.remaining - t1), q2);
            Taken(lot, q1 + q2) == t1 + t2 && t1 <= q1 && t2 <= q2
  {
  }

  function UnitsFrom(lots: seq<Lot>, want: int, id: string): int {
    Quantity(From(Matches(lots, want), id))
  }

  function CostFrom(lots: seq<Lot>, want: int, id: string): real {
    Cost(From(Matches(lots, want), id))
  }

  lemma NoLots(want: int, id: string)
    ensures Settle([], want) == [] && Unmatched([], want) == want
    ensures UnitsFrom([], want, id) == 0 && CostFrom([], want, id) == 0.0
  {
  }

  lemma {:induction false} SettlesCompose(lots: seq<Lot>, q1: int, q2: int)
    requires q1 >= 0 && q2 >= 0
    ensures Settle(Settle(lots, q1), q2) == Settle(lots, q1 + q2)
    ensures Unmatched(lots, q1) + Unmatched(Settle(lots, q1), q2) == Unmatched(lots, q1 + q2)
    decreases |lots|
  {
    hide *;
    if lots == [] {
      NoLots(q1, "");
      NoLots(q2, "");
      NoLots(q1 + q2, "");
    } else {
      var lot, tail := lots[0], lots[1..];
      var t1 := Taken(lot, q1);
      var mid, rest := lot.(remaining := lot.remaining - t1), Settle(tail, q1 - t1);
      TakenTwice(lot, q1, q2);
      SettlesCompose(tail, q1 - t1, q2 - Taken(mid, q2));
      SettledSplit(lots, q1);
      SettledSplit(lots, q1 + q2);
      SettledSplit([mid] + rest, q2);
      assert ([mid] + rest)[1..] == rest;
    }
  }

  lemma CostSplits(lot: Lot, later: Lot, a: int, b: int)
    requires later.cost == lot.cost && later.original == lot.original
    ensures CostOf(lot, a + b) == CostOf(lot, a) + CostOf(later, b)
  {
    hide ShareOf;
    ShareIsLinear(lot.cost, a, b, lot.original);
  }

  /** What the first lot adds to the units and cost drawn from a given lot. */
  lemma HeadFill(lots: seq<Lot>, want: int, id: string)
    requires lots != [] && want >= 0
    ensures var t := Taken(lots[0], want);
            UnitsFrom(lots, want, id) == (if lots[0].id == id then t else 0) + UnitsFrom(lots[1..], want - t, id) &&
            CostFrom(lots, want, id) == (if lots[0].id == id then CostOf(lots[0], t) else 0.0) + CostFrom(lots[1..], want - t, id)
  {
    hide ShareOf;
    var t := Taken(lots[0], want);
    NoCost(lots[0]);
    if want == 0 {
      NothingWanted(lots, want);
      NothingWanted(lots[1..], want);
    } else if lots[0].remaining > 0 {
      var fills := Matches(lots, want);
      assert fills[1..] == Matches(lots[1..], want - t);
      if fills[0].lotId == id {
        assert From(fills, id)[1..] == From(fills[1..], id);
      }
    }
  }

  lemma HeadFillOf(head: Lot, rest: seq<Lot>, want: int, id: string)
    requires want >= 0
    ensures var t := Taken(head, want);
            UnitsFrom([head] + rest, want, id) == (if head.id == id then t else 0) + UnitsFrom(rest, want - t, id) &&
            CostFrom([head] + rest, want, id) == (if head.id == id then CostOf(head, t) else 0.0) + CostFrom(rest, want - t, id)
  {
    hide *;
    HeadFill([head] + rest, want, id);
    assert ([head] + rest)[1..] == rest;
  }

  lemma {:induction false} DrawsCompose(lots: seq<Lot>, q1: int, q2: int, id: string)
    requires q1 >= 0 && q2 >= 0
    ensures UnitsFrom(lots, q1, id) + UnitsFrom(Settle(lots, q1), q2, id) == UnitsFrom(lots, q1 + q2, id)
    ensures CostFrom(lots, q1, id) + CostFrom(Settle(lots, q1), q2, id) == CostFrom(lots, q1 + q2, id)
    decreases |lots|
  {
    hide *;
    if lots == [] {
      NoLots(q1, id);
      NoLots(q2, id);
      NoLots(q1 + q2, id);
    } else {
      var lot, tail := lots[0], lots[1..];
      var t1 := Taken(lot, q1);
      var mid, rest := lot.(remaining := lot.remaining - t1), Settle(tail, q1 - t1);
      var t2 := Taken(mid, q2);
      TakenTwice(lot, q1, q2);
      DrawsCompose(tail, q1 - t1, q2 - t2, id);
      HeadFill(lots, q1, id);
      HeadFill(lots, q1 + q2, id);
      HeadFillOf(mid, rest, q2, id);
      SettledSplit(lots, q1);
      CostSplits(lot, mid, t1, t2);
    }
  }

  /**
    Selling q1 and then q2 leaves the lots as selling q1 + q2 at once does, with as many units
    unmatched in all, and draws the same units and the same cost from each lot.
  */
  lemma SellsCompose(lots: seq<Lot>, q1: int, q2: int)
    requires q1 >= 0 && q2 >= 0
    ensures Settle(Settle(lots, q1), q2) == Settle(lots, q1 + q2)
    ensures Unmatched(lots, q1) + Unmatched(Settle(lots, q1), q2) == Unmatched(lots, q1 + q2)
    ensures forall id :: UnitsFrom(lots, q1, id) + UnitsFrom(Settle(lots, q1), q2, id) == UnitsFrom(lots, q1 + q2, id)
    ensures forall id :: CostFrom(lots, q1, id) + CostFrom(Settle(lots, q1), q2, id) == CostFrom(lots, q1 + q2, id)
  {
    hide UnitsFrom, CostFrom;
    SettlesCompose(lots, q1, q2);
    forall id
      ensures UnitsFrom(lots, q1, id) + UnitsFrom(Settle(lots, q1), q2, id) == UnitsFrom(lots, q1 + q2, id)
      ensures CostFrom(lots, q1, id) + CostFrom(Settle(lots, q1), q2, id) == CostFrom(lots, q1 + q2, id)
    {
      DrawsCompose(lots, q1, q2, id);
    }
  }

  // ---------------------------------------------------------------------------------------
  // Proceeds
  // ---------------------------------------------------------------------------------------

  function Proceeds(fills: seq<Realized>): real {
    if fills == [] then 0.0 else fills[0].proceeds + Proceeds(fills[1..])
  }

  function Profit(fills: seq<Realized>): real {
    if fills == [] then 0.0 else fills[0].pnl + Profit(fills[1..])
  }

  /** Each match is paid by its own part of the sell, and its profit is that less its cost. */
  lemma FillsAreProportional(lots: seq<Lot>, quantity: nat, proceeds: real, k: nat)
    requires quantity > 0 && k < |SaleOf(lots, quantity, proceeds).fills|
    ensures var realized := SaleOf(lots, quantity, proceeds).fills[k];
            |SaleOf(lots, quantity, proceeds).fills| == |Matches(lots, quantity)| && realized.fill == Matches(lots, quantity)[k] &&
            realized.proceeds * quantity as real == proceeds * realized.fill.quantity as real &&
            realized.pnl == realized.proceeds - realized.fill.cost
  {
    hide ShareOf, Matches;
    Proportion(proceeds, Matches(lots, quantity)[k].quantity, quantity);
  }

  lemma {:induction false} AllocatedProceeds(fills: seq<Match>, proceeds: real, total: int)
    requires total > 0
    ensures Proceeds(AllocateAll(fills, proceeds, total)) == ShareOf(proceeds, Quantity(fills), total)
    ensures Profit(AllocateAll(fills, proceeds, total)) == Proceeds(AllocateAll(fills, proceeds, total)) - Cost(fills)
  {
    if fills == [] {
      NoShare(proceeds, total);
    } else {
      hide ShareOf;
      AllocatedProceeds(fills[1..], proceeds, total);
      assert AllocateAll(fills, proceeds, total)[1..] == AllocateAll(fills[1..], proceeds, total);
      ShareIsLinear(proceeds, fills[0].quantity, Quantity(fills[1..]), total);
    }
  }

  lemma WholeShare(amount: real, part: int, whole: int)
    requires whole > 0
    ensures ShareOf(amount, part, whole) == amount <==> amount == 0.0 || part == whole
  {
    var f := part as real / whole as real;
    assert f * whole as real == part as real;
    if amount * f == amount && amount != 0.0 {
      assert amount * (f - 1.0) == 0.0;
      assert f == 1.0;
    }
  }

  lemma NothingSold(lots: seq<Lot>, proceeds: real)
    ensures SaleOf(lots, 0, proceeds) == Matched([], 0) && Matches(lots, 0) == []
  {
    NothingWanted(lots, 0);
  }

  /**
    A sell's proceeds are allocated by its matched fraction: all of them exactly when all of it
    matched, or there were none to allocate. Selling nothing allocates nothing.
  */
  lemma ProceedsFollowTheMatchedFraction(lots: seq<Lot>, quantity: nat, proceeds: real)
    ensures var sale := SaleOf(lots, quantity, proceeds);
            Proceeds(sale.fills) == ShareOf(proceeds, quantity - sale.unmatched, quantity) &&
            (Proceeds(sale.fills) == proceeds <==> proceeds == 0.0 || (quantity > 0 && sale.unmatched == 0)) &&
            Profit(sale.fills) == Proceeds(sale.fills) - Cost(Matches(lots, quantity))
  {
    if quantity == 0 {
      NothingSold(lots, proceeds);
    } else {
      hide ShareOf, Matches, Unmatched, AllocateAll;
      SellConserves(lots, quantity);
      AllocatedProceeds(Matches(lots, quantity), proceeds, quantity);
      WholeShare(proceeds, quantity - Unmatched(lots, quantity), quantity);
    }
  }

  /** The same without a division: proceeds times quantity is the whole proceeds times what was matched. */
  lemma ProceedsAreProportional(lots: seq<Lot>, quantity: nat, proceeds: real)
    requires quantity > 0
    ensures SaleOf(lots, quantity, proceeds).Matched?
    ensures var sale := SaleOf(lots, quantity, proceeds);
            Proceeds(sale.fills) * quantity as real == proceeds * (quantity - sale.unmatched) as real
  {
    hide ShareOf, Matches, Unmatched, AllocateAll, Proceeds, Profit, Cost;
    var sale := SaleOf(lots, quantity, proceeds);
    ProceedsFollowTheMatchedFraction(lots, quantity, proceeds);
    Proportion(proceeds, quantity - sale.unmatched, quantity);
  }

  // ---------------------------------------------------------------------------------------
  // Whole runs
  // ---------------------------------------------------------------------------------------

  datatype Trade = Bought(id: string, quantity: nat, cost: real, acquiredAt: int) | Sold(quantity: nat, proceeds: real)

  function LotOf(buy: Trade): Lot
    requires buy.Bought?
  {
    Lot(buy.id, buy.quantity, buy.quantity, buy.cost, buy.acquiredAt)
  }

  datatype Book = Book(lots: seq<Lot>, fills: seq<Match>, unmatched: int)

  function Step(book: Book, trade: Trade): Book {
    match trade
    case Bought(_, _, _, _) => book.(lots := Filed(book.lots, LotOf(trade)))
    case Sold(quantity, _) =>
      Book(Settle(book.lots, quantity), book.fills + Matches(book.lots, quantity), book.unmatched + Unmatched(book.lots, quantity))
  }

  function Run(trades: seq<Trade>): Book {
    if trades == [] then Book([], [], 0) else Step(Run(trades[..|trades| - 1]), trades[|trades| - 1])
  }

  function Paid(trades: seq<Trade>): real {
    if trades == [] then 0.0
    else Paid(trades[..|trades| - 1]) + match trades[|trades| - 1] case Bought(_, _, cost, _) => cost case Sold(_, _) => 0.0
  }

  function UnitsBought(trades: seq<Trade>): int {
    if trades == [] then 0
    else UnitsBought(trades[..|trades| - 1]) + match trades[|trades| - 1] case Bought(_, q, _, _) => q case Sold(_, _) => 0
  }

  function UnitsSold(trades: seq<Trade>): int {
    if trades == [] then 0
    else UnitsSold(trades[..|trades| - 1]) + match trades[|trades| - 1] case Bought(_, _, _, _) => 0 case Sold(q, _) => q
  }

  predicate DistinctBuys(trades: seq<Trade>) {
    forall i, j | 0 <= i < j < |trades| && trades[i].Bought? && trades[j].Bought? :: trades[i].id != trades[j].id
  }

  lemma {:induction false} RemainingConcat(a: seq<Lot>, b: seq<Lot>)
    ensures Remaining(a + b) == Remaining(a) + Remaining(b)
    ensures UnsoldCost(a + b) == UnsoldCost(a) + UnsoldCost(b)
  {
    if a == [] {
      assert a + b == b;
    } else {
      assert (a + b)[1..] == a[1..] + b;
      RemainingConcat(a[1..], b);
    }
  }

  lemma {:induction false} SettledId(lots: seq<Lot>, want: int, i: nat)
    requires i < |lots|
    ensures Settle(lots, want)[i] == lots[i].(remaining := Settle(lots, want)[i].remaining)
  {
    if i > 0 {
      SettledId(lots[1..], want - Taken(lots[0], want), i - 1);
    }
  }

  lemma {:induction false} LotsComeFromBuys(trades: seq<Trade>, i: nat)
    requires i < |Run(trades).lots|
    ensures exists k :: 0 <= k < |trades| && trades[k].Bought? && trades[k].id == Run(trades).lots[i].id
  {
    var n := |trades| - 1;
    var before := Run(trades[..n]);
    var p := if trades[n].Bought? then Place(before.lots, trades[n].acquiredAt) else |before.lots|;
    if i == p {
      assert trades[n].Bought?;
      FiledAt(before.lots, LotOf(trades[n]), i);
    } else {
      var j := if i < p then i else i - 1;
      if trades[n].Sold? {
        SettledId(before.lots, trades[n].quantity, i);
      } else {
        FiledAt(before.lots, LotOf(trades[n]), i);
      }
      LotsComeFromBuys(trades[..n], j);
      var k :| 0 <= k < n && trades[..n][k].Bought? && trades[..n][k].id == before.lots[j].id;
      assert trades[k] == trades[..n][k];
    }
  }

  predicate Balanced(book: Book, bought: int, sold: int, paid: real) {
    sold == Quantity(book.fills) + book.unmatched &&
    bought == Quantity(book.fills) + Remaining(book.lots) &&
    paid == Cost(book.fills) + UnsoldCost(book.lots)
  }

  lemma BuyBalances(book: Book, bought: int, sold: int, paid: real, lot: Lot)
    requires Balanced(book, bought, sold, paid) && lot.remaining == lot.original
    ensures Balanced(book.(lots := Filed(book.lots, lot)), bought + lot.original, sold, paid + lot.cost)
  {
    hide ShareOf, Place;
    var lots, p := book.lots, Place(book.lots, lot.acquiredAt);
    RemainingConcat(lots[..p] + [lot], lots[p..]);
    RemainingConcat(lots[..p], [lot]);
    RemainingConcat(lots[..p], lots[p..]);
    assert lots == lots[..p] + lots[p..];
    NoCost(lot);
  }

  lemma SellBalances(book: Book, bought: int, sold: int, paid: real, quantity: nat, proceeds: real)
    requires Balanced(book, bought, sold, paid)
    ensures Balanced(Step(book, Sold(quantity, proceeds)), bought, sold + quantity, paid)
  {
    hide ShareOf, Matches, Settle, Unmatched;
    SellConserves(book.lots, quantity);
    QuantityConcat(book.fills, Matches(book.lots, quantity));
  }

  lemma BuyIsNew(trades: seq<Trade>)
    requires DistinctBuys(trades) && trades != [] && trades[|trades| - 1].Bought?
    ensures var lots := Run(trades[..|trades| - 1]).lots;
            forall i | 0 <= i < |lots| :: lots[i].id != trades[|trades| - 1].id
  {
    var lots := Run(trades[..|trades| - 1]).lots;
    forall i | 0 <= i < |lots| ensures lots[i].id != trades[|trades| - 1].id {
      LotsComeFromBuys(trades[..|trades| - 1], i);
    }
  }

  lemma {:induction false} LedgerIsSound(trades: seq<Trade>)
    requires DistinctBuys(trades)
    ensures Sound(Run(trades).lots)
  {
    if trades != [] {
      hide Settle, Sound, Filed;
      var n := |trades| - 1;
      LedgerIsSound(trades[..n]);
      if trades[n].Bought? {
        BuyIsNew(trades);
        BuyKeepsSound(Run(trades[..n]).lots, LotOf(trades[n]));
      } else {
        SettleKeepsSound(Run(trades[..n]).lots, trades[n].quantity);
      }
    } else {
      assert Run(trades).lots == [];
    }
  }

  predicate LateAt(trades: seq<Trade>, n: nat)
    requires n < |trades|
  {
    trades[n].Bought? && FiledLate(Run(trades[..n]).lots, LotOf(trades[n]))
  }

  lemma OldestFirstStep(trades: seq<Trade>, n: nat)
    requires DistinctBuys(trades) && n < |trades| && OldestFirst(Run(trades[..n]).lots)
    ensures OldestFirst(Run(trades[..n + 1]).lots) <==> !LateAt(trades, n)
  {
    hide Settle, Sound, Filed, OldestFirst, FiledLate;
    assert trades[..n + 1][..n] == trades[..n];
    LedgerIsSound(trades[..n]);
    if trades[n].Bought? {
      BuyKeepsOldestFirstIff(Run(trades[..n]).lots, LotOf(trades[n]));
    } else {
      SettleKeepsSound(Run(trades[..n]).lots, trades[n].quantity);
    }
  }

  lemma NoTrades(trades: seq<Trade>)
    requires trades == []
    ensures OldestFirst(Run(trades).lots)
  {
  }

  /** Over a whole run, lots are used up oldest first after every trade if and only if no buy is filed late. */
  lemma LedgerIsOldestFirstIff(trades: seq<Trade>)
    requires DistinctBuys(trades)
    ensures (forall n | 0 <= n <= |trades| :: OldestFirst(Run(trades[..n]).lots)) <==>
            (forall n | 0 <= n < |trades| :: !LateAt(trades, n))
  {
    hide Run, OldestFirst, LateAt;
    if forall n | 0 <= n <= |trades| :: OldestFirst(Run(trades[..n]).lots) {
      forall n | 0 <= n < |trades| ensures !LateAt(trades, n) {
        assert OldestFirst(Run(trades[..n]).lots) && OldestFirst(Run(trades[..n + 1]).lots);
        OldestFirstStep(trades, n);
      }
    }
    if forall n | 0 <= n < |trades| :: !LateAt(trades, n) {
      NoTrades(trades[..0]);
      for n := 0 to |trades|
        invariant forall m | 0 <= m <= n :: OldestFirst(Run(trades[..m]).lots)
      {
        assert !LateAt(trades, n);
        OldestFirstStep(trades, n);
      }
    }
  }

  /** The sweep comes to the buys in the order they were made: none is filed late. */
  predicate BuysInOrder(trades: seq<Trade>) {
    forall i, j | 0 <= i < j < |trades| && trades[i].Bought? && trades[j].Bought? :: trades[i].acquiredAt <= trades[j].acquiredAt
  }

  lemma {:induction false} LotsNoYounger(trades: seq<Trade>, at: int, i: nat)
    requires i < |Run(trades).lots|
    requires forall k | 0 <= k < |trades| && trades[k].Bought? :: trades[k].acquiredAt <= at
    ensures Run(trades).lots[i].acquiredAt <= at
  {
    var n := |trades| - 1;
    var before := Run(trades[..n]);
    if trades[n].Sold? {
      SettledId(before.lots, trades[n].quantity, i);
      LotsNoYounger(trades[..n], at, i);
    } else {
      var p := Place(before.lots, trades[n].acquiredAt);
      FiledAt(before.lots, LotOf(trades[n]), i);
      if i != p {
        LotsNoYounger(trades[..n], at, if i < p then i else i - 1);
      }
    }
  }

  lemma BuysBefore(trades: seq<Trade>, n: nat)
    requires BuysInOrder(trades) && n < |trades| && trades[n].Bought?
    ensures !LateAt(trades, n)
  {
    var lots := Run(trades[..n]).lots;
    forall i | 0 <= i < |lots| ensures lots[i].acquiredAt <= trades[n].acquiredAt {
      LotsNoYounger(trades[..n], trades[n].acquiredAt, i);
    }
  }

  /** Buys that come in the order they were made are never late: then lots are used up oldest first throughout. */
  lemma LedgerIsOldestFirst(trades: seq<Trade>)
    requires DistinctBuys(trades) && BuysInOrder(trades)
    ensures forall n | 0 <= n <= |trades| :: OldestFirst(Run(trades[..n]).lots)
  {
    hide Run, OldestFirst;
    forall n | 0 <= n < |trades| ensures !LateAt(trades, n) {
      if trades[n].Bought? {
        BuysBefore(trades, n);
      }
    }
    LedgerIsOldestFirstIff(trades);
  }

  /** A buy that fails at first and is filed after a sell has drawn on a younger lot. */
  lemma LateBuyBreaksOldestFirst()
    ensures var lots := Run([Bought("young", 2, 0.0, 2), Sold(1, 0.0), Bought("old", 1, 0.0, 1)]).lots;
            lots == [Lot("old", 1, 1, 0.0, 1), Lot("young", 2, 1, 0.0, 2)] && !OldestFirst(lots)
  {
    var trades := [Bought("young", 2, 0.0, 2), Sold(1, 0.0), Bought("old", 1, 0.0, 1)];
    var lots := Run(trades).lots;
    assert trades[..2][..1] == trades[..1] && trades[..1][..0] == [];
    assert Run(trades[..1]).lots == [Lot("young", 2, 2, 0.0, 2)];
    assert Run(trades[..2]).lots == [Lot("young", 2, 1, 0.0, 2)];
    assert lots == [Lot("old", 1, 1, 0.0, 1), Lot("young", 2, 1, 0.0, 2)];
    assert lots[1].remaining < lots[1].original && lots[0].remaining != 0;
  }

  lemma {:induction false} LedgerBalances(trades: seq<Trade>)
    ensures Balanced(Run(trades), UnitsBought(trades), UnitsSold(trades), Paid(trades))
  {
    if trades != [] {
      hide Balanced, Settle, Matches, Unmatched, Filed;
      var n := |trades| - 1;
      var before := Run(trades[..n]);
      LedgerBalances(trades[..n]);
      match trades[n]
      case Bought(_, _, _, _) =>
        BuyBalances(before, UnitsBought(trades[..n]), UnitsSold(trades[..n]), Paid(trades[..n]), LotOf(trades[n]));
      case Sold(quantity, proceeds) =>
        SellBalances(before, UnitsBought(trades[..n]), UnitsSold(trades[..n]), Paid(trades[..n]), quantity, proceeds);
    }
  }

  /**
    Over any run of buys and sells, filed in any order: lots stay within what was bought;
    every unit sold was matched or reported unmatched; every unit bought was matched or remains;
    and every dollar paid is the cost of a match or still tied up in a lot.
  */
  lemma LedgerConserves(trades: seq<Trade>)
    requires DistinctBuys(trades)
    ensures var book := Run(trades);
            Sound(book.lots) &&
            UnitsSold(trades) == Quantity(book.fills) + book.unmatched &&
            UnitsBought(trades) == Quantity(book.fills) + Remaining(book.lots) &&
            Paid(trades) == Cost(book.fills) + UnsoldCost(book.lots)
  {
    LedgerIsSound(trades);
    LedgerBalances(trades);
  }

  lemma {:induction false} NotDrawn(lots: seq<Lot>, want: int, id: string)
    requires forall k | 0 <= k < |lots| :: lots[k].id != id
    ensures From(Matches(lots, want), id) == []
  {
    if lots != [] && want > 0 {
      NotDrawn(lots[1..], want - Taken(lots[0], want), id);
      if lots[0].remaining > 0 {
        assert Matches(lots, want)[1..] == Matches(lots[1..], want - Taken(lots[0], want));
      }
    }
  }

  lemma {:induction false} DrawnFromOne(lots: seq<Lot>, want: int, i: nat)
    requires UniqueIds(lots) && want >= 0 && i < |lots|
    ensures UnitsFrom(lots, want, lots[i].id) == lots[i].remaining - Settle(lots, want)[i].remaining
  {
    HeadFill(lots, want, lots[i].id);
    if i > 0 {
      DrawnFromOne(lots[1..], want - Taken(lots[0], want), i - 1);
    } else {
      NotDrawn(lots[1..], want - Taken(lots[0], want), lots[0].id);
    }
  }

  lemma {:induction false} FillsAreListed(trades: seq<Trade>, id: string)
    requires forall k | 0 <= k < |trades| && trades[k].Bought? :: trades[k].id != id
    ensures From(Run(trades).fills, id) == []
  {
    if trades != [] {
      var n := |trades| - 1;
      var before := Run(trades[..n]);
      FillsAreListed(trades[..n], id);
      if trades[n].Sold? {
        forall k | 0 <= k < |before.lots| ensures before.lots[k].id != id {
          LotsComeFromBuys(trades[..n], k);
        }
        NotDrawn(before.lots, trades[n].quantity, id);
        FromConcat(before.fills, Matches(before.lots, trades[n].quantity), id);
      }
    }
  }

  /** The fills recorded against a lot over a run are exactly the units it has lost: never more than it had. */
  lemma {:induction false} LotIsNeverOverdrawn(trades: seq<Trade>, i: nat)
    requires DistinctBuys(trades) && i < |Run(trades).lots|
    ensures var lot := Run(trades).lots[i];
            Quantity(From(Run(trades).fills, lot.id)) == lot.original - lot.remaining <= lot.original
  {
    var n := |trades| - 1;
    var before := Run(trades[..n]);
    LedgerConserves(trades);
    LedgerConserves(trades[..n]);
    if trades[n].Sold? {
      LotIsNeverOverdrawn(trades[..n], i);
      SettledId(before.lots, trades[n].quantity, i);
      DrawnFromOne(before.lots, trades[n].quantity, i);
      var id := before.lots[i].id;
      FromConcat(before.fills, Matches(before.lots, trades[n].quantity), id);
      QuantityConcat(From(before.fills, id), From(Matches(before.lots, trades[n].quantity), id));
    } else {
      var p := Place(before.lots, trades[n].acquiredAt);
      FiledAt(before.lots, LotOf(trades[n]), i);
      if i == p {
        FillsAreListed(trades[..n], trades[n].id);
      } else {
        LotIsNeverOverdrawn(trades[..n], if i < p then i else i - 1);
      }
    }
  }

  lemma {:induction false} CostDrawnFromOne(lots: seq<Lot>, want: int, i: nat)
    requires UniqueIds(lots) && want >= 0 && i < |lots|
    ensures CostFrom(lots, want, lots[i].id) == CostOf(lots[i], lots[i].remaining - Settle(lots, want)[i].remaining)
  {
    hide ShareOf;
    HeadFill(lots, want, lots[i].id);
    if i > 0 {
      CostDrawnFromOne(lots[1..], want - Taken(lots[0], want), i - 1);
    } else {
      NotDrawn(lots[1..], want - Taken(lots[0], want), lots[0].id);
    }
  }

  lemma NoFillsNoCost(fills: seq<Match>)
    requires fills == []
    ensures Cost(fills) == 0.0
  {
  }

  lemma CostAfterSell(before: Book, want: nat, i: nat)
    requires UniqueIds(before.lots) && i < |before.lots|
    requires var lot := before.lots[i]; Cost(From(before.fills, lot.id)) == CostOf(lot, lot.original - lot.remaining)
    ensures var lot, after := before.lots[i], Settle(before.lots, want)[i];
            Cost(From(before.fills + Matches(before.lots, want), lot.id)) == CostOf(lot, lot.original - after.remaining)
  {
    hide ShareOf, Matches, Settle, From, Cost, UniqueIds;
    var lot, after := before.lots[i], Settle(before.lots, want)[i];
    CostDrawnFromOne(before.lots, want, i);
    FromConcat(before.fills, Matches(before.lots, want), lot.id);
    QuantityConcat(From(before.fills, lot.id), From(Matches(before.lots, want), lot.id));
    ShareIsLinear(lot.cost, lot.original - lot.remaining, lot.remaining - after.remaining, lot.original);
  }

  /** The matches recorded against a lot cost what the units it has lost cost. */
  predicate CostMatches(book: Book, lot: Lot) {
    Cost(From(book.fills, lot.id)) == CostOf(lot, lot.original - lot.remaining)
  }

  lemma SoldCost(before: Book, quantity: nat, proceeds: real, i: nat)
    requires UniqueIds(before.lots) && i < |before.lots| && CostMatches(before, before.lots[i])
    ensures i < |Step(before, Sold(quantity, proceeds)).lots|
    ensures CostMatches(Step(before, Sold(quantity, proceeds)), Step(before, Sold(quantity, proceeds)).lots[i])
  {
    hide ShareOf, Matches, Unmatched, Settle, From, Cost, UniqueIds;
    SettledId(before.lots, quantity, i);
    CostAfterSell(before, quantity, i);
  }

  lemma BoughtCost(trades: seq<Trade>)
    requires DistinctBuys(trades) && trades != [] && trades[|trades| - 1].Bought?
    ensures CostMatches(Run(trades[..|trades| - 1]), LotOf(trades[|trades| - 1]))
  {
    hide ShareOf, From;
    var buy := trades[|trades| - 1];
    FillsAreListed(trades[..|trades| - 1], buy.id);
    NoFillsNoCost(From(Run(trades[..|trades| - 1]).fills, buy.id));
    NoCost(LotOf(buy));
  }

  lemma {:induction false} CostIsDrawn(trades: seq<Trade>, i: nat)
    requires DistinctBuys(trades) && i < |Run(trades).lots|
    ensures CostMatches(Run(trades), Run(trades).lots[i])
  {
    hide CostOf, From, Cost, Settle, Matches, Unmatched, Filed, Place;
    var n := |trades| - 1;
    var before := Run(trades[..n]);
    if trades[n].Sold? {
      CostIsDrawn(trades[..n], i);
      LedgerIsSound(trades[..n]);
      SoldCost(before, trades[n].quantity, trades[n].proceeds, i);
    } else {
      var p := Place(before.lots, trades[n].acquiredAt);
      FiledAt(before.lots, LotOf(trades[n]), i);
      if i == p {
        BoughtCost(trades);
      } else {
        CostIsDrawn(trades[..n], if i < p then i else i - 1);
      }
    }
  }

  lemma Subtract(amount: real, part: real, whole: int, rest: int)
    requires part * whole as real == amount * (whole - rest) as real
    ensures (amount - part) * whole as real == amount * rest as real
  {
    assert (amount - part) * whole as real == amount * whole as real - part * whole as real;
    assert amount * (whole - rest) as real == amount * whole as real - amount * rest as real;
  }

  /** What is tied up in a lot is its cost in proportion to the units that remain. */
  lemma UnsoldIsProportional(lot: Lot)
    requires lot.original > 0
    ensures Unsold(lot) * lot.original as real == lot.cost * lot.remaining as real
  {
    hide ShareOf;
    Proportion(lot.cost, lot.original - lot.remaining, lot.original);
    Subtract(lot.cost, CostOf(lot, lot.original - lot.remaining), lot.original, lot.remaining);
  }

  lemma CostShare(lot: Lot)
    requires lot.original > 0
    ensures CostOf(lot, lot.original - lot.remaining) * lot.original as real == lot.cost * (lot.original - lot.remaining) as real
    ensures lot.remaining == 0 ==> CostOf(lot, lot.original - lot.remaining) == lot.cost
  {
    hide ShareOf;
    Proportion(lot.cost, lot.original - lot.remaining, lot.original);
    WholeShare(lot.cost, lot.original - lot.remaining, lot.original);
  }

  /** Over a run, a lot has given up its cost in proportion to the units it has lost: all of it once it is used up. */
  lemma LotCostIsRecovered(trades: seq<Trade>, i: nat)
    requires DistinctBuys(trades) && i < |Run(trades).lots| && Run(trades).lots[i].original > 0
    ensures var lot := Run(trades).lots[i];
            Cost(From(Run(trades).fills, lot.id)) * lot.original as real == lot.cost * (lot.original - lot.remaining) as real &&
            (lot.remaining == 0 ==> Cost(From(Run(trades).fills, lot.id)) == lot.cost)
  {
    hide Run, From, Cost, CostOf, ShareOf, DistinctBuys;
    var lot := Run(trades).lots[i];
    CostIsDrawn(trades, i);
    CostShare(lot);
  }
}
