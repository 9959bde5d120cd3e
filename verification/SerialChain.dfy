/**
  Work strung on one promise: every piece starts only when the piece before it has settled, in
  whatever way it settled. Both the wallet creations and the call negotiations queue up like this.
*/
module SerialChain {

  datatype Status = Waiting | Running | Fulfilled | Rejected | Skipped

  predicate Settled(status: Status) {
    status.Fulfilled? || status.Rejected? || status.Skipped?
  }

  /** The piece's turn has come: the promise it was chained to has settled. */
  predicate Due(chain: seq<Status>, i: nat) {
    i < |chain| && chain[i] == Waiting && (i == 0 || Settled(chain[i - 1]))
  }

  /** Nothing has had its turn before everything ahead of it settled. */
  predicate Orderly(chain: seq<Status>) {
    forall i, j | 0 <= i < j < |chain| && chain[j] != Waiting :: Settled(chain[i])
  }

  lemma OneAtATime(chain: seq<Status>, i: nat, j: nat)
    requires Orderly(chain) && i < |chain| && j < |chain| && chain[i] == Running && chain[j] == Running
    ensures i == j
  {
  }

  lemma DueIsNext(chain: seq<Status>, i: nat)
    requires Orderly(chain) && Due(chain, i)
    ensures forall k | 0 <= k < i :: Settled(chain[k])
    ensures forall k | i <= k < |chain| :: chain[k] == Waiting
  {
  }

  lemma AppendOrderly(chain: seq<Status>)
    requires Orderly(chain)
    ensures Orderly(chain + [Waiting])
  {
  }

  lemma TurnOrderly(chain: seq<Status>, i: nat, status: Status)
    requires Orderly(chain) && Due(chain, i)
    ensures Orderly(chain[i := status])
  {
    DueIsNext(chain, i);
  }

  lemma SettleOrderly(chain: seq<Status>, i: nat, status: Status)
    requires Orderly(chain) && i < |chain| && chain[i] == Running && Settled(status)
    ensures Orderly(chain[i := status])
  {
  }

  /** While anything waits, something runs or something is due: no outcome of a piece blocks the rest. */
  lemma {:induction false} NeverStuck(chain: seq<Status>, j: nat)
    requires Orderly(chain) && j < |chain| && chain[j] == Waiting
    ensures exists i :: 0 <= i < |chain| && (chain[i] == Running || Due(chain, i))
  {
    if j == 0 || Settled(chain[j - 1]) {
      assert Due(chain, j);
    } else if chain[j - 1] != Running {
      NeverStuck(chain, j - 1);
    }
  }
}
