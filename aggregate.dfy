/** The per-item result record of the exit handlers and the aggregator that
    folds a batch of them into one response. */
module Aggregate {
  import opened Common
  import opened Positions

  /** One entry of `closedPositions`. The non-SDK handler always sets `errorcode`;
      the SDK handler never does (None). */
  datatype ClosedPosition = ClosedPosition(
    clientId: string,
    symbol: string,
    symbolToken: string,
    status: string,
    message: string,
    orderSide: Side,
    quantity: nat,
    errorcode: Option<string>)

  /** The response body of an exit: `{status, message, errorcode?, closedPositions}`. */
  datatype ExitSummary = ExitSummary(
    status: string,
    message: string,
    errorcode: Option<string>,
    closedPositions: seq<ClosedPosition>)

  /** `results.filter(r => r.status === "SUCCESS").length`. */
  function SuccessCount(rs: seq<ClosedPosition>): (k: nat)
    ensures k <= |rs|
    ensures k > 0 <==> exists i :: 0 <= i < |rs| && rs[i].status == SUCCESS
  {
    if rs == [] then 0
    else SuccessCount(rs[..|rs| - 1]) + (if rs[|rs| - 1].status == SUCCESS then 1 else 0)
  }

  /** The count is additive: it is the number of SUCCESS results, one at a time. */
  lemma {:induction false} SuccessCountAppend(a: seq<ClosedPosition>, b: seq<ClosedPosition>)
    ensures SuccessCount(a + b) == SuccessCount(a) + SuccessCount(b)
    decreases |b|
  {
    if b == [] {
      assert a + b == a;
    } else {
      var n := |b| - 1;
      assert (a + b)[..|a + b| - 1] == a + b[..n];
      SuccessCountAppend(a, b[..n]);
    }
  }

  /** A single result counts 1 iff it is a SUCCESS. */
  lemma SuccessCountOne(r: ClosedPosition)
    ensures SuccessCount([r]) == if r.status == SUCCESS then 1 else 0
  {
    assert [r][..0] == [];
  }

  function ClosedMessage(k: nat, n: nat): string {
    "Closed " + NatToString(k) + " out of " + NatToString(n) + " open positions"
  }

  /** The aggregate over a non-empty batch: SUCCESS iff some item succeeded. */
  function Summarize(rs: seq<ClosedPosition>, n: nat): (s: ExitSummary)
    ensures s.closedPositions == rs && s.errorcode == None
    ensures s.status == SUCCESS <==> exists i :: 0 <= i < |rs| && rs[i].status == SUCCESS
    ensures s.status == ERROR <==> forall i :: 0 <= i < |rs| ==> rs[i].status != SUCCESS
    ensures s.message == ClosedMessage(SuccessCount(rs), n)
  {
    var k := SuccessCount(rs);
    ExitSummary(if k > 0 then SUCCESS else ERROR, ClosedMessage(k, n), None, rs)
  }
}
