/** `ExitPositionSDK`: the SDK-backed exit, which queries each requested client
    directly and places the closing orders in lots. */
module ExitTradeSdk {
  import opened Common
  import opened Positions
  import opened Aggregate

  datatype ExitParams = ExitParams(clientIds: Option<seq<string>>, filters: Filters)

  /** `GetPositionBook` for one client: no reply object, a reply, or an exception. */
  datatype BookReply =
    | NoBookReply
    | BookReply(status: string, message: string, data: seq<Position>)
    | BookThrown(message: string)

  /** The per-client record of the query stage; `error` is "" when absent. */
  datatype ClientPositions = ClientPositions(clientId: string, positions: seq<Position>, error: string)

  /** `PlaceOrder` for one close: no reply object, a reply, or an exception. */
  datatype OrderReply =
    | NoOrderReply
    | OrderReply(status: string, message: string)
    | OrderThrown(message: string)

  /** One element of `positionsToClose`. */
  datatype CloseItem = CloseItem(clientId: string, position: Position, orderSide: Side, quantity: nat)

  /** The order payload sent to close one item. */
  datatype ExitOrder = ExitOrder(
    clientCode: string,
    exchange: string,
    symbolToken: string,
    buyOrSell: Side,
    orderType: string,
    productType: string,
    orderDuration: string,
    price: int,
    quantityInLot: nat,
    amoOrder: string,
    tag: string)

  const InvalidIds := ExitSummary(ERROR, "client_ids array is required and cannot be empty", Some(MO8001), [])
  const NothingToClose := ExitSummary(SUCCESS, "No open positions found matching criteria", None, [])

  /** The query stage for one client: a failed or non-SUCCESS query yields no positions. */
  function QueryClient(clientId: string, reply: BookReply): (r: ClientPositions)
    ensures r.clientId == clientId
    ensures !(reply.BookReply? && reply.status == SUCCESS) ==> r.positions == []
    ensures reply.BookReply? && reply.status == SUCCESS ==> r.positions == reply.data && r.error == ""
  {
    match reply
    case NoBookReply => ClientPositions(clientId, [], "")
    case BookReply(status, message, data) =>
      if status != SUCCESS then ClientPositions(clientId, [], message) else ClientPositions(clientId, data, "")
    case BookThrown(message) => ClientPositions(clientId, [], message)
  }

  /** One query per requested client, in `client_ids` order. */
  function QueryAll(ids: seq<string>, fetch: string -> BookReply): (rs: seq<ClientPositions>)
    ensures |rs| == |ids|
    ensures forall i :: 0 <= i < |ids| ==> rs[i] == QueryClient(ids[i], fetch(ids[i]))
  {
    seq(|ids|, i requires 0 <= i < |ids| => QueryClient(ids[i], fetch(ids[i])))
  }

  /** The closing order for a kept candidate. */
  function ToCloseItem(c: Candidate): (item: CloseItem)
    ensures item.clientId == c.clientId && item.position == c.position
    ensures item.orderSide == Opposite(OpenSide(c.position)) && item.quantity == CloseQuantity(c.position)
  {
    CloseItem(c.clientId, c.position, CloseSide(c.position), CloseQuantity(c.position))
  }

  function ToCloseItems(cs: seq<Candidate>): (items: seq<CloseItem>)
    ensures |items| == |cs|
  {
    if cs == [] then [] else ToCloseItems(cs[..|cs| - 1]) + [ToCloseItem(cs[|cs| - 1])]
  }

  lemma {:induction false} ToCloseItemsAt(cs: seq<Candidate>, i: nat)
    requires i < |cs|
    ensures ToCloseItems(cs)[i] == ToCloseItem(cs[i])
    decreases |cs|
  {
    var n := |cs| - 1;
    if i < n {
      ToCloseItemsAt(cs[..n], i);
    }
  }

  /** A client's contribution; one whose record carries a (truthy) error is skipped. */
  function CandidatesOf(r: ClientPositions, f: Filters): seq<Candidate> {
    if Truthy(r.error) then [] else KeptOf(r.clientId, r.positions, f)
  }

  /** Kept positions in `client_ids` order, then position-book order. */
  function Candidates(rs: seq<ClientPositions>, f: Filters): seq<Candidate> {
    if rs == [] then []
    else Candidates(rs[..|rs| - 1], f) + CandidatesOf(rs[|rs| - 1], f)
  }

  lemma CandidatesStep(rs: seq<ClientPositions>, i: nat, f: Filters)
    requires i < |rs|
    ensures Truthy(rs[i].error) ==> Candidates(rs[..i + 1], f) == Candidates(rs[..i], f)
    ensures !Truthy(rs[i].error) ==>
      Candidates(rs[..i + 1], f) == Candidates(rs[..i], f) + Matching(rs[i].clientId, OpenPositions(rs[i].positions), f)
  {
    assert rs[..i + 1][..i] == rs[..i];
    if Truthy(rs[i].error) {
      assert Candidates(rs[..i + 1], f) == Candidates(rs[..i], f) + [];
    }
  }

  lemma ToCloseItemsSnoc(cs: seq<Candidate>, c: Candidate)
    ensures ToCloseItems(cs + [c]) == ToCloseItems(cs) + [ToCloseItem(c)]
  {
    assert (cs + [c])[..|cs|] == cs;
  }

  lemma CollectStep(done: seq<Candidate>, clientId: string, open: seq<Position>, j: nat, f: Filters)
    requires j < |open|
    ensures MatchesFilters(open[j], f) ==>
      ToCloseItems(done + Matching(clientId, open[..j + 1], f)) ==
      ToCloseItems(done + Matching(clientId, open[..j], f)) +
        [CloseItem(clientId, open[j], CloseSide(open[j]), CloseQuantity(open[j]))]
    ensures !MatchesFilters(open[j], f) ==>
      ToCloseItems(done + Matching(clientId, open[..j + 1], f)) == ToCloseItems(done + Matching(clientId, open[..j], f))
  {
    MatchingStep(clientId, open, j, f);
    var before := done + Matching(clientId, open[..j], f);
    if MatchesFilters(open[j], f) {
      var c := Candidate(clientId, open[j]);
      assert done + Matching(clientId, open[..j + 1], f) == before + [c];
      ToCloseItemsSnoc(before, c);
    } else {
      assert done + Matching(clientId, open[..j + 1], f) == before;
    }
  }

  /** Every selected position of a record without an error is a candidate. */
  lemma {:induction false} CandidatesComplete(rs: seq<ClientPositions>, f: Filters, c: Candidate, i: nat)
    requires i < |rs| && !Truthy(rs[i].error)
    requires c.clientId == rs[i].clientId && c.position in rs[i].positions && Selected(c.position, f)
    ensures c in Candidates(rs, f)
  {
    var n := |rs| - 1;
    assert Candidates(rs, f) == Candidates(rs[..n], f) + CandidatesOf(rs[n], f);
    if i < n {
      assert rs[..n][i] == rs[i];
      CandidatesComplete(rs[..n], f, c, i);
    } else {
      KeptOfMembers(rs[n].clientId, rs[n].positions, f);
    }
  }

  /** Every candidate is a selected position of a record without an error. */
  lemma {:induction false} CandidatesSound(rs: seq<ClientPositions>, f: Filters, c: Candidate)
    requires c in Candidates(rs, f)
    ensures exists i :: (0 <= i < |rs| && !Truthy(rs[i].error) && c.clientId == rs[i].clientId &&
      c.position in rs[i].positions && Selected(c.position, f))
  {
    var n := |rs| - 1;
    assert Candidates(rs, f) == Candidates(rs[..n], f) + CandidatesOf(rs[n], f);
    if c in Candidates(rs[..n], f) {
      CandidatesSound(rs[..n], f, c);
      var i :| 0 <= i < n && !Truthy(rs[..n][i].error) && c.clientId == rs[..n][i].clientId &&
        c.position in rs[..n][i].positions && Selected(c.position, f);
      assert rs[..n][i] == rs[i];
    } else {
      KeptOfMembers(rs[n].clientId, rs[n].positions, f);
      assert c.position in rs[n].positions;
    }
  }

  /** The selection stage: open, matching positions in enumeration order, each with
      its closing side and quantity (no reordering by side). */
  /** The inner loop over one client's open positions: append the close item of each
      position that passes the filters, in book order. */
  method CollectClient(items0: seq<CloseItem>, ghost done: seq<Candidate>, clientId: string, open: seq<Position>, f: Filters)
    returns (items: seq<CloseItem>)
    requires items0 == ToCloseItems(done)
    ensures items == ToCloseItems(done + Matching(clientId, open, f))
  {
    items := items0;
    var j := 0;
    assert open[..j] == [];
    assert done + Matching(clientId, open[..j], f) == done;
    while j < |open|
      invariant 0 <= j <= |open|
      invariant items == ToCloseItems(done + Matching(clientId, open[..j], f))
    {
      var pos := open[j];
      CollectStep(done, clientId, open, j, f);
      if MatchesFilters(pos, f) {
        items := items + [CloseItem(clientId, pos, CloseSide(pos), CloseQuantity(pos))];
      }
      j := j + 1;
    }
    assert open[..j] == open;
  }

  method CollectPositions(rs: seq<ClientPositions>, f: Filters) returns (positionsToClose: seq<CloseItem>)
    ensures positionsToClose == ToCloseItems(Candidates(rs, f))
  {
    positionsToClose := [];
    var i := 0;
    while i < |rs|
      invariant 0 <= i <= |rs|
      invariant positionsToClose == ToCloseItems(Candidates(rs[..i], f))
    {
      var result := rs[i];
      CandidatesStep(rs, i, f);
      if !Truthy(result.error) {
        positionsToClose := CollectClient(positionsToClose, Candidates(rs[..i], f), result.clientId,
                                          OpenPositions(result.positions), f);
      }
      i := i + 1;
    }
    assert rs[..i] == rs;
  }

  /** `getLotSize`: the listed lot size, or 1 when the token is unknown or the lookup fails. */
  function LotSizeOf(lookup: LotLookup): (n: LotSize)
    ensures lookup.LotFound? ==> n == lookup.lotSize
    ensures !lookup.LotFound? ==> n == 1
  {
    match lookup
    case LotFound(n) => n
    case _ => 1
  }

  /** `Math.ceil(quantity / lotSize)` on whole numbers. */
  function CeilDiv(q: nat, lot: LotSize): nat {
    (q + lot - 1) / lot
  }

  /** The number of lots is the least that covers the quantity. */
  lemma CeilDivIsLeastCover(q: nat, lot: LotSize)
    ensures CeilDiv(q, lot) * lot >= q
    ensures (CeilDiv(q, lot) - 1) * lot < q || q == 0
  {
    var k := CeilDiv(q, lot);
    var m := (q + lot - 1) % lot;
    assert q + lot - 1 == k * lot + m && 0 <= m < lot;
    assert k * lot >= q;
    if q > 0 {
      assert (k - 1) * lot == k * lot - lot;
    }
  }

  /** The payload that closes one item. */
  function ExitOrderFor(item: CloseItem, lot: LotSize): (o: ExitOrder)
    ensures o.clientCode == item.clientId && o.buyOrSell == item.orderSide
    ensures o.exchange == item.position.exchange && o.symbolToken == item.position.symbolToken
    ensures o.productType == if item.position.productName != "" then item.position.productName else "NORMAL"
    ensures o.quantityInLot * lot >= item.quantity
    ensures item.quantity > 0 ==> (o.quantityInLot - 1) * lot < item.quantity
    ensures o.orderType == "MARKET" && o.orderDuration == "DAY" && o.price == 0 && o.amoOrder == "N" && o.tag == "EXIT"
  {
    CeilDivIsLeastCover(item.quantity, lot);
    var p := item.position;
    ExitOrder(item.clientId, p.exchange, p.symbolToken, item.orderSide, "MARKET",
              Or(p.productName, "NORMAL"), "DAY", 0, CeilDiv(item.quantity, lot), "N", "EXIT")
  }

  /** The result record of one close: SUCCESS iff the reply says SUCCESS. */
  function CloseOne(item: CloseItem, reply: OrderReply): (r: ClosedPosition)
    ensures r.clientId == item.clientId && r.orderSide == item.orderSide && r.quantity == item.quantity
    ensures r.status == SUCCESS <==> reply.OrderReply? && reply.status == SUCCESS
    ensures r.status != SUCCESS ==> r.status == ERROR
    ensures r.symbol == item.position.symbol && r.symbolToken == item.position.symbolToken
    ensures reply.OrderReply? ==> r.message == (if reply.status == SUCCESS then reply.message else Or(reply.message, "Unknown error"))
    ensures reply.NoOrderReply? ==> r.message == "Unknown error"
    ensures reply.OrderThrown? ==> r.message == reply.message
    ensures r.errorcode == None
  {
    var p := item.position;
    match reply
    case OrderReply(status, message) =>
      if status == SUCCESS then
        ClosedPosition(item.clientId, p.symbol, p.symbolToken, SUCCESS, message, item.orderSide, item.quantity, None)
      else
        ClosedPosition(item.clientId, p.symbol, p.symbolToken, ERROR, Or(message, "Unknown error"),
                       item.orderSide, item.quantity, None)
    case NoOrderReply =>
      ClosedPosition(item.clientId, p.symbol, p.symbolToken, ERROR, "Unknown error", item.orderSide, item.quantity, None)
    case OrderThrown(message) =>
      ClosedPosition(item.clientId, p.symbol, p.symbolToken, ERROR, message, item.orderSide, item.quantity, None)
  }

  /** One close per item, in list order. */
  function CloseAll(items: seq<CloseItem>, lot: string -> LotLookup, place: ExitOrder -> OrderReply): (rs: seq<ClosedPosition>)
    ensures |rs| == |items|
    ensures forall i :: 0 <= i < |items| ==>
      rs[i] == CloseOne(items[i], place(ExitOrderFor(items[i], LotSizeOf(lot(items[i].position.symbolToken)))))
  {
    seq(|items|, i requires 0 <= i < |items| =>
      CloseOne(items[i], place(ExitOrderFor(items[i], LotSizeOf(lot(items[i].position.symbolToken))))))
  }

  /** The close and aggregation stages. */
  function Dispatch(items: seq<CloseItem>, lot: string -> LotLookup, place: ExitOrder -> OrderReply): (s: ExitSummary)
    ensures items == [] ==> s == NothingToClose
    ensures items != [] ==>
      && s.errorcode == None
      && |s.closedPositions| == |items|
      && (s.status == SUCCESS <==> exists i :: 0 <= i < |items| && s.closedPositions[i].status == SUCCESS)
      && s.message == ClosedMessage(SuccessCount(s.closedPositions), |items|)
  {
    if |items| == 0 then NothingToClose
    else
      var rs := CloseAll(items, lot, place);
      Summarize(rs, |rs|)
  }

  /** The handler. The position books, lot-size lookups and order replies are given
      per client, token and payload. */
  method ExitPositionSDK(
    params: ExitParams,
    fetch: string -> BookReply,
    lot: string -> LotLookup,
    place: ExitOrder -> OrderReply)
    returns (summary: ExitSummary)
    ensures !NonEmptyList(params.clientIds) ==> summary == InvalidIds
    ensures NonEmptyList(params.clientIds) ==>
      summary == Dispatch(ToCloseItems(Candidates(QueryAll(params.clientIds.value, fetch), params.filters)), lot, place)
  {
    if !NonEmptyList(params.clientIds) {
      return InvalidIds;
    }
    var positionResults := QueryAll(params.clientIds.value, fetch);
    var positionsToClose := CollectPositions(positionResults, params.filters);
    summary := Dispatch(positionsToClose, lot, place);
  }
}

/** Properties of the SDK exit handler. */
module ExitTradeSdkProperties {
  import opened Common
  import opened Positions
  import opened Aggregate
  import opened ExitTradeSdk

  /** `c` is a selected position of client `id`, whose query `reply` returned SUCCESS. */
  predicate FromSuccessfulQuery(id: string, reply: BookReply, f: Filters, c: Candidate) {
    reply.BookReply? && reply.status == SUCCESS && c.clientId == id && c.position in reply.data && Selected(c.position, f)
  }

  /** Per-client isolation: a candidate comes from a client whose query returned
      SUCCESS, and every selected position of every such client is a candidate;
      a failed or rejected query removes only that client's positions. */
  lemma {:induction false} CandidatesMembership(ids: seq<string>, fetch: string -> BookReply, f: Filters, c: Candidate)
    ensures c in Candidates(QueryAll(ids, fetch), f) <==>
      exists i :: 0 <= i < |ids| && FromSuccessfulQuery(ids[i], fetch(ids[i]), f, c)
  {
    var rs := QueryAll(ids, fetch);
    if c in Candidates(rs, f) {
      CandidatesSound(rs, f, c);
      var i :| 0 <= i < |rs| && !Truthy(rs[i].error) && c.clientId == rs[i].clientId &&
        c.position in rs[i].positions && Selected(c.position, f);
      assert rs[i] == QueryClient(ids[i], fetch(ids[i]));
      assert FromSuccessfulQuery(ids[i], fetch(ids[i]), f, c);
    }
    if exists i :: 0 <= i < |ids| && FromSuccessfulQuery(ids[i], fetch(ids[i]), f, c) {
      var i :| 0 <= i < |ids| && FromSuccessfulQuery(ids[i], fetch(ids[i]), f, c);
      assert rs[i] == QueryClient(ids[i], fetch(ids[i]));
      CandidatesComplete(rs, f, c, i);
    }
  }

  /** The order for an item is placed on the item's client and closing side, in the
      least number of lots that covers the open quantity (lot size 1 by default). */
  lemma ExitOrderCoversQuantity(item: CloseItem, lookup: LotLookup)
    ensures var lot := LotSizeOf(lookup);
      var order := ExitOrderFor(item, lot);
      && order.clientCode == item.clientId
      && order.buyOrSell == item.orderSide
      && order.quantityInLot * lot >= item.quantity
      && (item.quantity == 0 || (order.quantityInLot - 1) * lot < item.quantity)
  {
    CeilDivIsLeastCover(item.quantity, LotSizeOf(lookup));
  }

  /** The example of a 75-unit lot and a net quantity of 100: two lots, not one. */
  lemma LotsForHundredAtSeventyFive()
    ensures CeilDiv(100, 75) == 2
  {
  }

  /** The close and aggregation stages: nothing to do is a SUCCESS with no items;
      otherwise exactly one result per item in list order, each closing its position
      in full, and the batch is SUCCESS iff some item is. */
  lemma DispatchOutcome(items: seq<CloseItem>, lot: string -> LotLookup, place: ExitOrder -> OrderReply)
    ensures var s := Dispatch(items, lot, place);
      && (items == [] ==> s == NothingToClose)
      && (items != [] ==>
            var rs := s.closedPositions;
            && |rs| == |items|
            && (forall i :: 0 <= i < |rs| ==>
                  rs[i].clientId == items[i].clientId && rs[i].orderSide == items[i].orderSide &&
                  rs[i].quantity == items[i].quantity &&
                  (rs[i].status == SUCCESS <==>
                     var reply := place(ExitOrderFor(items[i], LotSizeOf(lot(items[i].position.symbolToken))));
                     reply.OrderReply? && reply.status == SUCCESS))
            && (s.status == SUCCESS <==> exists i :: 0 <= i < |rs| && rs[i].status == SUCCESS)
            && s.message == ClosedMessage(SuccessCount(rs), |items|))
  {
  }

  /** Each item of the close list closes its position: opposite side, full quantity. */
  lemma {:induction false} CloseItemsCloseInFull(cs: seq<Candidate>, i: nat)
    requires i < |cs|
    ensures ToCloseItems(cs)[i].clientId == cs[i].clientId
    ensures ToCloseItems(cs)[i].orderSide == Opposite(OpenSide(cs[i].position))
    ensures ToCloseItems(cs)[i].quantity == CloseQuantity(cs[i].position)
  {
    ToCloseItemsAt(cs, i);
  }
}
