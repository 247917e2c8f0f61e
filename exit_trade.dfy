/** `exitPosition`: the HTTP handler that closes matching open positions of several
    clients through the gateway's own place-order endpoint. */
module ExitTrade {
  import opened Common
  import opened Credentials
  import opened Positions
  import opened Aggregate

  datatype ExitRequest = ExitRequest(clientIds: Option<seq<string>>, filters: Filters)

  /** The HTTP status code and the JSON body sent back. */
  datatype HttpReply = HttpReply(code: int, body: ExitSummary)

  /** The position-book call of one client: the reply's status, message and
      `data?.data || []`, or the message of the exception it threw. */
  datatype BookReply =
    | BookReply(status: string, message: string, data: seq<Position>)
    | BookFailed(message: string)

  datatype ClientBook = ClientBook(clientId: string, reply: BookReply)

  /** One entry of the array the place-order endpoint answers with. */
  datatype ReplyEntry = ReplyEntry(clientId: string, status: string, message: string, errorcode: string)

  /** The loopback place-order call for one item: its reply array, or the exception. */
  datatype PlaceCall = Answered(entries: seq<ReplyEntry>) | CallFailed(error: Thrown)

  const InvalidIds := ExitSummary(ERROR, "client_ids array is required and cannot be empty", Some(MO8001), [])
  const NothingToClose := ExitSummary(SUCCESS, "No open positions found matching the criteria", None, [])

  /** The position books fetched for the resolved credentials, in credential order. */
  function QueryBooks(creds: seq<Credential>, fetch: Credential -> BookReply): seq<ClientBook> {
    seq(|creds|, i requires 0 <= i < |creds| => ClientBook(creds[i].clientId, fetch(creds[i])))
  }

  /** Only a reply without an error and with status SUCCESS contributes positions. */
  predicate Contributes(b: ClientBook) {
    b.reply.BookReply? && b.reply.status == SUCCESS
  }

  function CandidatesOf(b: ClientBook, f: Filters): seq<Candidate> {
    if Contributes(b) then KeptOf(b.clientId, b.reply.data, f) else []
  }

  /** Every kept position, client by client and then in book order. */
  function Candidates(books: seq<ClientBook>, f: Filters): seq<Candidate> {
    if books == [] then []
    else Candidates(books[..|books| - 1], f) + CandidatesOf(books[|books| - 1], f)
  }

  lemma CandidatesStep(books: seq<ClientBook>, i: nat, f: Filters)
    requires i < |books|
    ensures Candidates(books[..i + 1], f) == Candidates(books[..i], f) + CandidatesOf(books[i], f)
  {
    assert books[..i + 1][..i] == books[..i];
  }

  /** A candidate is kept exactly when it is a selected position of a contributing
      client: clients whose query failed or was not SUCCESS contribute nothing. */
  lemma {:induction false} CandidatesMembership(books: seq<ClientBook>, f: Filters, c: Candidate)
    ensures c in Candidates(books, f) <==>
      exists i :: 0 <= i < |books| && Contributes(books[i]) && c.clientId == books[i].clientId &&
        c.position in books[i].reply.data && Selected(c.position, f)
  {
    if books != [] {
      var n := |books| - 1;
      CandidatesMembership(books[..n], f, c);
      assert forall i :: 0 <= i < n ==> books[..n][i] == books[i];
      if books[n].reply.BookReply? {
        KeptOfMembers(books[n].clientId, books[n].reply.data, f);
      }
    }
  }

  /** Pushing `c` extends the array of its own side and leaves the other alone. */
  lemma PushStep(base: seq<Candidate>, seen: seq<Candidate>, c: Candidate, s: Side)
    ensures OpenSide(c.position) == s ==> base + OfSide(seen + [c], s) == base + OfSide(seen, s) + [c]
    ensures OpenSide(c.position) != s ==> base + OfSide(seen + [c], s) == base + OfSide(seen, s)
  {
    OfSideSnoc(seen, c, s);
    if OpenSide(c.position) == s {
      assert base + (OfSide(seen, s) + [c]) == base + OfSide(seen, s) + [c];
    }
  }

  /** The inner `forEach` for one contributing client: each open position that passes
      the criteria is pushed onto the array of its side. */
  method PushMatching(clientId: string, open: seq<Position>, f: Filters, sells0: seq<Candidate>, buys0: seq<Candidate>)
    returns (sells: seq<Candidate>, buys: seq<Candidate>)
    ensures sells == sells0 + OfSide(Matching(clientId, open, f), Sell)
    ensures buys == buys0 + OfSide(Matching(clientId, open, f), Buy)
  {
    sells, buys := sells0, buys0;
    ghost var seen: seq<Candidate> := [];
    var j := 0;
    assert open[..j] == [];
    while j < |open|
      invariant 0 <= j <= |open|
      invariant seen == Matching(clientId, open[..j], f)
      invariant sells == sells0 + OfSide(seen, Sell)
      invariant buys == buys0 + OfSide(seen, Buy)
    {
      var pos := open[j];
      MatchingStep(clientId, open, j, f);
      if MatchesFilters(pos, f) {
        var c := Candidate(clientId, pos);
        PushStep(sells0, seen, c, Sell);
        PushStep(buys0, seen, c, Buy);
        if OpenSide(pos) == Sell {
          sells := sells + [c];
        } else {
          buys := buys + [c];
        }
        seen := seen + [c];
      }
      j := j + 1;
    }
    assert open[..j] == open;
  }

  /** The selection stage: open, matching positions of the contributing clients,
      all SELL-side ones first and then all BUY-side ones. */
  method SelectPositions(books: seq<ClientBook>, f: Filters) returns (toClose: seq<Candidate>)
    ensures toClose == SellFirst(Candidates(books, f))
  {
    var sellPositions: seq<Candidate> := [];
    var buyPositions: seq<Candidate> := [];
    var i := 0;
    while i < |books|
      invariant 0 <= i <= |books|
      invariant sellPositions == OfSide(Candidates(books[..i], f), Sell)
      invariant buyPositions == OfSide(Candidates(books[..i], f), Buy)
    {
      var b := books[i];
      CandidatesStep(books, i, f);
      OfSideAppend(Candidates(books[..i], f), CandidatesOf(b, f), Sell);
      OfSideAppend(Candidates(books[..i], f), CandidatesOf(b, f), Buy);
      if Contributes(b) {
        var open := OpenPositions(b.reply.data);
        sellPositions, buyPositions := PushMatching(b.clientId, open, f, sellPositions, buyPositions);
      } else {
        assert CandidatesOf(b, f) == [];
      }
      i := i + 1;
    }
    assert books[..i] == books;
    toClose := sellPositions + buyPositions;
  }

  /** The first reply entry of the given client (`response.data.find(...)`). */
  function FirstFor(entries: seq<ReplyEntry>, id: string): (r: Option<ReplyEntry>)
    ensures r.Some? ==> exists k :: (0 <= k < |entries| && entries[k] == r.value && entries[k].clientId == id &&
      forall j :: 0 <= j < k ==> entries[j].clientId != id)
    ensures r.None? ==> forall k :: 0 <= k < |entries| ==> entries[k].clientId != id
  {
    if entries == [] then None
    else if entries[0].clientId == id then Some(entries[0])
    else
      var r := FirstFor(entries[1..], id);
      assert forall k :: 1 <= k < |entries| ==> entries[k] == entries[1..][k - 1];
      r
  }

  /** The result record of one close: the order it placed and what the reply says. */
  function CloseOne(c: Candidate, call: PlaceCall): (r: ClosedPosition)
    ensures r.clientId == c.clientId && r.symbol == c.position.symbol && r.symbolToken == c.position.symbolToken
    ensures r.orderSide == Opposite(OpenSide(c.position)) && r.quantity == CloseQuantity(c.position)
    ensures r.errorcode.Some?
  {
    var p := c.position;
    match call
    case Answered(entries) =>
      var e := match FirstFor(entries, c.clientId)
        case Some(e) => e
        case None => ReplyEntry(c.clientId, ERROR, "No response for client_id", MO8004);
      ClosedPosition(c.clientId, p.symbol, p.symbolToken, e.status, e.message,
                     CloseSide(p), CloseQuantity(p), Some(Or(e.errorcode, "")))
    case CallFailed(err) =>
      ClosedPosition(c.clientId, p.symbol, p.symbolToken, ERROR, Or(err.responseMessage, err.message),
                     CloseSide(p), CloseQuantity(p), Some(Or(err.responseErrorcode, MO8000)))
  }

  /** All closes, in close-list order (`Promise.all` keeps input order). */
  function CloseAll(toClose: seq<Candidate>, place: Candidate -> PlaceCall): (rs: seq<ClosedPosition>)
    ensures |rs| == |toClose|
    ensures forall i :: 0 <= i < |toClose| ==> rs[i] == CloseOne(toClose[i], place(toClose[i]))
  {
    seq(|toClose|, i requires 0 <= i < |toClose| => CloseOne(toClose[i], place(toClose[i])))
  }

  /** The first lot-size lookup of the close list that throws, if any. */
  function FirstLotFailure(toClose: seq<Candidate>, lot: string -> LotLookup): (m: Option<string>)
    ensures m.None? <==> forall i :: 0 <= i < |toClose| ==> !lot(toClose[i].position.symbolToken).LotFailed?
  {
    if toClose == [] then None
    else match lot(toClose[0].position.symbolToken)
      case LotFailed(msg) => Some(msg)
      case _ =>
        var m := FirstLotFailure(toClose[1..], lot);
        assert forall i :: 1 <= i < |toClose| ==> toClose[i] == toClose[1..][i - 1];
        m
  }

  /** The dispatch and aggregation stages over the close list. */
  function Dispatch(toClose: seq<Candidate>, lot: string -> LotLookup, place: Candidate -> PlaceCall): (resp: HttpReply)
    ensures toClose == [] ==> resp == HttpReply(200, NothingToClose)
    ensures toClose != [] && FirstLotFailure(toClose, lot).Some? ==>
      resp.code == 500 && resp.body.status == ERROR && resp.body.errorcode == Some(MO8000) && resp.body.closedPositions == []
    ensures toClose != [] && FirstLotFailure(toClose, lot).None? ==>
      && resp.code == 200
      && |resp.body.closedPositions| == |toClose|
      && (resp.body.status == SUCCESS <==> exists i :: 0 <= i < |toClose| && resp.body.closedPositions[i].status == SUCCESS)
      && resp.body.message == ClosedMessage(SuccessCount(resp.body.closedPositions), |toClose|)
  {
    if toClose == [] then HttpReply(200, NothingToClose)
    else match FirstLotFailure(toClose, lot)
      case Some(msg) => HttpReply(500, ExitSummary(ERROR, msg, Some(MO8000), []))
      case None => HttpReply(200, Summarize(CloseAll(toClose, place), |toClose|))
  }

  /** The handler. The credential store is read once (`records`); the position books,
      lot-size lookups and place-order replies are given per credential or item. */
  method ExitPosition(
    req: ExitRequest,
    records: seq<Credential>,
    fetch: Credential -> BookReply,
    lot: string -> LotLookup,
    place: Candidate -> PlaceCall)
    returns (resp: HttpReply)
    ensures !NonEmptyList(req.clientIds) ==> resp == HttpReply(400, InvalidIds)
    ensures NonEmptyList(req.clientIds) && Missing(req.clientIds.value, records) != [] ==>
      resp == HttpReply(400, ExitSummary(ERROR, MissingMessage(Missing(req.clientIds.value, records)), Some(MO8003), []))
    ensures NonEmptyList(req.clientIds) && Missing(req.clientIds.value, records) == [] ==>
      resp == Dispatch(SellFirst(Candidates(QueryBooks(Lookup(records, req.clientIds.value), fetch), req.filters)), lot, place)
  {
    if !NonEmptyList(req.clientIds) {
      return HttpReply(400, InvalidIds);
    }
    var ids := req.clientIds.value;
    var credentials := Lookup(records, ids);
    var missing := Missing(ids, credentials);
    MissingAfterLookup(ids, records);
    if |missing| > 0 {
      return HttpReply(400, ExitSummary(ERROR, MissingMessage(missing), Some(MO8003), []));
    }
    var books := QueryBooks(credentials, fetch);
    var toClose := SelectPositions(books, req.filters);
    resp := Dispatch(toClose, lot, place);
  }
}

/** Properties of the non-SDK exit handler's close and aggregation stages. */
module ExitTradeProperties {
  import opened Common
  import opened Positions
  import opened Aggregate
  import opened ExitTrade

  /** An item's status and message come from the first reply entry of its client,
      else the MO8004 default; a missing errorcode becomes "". */
  lemma ItemResultFromFirstEntry(c: Candidate, entries: seq<ReplyEntry>)
    ensures var r := CloseOne(c, Answered(entries));
      (exists k :: (0 <= k < |entries| && entries[k].clientId == c.clientId &&
          (forall j :: 0 <= j < k ==> entries[j].clientId != c.clientId) &&
          r.status == entries[k].status && r.message == entries[k].message &&
          r.errorcode == Some(Or(entries[k].errorcode, "")))) ||
      ((forall k :: 0 <= k < |entries| ==> entries[k].clientId != c.clientId) &&
        r.status == ERROR && r.message == "No response for client_id" && r.errorcode == Some(MO8004))
  {
  }

  /** A thrown place-order call is an ERROR item; its errorcode defaults to MO8000. */
  lemma ItemResultOnThrow(c: Candidate, err: Thrown)
    ensures CloseOne(c, CallFailed(err)).status == ERROR
    ensures CloseOne(c, CallFailed(err)).message == (if err.responseMessage != "" then err.responseMessage else err.message)
    ensures CloseOne(c, CallFailed(err)).errorcode == Some(if err.responseErrorcode != "" then err.responseErrorcode else MO8000)
  {
  }

  /** The close stage over the selection: nothing to do is a SUCCESS with no items;
      a failing lot-size download fails the batch with MO8000; otherwise exactly one
      result per item in close-list order, each closing its position in full, and
      the batch is SUCCESS iff some item is. */
  lemma {:induction false} DispatchOutcome(books: seq<ClientBook>, f: Filters, lot: string -> LotLookup, place: Candidate -> PlaceCall)
    ensures var toClose := SellFirst(Candidates(books, f));
      var resp := Dispatch(toClose, lot, place);
      && (toClose == [] ==> resp == HttpReply(200, NothingToClose))
      && (toClose != [] && FirstLotFailure(toClose, lot).Some? ==>
            resp.code == 500 && resp.body.errorcode == Some(MO8000) && resp.body.closedPositions == [])
      && (toClose != [] && FirstLotFailure(toClose, lot).None? ==>
            var rs := resp.body.closedPositions;
            && resp.code == 200
            && |rs| == |toClose|
            && (forall i :: 0 <= i < |rs| ==>
                  && rs[i].clientId == toClose[i].clientId
                  && rs[i].orderSide == Opposite(OpenSide(toClose[i].position))
                  && rs[i].quantity == CloseQuantity(toClose[i].position)
                  && rs[i].quantity > 0)
            && (resp.body.status == SUCCESS <==> exists i :: 0 <= i < |rs| && rs[i].status == SUCCESS)
            && resp.body.message == ClosedMessage(SuccessCount(rs), |toClose|))
  {
    var cs := Candidates(books, f);
    var toClose := SellFirst(cs);
    SellFirstIsPermutation(cs);
    forall i | 0 <= i < |toClose|
      ensures IsOpen(toClose[i].position)
    {
      assert toClose[i] in multiset(cs);
      CandidatesMembership(books, f, toClose[i]);
    }
  }
}
