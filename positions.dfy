/** Position books and the selection predicate both exit handlers apply:
    open positions only, filtered by the caller's optional criteria. */
module Positions {
  import opened Common

  datatype Side = Buy | Sell

  function SideName(s: Side): string {
    match s
    case Buy => "BUY"
    case Sell => "SELL"
  }

  function Opposite(s: Side): Side {
    match s
    case Buy => Sell
    case Sell => Buy
  }

  /** One row of a client's position book (quantities as integers). */
  datatype Position = Position(
    symbol: string,
    symbolToken: string,
    exchange: string,
    productType: string,
    productName: string,
    buyQuantity: int,
    sellQuantity: int)

  function NetQuantity(p: Position): int {
    p.buyQuantity - p.sellQuantity
  }

  predicate IsOpen(p: Position) {
    p.buyQuantity != p.sellQuantity
  }

  /** The side a position is open on: BUY when the net quantity is positive, else SELL. */
  function OpenSide(p: Position): Side {
    if NetQuantity(p) > 0 then Buy else Sell
  }

  /** The side of the order that closes a position (`netQty > 0 ? "SELL" : "BUY"`). */
  function CloseSide(p: Position): (s: Side)
    ensures s == Opposite(OpenSide(p))
  {
    if NetQuantity(p) > 0 then Sell else Buy
  }

  /** The size of the closing order, `Math.abs(netQty)`. */
  function CloseQuantity(p: Position): (q: nat)
    ensures IsOpen(p) ==> q > 0
  {
    if NetQuantity(p) < 0 then -NetQuantity(p) else NetQuantity(p)
  }

  /** The position after an order of `q` units on side `s` is filled. */
  function AfterFill(p: Position, s: Side, q: nat): Position {
    match s
    case Buy => p.(buyQuantity := p.buyQuantity + q)
    case Sell => p.(sellQuantity := p.sellQuantity + q)
  }

  /** The closing order flattens the position it was derived from. */
  lemma ClosingOrderFlattens(p: Position)
    ensures NetQuantity(AfterFill(p, CloseSide(p), CloseQuantity(p))) == 0
  {
  }

  /** The optional exit criteria; "" means the caller did not supply one. */
  datatype Filters = Filters(
    symbol: string,
    side: string,
    productType: string,
    exchange: string,
    symbolToken: string)

  const NoFilters := Filters("", "", "", "", "")

  /** Each supplied criterion must match; side and exchange are compared with the
      upper-cased criterion, symbol, token and product type exactly. */
  predicate MatchesFilters(p: Position, f: Filters) {
    && (!Truthy(f.symbol) || p.symbol == f.symbol)
    && (!Truthy(f.symbolToken) || p.symbolToken == f.symbolToken)
    && (!Truthy(f.side) || SideName(OpenSide(p)) == ToUpper(f.side))
    && (!Truthy(f.exchange) || p.exchange == ToUpper(f.exchange))
    && (!Truthy(f.productType) || p.productType == f.productType)
  }

  /** The criteria are independent: a position matches exactly when it matches each
      supplied criterion on its own, so supplying one more criterion only narrows. */
  lemma CriteriaAreConjunctive(p: Position, f: Filters)
    ensures MatchesFilters(p, f) <==>
      && MatchesFilters(p, NoFilters.(symbol := f.symbol))
      && MatchesFilters(p, NoFilters.(symbolToken := f.symbolToken))
      && MatchesFilters(p, NoFilters.(side := f.side))
      && MatchesFilters(p, NoFilters.(exchange := f.exchange))
      && MatchesFilters(p, NoFilters.(productType := f.productType))
    ensures MatchesFilters(p, f) ==> MatchesFilters(p, f.(symbol := "")) && MatchesFilters(p, f.(side := ""))
  {
  }

  predicate Selected(p: Position, f: Filters) {
    IsOpen(p) && MatchesFilters(p, f)
  }

  /** With no criteria supplied, every open position is selected. */
  lemma NoFiltersSelectsEveryOpenPosition(p: Position)
    ensures Selected(p, NoFilters) <==> IsOpen(p)
  {
  }

  lemma UpperSell()
    ensures ToUpper("sell") == "SELL" && ToUpper("SELL") == "SELL"
  {
    var lower, upper := ToUpper("sell"), ToUpper("SELL");
    assert lower[0] == 'S' && lower[1] == 'E' && lower[2] == 'L' && lower[3] == 'L';
    assert upper[0] == 'S' && upper[1] == 'E' && upper[2] == 'L' && upper[3] == 'L';
  }

  lemma UpperBuy()
    ensures ToUpper("buy") == "BUY" && ToUpper("BUY") == "BUY"
  {
    var lower, upper := ToUpper("buy"), ToUpper("BUY");
    assert lower[0] == 'B' && lower[1] == 'U' && lower[2] == 'Y';
    assert upper[0] == 'B' && upper[1] == 'U' && upper[2] == 'Y';
  }

  /** The side criterion ignores letter case: "sell" selects what "SELL" selects. */
  lemma SideFilterIgnoresCase(p: Position, f: Filters)
    ensures MatchesFilters(p, f.(side := "sell")) == MatchesFilters(p, f.(side := "SELL"))
    ensures MatchesFilters(p, f.(side := "buy")) == MatchesFilters(p, f.(side := "BUY"))
  {
    UpperSell();
    UpperBuy();
  }

  /** Contract sizes are positive whole numbers of units. */
  type LotSize = n: int | n >= 1 witness 1

  /** The outcome of looking a symbol token up in the instrument list. */
  datatype LotLookup = LotFound(lotSize: LotSize) | LotNotFound | LotFailed(message: string)

  /** A position chosen for closing, tagged with its owning client. */
  datatype Candidate = Candidate(clientId: string, position: Position)

  /** `positions.filter(pos => pos.buyquantity !== pos.sellquantity)`. */
  function OpenPositions(ps: seq<Position>): (open: seq<Position>)
    ensures |open| <= |ps|
  {
    if ps == [] then []
    else OpenPositions(ps[..|ps| - 1]) + (if IsOpen(ps[|ps| - 1]) then [ps[|ps| - 1]] else [])
  }

  /** The positions of `ps` that pass the criteria, in book order, tagged with `clientId`. */
  function Matching(clientId: string, ps: seq<Position>, f: Filters): (cs: seq<Candidate>)
    ensures |cs| <= |ps|
  {
    if ps == [] then []
    else
      var p := ps[|ps| - 1];
      Matching(clientId, ps[..|ps| - 1], f) + (if MatchesFilters(p, f) then [Candidate(clientId, p)] else [])
  }

  lemma MatchingStep(clientId: string, ps: seq<Position>, j: nat, f: Filters)
    requires j < |ps|
    ensures MatchesFilters(ps[j], f) ==>
      Matching(clientId, ps[..j + 1], f) == Matching(clientId, ps[..j], f) + [Candidate(clientId, ps[j])]
    ensures !MatchesFilters(ps[j], f) ==> Matching(clientId, ps[..j + 1], f) == Matching(clientId, ps[..j], f)
  {
    assert ps[..j + 1][..j] == ps[..j];
  }

  /** One client's contribution: its open positions that pass the criteria, in book order. */
  function KeptOf(clientId: string, ps: seq<Position>, f: Filters): seq<Candidate> {
    Matching(clientId, OpenPositions(ps), f)
  }

  lemma {:induction false} OpenPositionsMembers(ps: seq<Position>)
    ensures forall p :: p in OpenPositions(ps) <==> p in ps && IsOpen(p)
  {
    if ps != [] {
      var n := |ps| - 1;
      OpenPositionsMembers(ps[..n]);
      assert ps == ps[..n] + [ps[n]];
    }
  }

  lemma {:induction false} MatchingMembers(clientId: string, ps: seq<Position>, f: Filters)
    ensures forall c :: c in Matching(clientId, ps, f) <==>
      c.clientId == clientId && c.position in ps && MatchesFilters(c.position, f)
  {
    if ps != [] {
      var n := |ps| - 1;
      MatchingMembers(clientId, ps[..n], f);
      assert ps == ps[..n] + [ps[n]];
    }
  }

  /** A client's kept candidates are exactly its open positions that pass the criteria. */
  lemma KeptOfMembers(clientId: string, ps: seq<Position>, f: Filters)
    ensures forall c :: c in KeptOf(clientId, ps, f) <==>
      c.clientId == clientId && c.position in ps && Selected(c.position, f)
  {
    OpenPositionsMembers(ps);
    MatchingMembers(clientId, OpenPositions(ps), f);
  }

  /** The candidates of side `s`, in their original order. */
  function OfSide(cs: seq<Candidate>, s: Side): (r: seq<Candidate>)
    ensures |r| <= |cs|
  {
    if cs == [] then []
    else
      var c := cs[|cs| - 1];
      OfSide(cs[..|cs| - 1], s) + (if OpenSide(c.position) == s then [c] else [])
  }

  lemma {:induction false} OfSideMembers(cs: seq<Candidate>, s: Side)
    ensures forall c :: c in OfSide(cs, s) <==> c in cs && OpenSide(c.position) == s
  {
    if cs != [] {
      var n := |cs| - 1;
      OfSideMembers(cs[..n], s);
      assert cs == cs[..n] + [cs[n]];
    }
  }

  lemma OfSideSnoc(cs: seq<Candidate>, c: Candidate, s: Side)
    ensures OpenSide(c.position) == s ==> OfSide(cs + [c], s) == OfSide(cs, s) + [c]
    ensures OpenSide(c.position) != s ==> OfSide(cs + [c], s) == OfSide(cs, s)
  {
    assert (cs + [c])[..|cs|] == cs;
  }

  lemma {:induction false} OfSideAppend(a: seq<Candidate>, b: seq<Candidate>, s: Side)
    ensures OfSide(a + b, s) == OfSide(a, s) + OfSide(b, s)
    decreases |b|
  {
    if b == [] {
      assert a + b == a;
    } else {
      var n := |b| - 1;
      assert (a + b)[..|a + b| - 1] == a + b[..n];
      OfSideAppend(a, b[..n], s);
    }
  }

  lemma {:induction false} OfSideIdempotent(cs: seq<Candidate>, s: Side)
    ensures OfSide(OfSide(cs, s), s) == OfSide(cs, s)
  {
    if cs != [] {
      var n := |cs| - 1;
      OfSideIdempotent(cs[..n], s);
      var c := cs[n];
      OfSideAppend(OfSide(cs[..n], s), if OpenSide(c.position) == s then [c] else [], s);
    }
  }

  lemma {:induction false} OfSideOther(cs: seq<Candidate>, s: Side)
    ensures OfSide(OfSide(cs, s), Opposite(s)) == []
  {
    if cs != [] {
      var n := |cs| - 1;
      OfSideOther(cs[..n], s);
      var c := cs[n];
      OfSideAppend(OfSide(cs[..n], s), if OpenSide(c.position) == s then [c] else [], Opposite(s));
    }
  }

  lemma {:induction false} OfSidePartition(cs: seq<Candidate>)
    ensures multiset(OfSide(cs, Sell)) + multiset(OfSide(cs, Buy)) == multiset(cs)
  {
    if cs != [] {
      var n := |cs| - 1;
      OfSidePartition(cs[..n]);
      assert cs == cs[..n] + [cs[n]];
    }
  }

  /** The exit order of the non-SDK handler: every SELL-side candidate, then every BUY-side one. */
  function SellFirst(cs: seq<Candidate>): seq<Candidate> {
    OfSide(cs, Sell) + OfSide(cs, Buy)
  }

  /** Every candidate appears in the sell-first list exactly as often as in the input. */
  lemma SellFirstIsPermutation(cs: seq<Candidate>)
    ensures multiset(SellFirst(cs)) == multiset(cs)
    ensures |SellFirst(cs)| == |cs|
  {
    OfSidePartition(cs);
    assert |multiset(SellFirst(cs))| == |multiset(cs)|;
  }

  /** No BUY-side candidate comes before a SELL-side one. */
  lemma SellFirstSellsBeforeBuys(cs: seq<Candidate>)
    ensures forall i, j :: 0 <= i < j < |SellFirst(cs)| && OpenSide(SellFirst(cs)[i].position) == Buy ==>
      OpenSide(SellFirst(cs)[j].position) == Buy
  {
    var sells, buys := OfSide(cs, Sell), OfSide(cs, Buy);
    var r := SellFirst(cs);
    OfSideMembers(cs, Sell);
    OfSideMembers(cs, Buy);
    forall i | 0 <= i < |sells|
      ensures OpenSide(r[i].position) == Sell
    {
      assert r[i] in sells;
    }
    forall j | |sells| <= j < |r|
      ensures OpenSide(r[j].position) == Buy
    {
      assert r[j] in buys;
    }
  }

  /** Within each side the sell-first list keeps the input's enumeration order. */
  lemma SellFirstKeepsOrderWithinSide(cs: seq<Candidate>)
    ensures OfSide(SellFirst(cs), Sell) == OfSide(cs, Sell)
    ensures OfSide(SellFirst(cs), Buy) == OfSide(cs, Buy)
  {
    var sells, buys := OfSide(cs, Sell), OfSide(cs, Buy);
    OfSideAppend(sells, buys, Sell);
    OfSideAppend(sells, buys, Buy);
    OfSideIdempotent(cs, Sell);
    OfSideIdempotent(cs, Buy);
    OfSideOther(cs, Sell);
    OfSideOther(cs, Buy);
  }
}
