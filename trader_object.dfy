/**
 * The plain records of vnpy/trader/object.py that the spread logic uses,
 * and the small pure helpers defined on them: order activity, order
 * creation from a request, cancel requests, and spread position tables.
 */
module TraderObject {
  import opened Wrappers

  /** Order status values of the trader's Status enumeration. */
  datatype Status = Submitting | NotTraded | PartTraded | AllTraded | Cancelled | Rejected

  datatype Direction = Long | Short | Net

  datatype Offset = NoOffset | Open | Close | CloseToday | CloseYesterday

  datatype OrderType = Limit | Market | Stop | Fak | Fok | Rfq

  /**
   * The fields of a tick snapshot that the spread logic reads or writes.
   * Exchanges are carried by their string value; datetimes are opaque stamps.
   */
  datatype Tick = Tick(gatewayName: string, symbol: string, exchange: string, datetime: int,
                       lastPrice: real, bidPrice1: real, askPrice1: real)
  {
    /** The "symbol.exchange" key under which ticks are dispatched. */
    function VtSymbol(): string { symbol + "." + exchange }

    /** Mid price of the top of book. */
    function Mid(): real { 0.5 * (askPrice1 + bidPrice1) }
  }

  /** The statuses under which an order is still working at the venue. */
  const ActiveStatuses: set<Status> := {Submitting, NotTraded, PartTraded}

  datatype CancelRequest = CancelRequest(orderid: string, symbol: string, exchange: string)

  datatype OrderData = OrderData(
    gatewayName: string, symbol: string, exchange: string, orderid: string,
    orderType: OrderType, direction: Option<Direction>, offset: Offset,
    price: real, volume: real, traded: real, status: Status,
    datetime: Option<int>, reference: string)
  {
    function VtSymbol(): string { symbol + "." + exchange }

    function VtOrderId(): string { gatewayName + "." + orderid }

    /** An order is active while it may still trade: submitted, resting, or partly filled. */
    function IsActive(): (active: bool)
      ensures active <==> status == Submitting || status == NotTraded || status == PartTraded
      ensures !active <==> status == AllTraded || status == Cancelled || status == Rejected
    {
      assert status.AllTraded? || status.Cancelled? || status.Rejected? || status in ActiveStatuses;
      status in ActiveStatuses
    }

    /** A cancel request addresses the same order id and instrument as the order. */
    function CreateCancelRequest(): (req: CancelRequest)
      ensures req.orderid == orderid && req.symbol == symbol && req.exchange == exchange
      ensures req.symbol + "." + req.exchange == VtSymbol()
    {
      CancelRequest(orderid, symbol, exchange)
    }
  }

  datatype OrderRequest = OrderRequest(
    symbol: string, exchange: string, direction: Direction, orderType: OrderType,
    volume: real, price: real, offset: Offset, reference: string)
  {
    function VtSymbol(): string { symbol + "." + exchange }

    /**
     * The order record a gateway creates when it accepts this request: the
     * request's terms copied over, nothing traded yet, status SUBMITTING,
     * hence an active order on the same instrument.
     */
    function CreateOrderData(orderid: string, gatewayName: string): (order: OrderData)
      ensures order.orderid == orderid && order.gatewayName == gatewayName
      ensures order.symbol == symbol && order.exchange == exchange
      ensures order.orderType == orderType && order.direction == Some(direction)
      ensures order.offset == offset && order.price == price && order.volume == volume
      ensures order.reference == reference
      ensures order.traded == 0.0 && order.status == Submitting && order.datetime == None
      ensures order.IsActive()
      ensures order.VtSymbol() == VtSymbol()
      ensures order.VtOrderId() == gatewayName + "." + orderid
    {
      OrderData(gatewayName, symbol, exchange, orderid, orderType, Some(direction), offset,
                price, volume, 0.0, Submitting, None, reference)
    }
  }

  /** Index `i` holds the last occurrence of its element in `s`. */
  ghost predicate LastOccurrence<T>(s: seq<T>, i: nat)
    requires i < |s|
  {
    forall j :: i < j < |s| ==> s[j] != s[i]
  }

  /** The dictionary `dict(zip(tickers, positions))`, entries inserted left to right. */
  function ZipPositions<P>(tickers: seq<string>, positions: seq<P>): map<string, Option<P>>
    requires |tickers| == |positions|
    decreases |tickers|
  {
    if |tickers| == 0 then map[]
    else
      var n := |tickers| - 1;
      ZipPositions(tickers[..n], positions[..n])[tickers[n] := Some(positions[n])]
  }

  /**
   * Zipping makes every ticker a key and nothing else, and a repeated ticker
   * keeps the position paired with its last occurrence.
   */
  lemma {:induction false} ZipPositionsSpec<P>(tickers: seq<string>, positions: seq<P>)
    requires |tickers| == |positions|
    ensures forall t :: t in ZipPositions(tickers, positions) <==> t in tickers
    ensures forall i :: 0 <= i < |tickers| && LastOccurrence(tickers, i) ==>
              ZipPositions(tickers, positions)[tickers[i]] == Some(positions[i])
    decreases |tickers|
  {
    if |tickers| > 0 {
      var n := |tickers| - 1;
      var front, back := tickers[..n], positions[..n];
      ZipPositionsSpec(front, back);
      assert tickers == front + [tickers[n]];
      var dict := ZipPositions(tickers, positions);
      forall i | 0 <= i < |tickers| && LastOccurrence(tickers, i)
        ensures dict[tickers[i]] == Some(positions[i])
      {
        if i < n {
          assert tickers[i] != tickers[n];
          assert LastOccurrence(front, i);
        }
      }
    }
  }

  datatype SpreadPositionError = LengthMismatch(tickers: nat, positions: nat)

  /** The per-spread position table: one entry per leg ticker. */
  datatype SpreadPositionData<P> = SpreadPositionData(positionDict: map<string, Option<P>>)

  /**
   * Construction of a spread position table. Without positions every ticker
   * maps to no position; with positions the two lists must have equal length
   * (otherwise the constructor's assertion fails) and ticker i maps to position i.
   */
  function NewSpreadPositionData<P>(tickers: seq<string>, positions: seq<P>)
    : (r: Result<SpreadPositionData<P>, SpreadPositionError>)
    ensures |positions| == 0 ==>
              r.Ok? && (forall t :: t in r.value.positionDict <==> t in tickers) &&
              forall t :: t in r.value.positionDict ==> r.value.positionDict[t] == None
    ensures |positions| != 0 && |tickers| != |positions| ==>
              r == Err(LengthMismatch(|tickers|, |positions|))
    ensures |positions| != 0 && |tickers| == |positions| ==>
              r.Ok? && (forall t :: t in r.value.positionDict <==> t in tickers) &&
              forall i :: 0 <= i < |tickers| && LastOccurrence(tickers, i) ==>
                r.value.positionDict[tickers[i]] == Some(positions[i])
  {
    if |positions| == 0 then
      Ok(SpreadPositionData(map t | t in tickers :: None))
    else if |tickers| != |positions| then
      Err(LengthMismatch(|tickers|, |positions|))
    else
      ZipPositionsSpec(tickers, positions);
      Ok(SpreadPositionData(ZipPositions(tickers, positions)))
  }

  /** With distinct tickers, the table maps ticker i to position i exactly. */
  lemma SpreadPositionDistinct<P>(tickers: seq<string>, positions: seq<P>, i: nat)
    requires |tickers| == |positions| > 0
    requires forall a, b :: 0 <= a < b < |tickers| ==> tickers[a] != tickers[b]
    requires i < |tickers|
    ensures NewSpreadPositionData(tickers, positions).Ok?
    ensures NewSpreadPositionData(tickers, positions).value.positionDict[tickers[i]] == Some(positions[i])
  {
  }
}
