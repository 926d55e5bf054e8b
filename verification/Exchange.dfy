/** What a request to the matching engine must do, on the simple book (src/exchange/clob.cpp):
    the events it publishes, and what every run of requests keeps. */
module ExchangeModel {
  import opened Machine
  import opened Orders
  import opened PriceTimePriority
  import opened BookEffects
  import opened Matching
  import opened LadderOrder

  datatype RequestKind = BuyRequest | SellRequest | CancelRequest | UpdateRequest

  datatype OrderRequest = OrderRequest(id: OrderId, price: Price, quantity: Quantity, kind: RequestKind)

  function AddEvent(id: OrderId, price: Price, quantity: Quantity, side: Side): MarketEvent {
    MarketEvent(Order(id, price, quantity, side), EventKind.Add)
  }

  /** A published cancellation names the order and leaves its other fields zero. */
  function CancelEvent(id: OrderId): MarketEvent {
    MarketEvent(Order(id, 0, 0, Buy), EventKind.Cancel)
  }

  /** A published update names the order and its new quantity. */
  function UpdateEvent(id: OrderId, quantity: Quantity): MarketEvent {
    MarketEvent(Order(id, 0, quantity, Buy), EventKind.Update)
  }

  /** The matcher's answer to a new order. */
  function Answer(b: Book, side: Side, price: Price, quantity: Quantity): Fill {
    Match(side, price, quantity, Ladder(Opposite(side), b.On(Opposite(side))))
  }

  /** Trades, best price first and FIFO within a price, then what is left over rests. */
  function NewOrderEvents(b: Book, side: Side, price: Price, quantity: Quantity, nextId: OrderId): seq<MarketEvent> {
    var f := Answer(b, side, price, quantity);
    TradeEvents(Opposite(side), f.trades)
      + (if f.residual > 0 then [AddEvent(nextId, price, f.residual, side)] else [])
  }

  ghost function SubmitEvents(b: Book, r: OrderRequest, nextId: OrderId): seq<MarketEvent> {
    match r.kind
    case BuyRequest => NewOrderEvents(b, Buy, r.price, r.quantity, nextId)
    case SellRequest => NewOrderEvents(b, Sell, r.price, r.quantity, nextId)
    case CancelRequest => if Resting(b, r.id) then [CancelEvent(r.id)] else []
    case UpdateRequest => if Resting(b, r.id) then [UpdateEvent(r.id, r.quantity)] else []
  }

  // ---- What a request publishes, in plain terms ----

  /** Event `e` is one that request `r` may publish: a trade with an order of the other side at a price
      within the request's, the addition of the request's own order, or what a cancellation or an update
      asks for. */
  ghost predicate Serves(r: OrderRequest, e: MarketEvent) {
    match e.kind
    case Trade =>
      && ((r.kind == BuyRequest && e.order.side == Sell && e.order.price <= r.price)
          || (r.kind == SellRequest && e.order.side == Buy && r.price <= e.order.price))
      && 0 < e.order.quantity <= r.quantity
    case Add =>
      && ((r.kind == BuyRequest && e.order.side == Buy) || (r.kind == SellRequest && e.order.side == Sell))
      && e.order.price == r.price && 0 < e.order.quantity <= r.quantity
    case Cancel => r.kind == CancelRequest && e.order == Order(r.id, 0, 0, Buy)
    case Update => r.kind == UpdateRequest && e.order == Order(r.id, 0, r.quantity, Buy)
  }

  lemma {:induction false} PartOfSum(quotes: seq<Quote>, k: nat)
    requires k < |quotes|
    ensures quotes[k].quantity <= Sum(quotes)
    decreases |quotes|
  {
    if k > 0 {
      PartOfSum(quotes[1..], k - 1);
    }
  }

  /** Down the ladder from a price beyond the limit every price is. */
  lemma RestBeyond(b: Book, opp: Side, price: Price, n: nat)
    requires
      var ladder := Ladder(opp, b.On(opp));
      n < |ladder| ==> !WithinLimit(Opposite(opp), price, ladder[n].price)
    ensures
      var ladder := Ladder(opp, b.On(opp));
      forall k :: n <= k < |ladder| ==> !WithinLimit(Opposite(opp), price, ladder[k].price)
  {
    hide Ladder;
    var ladder := Ladder(opp, b.On(opp));
    forall k | n <= k < |ladder| ensures !WithinLimit(Opposite(opp), price, ladder[k].price) {
      LadderDescends(opp, b.On(opp), n, k);
    }
  }

  lemma EventsAre(b: Book, side: Side, price: Price, quantity: Quantity, nextId: OrderId)
    ensures
      var es, f := NewOrderEvents(b, side, price, quantity, nextId), Answer(b, side, price, quantity);
      && |es| == |f.trades| + (if f.residual > 0 then 1 else 0)
      && (forall k :: 0 <= k < |f.trades| ==> es[k] == TradeEvent(Opposite(side), f.trades[k]))
      && (f.residual > 0 ==> es[|f.trades|] == AddEvent(nextId, price, f.residual, side))
  {
    hide Answer;
  }

  /** What of an answer the events tell. */
  lemma TradesAre(side: Side, limit: Price, quantity: Quantity, ladder: seq<Quote>, f: Fill)
    requires IsAnswer(side, limit, quantity, ladder, f)
    ensures |f.trades| <= |ladder| && Sum(f.trades) + f.residual == quantity
    ensures forall k :: 0 <= k < |f.trades| ==>
      && f.trades[k] == ladder[k].(quantity := f.trades[k].quantity)
      && WithinLimit(side, limit, ladder[k].price) && 0 < f.trades[k].quantity <= quantity
    ensures f.residual > 0 ==>
      && f.rest == ladder[|f.trades|..]
      && (|f.trades| < |ladder| ==> !WithinLimit(side, limit, ladder[|f.trades|].price))
  {
    hide WithinLimit;
    forall k | 0 <= k < |f.trades| ensures f.trades[k].quantity <= quantity {
      PartOfSum(f.trades, k);
    }
  }

  /** What a new order publishes: trades with the first orders of the opposing ladder, within the limit;
      and then, if something is left over, its own addition, when every opposing order left is strictly
      worse than the limit. */
  lemma NewOrderPublishes(b: Book, side: Side, price: Price, quantity: Quantity, nextId: OrderId)
    requires BookOk(b)
    ensures
      var es, f := NewOrderEvents(b, side, price, quantity, nextId), Answer(b, side, price, quantity);
      var ladder, n := Ladder(Opposite(side), b.On(Opposite(side))), |f.trades|;
      && n <= |ladder| && |es| == n + (if f.residual > 0 then 1 else 0)
      && (forall k :: 0 <= k < n ==>
          && es[k].kind == EventKind.Trade
          && es[k].order == Order(ladder[k].id, ladder[k].price, f.trades[k].quantity, Opposite(side))
          && WithinLimit(side, price, ladder[k].price) && 0 < f.trades[k].quantity <= quantity)
      && Sum(f.trades) + f.residual == quantity
      && (f.residual > 0 ==>
          && es[n] == MarketEvent(Order(nextId, price, f.residual, side), EventKind.Add)
          && f.rest == ladder[n..]
          && forall k :: n <= k < |ladder| ==> !WithinLimit(side, price, ladder[k].price))
  {
    var opp, f := Opposite(side), Answer(b, side, price, quantity);
    var ladder, n := Ladder(opp, b.On(opp)), |f.trades|;
    LadderPositive(b, opp);
    EventsAre(b, side, price, quantity, nextId);
    assert f == Match(side, price, quantity, ladder);
    hide Match, Ladder, BookOk, Answer, NewOrderEvents, WithinLimit, IsAnswer;
    MatchExactly(side, price, quantity, ladder, f);
    TradesAre(side, price, quantity, ladder, f);
    if f.residual > 0 {
      RestBeyond(b, opp, price, n);
    }
  }

  /** Every event a request publishes serves it. */
  lemma SubmitServes(b: Book, r: OrderRequest, nextId: OrderId)
    requires BookOk(b)
    ensures forall k :: 0 <= k < |SubmitEvents(b, r, nextId)| ==> Serves(r, SubmitEvents(b, r, nextId)[k])
  {
    hide NewOrderEvents, Ladder, Answer, BookOk, Resting;
    match r.kind
    case BuyRequest => NewOrderPublishes(b, Buy, r.price, r.quantity, nextId);
    case SellRequest => NewOrderPublishes(b, Sell, r.price, r.quantity, nextId);
    case _ =>
  }

  // ---- One request ----

  /** A new order must not be priced at the sentinel of its own side. */
  predicate PriceOk(side: Side, price: Price) {
    price != (if side == Buy then NO_BID else NO_OFFER)
  }

  predicate RequestOk(r: OrderRequest) {
    && (r.kind == BuyRequest ==> PriceOk(Buy, r.price))
    && (r.kind == SellRequest ==> PriceOk(Sell, r.price))
  }

  /** A book between requests: well formed, uncrossed, no order priced at the sentinel of its side,
      and every id issued before `nextId`. */
  ghost predicate Sound(b: Book, nextId: OrderId) {
    && BookOk(b) && Uncrossed(b) && nextId > INVALID_ORDER_ID
    && NO_BID !in b.bids && NO_OFFER !in b.offers
    && forall id :: id in RestingIds(b) ==> INVALID_ORDER_ID < id < nextId
  }

  lemma FewerStaysSound(b: Book, b': Book, nextId: OrderId)
    requires Sound(b, nextId) && BookOk(b')
    requires b'.bids.Keys <= b.bids.Keys && b'.offers.Keys <= b.offers.Keys && RestingIds(b') <= RestingIds(b)
    ensures Sound(b', nextId)
  {
  }

  /** What rests is worse than an order's limit once the matcher is done with it. */
  lemma {:induction false} WorseThanTop(opp: Side, m: Queues, side: Side, limit: Price, p: Price)
    requires opp == Opposite(side) && p in m
    requires forall q :: q in m ==> m[q] != []
    requires !WithinLimit(side, limit, Ladder(opp, m)[0].price)
    ensures if side == Buy then p > limit else p < limit
  {
    LadderHead(opp, m);
    assert p == Best(opp, m.Keys) || Better(opp, Best(opp, m.Keys), p);
  }

  /** After the matcher, the leftover of a new order can be added and does not cross. */
  lemma LeftoverFits(b: Book, b': Book, side: Side, price: Price, quantity: Quantity, nextId: OrderId)
    requires Sound(b, nextId) && PriceOk(side, price)
    requires Traded(b, b', Opposite(side), Answer(b, side, price, quantity).rest)
    requires Answer(b, side, price, quantity).residual > 0
    ensures
      var o := Order(nextId, price, Answer(b, side, price, quantity).residual, side);
      Sound(b', nextId) && Addable(b', o) && Uncrossed(AddOrder(b', o))
  {
    var opp := Opposite(side);
    var f := Answer(b, side, price, quantity);
    var o := Order(nextId, price, f.residual, side);
    LadderPositive(b, opp);
    MatchTakesFromTheTop(side, price, quantity, Ladder(opp, b.On(opp)));
    var m := b'.On(opp);
    forall p | p in m ensures if side == Buy then p > price else p < price {
      forall q | q in m ensures m[q] != [] {
        assert QueueOk(b'.On(opp)[q]);
      }
      assert m != map[];
      LadderHead(opp, m);
      WorseThanTop(opp, m, side, price, p);
    }
    RestingIsMember(b', nextId);
    assert b.bids == b.On(Buy) && b.offers == b.On(Sell) && b'.bids == b'.On(Buy) && b'.offers == b'.On(Sell);
    FewerStaysSound(b, b', nextId);
  }

  lemma AddStaysSound(b: Book, o: Order)
    requires Sound(b, o.id) && Addable(b, o) && Uncrossed(AddOrder(b, o)) && o.id + 1 < TWO_TO_THE_64
    requires PriceOk(o.side, o.price)
    ensures Sound(AddOrder(b, o), o.id + 1)
  {
    AddKeepsOk(b, o);
    AddGrows(b, o);
  }
}
