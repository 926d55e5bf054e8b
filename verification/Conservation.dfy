/** Conservation over runs: what clients were accepted for rests, was cancelled, or was traded. */
module Conservation {
  import opened Machine
  import opened Orders
  import opened PriceTimePriority
  import opened QueueLemmas
  import opened BookReading
  import opened BookEffects
  import opened Matching
  import opened ExchangeModel
  import opened ExchangeRuns

  /** Quantity resting on one side. */
  function Depth(side: Side, m: Queues): nat {
    Sum(Ladder(side, m))
  }

  ghost function RestingQuantity(b: Book): nat {
    Depth(Buy, b.bids) + Depth(Sell, b.offers)
  }

  lemma {:induction false} SumOfQuotes(p: Price, q: Queue)
    ensures Sum(Quotes(p, q)) == Total(q)
  {
    if q == [] {
    } else {
      SumOfQuotes(p, q[1..]);
      assert Quotes(p, q)[1..] == Quotes(p, q[1..]);
    }
  }

  /** Any level can be counted first. */
  lemma {:induction false} DepthSplit(side: Side, m: Queues, p: Price)
    requires p in m
    ensures Depth(side, m) == Total(m[p]) + Depth(side, m - {p})
    decreases |m.Keys|
  {
    var best := Best(side, m.Keys);
    var rest := m - {best};
    assert rest.Keys == m.Keys - {best};
    LadderUnfold(side, m, best);
    SumAppend(Quotes(best, m[best]), Ladder(side, rest));
    SumOfQuotes(best, m[best]);
    if p != best {
      DepthSplit(side, rest, p);
      var other := m - {p};
      assert other.Keys == m.Keys - {p};
      BestUnlessRemoved(side, m.Keys, p);
      LadderUnfold(side, other, best);
      assert other - {best} == rest - {p};
      SumAppend(Quotes(best, m[best]), Ladder(side, other - {best}));
    }
  }

  lemma BestUnlessRemoved(side: Side, prices: set<Price>, p: Price)
    requires prices != {} && p != Best(side, prices)
    ensures prices - {p} != {} && Best(side, prices - {p}) == Best(side, prices)
  {
    var best := Best(side, prices);
    assert best in prices - {p};
    assert IsBest(side, best, prices - {p});
  }

  lemma DepthReplaced(side: Side, m: Queues, p: Price, q: Queue)
    ensures Depth(side, m[p := q]) == Depth(side, m) - (if p in m then Total(m[p]) else 0) + Total(q)
  {
    var m' := m[p := q];
    DepthSplit(side, m', p);
    if p in m {
      DepthSplit(side, m, p);
    }
    assert m' - {p} == m - {p};
    if p !in m {
      assert m - {p} == m;
    }
  }

  /** Amending one order changes the depth of its side by the difference. */
  lemma DepthAmended(side: Side, m: Queues, p: Price, k: nat, n: Quantity)
    requires p in m && k < |m[p]| && DistinctIds(m[p])
    requires forall p', i :: p' in m && p' != p && 0 <= i < |m[p']| ==> m[p'][i].id != m[p][k].id
    requires forall p' :: p' in m ==> m[p'] != []
    ensures Depth(side, AmendedAll(m, m[p][k].id, n)) == Depth(side, m) - m[p][k].quantity + n
  {
    var id := m[p][k].id;
    var q := Amended(m[p], id, n);
    var m' := AmendedAll(m, id, n);
    AmendAt(m[p], k, n);
    forall p' | p' in m && p' != p ensures Amended(m[p'], id, n) == m[p'] {
      AmendAbsent(m[p'], id, n);
    }
    TotalRemoved(m[p], k);
    TotalReplaced(m[p], k, Entry(id, n));
    if q == [] {
      assert m' == m - {p};
      DepthSplit(side, m, p);
    } else {
      assert m' == m[p := q];
      DepthReplaced(side, m, p, q);
    }
  }

  /** The quantity an order rests with, zero when it does not rest. */
  ghost function QuantityOf(b: Book, id: OrderId): Quantity {
    if Resting(b, id) then
      var side, p, x: Quantity :| Holds(b, side, p, id, x);
      x
    else 0
  }

  lemma QuantityUnique(b: Book, side: Side, p: Price, id: OrderId, x: Quantity)
    requires BookOk(b) && Holds(b, side, p, id, x)
    ensures QuantityOf(b, id) == x
  {
    assert Resting(b, id);
  }

  // ---- What one event moves ----

  lemma SideUntouched(m: Queues, id: OrderId, n: Quantity)
    requires forall p, i :: p in m && 0 <= i < |m[p]| ==> m[p][i].id != id
    requires forall p :: p in m ==> m[p] != []
    ensures AmendedAll(m, id, n) == m
  {
    forall p | p in m ensures Amended(m[p], id, n) == m[p] {
      AmendAbsent(m[p], id, n);
    }
  }

  lemma AmendMoves(b: Book, id: OrderId, n: Quantity)
    requires BookOk(b) && Resting(b, id)
    ensures RestingQuantity(AmendOrder(b, id, n)) == RestingQuantity(b) - QuantityOf(b, id) + n
    ensures Depth(Buy, b.bids) >= QuantityOf(b, id) || Depth(Sell, b.offers) >= QuantityOf(b, id)
  {
    var side, p, x :| Holds(b, side, p, id, x);
    QuantityUnique(b, side, p, id, x);
    var m: Queues := b.On(side);
    var k :| 0 <= k < |m[p]| && m[p][k] == Entry(id, x);
    OnlyThere(b, side, p, Entry(id, x));
    forall s, q | q in b.On(s) ensures b.On(s)[q] != [] && DistinctIds(b.On(s)[q]) {
      assert QueueOk(b.On(s)[q]);
    }
    DepthAmended(side, m, p, k, n);
    SideUntouched(b.On(Opposite(side)), id, n);
    DepthSplit(side, m, p);
    TotalSplit(m[p], k);
  }

  lemma AddMoves(b: Book, o: Order)
    ensures RestingQuantity(AddOrder(b, o)) == RestingQuantity(b) + o.quantity
  {
    var m: Queues := b.On(o.side);
    var q := if o.price in m then m[o.price] else [];
    var e := Entry(o.id, o.quantity);
    TotalAppend(q, [e]);
    assert Total([e]) == o.quantity;
    DepthReplaced(o.side, m, o.price, q + [e]);
  }

  function Added(events: seq<MarketEvent>): nat {
    if events == [] then 0
    else (if events[0].kind == EventKind.Add then events[0].order.quantity else 0) + Added(events[1..])
  }

  function TradedQuantity(events: seq<MarketEvent>): nat {
    if events == [] then 0
    else (if events[0].kind == EventKind.Trade then events[0].order.quantity else 0) + TradedQuantity(events[1..])
  }

  /** Quantity taken off the book by cancellations while `events` are replayed from `b`. */
  ghost function Cancelled(b: Book, events: seq<MarketEvent>): nat
    decreases |events|
  {
    if events == [] then 0
    else
      var here := if events[0].kind == EventKind.Cancel then QuantityOf(b, events[0].order.id) else 0;
      here + Cancelled(Apply(b, events[0]), events[1..])
  }

  /** What updates add to the book less what they take off it while `events` are replayed from `b`. */
  ghost function Revised(b: Book, events: seq<MarketEvent>): int
    decreases |events|
  {
    if events == [] then 0
    else
      var o := events[0].order;
      var here := if events[0].kind == EventKind.Update then o.quantity - QuantityOf(b, o.id) else 0;
      here + Revised(Apply(b, events[0]), events[1..])
  }

  lemma TradeMoves(b: Book, id: OrderId, t: Quantity)
    requires BookOk(b) && Tradable(b, id, t)
    ensures RestingQuantity(TradeOrder(b, id, t)) == RestingQuantity(b) - t
  {
    hide BookOk, RestingQuantity, QuantityOf, TradeOrder, AmendOrder, Resting, Tradable;
    var x := TradedFrom(b, id, t);
    AmendMoves(b, id, x - t);
  }

  lemma TradedFrom(b: Book, id: OrderId, t: Quantity) returns (x: Quantity)
    requires BookOk(b) && Tradable(b, id, t)
    ensures Resting(b, id) && QuantityOf(b, id) == x && t <= x && TradeOrder(b, id, t) == AmendOrder(b, id, x - t)
  {
    hide BookOk, TradeOrder, AmendOrder, QuantityOf;
    var side, p, y: Quantity :| Holds(b, side, p, id, y) && t <= y;
    x := y;
    QuantityUnique(b, side, p, id, x);
    TradeIsAmend(b, side, p, id, x, t);
  }

  /** One event: the book gains what is added, loses what is traded or cancelled, and changes by what
      an update revises. */
  lemma EventMoves(b: Book, e: MarketEvent)
    requires BookOk(b) && Executable(b, e)
    ensures
      RestingQuantity(Apply(b, e)) + TradedQuantity([e]) + Cancelled(b, [e])
        == RestingQuantity(b) + Added([e]) + Revised(b, [e])
  {
    assert [e][1..] == [];
    match e.kind
    case Add => AddMoves(b, e.order);
    case Cancel => AmendMoves(b, e.order.id, 0);
    case Trade => TradeMoves(b, e.order.id, e.order.quantity);
    case Update => AmendMoves(b, e.order.id, e.order.quantity);
  }

  /** Over a whole log. */
  lemma {:induction false} LogBalances(b: Book, events: seq<MarketEvent>)
    requires BookOk(b) && OrderlyLog(b, events)
    ensures
      RestingQuantity(Replay(b, events)) + TradedQuantity(events) + Cancelled(b, events)
        == RestingQuantity(b) + Added(events) + Revised(b, events)
    decreases |events|
  {
    if events != [] {
      var e := events[0];
      ApplyKeepsOk(b, e);
      EventMoves(b, e);
      assert [e][1..] == [];
      LogBalances(Apply(b, e), events[1..]);
    }
  }

  // ---- What one request moves ----

  lemma {:induction false} FlowAppend(a: seq<MarketEvent>, c: seq<MarketEvent>)
    ensures Added(a + c) == Added(a) + Added(c) && TradedQuantity(a + c) == TradedQuantity(a) + TradedQuantity(c)
  {
    if a == [] {
      assert a + c == c;
    } else {
      FlowAppend(a[1..], c);
      assert (a + c)[1..] == a[1..] + c;
    }
  }

  lemma {:induction false} TradesFlow(side: Side, trades: seq<Quote>)
    ensures Added(TradeEvents(side, trades)) == 0 && TradedQuantity(TradeEvents(side, trades)) == Sum(trades)
  {
    if trades != [] {
      TradesFlow(side, trades[1..]);
      assert TradeEvents(side, trades)[1..] == TradeEvents(side, trades[1..]);
    }
  }

  /** A request's quantity is the sum of its trades and of its addition. */
  lemma OrderFlow(b: Book, side: Side, price: Price, quantity: Quantity, nextId: OrderId)
    ensures
      var es := NewOrderEvents(b, side, price, quantity, nextId);
      Added(es) + TradedQuantity(es) == quantity
  {
    var f := Answer(b, side, price, quantity);
    var trades := TradeEvents(Opposite(side), f.trades);
    var rest := if f.residual > 0 then [AddEvent(nextId, price, f.residual, side)] else [];
    MatchConserves(side, price, quantity, Ladder(Opposite(side), b.On(Opposite(side))));
    TradesFlow(Opposite(side), f.trades);
    FlowAppend(trades, rest);
    assert Added(rest) == f.residual && TradedQuantity(rest) == 0;
  }

  function AcceptedBy(r: OrderRequest): nat {
    if r.kind == BuyRequest || r.kind == SellRequest then r.quantity else 0
  }

  function Accepted(rs: seq<OrderRequest>): nat {
    if rs == [] then 0 else AcceptedBy(rs[0]) + Accepted(rs[1..])
  }

  lemma SubmitFlow(b: Book, r: OrderRequest, nextId: OrderId)
    ensures
      var es := SubmitEvents(b, r, nextId);
      Added(es) + TradedQuantity(es) == AcceptedBy(r)
  {
    match r.kind
    case BuyRequest => OrderFlow(b, Buy, r.price, r.quantity, nextId);
    case SellRequest => OrderFlow(b, Sell, r.price, r.quantity, nextId);
    case CancelRequest => assert [CancelEvent(r.id)][1..] == [];
    case UpdateRequest => assert [UpdateEvent(r.id, r.quantity)][1..] == [];
  }

  lemma {:induction false} RunFlow(x: Exchange, rs: seq<OrderRequest>)
    requires RequestsOk(rs) && x.nextId + |rs| < TWO_TO_THE_64
    ensures
      var log := Run(x, rs).log;
      Added(log) + TradedQuantity(log) == Added(x.log) + TradedQuantity(x.log) + Accepted(rs)
    decreases |rs|
  {
    if rs != [] {
      SubmitFlow(x.book, rs[0], x.nextId);
      FlowAppend(x.log, SubmitEvents(x.book, rs[0], x.nextId));
      RunFlow(Submitted(x, rs[0]), rs[1..]);
    }
  }

  /** In every run: accepted + revised by updates = resting + cancelled + twice traded. */
  lemma Conserved(rs: seq<OrderRequest>)
    requires RequestsOk(rs) && 1 + |rs| < TWO_TO_THE_64
    ensures
      var x := Run(OPENING, rs);
      Accepted(rs) + Revised(EMPTY_BOOK, x.log)
        == RestingQuantity(x.book) + Cancelled(EMPTY_BOOK, x.log) + 2 * TradedQuantity(x.log)
  {
    var x := Run(OPENING, rs);
    OpeningOk();
    RunKeepsOk(OPENING, rs);
    SoundAtEveryEvent(EMPTY_BOOK, x.log, x.nextId, |x.log|);
    assert x.log[..|x.log|] == x.log;
    RunFlow(OPENING, rs);
    LogBalances(EMPTY_BOOK, x.log);
    assert RestingQuantity(EMPTY_BOOK) == 0;
  }
}
