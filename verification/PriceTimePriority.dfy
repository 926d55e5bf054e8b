/** The simple book the matching engine must agree with: for each side a map from price to a
    FIFO queue, and a price-time matcher that walks the opposing side as one flat list. */
module PriceTimePriority {
  import opened Orders

  datatype Entry = Entry(id: OrderId, quantity: Quantity)

  type Queue = seq<Entry>
  type Queues = map<Price, Queue>

  datatype Book = Book(bids: Queues, offers: Queues) {
    function On(side: Side): Queues {
      if side == Buy then bids else offers
    }

    function With(side: Side, queues: Queues): Book {
      if side == Buy then this.(bids := queues) else this.(offers := queues)
    }
  }

  const EMPTY_BOOK := Book(map[], map[])

  // ---- Queue operations ----

  function Total(q: Queue): nat {
    if q == [] then 0 else q[0].quantity + Total(q[1..])
  }

  /** The queue in which order `id` holds `quantity`, and has left when that is zero. */
  function Amended(q: Queue, id: OrderId, quantity: Quantity): Queue {
    if q == [] then []
    else if q[0].id != id then [q[0]] + Amended(q[1..], id, quantity)
    else (if quantity == 0 then [] else [Entry(id, quantity)]) + Amended(q[1..], id, quantity)
  }

  /** The queue in which order `id` holds `quantity` less, and has left when nothing remains. */
  function Reduced(q: Queue, id: OrderId, quantity: Quantity): Queue {
    if q == [] then []
    else if q[0].id != id then [q[0]] + Reduced(q[1..], id, quantity)
    else
      var left := if q[0].quantity <= quantity then [] else [Entry(id, q[0].quantity - quantity)];
      left + Reduced(q[1..], id, quantity)
  }

  // ---- Book operations ----

  function Enqueued(m: Queues, price: Price, e: Entry): Queues {
    m[price := (if price in m then m[price] else []) + [e]]
  }

  // A queue is named for every price, also outside the maps: equal maps then come from equal expressions.

  function AmendedAll(m: Queues, id: OrderId, quantity: Quantity): Queues {
    map p | p in m && Amended(m[p], id, quantity) != [] :: if p in m then Amended(m[p], id, quantity) else []
  }

  function ReducedAll(m: Queues, id: OrderId, quantity: Quantity): Queues {
    map p | p in m && Reduced(m[p], id, quantity) != [] :: if p in m then Reduced(m[p], id, quantity) else []
  }

  function AddOrder(b: Book, o: Order): Book {
    b.With(o.side, Enqueued(b.On(o.side), o.price, Entry(o.id, o.quantity)))
  }

  function AmendOrder(b: Book, id: OrderId, quantity: Quantity): Book {
    Book(AmendedAll(b.bids, id, quantity), AmendedAll(b.offers, id, quantity))
  }

  function CancelOrder(b: Book, id: OrderId): Book {
    AmendOrder(b, id, 0)
  }

  function TradeOrder(b: Book, id: OrderId, quantity: Quantity): Book {
    Book(ReducedAll(b.bids, id, quantity), ReducedAll(b.offers, id, quantity))
  }

  /** What one published market event does to a book. */
  function Apply(b: Book, e: MarketEvent): Book {
    match e.kind
    case Add => AddOrder(b, e.order)
    case Cancel => CancelOrder(b, e.order.id)
    case Trade => TradeOrder(b, e.order.id, e.order.quantity)
    case Update => AmendOrder(b, e.order.id, e.order.quantity)
  }

  function Replay(b: Book, events: seq<MarketEvent>): Book
    decreases |events|
  {
    if events == [] then b else Replay(Apply(b, events[0]), events[1..])
  }

  // ---- Well-formed books ----

  ghost predicate Holds(b: Book, side: Side, price: Price, id: OrderId, quantity: Quantity) {
    price in b.On(side) && Entry(id, quantity) in b.On(side)[price]
  }

  ghost predicate Resting(b: Book, id: OrderId) {
    exists side, price, quantity :: Holds(b, side, price, id, quantity)
  }

  /** The ids resting on one side. */
  ghost function SideIds(m: Queues): set<OrderId> {
    set p, e | p in m && e in m[p] :: e.id
  }

  ghost function RestingIds(b: Book): set<OrderId> {
    SideIds(b.bids) + SideIds(b.offers)
  }

  /** Order `id` rests with at least `quantity`. */
  ghost predicate Tradable(b: Book, id: OrderId, quantity: Quantity) {
    exists side, price, x :: Holds(b, side, price, id, x) && quantity <= x
  }

  ghost predicate DistinctIds(q: Queue) {
    forall i, j :: 0 <= i < j < |q| ==> q[i].id != q[j].id
  }

  ghost predicate QueueOk(q: Queue) {
    q != [] && DistinctIds(q) && forall i :: 0 <= i < |q| ==> q[i].quantity > 0
  }

  /** Queues are never empty, every resting quantity is positive, and an id rests in one place. */
  ghost predicate BookOk(b: Book) {
    && (forall side, p {:trigger QueueOk(b.On(side)[p])} :: p in b.On(side) ==> QueueOk(b.On(side)[p]))
    && (forall s, p, id, q, s', p', q' :: Holds(b, s, p, id, q) && Holds(b, s', p', id, q') ==> s == s' && p == p' && q == q')
  }

  ghost predicate Uncrossed(b: Book) {
    forall p, q :: p in b.bids && q in b.offers ==> p < q
  }

  /** What the book owes an event before executing it. */
  ghost predicate Executable(b: Book, e: MarketEvent) {
    match e.kind
    case Add => Addable(b, e.order)
    case Cancel => Resting(b, e.order.id)
    case Trade => Tradable(b, e.order.id, e.order.quantity)
    case Update => Resting(b, e.order.id)
  }

  /** Order `o` takes from the first order queued at the best price of its side, at that price, and
      no more than that order holds. */
  ghost predicate AtTop(b: Book, o: Order) {
    var m := b.On(o.side);
    && o.price in m && o.price == Best(o.side, m.Keys)
    && m[o.price] != [] && m[o.price][0].id == o.id && 0 < o.quantity <= m[o.price][0].quantity
  }

  /** An event that is executable and, if it is a trade, keeps price-time priority. */
  ghost predicate Orderly(b: Book, e: MarketEvent) {
    Executable(b, e) && (e.kind == EventKind.Trade ==> AtTop(b, e.order))
  }

  /** A fresh id, a positive quantity, and a price that holds no order of the other side. */
  ghost predicate Addable(b: Book, o: Order) {
    && !Resting(b, o.id) && o.quantity > 0
    && o.price !in b.On(Opposite(o.side)).Keys
  }

  // ---- Best price ----

  predicate Better(side: Side, p: Price, q: Price) {
    if side == Buy then p > q else p < q
  }

  ghost predicate IsBest(side: Side, p: Price, prices: set<Price>) {
    p in prices && forall q :: q in prices && q != p ==> Better(side, p, q)
  }

  lemma {:induction false} BestExists(side: Side, prices: set<Price>)
    requires prices != {}
    ensures exists p :: IsBest(side, p, prices)
    decreases prices
  {
    var x :| x in prices;
    var others := prices - {x};
    if others == {} {
      assert prices == {x};
      assert IsBest(side, x, prices);
    } else {
      BestExists(side, others);
      var y :| IsBest(side, y, others);
      if Better(side, x, y) {
        forall q | q in prices && q != x ensures Better(side, x, q) {
          assert q in others;
        }
        assert IsBest(side, x, prices);
      } else {
        assert Better(side, y, x);
        forall q | q in prices && q != y ensures Better(side, y, q) {
          assert q == x || q in others;
        }
        assert IsBest(side, y, prices);
      }
    }
  }

  /** The front of the side's price set: highest bid or lowest offer. */
  function Best(side: Side, prices: set<Price>): (p: Price)
    requires prices != {}
    ensures IsBest(side, p, prices)
  {
    BestExists(side, prices);
    var p :| p in prices && forall q :: q in prices && q != p ==> Better(side, p, q);
    p
  }

  // ---- The reference matcher ----

  datatype Quote = Quote(price: Price, id: OrderId, quantity: Quantity)

  function Quotes(price: Price, q: Queue): (r: seq<Quote>)
    ensures |r| == |q|
  {
    seq(|q|, k requires 0 <= k < |q| => Quote(price, q[k].id, q[k].quantity))
  }

  /** One side of the book as a flat list: best price first, FIFO within a price. */
  function Ladder(side: Side, m: Queues): seq<Quote>
    decreases |m.Keys|
  {
    if m == map[] then []
    else
      var p := Best(side, m.Keys);
      assert (m - {p}).Keys == m.Keys - {p};
      Quotes(p, m[p]) + Ladder(side, m - {p})
  }

  predicate Acceptable(side: Side, limit: Price, price: Price) {
    if side == Buy then price <= limit else price >= limit
  }

  datatype Fill = Fill(trades: seq<Quote>, residual: Quantity, rest: seq<Quote>)

  /** Walk the opposing ladder, taking as much as the limit and the quantity allow. */
  function Match(side: Side, limit: Price, quantity: Quantity, ladder: seq<Quote>): Fill {
    if quantity == 0 || ladder == [] || !Acceptable(side, limit, ladder[0].price) then
      Fill([], quantity, ladder)
    else
      var top := ladder[0];
      if quantity < top.quantity then
        Fill([top.(quantity := quantity)], 0, [top.(quantity := top.quantity - quantity)] + ladder[1..])
      else
        var more := Match(side, limit, quantity - top.quantity, ladder[1..]);
        Fill([top] + more.trades, more.residual, more.rest)
  }
}
