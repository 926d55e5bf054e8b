/** Whole runs of the matching engine: at every published event the book is uncrossed and well
    formed, the log alone determines it, and quantity is conserved. */
module ExchangeRuns {
  import opened Machine
  import opened Orders
  import opened PriceTimePriority
  import opened BookReading
  import opened BookEffects
  import opened Matching
  import opened ExchangeModel

  // ---- Logs ----

  /** Replaying `events` from `b`, every event meets its precondition, every trade keeps price-time
      priority, and every book on the way, first and last included, is sound. */
  ghost predicate SoundThroughout(b: Book, events: seq<MarketEvent>, nextId: OrderId)
    decreases |events|
  {
    && Sound(b, nextId)
    && (events != [] ==> Orderly(b, events[0]) && SoundThroughout(Apply(b, events[0]), events[1..], nextId))
  }

  lemma {:induction false} ReplayAppend(b: Book, a: seq<MarketEvent>, c: seq<MarketEvent>)
    ensures Replay(b, a + c) == Replay(Replay(b, a), c)
    decreases |a|
  {
    if a == [] {
      assert a + c == c;
    } else {
      ReplayAppend(Apply(b, a[0]), a[1..], c);
      assert (a + c)[1..] == a[1..] + c;
    }
  }

  lemma {:induction false} SoundAppend(b: Book, a: seq<MarketEvent>, c: seq<MarketEvent>, nextId: OrderId)
    requires SoundThroughout(b, a, nextId) && SoundThroughout(Replay(b, a), c, nextId)
    ensures SoundThroughout(b, a + c, nextId)
    decreases |a|
  {
    hide Sound, Apply, Orderly;
    if a == [] {
      assert a + c == c;
    } else {
      SoundAppend(Apply(b, a[0]), a[1..], c, nextId);
      assert (a + c)[1..] == a[1..] + c;
    }
  }

  lemma {:induction false} SoundLater(b: Book, events: seq<MarketEvent>, nextId: OrderId, later: OrderId)
    requires SoundThroughout(b, events, nextId) && nextId <= later
    ensures SoundThroughout(b, events, later)
    decreases |events|
  {
    hide Apply, Orderly, BookOk, Uncrossed;
    if events != [] {
      SoundLater(Apply(b, events[0]), events[1..], nextId, later);
    }
  }

  /** Stopping after any number of events leaves a sound book and an orderly log. */
  lemma {:induction false} SoundAtEveryEvent(b: Book, events: seq<MarketEvent>, nextId: OrderId, k: nat)
    requires SoundThroughout(b, events, nextId) && k <= |events|
    ensures Sound(Replay(b, events[..k]), nextId) && OrderlyLog(b, events[..k])
    decreases k
  {
    if k == 0 {
      assert events[..0] == [];
    } else {
      SoundAtEveryEvent(Apply(b, events[0]), events[1..], nextId, k - 1);
      assert events[..k][1..] == events[1..][..k - 1];
    }
  }

  lemma {:induction false} OrderlyAtEveryEvent(b: Book, events: seq<MarketEvent>, nextId: OrderId, k: nat)
    requires SoundThroughout(b, events, nextId) && k <= |events|
    ensures k < |events| ==> Orderly(Replay(b, events[..k]), events[k])
    decreases k
  {
    if k == 0 {
      assert events[..0] == [];
    } else {
      OrderlyAtEveryEvent(Apply(b, events[0]), events[1..], nextId, k - 1);
      assert events[..k][1..] == events[1..][..k - 1];
    }
  }

  // ---- One request ----

  lemma AmendStaysSound(b: Book, id: OrderId, n: Quantity, nextId: OrderId)
    requires Sound(b, nextId)
    ensures Sound(AmendOrder(b, id, n), nextId)
  {
    AmendKeepsOk(b, id, n);
    AmendShrinks(b, id, n);
    var b' := AmendOrder(b, id, n);
    assert b'.On(Buy).Keys <= b.On(Buy).Keys && b'.On(Sell).Keys <= b.On(Sell).Keys;
    FewerStaysSound(b, b', nextId);
  }

  lemma TradeStaysSound(b: Book, e: MarketEvent, nextId: OrderId)
    requires Sound(b, nextId) && e.kind == EventKind.Trade && Executable(b, e)
    ensures Sound(Apply(b, e), nextId)
  {
    hide BookOk, TradeOrder, AmendOrder;
    var id, t := e.order.id, e.order.quantity;
    var side, p, x: Quantity :| Holds(b, side, p, id, x) && t <= x;
    TradeIsAmend(b, side, p, id, x, t);
    AmendStaysSound(b, id, x - t, nextId);
  }

  lemma {:induction false} TradesStaySound(b: Book, events: seq<MarketEvent>, nextId: OrderId)
    requires Sound(b, nextId) && OrderlyLog(b, events)
    requires forall i :: 0 <= i < |events| ==> events[i].kind == EventKind.Trade
    ensures SoundThroughout(b, events, nextId)
    decreases |events|
  {
    if events != [] {
      TradeStaysSound(b, events[0], nextId);
      TradesStaySound(Apply(b, events[0]), events[1..], nextId);
    }
  }

  /** The id counter after a new order: consumed only by an order that rests. */
  function IdAfterOrder(b: Book, side: Side, price: Price, quantity: Quantity, nextId: OrderId): OrderId
    requires nextId + 1 < TWO_TO_THE_64
  {
    if Answer(b, side, price, quantity).residual > 0 then nextId + 1 else nextId
  }

  /** A new order keeps the book sound at every event it publishes. */
  lemma NewOrderSound(b: Book, side: Side, price: Price, quantity: Quantity, nextId: OrderId)
    requires Sound(b, nextId) && PriceOk(side, price) && nextId + 1 < TWO_TO_THE_64
    ensures SoundThroughout(b, NewOrderEvents(b, side, price, quantity, nextId), IdAfterOrder(b, side, price, quantity, nextId))
  {
    hide Match, Ladder, AddOrder, SoundThroughout, Uncrossed, Replay, OrderlyLog, Addable;
    var opp := Opposite(side);
    var f := Answer(b, side, price, quantity);
    var trades := TradeEvents(opp, f.trades);
    MatchOnBook(b, side, opp, price, quantity, Ladder(opp, b.On(opp)), f);
    TradesStaySound(b, trades, nextId);
    if f.residual > 0 {
      LeftoverFits(b, Replay(b, trades), side, price, quantity, nextId);
      AddedLast(b, trades, AddEvent(nextId, price, f.residual, side), nextId);
    } else {
      assert NewOrderEvents(b, side, price, quantity, nextId) == trades;
    }
  }

  lemma AddedLast(b: Book, trades: seq<MarketEvent>, e: MarketEvent, nextId: OrderId)
    requires SoundThroughout(b, trades, nextId) && Sound(Replay(b, trades), nextId)
    requires e.kind == EventKind.Add && e.order.id == nextId && nextId + 1 < TWO_TO_THE_64
    requires PriceOk(e.order.side, e.order.price) && Addable(Replay(b, trades), e.order)
    requires Uncrossed(AddOrder(Replay(b, trades), e.order))
    ensures SoundThroughout(b, trades + [e], nextId + 1)
  {
    hide Uncrossed, Addable, AddOrder, Replay, BookOk, SoundThroughout;
    var b' := Replay(b, trades);
    AddStaysSound(b', e.order);
    SoundOne(b', e, nextId, nextId + 1);
    SoundLater(b, trades, nextId, nextId + 1);
    SoundAppend(b, trades, [e], nextId + 1);
  }

  lemma SoundOne(b: Book, e: MarketEvent, nextId: OrderId, later: OrderId)
    requires Sound(b, nextId) && nextId <= later && Orderly(b, e) && Sound(Apply(b, e), later)
    ensures SoundThroughout(b, [e], later)
  {
    assert [e][1..] == [];
  }

  lemma CancelSound(b: Book, id: OrderId, nextId: OrderId)
    requires Sound(b, nextId) && Resting(b, id)
    ensures SoundThroughout(b, [CancelEvent(id)], nextId)
  {
    AmendStaysSound(b, id, 0, nextId);
    SoundOne(b, CancelEvent(id), nextId, nextId);
  }

  lemma UpdateSound(b: Book, id: OrderId, n: Quantity, nextId: OrderId)
    requires Sound(b, nextId) && Resting(b, id)
    ensures SoundThroughout(b, [UpdateEvent(id, n)], nextId)
  {
    AmendStaysSound(b, id, n, nextId);
    SoundOne(b, UpdateEvent(id, n), nextId, nextId);
  }

  // ---- Runs ----

  datatype Exchange = Exchange(book: Book, nextId: OrderId, log: seq<MarketEvent>)

  const OPENING := Exchange(EMPTY_BOOK, 1, [])

  function NextId(b: Book, r: OrderRequest, nextId: OrderId): (id: OrderId)
    requires nextId + 1 < TWO_TO_THE_64
    ensures nextId <= id <= nextId + 1
  {
    match r.kind
    case BuyRequest => IdAfterOrder(b, Buy, r.price, r.quantity, nextId)
    case SellRequest => IdAfterOrder(b, Sell, r.price, r.quantity, nextId)
    case _ => nextId
  }

  ghost function Submitted(x: Exchange, r: OrderRequest): Exchange
    requires RequestOk(r) && x.nextId + 1 < TWO_TO_THE_64
  {
    var events := SubmitEvents(x.book, r, x.nextId);
    Exchange(Replay(x.book, events), NextId(x.book, r, x.nextId), x.log + events)
  }

  ghost predicate RequestsOk(rs: seq<OrderRequest>) {
    forall i :: 0 <= i < |rs| ==> RequestOk(rs[i])
  }

  /** The exchange after a run of requests. */
  ghost function Run(x: Exchange, rs: seq<OrderRequest>): (x': Exchange)
    requires RequestsOk(rs) && x.nextId + |rs| < TWO_TO_THE_64
    decreases |rs|
  {
    if rs == [] then x else Run(Submitted(x, rs[0]), rs[1..])
  }

  lemma {:induction false} RunLast(x: Exchange, rs: seq<OrderRequest>, r: OrderRequest)
    requires RequestsOk(rs + [r]) && x.nextId + |rs| + 1 < TWO_TO_THE_64
    ensures RequestsOk(rs) && RequestOk(r) && Run(x, rs).nextId <= x.nextId + |rs|
    ensures Run(x, rs + [r]) == Submitted(Run(x, rs), r)
    decreases |rs|
  {
    hide RequestOk, SubmitEvents, Replay, NextId;
    assert forall i :: 0 <= i < |rs| ==> (rs + [r])[i] == rs[i];
    assert (rs + [r])[|rs|] == r;
    if rs == [] {
      assert [] + [r] == [r] && [r][1..] == [];
    } else {
      assert (rs + [r])[1..] == rs[1..] + [r];
      RunLast(Submitted(x, rs[0]), rs[1..], r);
    }
  }

  /** What every reachable exchange satisfies: its log replays to its book, soundly throughout. */
  ghost predicate ExchangeOk(x: Exchange) {
    SoundThroughout(EMPTY_BOOK, x.log, x.nextId) && Replay(EMPTY_BOOK, x.log) == x.book && Sound(x.book, x.nextId)
  }

  lemma SubmitSound(b: Book, r: OrderRequest, nextId: OrderId)
    requires Sound(b, nextId) && RequestOk(r) && nextId + 1 < TWO_TO_THE_64
    ensures SoundThroughout(b, SubmitEvents(b, r, nextId), NextId(b, r, nextId))
  {
    match r.kind
    case BuyRequest => NewOrderSound(b, Buy, r.price, r.quantity, nextId);
    case SellRequest => NewOrderSound(b, Sell, r.price, r.quantity, nextId);
    case CancelRequest =>
      if Resting(b, r.id) {
        CancelSound(b, r.id, nextId);
      }
    case UpdateRequest =>
      if Resting(b, r.id) {
        UpdateSound(b, r.id, r.quantity, nextId);
      }
  }

  lemma SubmitKeepsOk(x: Exchange, r: OrderRequest)
    requires ExchangeOk(x) && RequestOk(r) && x.nextId + 1 < TWO_TO_THE_64
    ensures ExchangeOk(Submitted(x, r))
  {
    var events := SubmitEvents(x.book, r, x.nextId);
    var nextId := NextId(x.book, r, x.nextId);
    SubmitSound(x.book, r, x.nextId);
    SoundLater(EMPTY_BOOK, x.log, x.nextId, nextId);
    SoundAppend(EMPTY_BOOK, x.log, events, nextId);
    ReplayAppend(EMPTY_BOOK, x.log, events);
    SoundAtEveryEvent(x.book, events, nextId, |events|);
    assert events[..|events|] == events;
  }

  lemma {:induction false} RunKeepsOk(x: Exchange, rs: seq<OrderRequest>)
    requires ExchangeOk(x) && RequestsOk(rs) && x.nextId + |rs| < TWO_TO_THE_64
    ensures ExchangeOk(Run(x, rs))
    decreases |rs|
  {
    if rs != [] {
      SubmitKeepsOk(x, rs[0]);
      RunKeepsOk(Submitted(x, rs[0]), rs[1..]);
    }
  }

  lemma OpeningOk()
    ensures ExchangeOk(OPENING)
  {
    assert SideIds(EMPTY_BOOK.bids) == {} && SideIds(EMPTY_BOOK.offers) == {};
  }

  /** In every run, after every published event: the log so far is executable event by event and
      the book it builds is well formed and uncrossed, so no price holds both sides; the next event,
      if it is a trade, is with the head of that book's best queue; and the whole log builds the
      engine's own book. */
  lemma RunsUncrossed(rs: seq<OrderRequest>, k: nat)
    requires RequestsOk(rs) && 1 + |rs| < TWO_TO_THE_64 && k <= |Run(OPENING, rs).log|
    ensures
      var x := Run(OPENING, rs);
      var b := Replay(EMPTY_BOOK, x.log[..k]);
      && OrderlyLog(EMPTY_BOOK, x.log[..k])
      && BookOk(b) && Uncrossed(b) && b.bids.Keys !! b.offers.Keys
      && (k < |x.log| ==> Orderly(b, x.log[k]))
      && Replay(EMPTY_BOOK, x.log) == x.book
  {
    OpeningOk();
    RunKeepsOk(OPENING, rs);
    SoundAtEveryEvent(EMPTY_BOOK, Run(OPENING, rs).log, Run(OPENING, rs).nextId, k);
    OrderlyAtEveryEvent(EMPTY_BOOK, Run(OPENING, rs).log, Run(OPENING, rs).nextId, k);
  }

  /** Request `i` of a run published event `k` of the log. */
  ghost predicate PublishedBy(rs: seq<OrderRequest>, i: nat, k: nat)
    requires i < |rs| && RequestsOk(rs) && 1 + |rs| < TWO_TO_THE_64
  {
    |Run(OPENING, rs[..i]).log| <= k < |Run(OPENING, rs[..i + 1]).log|
  }

  /** In every run each event of the log was published by one of the requests, and serves it: a trade is
      at a price within that request's own limit. */
  lemma {:induction false} EveryEventServes(rs: seq<OrderRequest>, k: nat)
    requires RequestsOk(rs) && 1 + |rs| < TWO_TO_THE_64 && k < |Run(OPENING, rs).log|
    ensures exists i :: 0 <= i < |rs| && PublishedBy(rs, i, k) && Serves(rs[i], Run(OPENING, rs).log[k])
    decreases |rs|
  {
    hide SubmitEvents, Serves, Replay, NextId, ExchangeOk, RequestOk;
    var n := |rs| - 1;
    var x, before := Run(OPENING, rs[..n]), rs[..n];
    assert rs == before + [rs[n]];
    RunLast(OPENING, before, rs[n]);
    assert rs[..n + 1] == rs;
    if k < |x.log| {
      EveryEventServes(before, k);
      var i :| 0 <= i < n && PublishedBy(before, i, k) && Serves(before[i], x.log[k]);
      assert rs[..i] == before[..i] && rs[..i + 1] == before[..i + 1];
      assert PublishedBy(rs, i, k);
    } else {
      OpeningOk();
      RunKeepsOk(OPENING, before);
      BookOfRun(x);
      SubmitServes(x.book, rs[n], x.nextId);
      assert Run(OPENING, rs).log[k] == SubmitEvents(x.book, rs[n], x.nextId)[k - |x.log|];
      assert PublishedBy(rs, n, k);
    }
  }

  lemma BookOfRun(x: Exchange)
    requires ExchangeOk(x)
    ensures BookOk(x.book)
  {
  }
}
