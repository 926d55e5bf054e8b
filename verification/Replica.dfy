/** The strategy side's copy of the book (src/strategy-oms/engine.cpp), and the whole way from the
    matching engine to it. */
module Replicas {
  import opened Machine
  import opened Orders
  import opened PriceTimePriority
  import opened Matching
  import opened ExchangeModel
  import opened ExchangeRuns
  import opened BestPrices
  import opened BookStates
  import opened Clob
  import opened Serving
  import opened Wire
  import opened MarketFeed
  import opened FeedRuns

  /** Replaying `events` from `b`, every event meets its precondition and every addition finds room. */
  ghost predicate Replayable(b: Book, events: seq<MarketEvent>)
    decreases |events|
  {
    events != [] ==>
      && Executable(b, events[0])
      && (events[0].kind == EventKind.Add ==> RoomIn(b))
      && Replayable(Apply(b, events[0]), events[1..])
  }

  ghost predicate WithoutUpdates(events: seq<MarketEvent>) {
    forall i :: 0 <= i < |events| ==> events[i].kind != EventKind.Update
  }

  datatype BestBidOffer = BestBidOffer(bid: BestOrderInfo, offer: BestOrderInfo)

  class OrderBookEngine {
    const state: BookState
    // What the other strategy threads read; nothing until the first write.
    var published: Option<BestBidOffer>

    /** What is published, once anything is, are the book's current best prices; before that they
        are those of the empty book. */
    ghost predicate InStep()
      reads this, state
    {
      BestBidOffer(state.bestBid, state.bestOffer)
        == (if published.Some? then published.value else BestBidOffer(BestOrderInfo(NO_BID, 0), BestOrderInfo(NO_OFFER, 0)))
    }

    ghost predicate Apart()
      reads state, state.lists, state.lists.repr
    {
      this !in {state, state.lists} + state.lists.repr && state.ListsValid()
    }

    ghost predicate Valid()
      reads this, state, state.lists, state.lists.repr
    {
      Apart() && InStep()
    }

    constructor (hashPrice: Price -> nat, hashId: OrderId -> nat)
      ensures Valid() && state.Valid() && state.Book() == EMPTY_BOOK && published == None
      ensures fresh(state) && fresh(state.lists.repr)
    {
      state := new BookState(hashPrice, hashId);
      published := None;
    }

    /** `public_bbo_.write(state_.snapshot())`. */
    method PublishBest()
      requires Apart()
      modifies this
      ensures published.Some? && Valid() && state.Book() == old(state.Book()) && (old(state.Valid()) ==> state.Valid())
    {
      var bid, offer := state.bestBid, state.bestOffer;
      published := Some(BestBidOffer(bid, offer));
    }

    /** One round of `start`: the event is executed, and new best prices are published exactly when it
        reports some. */
    method Consume(event: MarketEvent) returns (ghost update: BookUpdate)
      requires Valid() && Executable(state.Book(), event)
      requires event.kind == EventKind.Add ==> RoomIn(state.Book())
      modifies this, state, state.lists.repr
      ensures Valid() && state.Book() == Apply(old(state.Book()), event)
      ensures old(state.Valid()) && HarmlessTo(old(state.Book()), old(state.bestBid), old(state.bestOffer), event) ==>
        state.Valid()
      ensures ReportsEvent(update, old(state.Cached()), old(state.Book()), event)
      ensures if update == NoChange then published == old(published) else published.Some?
    {
      hide Executable, RoomIn, Apply, HarmlessTo, ReportsEvent;
      var reported := state.Execute(event);
      update := reported;
      if reported != NoChange {
        PublishBest();
      }
    }

    /** `start`, fed with any replayable events: the book is their replay, and the published best
        prices are the cached ones after every event; right ones, as long as no update comes. */
    method Start(events: seq<MarketEvent>)
      requires Valid() && Replayable(state.Book(), events)
      modifies this, state, state.lists.repr
      ensures Valid() && state.Book() == Replay(old(state.Book()), events)
      ensures old(state.Valid()) && WithoutUpdates(events) ==> state.Valid()
    {
      hide Executable, RoomIn, Apply, CanUpdate;
      var i := 0;
      while i < |events|
        invariant i <= |events| && Valid() && Replayable(state.Book(), events[i..])
        invariant Replay(state.Book(), events[i..]) == Replay(old(state.Book()), events)
        invariant old(state.Valid()) && WithoutUpdates(events) ==> state.Valid()
      {
        assert events[i..][0] == events[i] && events[i..][1..] == events[i + 1..];
        var _ := Consume(events[i]);
        i := i + 1;
      }
    }
  }

  // ---- What the matching engine publishes can be replayed ----

  lemma {:induction false} ReplayableAppend(b: Book, a: seq<MarketEvent>, c: seq<MarketEvent>)
    requires Replayable(b, a) && Replayable(Replay(b, a), c)
    ensures Replayable(b, a + c)
    decreases |a|
  {
    hide Executable, RoomIn, Apply;
    if a == [] {
      assert a + c == c;
    } else {
      ReplayableAppend(Apply(b, a[0]), a[1..], c);
      assert (a + c)[1..] == a[1..] + c;
    }
  }

  lemma {:induction false} ReplayablePrefix(b: Book, events: seq<MarketEvent>, n: nat)
    requires Replayable(b, events) && n <= |events|
    ensures Replayable(b, events[..n])
    decreases n
  {
    hide Executable, RoomIn, Apply;
    if n > 0 {
      ReplayablePrefix(Apply(b, events[0]), events[1..], n - 1);
      assert events[..n][1..] == events[1..][..n - 1];
    }
  }

  /** Trades, cancellations and updates need no room. */
  lemma {:induction false} OrderlyReplayable(b: Book, events: seq<MarketEvent>)
    requires OrderlyLog(b, events) && forall i :: 0 <= i < |events| ==> events[i].kind != EventKind.Add
    ensures Replayable(b, events)
    decreases |events|
  {
    hide Executable, RoomIn, Apply;
    if events != [] {
      OrderlyReplayable(Apply(b, events[0]), events[1..]);
    }
  }

  lemma NewOrderReplayable(b: Book, side: Side, price: Price, quantity: Quantity, nextId: OrderId)
    requires Sound(b, nextId) && nextId + 1 < TWO_TO_THE_64
    requires PriceOk(side, price) && LeftoverOk(b, side, price, quantity)
    ensures Replayable(b, NewOrderEvents(b, side, price, quantity, nextId))
  {
    hide Match, Ladder, Executable, RoomIn, Apply, AtTop, Sound;
    var f := Answer(b, side, price, quantity);
    var events := NewOrderEvents(b, side, price, quantity, nextId);
    var trades := TradeEvents(Opposite(side), f.trades);
    var later := IdAfterOrder(b, side, price, quantity, nextId);
    NewOrderSound(b, side, price, quantity, nextId);
    SoundAtEveryEvent(b, events, later, |trades|);
    assert events[..|trades|] == trades;
    OrderlyReplayable(b, trades);
    if f.residual > 0 {
      OrderlyAtEveryEvent(b, events, later, |trades|);
      assert events[|trades|..] == [events[|trades|]] && events[|trades|..][1..] == [];
      assert Replayable(Apply(Replay(b, trades), events[|trades|]), []);
      ReplayableAppend(b, trades, events[|trades|..]);
      assert trades + events[|trades|..] == events;
    } else {
      assert events == trades;
    }
  }

  lemma SubmitReplayable(b: Book, r: OrderRequest, nextId: OrderId)
    requires Sound(b, nextId) && nextId + 1 < TWO_TO_THE_64 && RequestOk(r) && Submittable(b, r)
    ensures Replayable(b, SubmitEvents(b, r, nextId))
  {
    hide NewOrderEvents, LeftoverOk, Sound;
    match r.kind
    case BuyRequest => NewOrderReplayable(b, Buy, r.price, r.quantity, nextId);
    case SellRequest => NewOrderReplayable(b, Sell, r.price, r.quantity, nextId);
    case CancelRequest => assert [CancelEvent(r.id)][1..] == [];
    case UpdateRequest => assert [UpdateEvent(r.id, r.quantity)][1..] == [];
  }

  lemma {:induction false} RunReplayable(x: Exchange, rs: seq<OrderRequest>)
    requires ExchangeOk(x) && Replayable(EMPTY_BOOK, x.log)
    requires RequestsOk(rs) && x.nextId + |rs| < TWO_TO_THE_64 && AllSubmittable(x, rs)
    ensures Replayable(EMPTY_BOOK, Run(x, rs).log)
    decreases |rs|
  {
    hide Replayable, SubmitEvents, Submittable, Sound, SoundThroughout;
    if rs != [] {
      SubmitReplayable(x.book, rs[0], x.nextId);
      ReplayableAppend(EMPTY_BOOK, x.log, SubmitEvents(x.book, rs[0], x.nextId));
      SubmitKeepsOk(x, rs[0]);
      RunReplayable(Submitted(x, rs[0]), rs[1..]);
    }
  }

  // ---- From the matching engine to the replica ----

  /** The events the publisher has put out. */
  ghost function Output(f: Feed, log: seq<MarketEvent>): (events: seq<MarketEvent>)
    requires Delivers(f, log)
    ensures |events| == |f.buffer.consumed|
  {
    seq(|f.buffer.consumed|, k requires 0 <= k < |f.buffer.consumed| => Decoded(f.buffer.consumed[k]).value)
  }

  /** A run of requests the engine can take, publishing no more events than the feed can number. */
  ghost predicate Submission(rs: seq<OrderRequest>) {
    && RequestsOk(rs) && 1 + |rs| < TWO_TO_THE_64 && AllSubmittable(OPENING, rs)
    && |Run(OPENING, rs).log| < MAX_EVENTS
  }

  /** The requests the order generator makes are one. */
  lemma GeneratedSubmission(rs: seq<OrderRequest>)
    requires ToServe(OPENING, rs) && |Run(OPENING, rs).log| < MAX_EVENTS
    ensures Submission(rs)
  {
  }

  /** What came out of the feed is a first part of what the engine published: a replica can replay
      it, and has then the book the engine had, well formed and uncrossed. */
  ghost predicate Follows(events: seq<MarketEvent>, x: Exchange) {
    && events <= x.log
    && Replayable(EMPTY_BOOK, events) && OrderlyLog(EMPTY_BOOK, events)
    && BookOk(Replay(EMPTY_BOOK, events)) && Uncrossed(Replay(EMPTY_BOOK, events))
    && (|events| == |x.log| ==> Replay(EMPTY_BOOK, events) == x.book)
  }

  lemma DeliveredFollows(rs: seq<OrderRequest>, f: Feed)
    requires Submission(rs) && Delivers(f, Run(OPENING, rs).log)
    ensures Follows(Output(f, Run(OPENING, rs).log), Run(OPENING, rs))
  {
    var log, n := Run(OPENING, rs).log, |f.buffer.consumed|;
    ExchangeRuns.OpeningOk();
    RunReplayable(OPENING, rs);
    ReplayablePrefix(EMPTY_BOOK, log, n);
    RunsUncrossed(rs, n);
    assert Output(f, log) == log[..n];
    assert n == |log| ==> log[..n] == log;
  }

  /** End to end, over a network that may lose, repeat and reorder packets, with validate-and-claim
      as one step. */
  lemma ReplicaFollows(rs: seq<OrderRequest>, capacity: nat, filler: Bytes, events: seq<Event>)
    requires Submission(rs) && capacity > 0
    requires CanRunAtomic(Opening(capacity, filler), events, Run(OPENING, rs).log)
    ensures
      var x := Run(OPENING, rs);
      var f := AfterAtomic(Opening(capacity, filler), events, x.log);
      Delivers(f, x.log) && Follows(Output(f, x.log), x)
  {
    var x := Run(OPENING, rs);
    AtomicFeedDelivers(capacity, filler, events, x.log);
    DeliveredFollows(rs, AfterAtomic(Opening(capacity, filler), events, x.log));
  }

  /** End to end with the code's two-step claim, over a network that only loses packets. */
  lemma ReplicaFollowsInOrder(rs: seq<OrderRequest>, capacity: nat, filler: Bytes, events: seq<Event>)
    requires Submission(rs) && capacity > 0
    requires CanRun(Opening(capacity, filler), events, Run(OPENING, rs).log)
    ensures
      var x := Run(OPENING, rs);
      var f := After(Opening(capacity, filler), events, x.log);
      Delivers(f, x.log) && Follows(Output(f, x.log), x)
  {
    var x := Run(OPENING, rs);
    OrderedFeedDelivers(capacity, filler, events, x.log);
    DeliveredFollows(rs, After(Opening(capacity, filler), events, x.log));
  }

  /** The replica of any run: fed what the feed put out, its book is the one the matching engine had
      after as many events, and without updates its best prices are right. */
  method Replicate(ghost rs: seq<OrderRequest>, ghost x: Exchange, events: seq<MarketEvent>,
      hashPrice: Price -> nat, hashId: OrderId -> nat) returns (replica: OrderBookEngine)
    requires Submission(rs) && x == Run(OPENING, rs) && Follows(events, x)
    ensures replica.Valid() && replica.state.Book() == Replay(EMPTY_BOOK, x.log[..|events|])
    ensures |events| == |x.log| ==> replica.state.Book() == x.book
    ensures WithoutUpdates(events) ==> replica.state.Valid()
  {
    hide Replayable, OrderlyLog, BookOk, Uncrossed, Submission, Run;
    replica := new OrderBookEngine(hashPrice, hashId);
    replica.Start(events);
    assert events == x.log[..|events|];
  }
}
