/** The matching engine of src/exchange/clob.cpp over a whole run of requests: it does what the run on
    the simple book does. */
module Serving {
  import opened Machine
  import opened Orders
  import opened PriceTimePriority
  import opened ExchangeModel
  import opened ExchangeRuns
  import opened BestPrices
  import opened BookStates
  import opened Clob

  /** Every request meets what `submit` asks of its callers. */
  ghost predicate AllSubmittable(x: Exchange, rs: seq<OrderRequest>)
    requires RequestsOk(rs) && x.nextId + |rs| < TWO_TO_THE_64
    decreases |rs|
  {
    rs != [] ==> Submittable(x.book, rs[0]) && AllSubmittable(Submitted(x, rs[0]), rs[1..])
  }

  /** The request is no update of a resting order that would spoil the cached best prices. */
  ghost predicate Harmless(b: Book, r: OrderRequest) {
    r.kind == UpdateRequest && Resting(b, r.id) ==>
      CanUpdate(b, RightBest(Buy, b.On(Buy)), RightBest(Sell, b.On(Sell)), r.id, r.quantity)
  }

  ghost predicate AllHarmless(x: Exchange, rs: seq<OrderRequest>)
    requires RequestsOk(rs) && x.nextId + |rs| < TWO_TO_THE_64
    decreases |rs|
  {
    rs != [] ==> Harmless(x.book, rs[0]) && AllHarmless(Submitted(x, rs[0]), rs[1..])
  }

  /** The engine's book, counter and published events. */
  ghost function Now(clob: CentralLimitOrderBook): Exchange
    requires clob.Valid()
    reads clob, clob.state, clob.state.lists, clob.state.lists.repr
  {
    Exchange(clob.state.Book(), clob.nextOrderId, clob.published)
  }

  /** What was published since `x` is a first part of what a run from `x` to `end` publishes, and the
      book is its replay. */
  ghost predicate PartWay(x: Exchange, b: Book, log: seq<MarketEvent>, end: Exchange) {
    x.log <= log <= end.log && b == Replay(x.book, log[|x.log|..])
  }

  lemma ProcessedIsPart(x: Exchange, b: Book, log: seq<MarketEvent>, events: seq<MarketEvent>, n: nat, end: Exchange)
    requires Processed(x.book, b, x.log, log, events, n) && end.log == x.log + events
    ensures PartWay(x, b, log, end)
  {
    assert log[|x.log|..] == events[..n];
    assert x.log + events == log + events[n..];
  }

  lemma {:induction false} RunLogGrows(x: Exchange, rs: seq<OrderRequest>)
    requires RequestsOk(rs) && x.nextId + |rs| < TWO_TO_THE_64
    ensures x.log <= Run(x, rs).log
    decreases |rs|
  {
    hide SubmitEvents, NextId, Replay;
    if rs != [] {
      RunLogGrows(Submitted(x, rs[0]), rs[1..]);
    }
  }

  lemma PartThen(x: Exchange, y: Exchange, b: Book, log: seq<MarketEvent>, next: Exchange, end: Exchange)
    requires PartWay(x, y.book, y.log, end) && PartWay(y, b, log, next) && next.log <= end.log
    ensures PartWay(x, b, log, end)
  {
    var before, since := y.log[|x.log|..], log[|y.log|..];
    ReplayAppend(x.book, before, since);
    assert log[|x.log|..] == before + since;
  }

  /** What an update that was published needs of the cached best prices is what Harmless says. */
  lemma HarmlessIsAllowed(b: Book, r: OrderRequest, bid: BestOrderInfo, offer: BestOrderInfo, nextId: OrderId, n: nat)
    requires Harmless(b, r) && bid == RightBest(Buy, b.On(Buy)) && offer == RightBest(Sell, b.On(Sell))
    requires n <= |SubmitEvents(b, r, nextId)|
    ensures r.kind == UpdateRequest && n == 1 ==> CanUpdate(b, bid, offer, r.id, r.quantity)
  {
    hide CanUpdate, Resting, RightBest;
  }

  /** One request: all of it, unless a stop was seen; a first part of it in any case. */
  method ServeOne(clob: CentralLimitOrderBook, r: OrderRequest, stop: StopToken)
      returns (result: SubmitResult, ghost n: nat)
    requires clob.Valid() && stop !in clob.Repr() && clob.nextOrderId + 1 < TWO_TO_THE_64
    requires RequestOk(r) && Submittable(clob.state.Book(), r) && Harmless(clob.state.Book(), r)
    modifies clob.Repr(), stop
    ensures clob.Valid() && stop.Heeded(old(stop.looks), n)
    ensures old(clob.published) <= clob.published && |clob.published| == |old(clob.published)| + n
    ensures old(stop.looks) + (if Wants(old(clob.state.Book()), r) then 1 else 0) <= stop.looks
    ensures !stop.Requested() || stop.Never() ==> Now(clob) == Submitted(old(Now(clob)), r)
    ensures PartWay(old(Now(clob)), clob.state.Book(), clob.published, Submitted(old(Now(clob)), r))
    ensures Processed(old(clob.state.Book()), clob.state.Book(), old(clob.published), clob.published,
      SubmitEvents(old(clob.state.Book()), r, old(clob.nextOrderId)), n)
    ensures result == Answered(r, old(clob.state.Book()), old(clob.nextOrderId), clob.nextOrderId)
    ensures old(clob.nextOrderId) <= clob.nextOrderId <= old(clob.nextOrderId) + 1
    ensures old(stop.Requested()) ==> n == 0 && clob.nextOrderId == old(clob.nextOrderId)
    ensures !stop.Requested() ==> n == |SubmitEvents(old(clob.state.Book()), r, old(clob.nextOrderId))|
    ensures clob.submitted == old(clob.submitted) + (if old(stop.Requested()) then [] else [r])
  {
    hide Submittable, SubmitEvents, Sound, Replay, CanUpdate, Harmless, NextId, RightBest, PartWay, Processed, Answered;
    hide HeededUpTo;
    ghost var x, bid, offer := Now(clob), clob.state.bestBid, clob.state.bestOffer;
    clob.state.CacheReads();
    result, n := clob.Submit(r, stop);
    ghost var events := SubmitEvents(x.book, r, x.nextId);
    ProcessedGrows(x.book, clob.state.Book(), x.log, clob.published, events, n);
    HarmlessIsAllowed(x.book, r, bid, offer, x.nextId, n);
    ProcessedIsPart(x, clob.state.Book(), clob.published, events, n, Submitted(x, r));
    if !stop.Requested() {
      AllProcessed(x.book, clob.state.Book(), x.log, clob.published, events);
    }
  }

  lemma NothingProcessed(x: Exchange, b: Book, log: seq<MarketEvent>, events: seq<MarketEvent>)
    requires Processed(x.book, b, x.log, log, events, 0)
    ensures b == x.book && log == x.log
  {
    assert events[..0] == [] && x.log + [] == x.log;
  }

  lemma ProcessedGrows(b0: Book, b: Book, log0: seq<MarketEvent>, log: seq<MarketEvent>,
      events: seq<MarketEvent>, n: nat)
    requires Processed(b0, b, log0, log, events, n)
    ensures n <= |events| && log0 <= log && |log| == |log0| + n
  {
  }

  /** A run of requests the engine can take. */
  ghost predicate ToServe(x: Exchange, rs: seq<OrderRequest>) {
    && RequestsOk(rs) && x.nextId + |rs| < TWO_TO_THE_64
    && AllSubmittable(x, rs) && AllHarmless(x, rs)
  }

  lemma ServeStep(x: Exchange, rs: seq<OrderRequest>)
    requires ToServe(x, rs) && rs != []
    ensures RequestOk(rs[0]) && x.nextId + 1 < TWO_TO_THE_64
    ensures Submittable(x.book, rs[0]) && Harmless(x.book, rs[0])
    ensures RequestsOk(rs[1..]) && ToServe(Submitted(x, rs[0]), rs[1..])
    ensures Run(x, rs) == Run(Submitted(x, rs[0]), rs[1..])
  {
    hide Submittable, Harmless, RequestOk;
    forall i | 0 <= i < |rs[1..]| ensures RequestOk(rs[1..][i]) {
      assert rs[1..][i] == rs[i + 1];
    }
  }

  /** The next request of a run from `x` to `end` that began at look `from`, and the look after it. */
  method ServeNext(clob: CentralLimitOrderBook, r: OrderRequest, ghost rest: seq<OrderRequest>, stop: StopToken,
      ghost x: Exchange, ghost end: Exchange, ghost from: nat)
      returns (stopped: bool)
    requires clob.Valid() && stop !in clob.Repr() && !stop.Requested()
    requires ToServe(Now(clob), [r] + rest) && Run(Now(clob), [r] + rest) == end
    requires PartWay(x, clob.state.Book(), clob.published, end)
    requires x.log <= clob.published && stop.Heeded(from, |clob.published| - |x.log|)
    modifies clob.Repr(), stop
    ensures clob.Valid() && stopped == stop.Requested()
    ensures !stopped ==> ToServe(Now(clob), rest) && Run(Now(clob), rest) == end
    ensures PartWay(x, clob.state.Book(), clob.published, end)
    ensures x.log <= clob.published && stop.Heeded(from, |clob.published| - |x.log|)
  {
    hide Submittable, Harmless, AllSubmittable, AllHarmless, Submitted, Sound, RequestOk, PartWay, Processed, Answered, Run, Replay;
    hide HeededUpTo, Wants, SubmitEvents, NextId, CacheOk;
    ghost var y, mid, rs := Now(clob), stop.looks, [r] + rest;
    assert rs[0] == r && rs[1..] == rest;
    ServeStep(y, rs);
    RunLogGrows(Submitted(y, r), rest);
    ghost var n;
    var result;
    result, n := ServeOne(clob, r, stop);
    PartThen(x, y, clob.state.Book(), clob.published, Submitted(y, r), end);
    ghost var till := stop.looks;
    stopped := clob.PollStop(stop);
    HeedsMore(stop.asks, from, |y.log| - |x.log|, mid, n, till, stop.looks);
  }

  /** Any run of requests the engine can take. Unless a stop was seen, and so whenever nobody asks for
      one, its book, its counter and all it published are those of the run; after a stop, what it
      published is a first part of the run's events and its book is their replay. It looked for a stop
      at least once for each event it published, and published none after it saw one. */
  method Serve(clob: CentralLimitOrderBook, rs: seq<OrderRequest>, stop: StopToken)
    requires clob.Valid() && stop !in clob.Repr() && ToServe(Now(clob), rs)
    modifies clob.Repr(), stop
    ensures clob.Valid() && old(clob.published) <= clob.published
    ensures stop.Heeded(old(stop.looks), |clob.published| - |old(clob.published)|)
    ensures !stop.Requested() || stop.Never() ==> Now(clob) == Run(old(Now(clob)), rs)
    ensures PartWay(old(Now(clob)), clob.state.Book(), clob.published, Run(old(Now(clob)), rs))
  {
    hide Submittable, Harmless, AllSubmittable, AllHarmless, Submitted, Sound, RequestOk, PartWay, Run;
    hide HeededUpTo, CacheOk;
    ghost var x, end := Now(clob), Run(Now(clob), rs);
    NothingYet(x, rs);
    var i := 0;
    var stopped := clob.PollStop(stop);
    stop.HeedsNone(old(stop.looks));
    while i < |rs| && !stopped
      invariant i <= |rs| && clob.Valid() && stop !in clob.Repr() && stopped == stop.Requested()
      invariant x.log <= clob.published && stop.Heeded(old(stop.looks), |clob.published| - |x.log|)
      invariant !stopped ==> ToServe(Now(clob), rs[i..]) && Run(Now(clob), rs[i..]) == end
      invariant PartWay(x, clob.state.Book(), clob.published, end)
    {
      assert rs[i..] == [rs[i]] + rs[i + 1..];
      stopped := ServeNext(clob, rs[i], rs[i + 1..], stop, x, end, old(stop.looks));
      i := i + 1;
    }
    if !stopped {
      NothingToRun(Now(clob), rs[i..]);
    }
  }

  lemma NothingToRun(x: Exchange, rs: seq<OrderRequest>)
    requires rs == [] && RequestsOk(rs) && x.nextId < TWO_TO_THE_64
    ensures Run(x, rs) == x
  {
  }

  lemma NothingYet(x: Exchange, rs: seq<OrderRequest>)
    requires RequestsOk(rs) && x.nextId + |rs| < TWO_TO_THE_64
    ensures PartWay(x, x.book, x.log, Run(x, rs))
  {
    RunLogGrows(x, rs);
    assert x.log[|x.log|..] == [];
  }

  // ---- The requests an engine has taken ----

  lemma {:induction false} RunSnoc(x: Exchange, rs: seq<OrderRequest>, r: OrderRequest)
    requires ToServe(x, rs) && RequestOk(r) && x.nextId + |rs| + 1 < TWO_TO_THE_64
    requires Submittable(Run(x, rs).book, r) && Harmless(Run(x, rs).book, r)
    ensures Run(x, rs).nextId <= x.nextId + |rs|
    ensures ToServe(x, rs + [r]) && Run(x, rs + [r]) == Submitted(Run(x, rs), r)
    decreases |rs|
  {
    hide Submittable, Harmless, RequestOk, SubmitEvents, Replay;
    assert RequestsOk(rs + [r]) by {
      assert forall i :: 0 <= i < |rs| ==> (rs + [r])[i] == rs[i];
    }
    if rs == [] {
      assert rs + [r] == [r] && [r][1..] == [];
      assert ToServe(Submitted(x, r), []);
      assert AllSubmittable(x, [r]) && AllHarmless(x, [r]);
    } else {
      ServeStep(x, rs);
      RunSnoc(Submitted(x, rs[0]), rs[1..], r);
      assert (rs + [r])[1..] == rs[1..] + [r];
    }
  }

  lemma {:induction false} RunReplays(x: Exchange, rs: seq<OrderRequest>)
    requires RequestsOk(rs) && x.nextId + |rs| < TWO_TO_THE_64
    ensures x.log <= Run(x, rs).log && Run(x, rs).book == Replay(x.book, Run(x, rs).log[|x.log|..])
    decreases |rs|
  {
    hide SubmitEvents, NextId;
    if rs == [] {
      assert x.log[|x.log|..] == [];
    } else {
      var y, end := Submitted(x, rs[0]), Run(x, rs);
      RunReplays(y, rs[1..]);
      var events := SubmitEvents(x.book, rs[0], x.nextId);
      assert end.log[|x.log|..] == events + end.log[|y.log|..];
      ReplayAppend(x.book, events, end.log[|y.log|..]);
    }
  }

  /** Engine `x` began as `o` and has taken requests `rs`, the last of them perhaps cut short by a stop. */
  ghost predicate Formed(o: Exchange, rs: seq<OrderRequest>, x: Exchange, stopped: bool) {
    && ToServe(o, rs)
    && if stopped then PartWay(o, x.book, x.log, Run(o, rs)) else x == Run(o, rs)
  }

  lemma FormedNone(o: Exchange, stopped: bool)
    ensures Formed(o, [], o, stopped)
  {
    assert o.log[|o.log|..] == [];
  }

  lemma FormedStops(o: Exchange, rs: seq<OrderRequest>, x: Exchange, was: bool, stopped: bool)
    requires Formed(o, rs, x, was) && (was ==> stopped)
    ensures Formed(o, rs, x, stopped)
  {
    hide ToServe;
    if stopped && !was {
      FormedRun(o, rs, x);
      RunReplays(o, rs);
    }
  }

  lemma FormedIsPart(o: Exchange, rs: seq<OrderRequest>, x: Exchange, stopped: bool)
    requires Formed(o, rs, x, stopped)
    ensures ToServe(o, rs) && PartWay(o, x.book, x.log, Run(o, rs))
  {
    FormedStops(o, rs, x, stopped, true);
    hide PartWay, Run;
  }

  lemma FormedRun(o: Exchange, rs: seq<OrderRequest>, x: Exchange)
    requires Formed(o, rs, x, false)
    ensures RequestsOk(rs) && o.nextId + |rs| < TWO_TO_THE_64 && x == Run(o, rs)
  {
  }

  /** One request more. */
  lemma FormedMore(o: Exchange, rs: seq<OrderRequest>, x: Exchange, r: OrderRequest, x': Exchange, stopped: bool)
    requires Formed(o, rs, x, false) && o.nextId + |rs| + 1 < TWO_TO_THE_64
    requires RequestOk(r) && Submittable(x.book, r) && Harmless(x.book, r) && x.nextId + 1 < TWO_TO_THE_64
    requires !stopped ==> x' == Submitted(x, r)
    requires PartWay(x, x'.book, x'.log, Submitted(x, r))
    ensures Formed(o, rs + [r], x', stopped)
  {
    hide RequestOk, Submittable, Harmless, Submitted;
    RunSnoc(o, rs, r);
    if stopped {
      RunReplays(o, rs);
      RunReplays(o, rs + [r]);
      PartOfMore(o, x, x', Submitted(x, r));
    }
  }

  lemma PartOfMore(o: Exchange, x: Exchange, x': Exchange, end: Exchange)
    requires o.log <= x.log && x.book == Replay(o.book, x.log[|o.log|..])
    requires PartWay(x, x'.book, x'.log, end)
    ensures PartWay(o, x'.book, x'.log, end)
  {
    assert x.log <= end.log;
    PartThen(o, x, x'.book, x'.log, end, end);
  }
}
