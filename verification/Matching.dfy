/** The reference matcher on the simple book: trades come off the top of the opposing ladder,
    quantity is conserved, and what is left is the rest of the ladder. */
module Matching {
  import opened Machine
  import opened Orders
  import opened PriceTimePriority
  import opened QueueLemmas
  import opened BookReading
  import opened BookEffects

  // ---- Ladders ----

  /** The top of the ladder is the head of the best queue. */
  lemma LadderHead(side: Side, m: Queues)
    requires m != map[] && m[Best(side, m.Keys)] != []
    ensures
      var p := Best(side, m.Keys);
      Ladder(side, m) != [] && Ladder(side, m)[0] == Quote(p, m[p][0].id, m[p][0].quantity)
  {
  }

  /** The best queue after `t` was traded with its head. */
  function Tapped(q: Queue, t: Quantity): Queue
    requires q != [] && t <= q[0].quantity
  {
    (if t == q[0].quantity then [] else [Entry(q[0].id, q[0].quantity - t)]) + q[1..]
  }

  lemma QueueTapped(q: Queue, t: Quantity)
    requires q != [] && DistinctIds(q) && t <= q[0].quantity
    ensures Reduced(q, q[0].id, t) == Tapped(q, t)
  {
    ReduceAbsent(q[1..], q[0].id, t);
  }

  /** Only the best queue changes. */
  lemma QueuesTapped(m: Queues, p: Price, t: Quantity)
    requires p in m && m[p] != [] && DistinctIds(m[p]) && t <= m[p][0].quantity
    requires forall p', i :: p' in m && p' != p && 0 <= i < |m[p']| ==> m[p'][i].id != m[p][0].id
    requires forall p' :: p' in m ==> m[p'] != []
    ensures ReducedAll(m, m[p][0].id, t) == if Tapped(m[p], t) == [] then m - {p} else m[p := Tapped(m[p], t)]
  {
    QueueTapped(m[p], t);
    forall p' | p' in m && p' != p ensures Reduced(m[p'], m[p][0].id, t) == m[p'] {
      ReduceAbsent(m[p'], m[p][0].id, t);
    }
  }

  /** A ladder is its best queue and the ladder of the rest. */
  lemma LadderUnfold(side: Side, m: Queues, p: Price)
    requires m != map[] && p == Best(side, m.Keys)
    ensures Ladder(side, m) == Quotes(p, m[p]) + Ladder(side, m - {p})
  {
  }

  lemma LadderReplaced(side: Side, m: Queues, p: Price, q: Queue)
    requires m != map[] && p == Best(side, m.Keys)
    ensures Ladder(side, m[p := q]) == Quotes(p, q) + Ladder(side, m - {p})
  {
    var m' := m[p := q];
    assert m'.Keys == m.Keys;
    LadderUnfold(side, m', p);
    assert m' - {p} == m - {p};
  }

  lemma QuotesTapped(p: Price, q: Queue, t: Quantity)
    requires q != [] && t <= q[0].quantity
    ensures Quotes(p, q) != [] && Quotes(p, q)[0] == Quote(p, q[0].id, q[0].quantity)
    ensures Quotes(p, Tapped(q, t))
      == (if t == q[0].quantity then [] else [Quote(p, q[0].id, q[0].quantity - t)]) + Quotes(p, q)[1..]
  {
  }

  lemma DropFirst(a: seq<Quote>, b: seq<Quote>)
    requires a != []
    ensures (a + b)[1..] == a[1..] + b
  {
  }

  /** Trading `t` off the top: the entry shrinks in place, or leaves. */
  lemma LadderTrade(side: Side, m: Queues, p: Price, t: Quantity)
    requires m != map[] && p == Best(side, m.Keys)
    requires m[p] != [] && DistinctIds(m[p]) && t <= m[p][0].quantity
    requires forall p', i :: p' in m && p' != p && 0 <= i < |m[p']| ==> m[p'][i].id != m[p][0].id
    requires forall p' :: p' in m ==> m[p'] != []
    ensures Ladder(side, m) != [] && Ladder(side, m)[0] == Quote(p, m[p][0].id, m[p][0].quantity)
    ensures Ladder(side, ReducedAll(m, m[p][0].id, t)) == AfterTrade(Ladder(side, m), t)
  {
    hide Ladder, Quotes, Tapped, ReducedAll, Reduced;
    var q, rest := m[p], Ladder(side, m - {p});
    QueuesTapped(m, p, t);
    QuotesTapped(p, q, t);
    LadderUnfold(side, m, p);
    DropFirst(Quotes(p, q), rest);
    var first: seq<Quote> := if t == q[0].quantity then [] else [Quote(p, q[0].id, q[0].quantity - t)];
    assert AfterTrade(Ladder(side, m), t) == first + (Quotes(p, q)[1..] + rest);
    assert first + (Quotes(p, q)[1..] + rest) == Quotes(p, Tapped(q, t)) + rest;
    if Tapped(q, t) != [] {
      LadderReplaced(side, m, p, Tapped(q, t));
    } else {
      assert Quotes(p, Tapped(q, t)) + rest == rest;
    }
  }

  /** A ladder after `t` was traded with its top. */
  function AfterTrade(ladder: seq<Quote>, t: Quantity): seq<Quote>
    requires ladder != [] && t <= ladder[0].quantity
  {
    (if t == ladder[0].quantity then [] else [ladder[0].(quantity := ladder[0].quantity - t)]) + ladder[1..]
  }

  // ---- Properties of the matcher ----

  function Sum(quotes: seq<Quote>): nat {
    if quotes == [] then 0 else quotes[0].quantity + Sum(quotes[1..])
  }

  lemma {:induction false} SumAppend(a: seq<Quote>, b: seq<Quote>)
    ensures Sum(a + b) == Sum(a) + Sum(b)
  {
    if a == [] {
      assert a + b == b;
    } else {
      SumAppend(a[1..], b);
      assert (a + b)[1..] == a[1..] + b;
    }
  }

  /** Nothing is made or lost: what was asked for is traded or left over, and what was offered
      is traded or still rests. */
  lemma {:induction false} MatchConserves(side: Side, limit: Price, quantity: Quantity, ladder: seq<Quote>)
    ensures
      var f := Match(side, limit, quantity, ladder);
      Sum(f.trades) + f.residual == quantity && Sum(f.trades) + Sum(f.rest) == Sum(ladder)
    decreases |ladder|
  {
    if quantity == 0 || ladder == [] || !Acceptable(side, limit, ladder[0].price) {
    } else if quantity < ladder[0].quantity {
      assert Sum([ladder[0].(quantity := quantity)]) == quantity;
    } else {
      MatchConserves(side, limit, quantity - ladder[0].quantity, ladder[1..]);
      var more := Match(side, limit, quantity - ladder[0].quantity, ladder[1..]);
      assert ([ladder[0]] + more.trades)[1..] == more.trades;
    }
  }

  /** A price a new order of `side` with this limit may trade at. */
  ghost predicate WithinLimit(side: Side, limit: Price, price: Price) {
    match side
    case Buy => price <= limit
    case Sell => limit <= price
  }

  /** Trades are the ladder's entries in ladder order, all but the last in full, none worse than
      the limit; the matcher stops only when satisfied or when the next entry is not acceptable. */
  lemma {:induction false} MatchTakesFromTheTop(side: Side, limit: Price, quantity: Quantity, ladder: seq<Quote>)
    requires forall i :: 0 <= i < |ladder| ==> ladder[i].quantity > 0
    ensures
      var f := Match(side, limit, quantity, ladder);
      && |f.trades| <= |ladder|
      && (forall i :: 0 <= i < |f.trades| ==>
          && f.trades[i].price == ladder[i].price && f.trades[i].id == ladder[i].id
          && WithinLimit(side, limit, f.trades[i].price)
          && 0 < f.trades[i].quantity <= ladder[i].quantity
          && (i + 1 < |f.trades| ==> f.trades[i].quantity == ladder[i].quantity))
      && (f.residual > 0 ==> f.rest == [] || !WithinLimit(side, limit, f.rest[0].price))
      && (f.residual > 0 ==> f.rest == ladder[|f.trades|..])
    decreases |ladder|
  {
    if quantity == 0 || ladder == [] || !Acceptable(side, limit, ladder[0].price) {
    } else if quantity < ladder[0].quantity {
    } else {
      MatchTakesFromTheTop(side, limit, quantity - ladder[0].quantity, ladder[1..]);
    }
  }

  // ---- What the answer has to be ----

  /** What is left of the ladder once the trades were made: only the last of them may leave a part. */
  ghost predicate LeftOver(ladder: seq<Quote>, trades: seq<Quote>, rest: seq<Quote>) {
    var n := |trades|;
    n <= |ladder| &&
    if n == 0 || trades[n - 1].quantity == ladder[n - 1].quantity then rest == ladder[n..]
    else
      && rest != [] && rest[1..] == ladder[n..]
      && rest[0] == ladder[n - 1].(quantity := rest[0].quantity)
      && rest[0].quantity + trades[n - 1].quantity == ladder[n - 1].quantity
  }

  /** The trades are with the first orders of the ladder, one after the other, all but the last in full,
      and within the limit; trades and residual make up the quantity; and something is left over only
      when every order was used up or the next one is outside the limit. */
  ghost predicate IsAnswer(side: Side, limit: Price, quantity: Quantity, ladder: seq<Quote>, f: Fill) {
    var n := |f.trades|;
    && n <= |ladder|
    && (forall k :: 0 <= k < n ==> f.trades[k] == ladder[k].(quantity := f.trades[k].quantity))
    && (forall k :: 0 <= k < n ==> 0 < f.trades[k].quantity <= ladder[k].quantity)
    && (forall k :: 0 <= k < n ==> WithinLimit(side, limit, ladder[k].price))
    && (forall k :: 0 <= k < n && (k < n - 1 || f.residual > 0) ==> f.trades[k].quantity == ladder[k].quantity)
    && Sum(f.trades) + f.residual == quantity
    && (f.residual > 0 && n < |ladder| ==> !WithinLimit(side, limit, ladder[n].price))
    && LeftOver(ladder, f.trades, f.rest)
  }

  lemma LeftOverTail(ladder: seq<Quote>, trades: seq<Quote>, rest: seq<Quote>)
    requires ladder != [] && trades != [] && trades[0] == ladder[0]
    ensures LeftOver(ladder, trades, rest) <==> LeftOver(ladder[1..], trades[1..], rest)
  {
    var n := |trades|;
    assert n <= |ladder| ==> ladder[n..] == ladder[1..][n - 1..];
  }

  /** The answer of the rest of the ladder, after its first order was used up. */
  lemma AnswerTail(side: Side, limit: Price, quantity: Quantity, ladder: seq<Quote>, f: Fill)
    requires ladder != [] && ladder[0].quantity <= quantity && WithinLimit(side, limit, ladder[0].price)
    requires f.trades != [] && f.trades[0] == ladder[0] && ladder[0].quantity > 0
    ensures IsAnswer(side, limit, quantity, ladder, f)
      <==> IsAnswer(side, limit, quantity - ladder[0].quantity, ladder[1..], Fill(f.trades[1..], f.residual, f.rest))
  {
    hide WithinLimit, LeftOver;
    LeftOverTail(ladder, f.trades, f.rest);
    var more := Fill(f.trades[1..], f.residual, f.rest);
    assert Sum(f.trades) == f.trades[0].quantity + Sum(more.trades);
    hide Sum;
    if IsAnswer(side, limit, quantity, ladder, f) {
      assert IsAnswer(side, limit, quantity - ladder[0].quantity, ladder[1..], more);
    }
    if IsAnswer(side, limit, quantity - ladder[0].quantity, ladder[1..], more) {
      assert forall k :: 1 <= k < |f.trades| ==> f.trades[k] == more.trades[k - 1] && ladder[k] == ladder[1..][k - 1];
      assert IsAnswer(side, limit, quantity, ladder, f);
    }
  }

  lemma AnswersHere(side: Side, limit: Price, quantity: Quantity, ladder: seq<Quote>)
    requires
      || quantity == 0 || ladder == [] || !WithinLimit(side, limit, ladder[0].price)
      || quantity < ladder[0].quantity
    ensures IsAnswer(side, limit, quantity, ladder, Match(side, limit, quantity, ladder))
  {
    var f := Match(side, limit, quantity, ladder);
    if quantity == 0 || ladder == [] || !WithinLimit(side, limit, ladder[0].price) {
      assert ladder[0..] == ladder;
    } else {
      assert f.trades[1..] == [] && f.rest[1..] == ladder[1..];
    }
  }

  lemma {:induction false} MatchAnswers(side: Side, limit: Price, quantity: Quantity, ladder: seq<Quote>)
    requires forall i :: 0 <= i < |ladder| ==> ladder[i].quantity > 0
    ensures IsAnswer(side, limit, quantity, ladder, Match(side, limit, quantity, ladder))
    decreases |ladder|
  {
    hide IsAnswer, LeftOver;
    if quantity == 0 || ladder == [] || !WithinLimit(side, limit, ladder[0].price) || quantity < ladder[0].quantity {
      AnswersHere(side, limit, quantity, ladder);
    } else {
      var more := Match(side, limit, quantity - ladder[0].quantity, ladder[1..]);
      MatchAnswers(side, limit, quantity - ladder[0].quantity, ladder[1..]);
      assert ([ladder[0]] + more.trades)[1..] == more.trades;
      var f := Match(side, limit, quantity, ladder);
      assert f == Fill([ladder[0]] + more.trades, more.residual, more.rest);
      AnswerTail(side, limit, quantity, ladder, f);
      assert Fill(f.trades[1..], f.residual, f.rest) == more;
    }
  }

  /** The first trade of an answer, when there is one to make. */
  lemma FirstTrade(side: Side, limit: Price, quantity: Quantity, ladder: seq<Quote>, f: Fill)
    requires IsAnswer(side, limit, quantity, ladder, f)
    requires quantity > 0 && ladder != [] && WithinLimit(side, limit, ladder[0].price) && ladder[0].quantity > 0
    ensures f.trades != []
    ensures quantity < ladder[0].quantity ==> f.trades == [ladder[0].(quantity := quantity)] && f.residual == 0
    ensures quantity >= ladder[0].quantity ==> f.trades[0] == ladder[0]
  {
    assert f.trades != [] ==> Sum(f.trades) == f.trades[0].quantity + Sum(f.trades[1..]);
    assert |f.trades| == 1 ==> f.trades[1..] == [] && f.trades == [f.trades[0]];
  }

  lemma FirstOfSum(quotes: seq<Quote>)
    ensures quotes != [] ==> quotes[0].quantity <= Sum(quotes)
  {
  }

  /** An answer that makes no trade, or only a part of the first. */
  lemma AnswerHere(side: Side, limit: Price, quantity: Quantity, ladder: seq<Quote>, f: Fill)
    requires forall i :: 0 <= i < |ladder| ==> ladder[i].quantity > 0
    requires IsAnswer(side, limit, quantity, ladder, f)
    requires
      || quantity == 0 || ladder == [] || !WithinLimit(side, limit, ladder[0].price)
      || quantity < ladder[0].quantity
    ensures f == Match(side, limit, quantity, ladder)
  {
    if quantity == 0 || ladder == [] || !WithinLimit(side, limit, ladder[0].price) {
      FirstOfSum(f.trades);
      assert ladder[0..] == ladder;
    } else {
      FirstTrade(side, limit, quantity, ladder, f);
      assert f.rest == [f.rest[0]] + f.rest[1..];
    }
  }

  lemma {:induction false} AnswerUnique(side: Side, limit: Price, quantity: Quantity, ladder: seq<Quote>, f: Fill)
    requires forall i :: 0 <= i < |ladder| ==> ladder[i].quantity > 0
    requires IsAnswer(side, limit, quantity, ladder, f)
    ensures f == Match(side, limit, quantity, ladder)
    decreases |ladder|
  {
    hide IsAnswer;
    if quantity == 0 || ladder == [] || !WithinLimit(side, limit, ladder[0].price) || quantity < ladder[0].quantity {
      AnswerHere(side, limit, quantity, ladder, f);
    } else {
      FirstTrade(side, limit, quantity, ladder, f);
      AnswerTail(side, limit, quantity, ladder, f);
      AnswerUnique(side, limit, quantity - ladder[0].quantity, ladder[1..], Fill(f.trades[1..], f.residual, f.rest));
      assert f.trades == [ladder[0]] + f.trades[1..];
    }
  }

  /** The matcher's answer is the one and only answer these conditions allow. */
  lemma {:induction false} MatchExactly(side: Side, limit: Price, quantity: Quantity, ladder: seq<Quote>, f: Fill)
    requires forall i :: 0 <= i < |ladder| ==> ladder[i].quantity > 0
    ensures f == Match(side, limit, quantity, ladder) <==> IsAnswer(side, limit, quantity, ladder, f)
  {
    MatchAnswers(side, limit, quantity, ladder);
    if IsAnswer(side, limit, quantity, ladder, f) {
      AnswerUnique(side, limit, quantity, ladder, f);
    }
    hide IsAnswer, Match;
  }

  // ---- Trading on the book ----

  function TradeEvent(side: Side, t: Quote): MarketEvent {
    MarketEvent(Order(t.id, t.price, t.quantity, side), EventKind.Trade)
  }

  /** The events of a list of trades against orders of `side`. */
  function TradeEvents(side: Side, trades: seq<Quote>): (es: seq<MarketEvent>)
    ensures |es| == |trades|
  {
    seq(|trades|, i requires 0 <= i < |trades| => TradeEvent(side, trades[i]))
  }

  /** Every event meets its precondition when its turn comes, and every trade is with the head of
      the best queue of its side. */
  ghost predicate OrderlyLog(b: Book, events: seq<MarketEvent>)
    decreases |events|
  {
    events == [] || (Orderly(b, events[0]) && OrderlyLog(Apply(b, events[0]), events[1..]))
  }

  /** Book `b'` is `b` with trades taken off side `opp`, whose ladder is now `ladder`. */
  ghost predicate Traded(b: Book, b': Book, opp: Side, ladder: seq<Quote>) {
    && BookOk(b')
    && b'.On(Opposite(opp)) == b.On(Opposite(opp))
    && b'.On(opp).Keys <= b.On(opp).Keys && RestingIds(b') <= RestingIds(b)
    && Ladder(opp, b'.On(opp)) == ladder
  }

  /** A trade with a resting order keeps the book well formed and only shrinks it. */
  lemma TradeKeeps(b: Book, opp: Side, p: Price, e: Entry, t: Quantity)
    requires BookOk(b) && Holds(b, opp, p, e.id, e.quantity) && t <= e.quantity
    ensures
      var b' := TradeOrder(b, e.id, t);
      && Tradable(b, e.id, t) && BookOk(b')
      && b'.On(Opposite(opp)) == b.On(Opposite(opp))
      && b'.On(opp).Keys <= b.On(opp).Keys && RestingIds(b') <= RestingIds(b)
  {
    hide BookOk, TradeOrder, AmendOrder, RestingIds;
    TradeIsAmend(b, opp, p, e.id, e.quantity, t);
    AmendKeepsOk(b, e.id, e.quantity - t);
    AmendShrinks(b, e.id, e.quantity - t);
    OtherSideKept(b, opp, p, e, t);
  }

  lemma TradeLadder(b: Book, opp: Side, p: Price, t: Quantity)
    requires BookOk(b) && b.On(opp) != map[] && p == Best(opp, b.On(opp).Keys)
    requires b.On(opp)[p] != [] && t <= b.On(opp)[p][0].quantity
    ensures Ladder(opp, b.On(opp)) != []
    ensures Ladder(opp, b.On(opp))[0] == Quote(p, b.On(opp)[p][0].id, b.On(opp)[p][0].quantity)
    ensures Ladder(opp, TradeOrder(b, b.On(opp)[p][0].id, t).On(opp)) == AfterTrade(Ladder(opp, b.On(opp)), t)
  {
    var m: Queues := b.On(opp);
    var e: Entry := m[p][0];
    assert Holds(b, opp, p, e.id, e.quantity);
    OnlyThere(b, opp, p, e);
    forall p': Price | p' in m ensures m[p'] != [] && DistinctIds(m[p']) {
      assert QueueOk(m[p']);
    }
    LadderTrade(opp, m, p, t);
    assert TradeOrder(b, e.id, t).On(opp) == ReducedAll(m, e.id, t);
  }

  /** One trade with the head of the best queue of side `opp`. */
  lemma TradeStep(b: Book, opp: Side, ladder: seq<Quote>, t: Quantity)
    requires BookOk(b) && ladder == Ladder(opp, b.On(opp)) && ladder != [] && 0 < t <= ladder[0].quantity
    ensures Orderly(b, TradeEvent(opp, ladder[0].(quantity := t)))
    ensures Traded(b, TradeOrder(b, ladder[0].id, t), opp, AfterTrade(ladder, t))
  {
    var m := b.On(opp);
    assert m != map[];
    var p := Best(opp, m.Keys);
    assert QueueOk(m[p]);
    TradeLadder(b, opp, p, 0);
    TradeLadder(b, opp, p, t);
    assert Holds(b, opp, p, m[p][0].id, m[p][0].quantity);
    TradeKeeps(b, opp, p, m[p][0], t);
  }

  /** An entry's id is in no other queue of the book. */
  lemma OnlyThere(b: Book, side: Side, p: Price, e: Entry)
    requires BookOk(b) && Holds(b, side, p, e.id, e.quantity)
    ensures forall p', i :: p' in b.On(side) && p' != p && 0 <= i < |b.On(side)[p']| ==> b.On(side)[p'][i].id != e.id
    ensures forall p', i :: p' in b.On(Opposite(side)) && 0 <= i < |b.On(Opposite(side))[p']| ==>
      b.On(Opposite(side))[p'][i].id != e.id
  {
    forall s, p', i | p' in b.On(s) && 0 <= i < |b.On(s)[p']| && b.On(s)[p'][i].id == e.id
      ensures s == side && p' == p
    {
      assert Holds(b, s, p', e.id, b.On(s)[p'][i].quantity);
    }
  }

  lemma OtherSideKept(b: Book, side: Side, p: Price, e: Entry, t: Quantity)
    requires BookOk(b) && Holds(b, side, p, e.id, e.quantity)
    ensures TradeOrder(b, e.id, t).On(Opposite(side)) == b.On(Opposite(side))
  {
    OnlyThere(b, side, p, e);
    var m := b.On(Opposite(side));
    forall p' | p' in m ensures Reduced(m[p'], e.id, t) == m[p'] != [] {
      ReduceAbsent(m[p'], e.id, t);
      assert QueueOk(m[p']);
    }
    assert ReducedAll(m, e.id, t) == m;
  }

  lemma ReplayCons(b: Book, e: MarketEvent, rest: seq<MarketEvent>)
    ensures Replay(b, [e] + rest) == Replay(Apply(b, e), rest)
    ensures OrderlyLog(b, [e] + rest) <==> Orderly(b, e) && OrderlyLog(Apply(b, e), rest)
  {
    assert ([e] + rest)[1..] == rest;
  }

  lemma TradeEventsCons(side: Side, t: Quote, rest: seq<Quote>)
    ensures TradeEvents(side, [t] + rest) == [TradeEvent(side, t)] + TradeEvents(side, rest)
  {
  }

  /** The trades of `f` are made on `b` one after the other, each with the head of the best queue of
      side `opp` at its turn, and lead to `f.rest`. */
  ghost predicate Fulfilled(b: Book, opp: Side, f: Fill) {
    match f
    case Fill(trades, _, rest) =>
      OrderlyLog(b, TradeEvents(opp, trades)) && Traded(b, Replay(b, TradeEvents(opp, trades)), opp, rest)
  }

  lemma FulfilledNone(b: Book, opp: Side, f: Fill)
    requires BookOk(b) && f.trades == [] && f.rest == Ladder(opp, b.On(opp))
    ensures Fulfilled(b, opp, f)
  {
    assert TradeEvents(opp, f.trades) == [];
  }

  lemma FulfilledThen(b: Book, b1: Book, opp: Side, t: Quote, ladder: seq<Quote>, more: Fill, f: Fill)
    requires b1 == TradeOrder(b, t.id, t.quantity) && Orderly(b, TradeEvent(opp, t)) && Traded(b, b1, opp, ladder)
    requires Fulfilled(b1, opp, more) && f == Fill([t] + more.trades, more.residual, more.rest)
    ensures Fulfilled(b, opp, f)
  {
    TradeEventsCons(opp, t, more.trades);
    ReplayCons(b, TradeEvent(opp, t), TradeEvents(opp, more.trades));
  }

  /** The matcher, one trade at a time. */
  lemma {:induction false} MatchStep(side: Side, limit: Price, quantity: Quantity, ladder: seq<Quote>, t: Quantity, more: Fill)
    requires quantity > 0 && ladder != [] && Acceptable(side, limit, ladder[0].price)
    requires t == Min(quantity, ladder[0].quantity) && more == Match(side, limit, quantity - t, AfterTrade(ladder, t))
    ensures Match(side, limit, quantity, ladder) == Fill([ladder[0].(quantity := t)] + more.trades, more.residual, more.rest)
    ensures t == quantity || AfterTrade(ladder, t) == ladder[1..]
  {
    if quantity >= ladder[0].quantity {
      assert AfterTrade(ladder, ladder[0].quantity) == ladder[1..];
    }
  }

  lemma MatchStops(side: Side, limit: Price, quantity: Quantity, ladder: seq<Quote>)
    requires quantity == 0 || ladder == [] || !Acceptable(side, limit, ladder[0].price)
    ensures Match(side, limit, quantity, ladder) == Fill([], quantity, ladder)
  {
  }

  /** Where the matcher's trades lead: the opposing ladder is the matcher's rest, the own side is
      untouched, and every trade is with the head of the best queue at its turn. */
  lemma {:induction false} MatchOnBook(b: Book, side: Side, opp: Side, limit: Price, quantity: Quantity,
      ladder: seq<Quote>, f: Fill)
    requires BookOk(b) && opp == Opposite(side) && ladder == Ladder(opp, b.On(opp))
    requires f == Match(side, limit, quantity, ladder)
    ensures Fulfilled(b, opp, f)
    decreases |ladder|
  {
    hide Match, Ladder, Fulfilled, BookOk, Orderly, TradeOrder;
    if quantity == 0 || ladder == [] || !Acceptable(side, limit, ladder[0].price) {
      MatchStops(side, limit, quantity, ladder);
      FulfilledNone(b, opp, f);
    } else {
      LadderPositive(b, opp);
      var t := Min(quantity, ladder[0].quantity);
      var left := AfterTrade(ladder, t);
      var more := Match(side, limit, quantity - t, left);
      MatchStep(side, limit, quantity, ladder, t, more);
      TradeStep(b, opp, ladder, t);
      var b1 := TradeOrder(b, ladder[0].id, t);
      assert Fulfilled(b1, opp, more) by {
        if t == quantity {
          MatchStops(side, limit, quantity - t, left);
          FulfilledNone(b1, opp, more);
        } else {
          MatchOnBook(b1, side, opp, limit, quantity - t, left, more);
        }
      }
      FulfilledThen(b, b1, opp, ladder[0].(quantity := t), left, more, f);
    }
  }

  /** Every rung of a well-formed book's ladder is a resting order of positive quantity. */
  lemma LadderPositive(b: Book, side: Side)
    requires BookOk(b)
    ensures forall i :: 0 <= i < |Ladder(side, b.On(side))| ==> Ladder(side, b.On(side))[i].quantity > 0
  {
    forall p | p in b.On(side) ensures QueueOk(b.On(side)[p]) {
    }
    QueuesPositive(side, b.On(side));
  }

  lemma {:induction false} QueuesPositive(side: Side, m: Queues)
    requires forall p :: p in m ==> QueueOk(m[p])
    ensures forall i :: 0 <= i < |Ladder(side, m)| ==> Ladder(side, m)[i].quantity > 0
    decreases |m.Keys|
  {
    if m == map[] {
    } else {
      var p := Best(side, m.Keys);
      assert QueueOk(m[p]);
      assert (m - {p}).Keys == m.Keys - {p};
      QueuesPositive(side, m - {p});
    }
  }
}
