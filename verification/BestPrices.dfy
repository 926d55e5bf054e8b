/** The cached best bid and offer: how each update of src/order-book/book-state.cpp keeps the
    cache equal to the front price of its side and to that level's total modulo 2^32. */
module BestPrices {
  import opened Machine
  import opened Orders
  import opened PriceTimePriority
  import opened BookStore

  datatype BestOrderInfo = BestOrderInfo(price: Price, quantity: Quantity)

  function NoPrice(side: Side): Price {
    if side == Buy then NO_BID else NO_OFFER
  }

  /** `info` is the best price of the side and, modulo 2^32, what rests there. */
  ghost predicate BestOk(info: BestOrderInfo, side: Side, prices: set<Price>, levels: map<Price, PriceLevel>) {
    if prices == {} then info == BestOrderInfo(NoPrice(side), 0)
    else
      var p := Best(side, prices);
      p in levels && info == BestOrderInfo(p, levels[p].total % TWO_TO_THE_32)
  }

  /** `update_best_bid_add` and `update_best_offer_add`. */
  function AddedBest(side: Side, info: BestOrderInfo, price: Price, quantity: Quantity): BestOrderInfo {
    if Better(side, price, info.price) then BestOrderInfo(price, quantity)
    else if price == info.price then info.(quantity := (info.quantity + quantity) % TWO_TO_THE_32)
    else info
  }

  /** What the cache is refilled from: the front of the price set, or the sentinel. */
  function Front(side: Side, prices: set<Price>, levels: map<Price, PriceLevel>): BestOrderInfo
    requires prices <= levels.Keys
  {
    if prices == {} then BestOrderInfo(NoPrice(side), 0)
    else BestOrderInfo(Best(side, prices), levels[Best(side, prices)].total % TWO_TO_THE_32)
  }

  /** `update_best_bid_reduce` and `update_best_offer_reduce`: the level counts as emptied when
      the 32-bit quantities agree, and `front` is what the cache is then refilled from. */
  function ReducedBest(info: BestOrderInfo, price: Price, quantity: Quantity, front: BestOrderInfo): BestOrderInfo {
    if price == info.price && quantity == info.quantity then front
    else if price == info.price then info.(quantity := (info.quantity - quantity) % TWO_TO_THE_32)
    else info
  }

  /** The front of a set is the one price better than all others. */
  lemma BestUnique(side: Side, p: Price, prices: set<Price>)
    requires IsBest(side, p, prices)
    ensures Best(side, prices) == p
  {
  }

  lemma AddKeepsRemainder(a: int, b: int)
    ensures (a % TWO_TO_THE_32 + b) % TWO_TO_THE_32 == (a + b) % TWO_TO_THE_32
  {
  }

  lemma SubtractKeepsRemainder(a: int, b: int)
    ensures (a % TWO_TO_THE_32 - b) % TWO_TO_THE_32 == (a - b) % TWO_TO_THE_32
  {
  }

  /** Adding an order keeps the cache right. */
  lemma BestAfterAdd(side: Side, info: BestOrderInfo, price: Price, quantity: Quantity,
      prices: set<Price>, levels: map<Price, PriceLevel>, levels': map<Price, PriceLevel>)
    requires BestOk(info, side, prices, levels) && prices <= levels.Keys
    requires price in levels' && levels'[price].total == (if price in prices then levels[price].total else 0) + quantity
    requires forall p :: p in prices && p != price ==> p in levels' && levels'[p].total == levels[p].total
    ensures BestOk(AddedBest(side, info, price, quantity), side, prices + {price}, levels')
  {
    var prices' := prices + {price};
    if prices == {} {
      assert prices' == {price};
      BestUnique(side, price, prices');
    } else {
      var best := Best(side, prices);
      if Better(side, price, best) {
        assert IsBest(side, price, prices');
        BestUnique(side, price, prices');
        assert price !in prices;
      } else {
        assert IsBest(side, best, prices');
        BestUnique(side, best, prices');
        AddKeepsRemainder(levels[best].total, quantity);
      }
    }
  }

  /** Taking quantity out of a level keeps the cache right, although "emptied" is judged on
      32 bits: when the 32-bit quantities agree without the level being empty, refilling from
      the front finds the same price and the right remainder. */
  lemma {:induction false} BestAfterReduce(side: Side, info: BestOrderInfo, price: Price, quantity: Quantity,
      prices: set<Price>, levels: map<Price, PriceLevel>, prices': set<Price>, levels': map<Price, PriceLevel>)
    requires BestOk(info, side, prices, levels) && prices <= levels.Keys && prices' <= levels'.Keys
    requires price in prices && 0 < levels[price].total && quantity <= levels[price].total
    requires
      if levels[price].total == quantity then prices' == prices - {price}
      else prices' == prices && levels'[price].total == levels[price].total - quantity
    requires forall p :: p in prices' && p != price ==> levels'[p].total == levels[p].total
    ensures BestOk(ReducedBest(info, price, quantity, Front(side, prices', levels')), side, prices', levels')
  {
    var best := Best(side, prices);
    var total := levels[price].total;
    if price == best {
      if total != quantity {
        SubtractKeepsRemainder(total, quantity);
      }
    } else {
      assert best in prices';
      assert IsBest(side, best, prices');
      BestUnique(side, best, prices');
    }
  }

  /** The cache of a side whose prices and totals did not change stays right. */
  lemma BestUntouched(info: BestOrderInfo, side: Side, prices: set<Price>,
      levels: map<Price, PriceLevel>, levels': map<Price, PriceLevel>)
    requires BestOk(info, side, prices, levels)
    requires forall p :: p in prices && p in levels ==> p in levels' && levels'[p].total == levels[p].total
    ensures BestOk(info, side, prices, levels')
  {
  }

  /** Both cached best prices are right for the structure. */
  ghost predicate CacheOk(bid: BestOrderInfo, offer: BestOrderInfo, s: Store) {
    BestOk(bid, Buy, s.bids, s.levels) && BestOk(offer, Sell, s.offers, s.levels)
  }

  function BidAfterAdd(bid: BestOrderInfo, o: Order): BestOrderInfo {
    if o.side == Buy then AddedBest(Buy, bid, o.price, o.quantity) else bid
  }

  function OfferAfterAdd(offer: BestOrderInfo, o: Order): BestOrderInfo {
    if o.side == Sell then AddedBest(Sell, offer, o.price, o.quantity) else offer
  }

  lemma CacheAfterAdd(bid: BestOrderInfo, offer: BestOrderInfo, s: Store, s': Store, o: Order)
    requires CacheOk(bid, offer, s) && Placeable(s, o) && GrewBy(s, s', o)
    requires s.bids + s.offers == s.levels.Keys
    ensures CacheOk(BidAfterAdd(bid, o), OfferAfterAdd(offer, o), s')
  {
    if o.side == Buy {
      BestAfterAdd(Buy, bid, o.price, o.quantity, s.bids, s.levels, s'.levels);
      BestUntouched(offer, Sell, s.offers, s.levels, s'.levels);
    } else {
      BestAfterAdd(Sell, offer, o.price, o.quantity, s.offers, s.levels, s'.levels);
      BestUntouched(bid, Buy, s.bids, s.levels, s'.levels);
    }
  }

  function BidAfterReduce(bid: BestOrderInfo, o: Order, quantity: Quantity, front: BestOrderInfo): BestOrderInfo {
    if o.side == Buy then ReducedBest(bid, o.price, quantity, front) else bid
  }

  function OfferAfterReduce(offer: BestOrderInfo, o: Order, quantity: Quantity, front: BestOrderInfo): BestOrderInfo {
    if o.side == Sell then ReducedBest(offer, o.price, quantity, front) else offer
  }

  lemma {:induction false} CacheAfterReduce(bid: BestOrderInfo, offer: BestOrderInfo, s: Store, s': Store, o: Order, quantity: Quantity)
    requires CacheOk(bid, offer, s) && ReducedBy(s, s', o, quantity)
    requires s.bids + s.offers == s.levels.Keys && s.bids !! s.offers
    ensures s'.On(o.side) <= s'.levels.Keys
    ensures
      var front := Front(o.side, s'.On(o.side), s'.levels);
      CacheOk(BidAfterReduce(bid, o, quantity, front), OfferAfterReduce(offer, o, quantity, front), s')
  {
    if o.side == Buy {
      BestAfterReduce(Buy, bid, o.price, quantity, s.bids, s.levels, s'.bids, s'.levels);
      BestUntouched(offer, Sell, s.offers, s.levels, s'.levels);
    } else {
      BestAfterReduce(Sell, offer, o.price, quantity, s.offers, s.levels, s'.offers, s'.levels);
      BestUntouched(bid, Buy, s.bids, s.levels, s'.levels);
    }
  }

  // ---- Update requests ----

  function Gap(a: Quantity, b: Quantity): Quantity {
    if a <= b then b - a else a - b
  }

  /** `update_quantity`: a decrease goes through the helper for additions, an increase through
      the helper for reductions. */
  function UpdatedBest(side: Side, info: BestOrderInfo, price: Price, was: Quantity, n: Quantity,
      front: BestOrderInfo): BestOrderInfo
  {
    if n < was then AddedBest(side, info, price, Gap(was, n)) else ReducedBest(info, price, Gap(was, n), front)
  }

  /** When the cached best price of the order's side survives an update to a positive quantity. */
  predicate UpdateKeepsBest(info: BestOrderInfo, price: Price, was: Quantity, n: Quantity) {
    || price != info.price
    || Gap(was, n) % TWO_TO_THE_31 == 0
    || (n >= was && Gap(was, n) == info.quantity)
  }

  lemma OppositeSigns(t: int, d: int)
    requires 0 <= d < TWO_TO_THE_32
    ensures (t - d) % TWO_TO_THE_32 == (t + d) % TWO_TO_THE_32 <==> d % TWO_TO_THE_31 == 0
  {
    var a, b := (t - d) % TWO_TO_THE_32, (t + d) % TWO_TO_THE_32;
    assert exists k :: 2 * d == b - a + TWO_TO_THE_32 * k by {
      var k := (t + d) / TWO_TO_THE_32 - (t - d) / TWO_TO_THE_32;
      assert 2 * d == b - a + TWO_TO_THE_32 * k;
    }
  }

  /** Exactly when an update leaves the cache right. */
  lemma BestAfterUpdate(side: Side, info: BestOrderInfo, price: Price, was: Quantity, n: Quantity,
      prices: set<Price>, levels: map<Price, PriceLevel>, levels': map<Price, PriceLevel>)
    requires BestOk(info, side, prices, levels) && prices <= levels.Keys && levels'.Keys == levels.Keys
    requires price in prices && was <= levels[price].total
    requires levels'[price].total == levels[price].total - was + n
    requires forall p :: p in levels && p != price ==> levels'[p].total == levels[p].total
    ensures BestOk(UpdatedBest(side, info, price, was, n, Front(side, prices, levels')), side, prices, levels')
      <==> UpdateKeepsBest(info, price, was, n)
  {
    var best := Best(side, prices);
    var t, d := levels[best].total, Gap(was, n);
    if price == best {
      OppositeSigns(t, d);
      AddKeepsRemainder(t, d);
      SubtractKeepsRemainder(t, d);
    } else {
      assert Better(side, best, price);
    }
  }

  lemma CacheAfterUpdate(bid: BestOrderInfo, offer: BestOrderInfo, s: Store, s': Store, o: Order, n: Quantity)
    requires CacheOk(bid, offer, s) && ResizedBy(s, s', o, n) && s.bids !! s.offers
    ensures
      var delta, front := o.(quantity := Gap(o.quantity, n)), Front(o.side, s'.On(o.side), s'.levels);
      var bid' := if n < o.quantity then BidAfterAdd(bid, delta) else BidAfterReduce(bid, delta, delta.quantity, front);
      var offer' := if n < o.quantity then OfferAfterAdd(offer, delta) else OfferAfterReduce(offer, delta, delta.quantity, front);
      CacheOk(bid', offer', s') <==> UpdateKeepsBest(if o.side == Buy then bid else offer, o.price, o.quantity, n)
  {
    if o.side == Buy {
      BestAfterUpdate(Buy, bid, o.price, o.quantity, n, s.bids, s.levels, s'.levels);
      BestUntouched(offer, Sell, s.offers, s.levels, s'.levels);
    } else {
      BestAfterUpdate(Sell, offer, o.price, o.quantity, n, s.offers, s.levels, s'.levels);
      BestUntouched(bid, Buy, s.bids, s.levels, s'.levels);
    }
  }

  /** Lowering an order to what a trade leaves takes the traded quantity out of its level. */
  lemma ResizeReduces(s: Store, s': Store, o: Order, quantity: Quantity)
    requires quantity < o.quantity && ResizedBy(s, s', o, o.quantity - quantity)
    ensures ReducedBy(s, s', o, quantity)
  {
  }

  /** The cached price reads as an empty side exactly when no price but the sentinel rests there. */
  lemma EmptyReading(info: BestOrderInfo, side: Side, prices: set<Price>, levels: map<Price, PriceLevel>)
    requires BestOk(info, side, prices, levels)
    ensures info.price == NoPrice(side) <==> prices <= {NoPrice(side)}
  {
    if prices != {} && info.price == NoPrice(side) {
      forall q | q in prices ensures q == NoPrice(side) {
        assert q == info.price || Better(side, info.price, q);
      }
    }
  }
}
