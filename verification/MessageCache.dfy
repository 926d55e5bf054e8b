/** The cache of sent messages as the retransmission server uses it: a get of three loads, between
    which the exchange's thread may take any number of steps (includes/utils/circular-cache.hpp). */
module MessageCaching {
  import opened Machine
  import opened Wire
  import opened CircularCaching

  const RETRANSMIT_CACHE_SIZE: nat := 0x8000

  class MessageCache {
    // Every message the exchange is ever to put, in order.
    const log: seq<Bytes>
    const filler: Bytes
    var cache: Cache<Bytes>

    ghost predicate Valid()
      reads this
    {
      && |log| < IS_LOCKED && Inv(cache, RETRANSMIT_CACHE_SIZE, filler)
      && cache.history <= log
    }

    /** No get is under way. */
    ghost predicate Idle()
      reads this
    {
      Valid() && (cache.getter.Waiting? || cache.getter.Answered?)
    }

    constructor (log: seq<Bytes>, filler: Bytes)
      requires |log| < IS_LOCKED
      ensures Idle() && this.log == log && this.filler == filler && cache.written == 0
    {
      this.log := log;
      this.filler := filler;
      cache := Opening(RETRANSMIT_CACHE_SIZE, filler);
    }

    /** The exchange has put every message it has. */
    predicate AllPut()
      reads this
    {
      cache.putter.Resting? && cache.written == |log|
    }

    /** The steps the exchange's thread has left. */
    ghost function StepsLeft(): int
      reads this
    {
      3 * (|log| - cache.written) - (if cache.putter.Resting? then 0 else if cache.putter.Locking? then 1 else 2)
    }

    /** The next step of the exchange's thread. */
    method PutStep()
      requires Valid() && !AllPut()
      modifies this
      ensures Valid() && cache.getter == old(cache.getter) && old(cache.written) <= cache.written
      ensures 0 <= StepsLeft() < old(StepsLeft())
    {
      match cache.putter
      case Resting => Step(Lock(log[cache.written]));
      case Locking => Step(Store);
      case Storing => Step(Unlock);
    }

    /** Whatever the exchange's thread does meanwhile. */
    method OthersRun()
      requires Valid()
      modifies this
      ensures Valid() && cache.getter == old(cache.getter) && old(cache.written) <= cache.written
      ensures old(AllPut()) ==> cache == old(cache)
    {
      while !AllPut()
        invariant Valid() && cache.getter == old(cache.getter) && old(cache.written) <= cache.written
        invariant old(AllPut()) ==> cache == old(cache)
        decreases StepsLeft()
      {
        if * {
          return;
        }
        PutStep();
      }
    }

    /** The exchange's thread puts all it has. */
    method PutAll()
      requires Idle()
      modifies this
      ensures Idle() && AllPut()
    {
      while !AllPut()
        invariant Idle()
        decreases StepsLeft()
      {
        PutStep();
      }
    }

    method Step(a: Action<Bytes>)
      requires Valid() && Possible(cache, a)
      requires a.Lock? ==> cache.written < |log| && a.item == log[cache.written]
      modifies this
      ensures Valid() && cache == Next(old(cache), a, RETRANSMIT_CACHE_SIZE)
    {
      StepKeeps(cache, a, RETRANSMIT_CACHE_SIZE, filler);
      cache := Next(cache, a, RETRANSMIT_CACHE_SIZE);
    }

    /** `try_get_item`: the message put under the index, or an error; or, if nothing was put before and
        item 0 is asked for, perhaps the initial contents. */
    method TryGetItem(index: nat) returns (r: Result<Bytes>)
      requires Idle() && index < TWO_TO_THE_32
      modifies this
      ensures Idle() && old(cache.written) <= cache.written
      ensures r.Ok? ==>
        || (index < |log| && r.item == log[index])
        || (index == 0 && old(cache.written) == 0 && r.item == filler)
      ensures cache.getter.Answered? && cache.getter.index == index && cache.getter.result == r
      ensures old(AllPut()) ==> AllPut() && r == QuietGet(old(cache), index, RETRANSMIT_CACHE_SIZE).getter.result
    {
      OthersRun();
      Step(FirstLoad(index));
      if cache.getter.Answered? {
        return cache.getter.result;
      }
      OthersRun();
      Step(LoadData);
      OthersRun();
      Step(SecondLoad);
      return cache.getter.result;
    }
  }
}
