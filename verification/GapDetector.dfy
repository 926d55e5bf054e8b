/** GapDetector (src/market-data-handler/gap-detector.cpp): which packets of a feed with losses,
    duplicates and reordering are asked for again. */
module GapDetection {
  import opened Machine

  type SequenceId = x: int | 0 <= x < TWO_TO_THE_64

  const LAST_ID: SequenceId := TWO_TO_THE_64 - 1

  /** Packets first, first + 1, ..., last - 1. */
  datatype RetransmitRequest = RetransmitRequest(first: SequenceId, last: SequenceId)

  predicate Asks(r: RetransmitRequest, id: SequenceId) {
    r.first <= id < r.last
  }

  /** The 64-bit successor. */
  function Following(id: SequenceId): SequenceId {
    (id + 1) % TWO_TO_THE_64
  }

  function Newest(recent: SequenceId, id: SequenceId): SequenceId {
    if id > Following(recent) || id == Following(recent) then id else recent
  }

  function Gap(recent: SequenceId, id: SequenceId): Option<RetransmitRequest> {
    if id > Following(recent) then Some(RetransmitRequest(Following(recent), id)) else None
  }

  class GapDetector {
    var mostRecent: SequenceId

    constructor (first: SequenceId)
      ensures mostRecent == first
    {
      mostRecent := first;
    }

    /** `has_gap`. The newest id never goes back, but for an arrival after the last 64-bit id. */
    method HasGap(id: SequenceId) returns (request: Option<RetransmitRequest>)
      modifies this
      ensures request == Gap(old(mostRecent), id) && mostRecent == Newest(old(mostRecent), id)
      ensures old(mostRecent) <= mostRecent <==> old(mostRecent) != LAST_ID || id == LAST_ID
    {
      if id > Following(mostRecent) {
        var first := Following(mostRecent);
        mostRecent := id;
        return Some(RetransmitRequest(first, id));
      }
      if id == Following(mostRecent) {
        mostRecent := Following(mostRecent);
      }
      return None;
    }
  }

  // ---- Whole feeds ----

  /** What a feed leaves behind: the newest packet seen, the ranges asked for, and the arrivals
      that advanced the detector. */
  datatype Watched = Watched(newest: SequenceId, requests: seq<RetransmitRequest>, advanced: seq<SequenceId>)

  function Asked(recent: SequenceId, id: SequenceId): seq<RetransmitRequest> {
    match Gap(recent, id) case Some(r) => [r] case None => []
  }

  function Taken(recent: SequenceId, id: SequenceId): seq<SequenceId> {
    if Newest(recent, id) != recent then [id] else []
  }

  function Watch(recent: SequenceId, arrivals: seq<SequenceId>): Watched
    decreases |arrivals|
  {
    if arrivals == [] then Watched(recent, [], [])
    else
      var id := arrivals[0];
      var rest := Watch(Newest(recent, id), arrivals[1..]);
      Watched(rest.newest,
        Asked(recent, id) + rest.requests, Taken(recent, id) + rest.advanced)
  }

  /** How many of the ranges hold `id`. */
  function TimesAsked(requests: seq<RetransmitRequest>, id: SequenceId): nat {
    if requests == [] then 0
    else (if Asks(requests[0], id) then 1 else 0) + TimesAsked(requests[1..], id)
  }

  /** How often `id` came in and advanced the detector. */
  function TimesTaken(advanced: seq<SequenceId>, id: SequenceId): nat {
    if advanced == [] then 0 else (if advanced[0] == id then 1 else 0) + TimesTaken(advanced[1..], id)
  }

  /** No packet is looked at after the last 64-bit id. */
  ghost predicate NothingAfterLast(recent: SequenceId, arrivals: seq<SequenceId>) {
    && (recent == LAST_ID ==> arrivals == [])
    && forall k :: 0 <= k < |arrivals| - 1 ==> arrivals[k] != LAST_ID
  }

  /** Packet `id` is accounted for exactly once if it lies between the newest before and the newest
      after, and never otherwise: it came in and advanced the detector, or it is in one of the ranges. */
  ghost predicate AccountedOnce(recent: SequenceId, w: Watched, id: SequenceId) {
    && recent <= w.newest
    && TimesAsked(w.requests, id) + TimesTaken(w.advanced, id) == if recent < id <= w.newest then 1 else 0
  }

  lemma {:induction false} EveryPacketOnce(recent: SequenceId, arrivals: seq<SequenceId>, id: SequenceId)
    requires NothingAfterLast(recent, arrivals)
    ensures AccountedOnce(recent, Watch(recent, arrivals), id)
    decreases |arrivals|
  {
    if arrivals != [] {
      var next := Newest(recent, arrivals[0]);
      EveryPacketOnce(next, arrivals[1..], id);
      var rest := Watch(next, arrivals[1..]);
      OnePacket(recent, arrivals[0], id);
      AskedFirst(Asked(recent, arrivals[0]), rest.requests, id);
      TakenFirst(Taken(recent, arrivals[0]), rest.advanced, id);
    }
  }

  /** Whatever is looked at after the last 64-bit id, packet 0 is asked for or advances the detector. */
  lemma ZeroComesBack(arrivals: seq<SequenceId>)
    requires arrivals != []
    ensures
      var w := Watch(LAST_ID, arrivals);
      TimesAsked(w.requests, 0) + TimesTaken(w.advanced, 0) > 0
  {
    var id := arrivals[0];
    var rest := Watch(Newest(LAST_ID, id), arrivals[1..]);
    AskedFirst(Asked(LAST_ID, id), rest.requests, 0);
    TakenFirst(Taken(LAST_ID, id), rest.advanced, 0);
  }

  lemma {:induction false} ZeroCounted(recent: SequenceId, arrivals: seq<SequenceId>)
    requires !NothingAfterLast(recent, arrivals)
    ensures
      var w := Watch(recent, arrivals);
      TimesAsked(w.requests, 0) + TimesTaken(w.advanced, 0) > 0
    decreases |arrivals|
  {
    if recent == LAST_ID {
      ZeroComesBack(arrivals);
    } else {
      var id := arrivals[0];
      var k :| 0 <= k < |arrivals| - 1 && arrivals[k] == LAST_ID;
      assert k > 0 ==> arrivals[1..][k - 1] == LAST_ID;
      ZeroCounted(Newest(recent, id), arrivals[1..]);
      var rest := Watch(Newest(recent, id), arrivals[1..]);
      AskedFirst(Asked(recent, id), rest.requests, 0);
      TakenFirst(Taken(recent, id), rest.advanced, 0);
    }
  }

  /** For every sequence of arrivals: each packet is accounted for exactly once if and only if nothing
      comes after the last 64-bit id. */
  lemma OnceExactly(recent: SequenceId, arrivals: seq<SequenceId>)
    ensures (forall id :: AccountedOnce(recent, Watch(recent, arrivals), id)) <==> NothingAfterLast(recent, arrivals)
  {
    if NothingAfterLast(recent, arrivals) {
      forall id ensures AccountedOnce(recent, Watch(recent, arrivals), id) {
        EveryPacketOnce(recent, arrivals, id);
      }
    } else {
      ZeroCounted(recent, arrivals);
      assert !AccountedOnce(recent, Watch(recent, arrivals), 0);
    }
  }

  /** A detector that has seen the last 64-bit id starts over: it asks for everything below the next
      packet, from packet 0 on. */
  method StartsOver(id: SequenceId) returns (detector: GapDetector, request: Option<RetransmitRequest>)
    requires id > 0
    ensures request == Some(RetransmitRequest(0, id)) && detector.mostRecent == id
  {
    detector := new GapDetector(0);
    var _ := detector.HasGap(LAST_ID);
    request := detector.HasGap(id);
  }

  /** One arrival accounts for the packets between the newest before it and the newest after it. */
  lemma OnePacket(recent: SequenceId, arrival: SequenceId, id: SequenceId)
    requires recent != LAST_ID
    ensures
      var next := Newest(recent, arrival);
      && recent <= next && (next == LAST_ID ==> arrival == LAST_ID)
      && TimesAsked(Asked(recent, arrival), id) + TimesTaken(Taken(recent, arrival), id)
        == if recent < id <= next then 1 else 0
  {
  }

  lemma AskedFirst(a: seq<RetransmitRequest>, b: seq<RetransmitRequest>, id: SequenceId)
    requires |a| <= 1
    ensures TimesAsked(a + b, id) == TimesAsked(a, id) + TimesAsked(b, id)
  {
    assert if a == [] then a + b == b else (a + b)[1..] == b;
  }

  lemma TakenFirst(a: seq<SequenceId>, b: seq<SequenceId>, id: SequenceId)
    requires |a| <= 1
    ensures TimesTaken(a + b, id) == TimesTaken(a, id) + TimesTaken(b, id)
  {
    assert if a == [] then a + b == b else (a + b)[1..] == b;
  }

  /** The ranges come in order, none empty, each ending at a packet that has arrived. */
  ghost predicate Ordered(recent: SequenceId, requests: seq<RetransmitRequest>, arrivals: seq<SequenceId>) {
    && (forall k :: 0 <= k < |requests| ==>
        recent < requests[k].first < requests[k].last && requests[k].last in arrivals)
    && (forall j, k :: 0 <= j < k < |requests| ==> requests[j].last < requests[k].first)
  }

  lemma {:induction false} RequestsOrdered(recent: SequenceId, arrivals: seq<SequenceId>)
    requires NothingAfterLast(recent, arrivals)
    ensures Ordered(recent, Watch(recent, arrivals).requests, arrivals)
    decreases |arrivals|
  {
    if arrivals != [] {
      RequestsOrdered(Newest(recent, arrivals[0]), arrivals[1..]);
    }
  }

  /** What has arrived so far decides what was asked so far. */
  lemma {:induction false} WatchAppend(recent: SequenceId, a: seq<SequenceId>, id: SequenceId)
    ensures
      var w := Watch(recent, a);
      Watch(recent, a + [id]) == Watched(Newest(w.newest, id),
        w.requests + Asked(w.newest, id), w.advanced + Taken(w.newest, id))
    decreases |a|
  {
    if a == [] {
      assert [] + [id] == [id] && [id][1..] == [];
    } else {
      WatchAppend(Newest(recent, a[0]), a[1..], id);
      assert (a + [id])[1..] == a[1..] + [id];
    }
  }
}
