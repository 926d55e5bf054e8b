/** The linear-probing hash map of includes/order-book/closed-hash-map.hpp. */
module ClosedHashing {
  import opened Machine

  datatype SlotStatus = Empty | Tombstone | Occupied

  datatype KeyValuePair<K, V> = KeyValuePair(key: K, value: V)

  /** The slot reached from `home` after `d` probes of a table of `capacity` slots. */
  function Probe(home: nat, d: nat, capacity: nat): (i: nat)
    requires home < capacity && d < capacity
    ensures i < capacity
  {
    if home + d < capacity then home + d else home + d - capacity
  }

  /** How many probes lead from `home` to slot `i`. */
  function Distance(home: nat, i: nat, capacity: nat): (d: nat)
    requires home < capacity && i < capacity
    ensures d < capacity && Probe(home, d, capacity) == i
    ensures forall e: nat | e < capacity && Probe(home, e, capacity) == i :: e == d
  {
    if home <= i then i - home else i + capacity - home
  }

  /** A fixed-capacity map from keys to values. `contents` is the finite map it stands for and
      `slotOf` says which slot holds each live key. The hash function is arbitrary. */
  class ClosedHashMap<K(==), V> {
    const capacity: nat
    const hash: K -> nat
    const slots: array<KeyValuePair<K, V>>
    const occupied: array<SlotStatus>
    ghost var contents: map<K, V>
    ghost var slotOf: map<K, nat>

    ghost predicate Shape() {
      IsPowerOfTwo(capacity) && slots.Length == capacity && occupied.Length == capacity
    }

    function Home(key: K): (i: nat)
      requires Shape()
      ensures i < capacity
    {
      Mask(hash(key), capacity)
    }

    /** No Empty slot lies on the cyclic path from `home` to the slot `d` probes away. */
    ghost predicate Unbroken(home: nat, d: nat)
      requires Shape() && home < capacity && d < capacity
      reads occupied
    {
      forall e :: 0 <= e < d ==> occupied[Probe(home, e, capacity)] != Empty
    }

    /** Every slot on the cyclic path from `home` to the slot `d` probes away is Occupied. */
    ghost predicate Taken(home: nat, d: nat)
      requires Shape() && home < capacity && d < capacity
      reads occupied
    {
      forall e :: 0 <= e < d ==> occupied[Probe(home, e, capacity)] == Occupied
    }

    /** A live key sits in an Occupied slot that its probe path reaches. */
    ghost predicate KeyOk(k: K)
      requires Shape() && k in contents && k in slotOf
      reads this, slots, occupied
    {
      && slotOf[k] < capacity
      && occupied[slotOf[k]] == Occupied
      && slots[slotOf[k]] == KeyValuePair(k, contents[k])
      && Unbroken(Home(k), Distance(Home(k), slotOf[k], capacity))
    }

    /** An Occupied slot is the slot of its own key. */
    ghost predicate SlotOk(i: nat)
      requires Shape() && i < capacity
      reads this, slots, occupied
    {
      occupied[i] == Occupied ==> slots[i].key in contents && slots[i].key in slotOf && slotOf[slots[i].key] == i
    }

    ghost predicate Valid()
      reads this, slots, occupied
    {
      && Shape()
      && slotOf.Keys == contents.Keys
      && (forall k {:trigger KeyOk(k)} :: k in contents ==> KeyOk(k))
      && (forall i {:trigger SlotOk(i)} :: 0 <= i < capacity ==> SlotOk(i))
    }

    constructor (capacity: nat, hash: K -> nat, blank: KeyValuePair<K, V>)
      requires IsPowerOfTwo(capacity)
      ensures Valid() && contents == map[]
      ensures this.capacity == capacity && this.hash == hash
      ensures fresh(slots) && fresh(occupied)
    {
      this.capacity := capacity;
      this.hash := hash;
      slots := new KeyValuePair<K, V>[capacity](_ => blank);
      occupied := new SlotStatus[capacity](_ => Empty);
      contents := map[];
      slotOf := map[];
    }

    /** The next slot of a probe sequence. */
    function Next(home: nat, probes: nat, i: nat): (j: nat)
      requires Shape() && home < capacity && probes < capacity && i == Probe(home, probes, capacity)
      ensures probes + 1 < capacity ==> j == Probe(home, probes + 1, capacity)
      ensures j < capacity
    {
      RemainderOfSmall(i + 1, capacity);
      Mask(i + 1, capacity)
    }

    /** First slot along the probe path of `key` that is not Occupied. */
    method ProbeNew(key: K) returns (slot: Option<nat>)
      requires Valid()
      ensures slot.Some? ==>
          && slot.value < capacity && occupied[slot.value] != Occupied
          && Taken(Home(key), Distance(Home(key), slot.value, capacity))
      ensures slot.None? <==> forall i :: 0 <= i < capacity ==> occupied[i] == Occupied
    {
      var home := Home(key);
      var idx := home;
      var probes := 0;
      while probes < capacity
        invariant 0 <= probes <= capacity
        invariant probes < capacity ==> idx == Probe(home, probes, capacity)
        invariant forall d :: 0 <= d < probes ==> occupied[Probe(home, d, capacity)] == Occupied
      {
        if occupied[idx] != Occupied {
          return Some(idx);
        }
        idx := Next(home, probes, idx);
        probes := probes + 1;
      }
      forall i | 0 <= i < capacity ensures occupied[i] == Occupied {
        assert Probe(home, Distance(home, i, capacity), capacity) == i;
      }
      return None;
    }

    /** The slot of a live key, found without looking past the first Empty slot. */
    method ProbeExisting(key: K) returns (slot: Option<nat>)
      requires Valid()
      ensures slot.Some? <==> key in contents
      ensures slot.Some? ==> slot.value < capacity && slot.value == slotOf[key] && occupied[slot.value] == Occupied
      ensures slot.Some? ==> slots[slot.value] == KeyValuePair(key, contents[key])
    {
      assert key in contents ==> KeyOk(key);
      var home := Home(key);
      var idx := home;
      var probes := 0;
      while probes < capacity
        invariant 0 <= probes <= capacity
        invariant probes < capacity ==> idx == Probe(home, probes, capacity)
        invariant key in contents ==> probes <= Distance(home, slotOf[key], capacity)
      {
        assert SlotOk(idx);
        if occupied[idx] == Empty {
          return None;
        }
        if occupied[idx] == Occupied && slots[idx].key == key {
          return Some(idx);
        }
        idx := Next(home, probes, idx);
        probes := probes + 1;
      }
      return None;
    }

    /** `find`: a reference to the stored value, here the slot that holds it. */
    method Find(key: K) returns (slot: Option<nat>)
      requires Valid()
      ensures slot.Some? <==> key in contents
      ensures slot.Some? ==> slot.value < capacity && slot.value == slotOf[key] && occupied[slot.value] == Occupied
      ensures slot.Some? ==> slots[slot.value] == KeyValuePair(key, contents[key])
    {
      slot := ProbeExisting(key);
    }

    function ValueAt(slot: nat): V
      requires slot < slots.Length
      reads slots
    {
      slots[slot].value
    }

    /** Assignment through a reference obtained from `Find`. */
    method Assign(slot: nat, value: V)
      requires Valid() && slot < capacity && occupied[slot] == Occupied
      modifies this, slots
      ensures Valid()
      ensures contents == old(contents)[old(slots[slot].key) := value] && slotOf == old(slotOf)
    {
      assert SlotOk(slot);
      slots[slot] := KeyValuePair(slots[slot].key, value);
      contents := contents[slots[slot].key := value];
      forall k | k in contents ensures KeyOk(k) {
        assert old(KeyOk(k));
      }
      forall i | 0 <= i < capacity ensures SlotOk(i) {
        assert old(SlotOk(i));
      }
    }

    /** A table holding fewer live keys than slots has a slot to give. */
    lemma HasRoom()
      requires Valid() && |contents| < capacity
      ensures exists i :: 0 <= i < capacity && occupied[i] != Occupied
    {
      if forall i :: 0 <= i < capacity ==> occupied[i] == Occupied {
        var held := LiveKeys(capacity);
        assert held <= contents.Keys;
        SubsetSize(held, contents.Keys);
      }
    }

    /** When every slot is Occupied, the first n slots hold n different keys. */
    lemma {:induction false} LiveKeys(n: nat) returns (held: set<K>)
      requires Valid() && n <= capacity
      requires forall i :: 0 <= i < capacity ==> occupied[i] == Occupied
      ensures |held| == n && held <= contents.Keys
      ensures forall k :: k in held ==> k in slotOf && slotOf[k] < n
      decreases n
    {
      if n == 0 {
        held := {};
      } else {
        var rest := LiveKeys(n - 1);
        assert SlotOk(n - 1);
        held := rest + {slots[n - 1].key};
      }
    }

    /** `add`: the caller looks the key up first, so it is absent. */
    method Add(key: K, value: V)
      requires Valid() && key !in contents && |contents| < capacity
      modifies this, slots, occupied
      ensures Valid() && contents == old(contents)[key := value]
    {
      HasRoom();
      var slot := ProbeNew(key);
      slots[slot.value] := KeyValuePair(key, value);
      occupied[slot.value] := Occupied;
      contents := contents[key := value];
      slotOf := slotOf[key := slot.value];
      forall k | k in contents ensures KeyOk(k) {
        assert k != key ==> old(KeyOk(k));
      }
      forall i | 0 <= i < capacity ensures SlotOk(i) {
        assert old(SlotOk(i));
      }
    }

    /** `remove`: leaves a tombstone, and is safe on an absent key. */
    method Remove(key: K) returns (removed: bool)
      requires Valid()
      modifies this, occupied
      ensures Valid() && removed == (key in old(contents))
      ensures contents == old(contents) - {key}
    {
      var slot := ProbeExisting(key);
      if slot.None? {
        return false;
      }
      occupied[slot.value] := Tombstone;
      contents := contents - {key};
      slotOf := slotOf - {key};
      forall k | k in contents ensures KeyOk(k) {
        assert old(KeyOk(k));
      }
      forall i | 0 <= i < capacity ensures SlotOk(i) {
        assert old(SlotOk(i));
        assert old(KeyOk(key));
      }
      return true;
    }
  }
}
