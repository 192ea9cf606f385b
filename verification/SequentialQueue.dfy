/** `threading::Queue` run without interleaving: the same arrays, counters and loops as the
    source, proved to be a bounded first-in first-out queue. */
module SequentialQueue {
  import opened Bits
  import opened QueueProtocol

  class Queue<T(0)> {
    ghost var Contents: seq<T>

    const capacity: nat
    const mask: nat
    const index: array<nat> // Slot::Index
    const data: array<T>    // Slot::Data
    var nextEnqueue: nat
    var nextDequeue: nat

    ghost predicate Valid()
      reads this, index, data
    {
      && IsPow2(capacity) && capacity >= 2 && mask == capacity - 1
      && index.Length == data.Length == capacity && index as object != data as object
      && nextDequeue <= nextEnqueue <= nextDequeue + capacity
      && |Contents| == nextEnqueue - nextDequeue
      && (forall k: nat | nextDequeue <= k < nextEnqueue ::
            index[SlotOf(capacity, k)] == k + 1 && data[SlotOf(capacity, k)] == Contents[k - nextDequeue])
      && (forall k: nat | nextEnqueue <= k < nextDequeue + capacity :: index[SlotOf(capacity, k)] == k)
    }

    /** The source asserts a positive power of two; capacity 1 passes that assertion, but no
        queue of capacity 1 is valid. */
    constructor (capacity: nat)
      requires 0 < capacity < WORD && BitAnd(capacity, capacity - 1) == 0
      ensures capacity >= 2 ==> Valid()
      ensures this.capacity == capacity && Contents == [] && nextEnqueue == nextDequeue == 0
      ensures fresh(index) && fresh(data)
    {
      this.capacity := capacity;
      this.mask := capacity - 1;
      var slots := new nat[capacity];
      var i := 0;
      while i < capacity
        invariant i <= capacity
        invariant forall j | 0 <= j < i :: slots[j] == j
      {
        slots[i] := i;
        i := i + 1;
      }
      this.index := slots;
      this.data := new T[capacity];
      this.nextEnqueue, this.nextDequeue := 0, 0;
      this.Contents := [];
      new;
      PowerOfTwoTest(capacity);
      forall k: nat | k < capacity ensures SlotOf(capacity, k) == k {
        FirstLap(capacity, k);
      }
    }

    /** Tickets inside one window of `capacity` use different slots. */
    lemma DistinctSlots(a: nat, b: nat)
      requires IsPow2(capacity) && a != b && a < b + capacity && b < a + capacity
      ensures SlotOf(capacity, a) != SlotOf(capacity, b)
    {
      if SlotOf(capacity, a) == SlotOf(capacity, b) {
        if a < b { SameSlot(capacity, a, b); } else { SameSlot(capacity, b, a); }
      }
    }

    /** `spurious` is how often the weak compare-and-swap fails without reason. */
    method Push(x: T, spurious: nat) returns (ok: bool)
      requires Valid() && nextEnqueue + 1 < WORD
      modifies this`nextEnqueue, this`Contents, index, data
      ensures Valid()
      ensures ok <==> |old(Contents)| < capacity
      ensures Contents == if ok then old(Contents) + [x] else old(Contents)
      ensures nextEnqueue == old(nextEnqueue) + if ok then 1 else 0
    {
      var next := nextEnqueue;
      var slot: nat;
      var failures := spurious;
      while true
        invariant next == nextEnqueue == old(nextEnqueue) && Contents == old(Contents)
        invariant Valid() && unchanged(index) && unchanged(data)
        decreases failures
      {
        slot := BitAnd(next, mask);
        assert slot == SlotOf(capacity, next);
        var i := index[slot];
        FullMeans(next);
        if next == i {
          if failures == 0 {
            nextEnqueue := next + 1;
            break;
          }
          failures := failures - 1;
        } else if next > i {
          return false;
        } else {
          assert false; // without another thread `next` is never outdated
        }
      }
      forall k: nat | nextDequeue <= k < nextDequeue + capacity && k != next
        ensures SlotOf(capacity, k) != slot
      {
        DistinctSlots(k, next);
      }
      data[slot] := x;
      index[slot] := next + 1;
      Contents := Contents + [x];
      assert slot == SlotOf(capacity, next);
      return true;
    }

    /** The slot of the enqueue counter shows it unless the queue is full. */
    lemma FullMeans(next: nat)
      requires Valid() && next == nextEnqueue
      ensures |Contents| < capacity ==> index[SlotOf(capacity, next)] == next
      ensures |Contents| == capacity ==> index[SlotOf(capacity, next)] < next
    {
      if |Contents| == capacity {
        NextLap(capacity, nextDequeue);
        assert index[SlotOf(capacity, nextDequeue)] == nextDequeue + 1;
      }
    }

    method Pop(spurious: nat) returns (ok: bool, x: T)
      requires Valid() && nextDequeue + capacity < WORD
      modifies this`nextDequeue, this`Contents, index, data
      ensures Valid()
      ensures ok <==> old(Contents) != []
      ensures ok ==> x == old(Contents)[0] && Contents == old(Contents)[1..]
      ensures !ok ==> Contents == old(Contents)
      ensures nextDequeue == old(nextDequeue) + if ok then 1 else 0
    {
      x := *;
      var next := nextDequeue;
      var slot: nat;
      var failures := spurious;
      while true
        invariant next == nextDequeue == old(nextDequeue) && Contents == old(Contents)
        invariant Valid() && unchanged(index) && unchanged(data)
        decreases failures
      {
        slot := BitAnd(next, mask);
        assert slot == SlotOf(capacity, next);
        var i := index[slot];
        assert i == if Contents == [] then next else next + 1;
        if next + 1 == i {
          if failures == 0 {
            nextDequeue := next + 1;
            break;
          }
          failures := failures - 1;
        } else if next + 1 > i {
          return false, x;
        } else {
          assert false; // without another thread `next` is never outdated
        }
      }
      x := data[slot];
      data[slot] := *; // moved from
      forall k: nat | next < k < next + capacity ensures SlotOf(capacity, k) != slot {
        DistinctSlots(k, next);
      }
      NextLap(capacity, next);
      index[slot] := next + capacity;
      Contents := Contents[1..];
      return true, x;
    }
  }
}
