// The bounded queue between threads, seen by one thread at a time. The semaphore counts what
// may be taken; taking waits for it, so a caller of GetBlocking comes in when it is positive.
module BlockingQueue {
  class Queue<T> {
    const capacity: nat
    const dropsOldest: bool
    var items: seq<T>
    var semaphore: nat

    ghost predicate Valid()
      reads this
    {
      |items| == semaphore <= capacity
    }

    constructor (capacity: nat, dropsOldest: bool)
      ensures Valid() && items == [] && this.capacity == capacity && this.dropsOldest == dropsOldest
    {
      this.capacity, this.dropsOldest, items, semaphore := capacity, dropsOldest, [], 0;
    }

    // Without an overflow callback a full queue makes the source abort; with one, it is
    // handed the oldest item.
    method Put(thing: T) returns (dropped: seq<T>)
      requires Valid() && (!dropsOldest ==> |items| < capacity)
      modifies this
      ensures Valid() && dropped + items == old(items) + [thing]
      ensures dropped == if |old(items)| < capacity then [] else (old(items) + [thing])[..1]
    {
      items := items + [thing];
      dropped := [];
      var didOverflow := false;
      while |items| > capacity
        invariant dropped + items == old(items) + [thing]
        invariant semaphore == old(semaphore) && didOverflow == (|dropped| > 0)
        invariant |dropped| <= 1 && (didOverflow ==> |items| == capacity == |old(items)|)
        invariant !didOverflow ==> |items| == |old(items)| + 1
        decreases |items|
      {
        didOverflow := true;
        dropped := dropped + [items[0]];
        items := items[1..];
      }
      if !didOverflow {
        semaphore := semaphore + 1;
      }
    }

    method GetBlocking() returns (thing: T)
      requires Valid() && semaphore > 0
      modifies this
      ensures Valid() && [thing] + items == old(items)
    {
      semaphore := semaphore - 1;
      thing := items[0];
      items := items[1..];
    }
  }
}
