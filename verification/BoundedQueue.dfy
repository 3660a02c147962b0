/**
 The ring buffer between the threads of `cpp/src/self_play.cpp`, refining a bounded first-in
 first-out sequence. A call that would wait on a condition variable returns `WouldWait` and changes
 nothing; a stop request is a parameter.
 */
module BoundedQueues {
  import opened Board

  datatype Push = Pushed | Refused | TooLarge | WouldWait

  datatype Pop<T> = Popped(value: T) | Nothing | WouldBlock

  /** The slot `offset` places after `head`. */
  function Slot(head: nat, offset: nat, capacity: nat): nat
    requires capacity > 0
  {
    (head + offset) % capacity
  }

  lemma ModSmall(x: nat, capacity: nat)
    requires capacity > 0
    ensures x < capacity ==> x % capacity == x
    ensures capacity <= x < 2 * capacity ==> x % capacity == x - capacity
  {
    if capacity <= x < 2 * capacity {
      assert x == capacity + (x - capacity);
    }
  }

  lemma SlotInjective(head: nat, i: nat, j: nat, capacity: nat)
    requires head < capacity && i < capacity && j < capacity && i != j
    ensures Slot(head, i, capacity) != Slot(head, j, capacity)
    ensures Slot(head, i, capacity) < capacity
  {
    ModSmall(head + i, capacity);
    ModSmall(head + j, capacity);
  }

  lemma SlotNext(head: nat, offset: nat, capacity: nat)
    requires head < capacity && offset <= capacity
    ensures (Slot(head, offset, capacity) + 1) % capacity == Slot(head, offset + 1, capacity)
  {
    ModSmall(head + offset, capacity);
    ModSmall(head + offset + 1, capacity);
    ModSmall(Slot(head, offset, capacity) + 1, capacity);
    if head + offset + 1 == 2 * capacity {
      assert (2 * capacity) % capacity == 0;
    }
  }

  lemma SlotAdvance(head: nat, offset: nat, capacity: nat)
    requires head < capacity && offset < capacity
    ensures Slot((head + 1) % capacity, offset, capacity) == Slot(head, offset + 1, capacity)
  {
    ModSmall(head + 1, capacity);
    ModSmall((head + 1) % capacity + offset, capacity);
    ModSmall(head + offset + 1, capacity);
  }

  class BoundedQueue<T> {
    const capacity: nat
    const slots: array<Option<T>>
    var head: nat
    var tail: nat
    var size: nat
    var closed: bool
    ghost var contents: seq<T>

    ghost predicate Valid()
      reads this, slots
    {
      && capacity > 0 && slots.Length == capacity
      && head < capacity && size <= capacity && |contents| == size
      && tail == Slot(head, size, capacity)
      && (forall i: nat :: i < size ==> slots[Slot(head, i, capacity)] == Some(contents[i]))
      && (forall i: nat :: size <= i < capacity ==> slots[Slot(head, i, capacity)] == None)
    }

    constructor (capacity: nat)
      requires capacity > 0
      ensures Valid() && fresh(slots) && this.capacity == capacity && contents == [] && !closed
    {
      this.capacity := capacity;
      slots := new Option<T>[capacity](_ => None);
      head, tail, size, closed, contents := 0, 0, 0, false, [];
    }

    /** Stores one value behind the others. */
    method Enqueue(value: T)
      requires Valid() && size < capacity
      modifies this`tail, this`size, this`contents, slots
      ensures Valid() && contents == old(contents) + [value]
    {
      SlotNext(head, size, capacity);
      forall i: nat | i < capacity && i != size ensures Slot(head, i, capacity) != tail {
        SlotInjective(head, i, size, capacity);
      }
      SlotBound(head, size, capacity);
      slots[tail] := Some(value);
      tail := (tail + 1) % capacity;
      size := size + 1;
      contents := contents + [value];
    }

    /** Takes the oldest value. */
    method Dequeue() returns (value: T)
      requires Valid() && size > 0
      modifies this`head, this`size, this`contents, slots
      ensures Valid() && old(contents) == [value] + contents
    {
      SlotBound(head, 0, capacity);
      forall i: nat | 0 < i < capacity ensures Slot(head, i, capacity) != Slot(head, 0, capacity) {
        SlotInjective(head, i, 0, capacity);
      }
      var next := (head + 1) % capacity;
      forall i: nat | i < capacity ensures Slot(next, i, capacity) == Slot(head, i + 1, capacity) {
        SlotAdvance(head, i, capacity);
      }
      WrapAround(head, capacity);
      value := slots[head].value;
      slots[head] := None;
      head := next;
      size := size - 1;
      contents := contents[1..];
    }

    method TryPush(value: T, stop: bool) returns (r: Push)
      requires Valid()
      modifies this`tail, this`size, this`contents, slots
      ensures Valid()
      ensures r == if closed || stop then Refused else if |old(contents)| < capacity then Pushed else WouldWait
      ensures contents == if r.Pushed? then old(contents) + [value] else old(contents)
    {
      if closed || stop {
        return Refused;
      }
      if size >= capacity {
        return WouldWait;
      }
      Enqueue(value);
      r := Pushed;
    }

    /** All values or none. An empty batch succeeds even on a closed queue. */
    method TryPushBatch(values: seq<T>, stop: bool) returns (r: Push)
      requires Valid()
      modifies this`tail, this`size, this`contents, slots
      ensures Valid()
      ensures r == if values == [] then Pushed else if |values| > capacity then TooLarge
                   else if closed || stop then Refused
                   else if capacity - |old(contents)| >= |values| then Pushed else WouldWait
      ensures contents == if r.Pushed? then old(contents) + values else old(contents)
    {
      if values == [] {
        return Pushed;
      }
      if |values| > capacity {
        return TooLarge;
      }
      if closed || stop {
        return Refused;
      }
      if capacity - size < |values| {
        return WouldWait;
      }
      for i := 0 to |values|
        invariant Valid() && contents == old(contents) + values[..i]
      {
        Enqueue(values[i]);
        assert values[..i + 1] == values[..i] + [values[i]];
      }
      assert values[..|values|] == values;
      r := Pushed;
    }

    /** A closed queue still hands out what it holds. */
    method TryPop(stop: bool) returns (r: Pop<T>)
      requires Valid()
      modifies this`head, this`size, this`contents, slots
      ensures Valid()
      ensures r.Popped? <==> !stop && old(contents) != []
      ensures r.WouldBlock? <==> !stop && !closed && old(contents) == []
      ensures r.Popped? ==> old(contents) == [r.value] + contents
      ensures !r.Popped? ==> contents == old(contents)
    {
      if !closed && !stop && size == 0 {
        return WouldBlock;
      }
      if stop || size == 0 {
        return Nothing;
      }
      var value := Dequeue();
      r := Popped(value);
    }

    method DrainAvailable(destination: seq<T>) returns (all: seq<T>)
      requires Valid()
      modifies this`head, this`size, this`contents, slots
      ensures Valid() && contents == []
      ensures all == destination + old(contents)
    {
      all := destination;
      while size != 0
        invariant Valid() && all + contents == destination + old(contents)
        decreases size
      {
        var value := Dequeue();
        all := all + [value];
      }
    }

    method Close()
      requires Valid()
      modifies this`closed
      ensures Valid() && closed && contents == old(contents)
    {
      closed := true;
    }
  }

  lemma SlotBound(head: nat, offset: nat, capacity: nat)
    requires head < capacity && offset < capacity
    ensures Slot(head, offset, capacity) < capacity
    ensures Slot(head, 0, capacity) == head
  {
    ModSmall(head, capacity);
  }

  /** One place past the last slot is the first again. */
  lemma WrapAround(head: nat, capacity: nat)
    requires head < capacity
    ensures Slot(head, capacity, capacity) == head
  {
    ModSmall(head + capacity, capacity);
  }
}
