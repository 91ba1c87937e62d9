/** The TypeScript exporter's ring buffer: it refines a bounded queue that drops its oldest element when full. */
module CircularBuffer {
  import opened Prelude
  import opened Ledger

  /** The slot `i` places after `tail`, going round. */
  function Slot(tail: nat, i: nat, capacity: nat): (j: nat)
    requires tail < capacity && i <= capacity
    ensures j < capacity
  {
    if tail + i < capacity then tail + i else tail + i - capacity
  }

  function Next(j: nat, capacity: nat): (k: nat)
    requires j < capacity
    ensures k == Slot(j, 1, capacity)
  {
    (j + 1) % capacity
  }

  /** How many elements `dequeue(count)` takes from `size`. */
  function Taken(count: int, size: nat): (n: nat)
    ensures n <= size
  {
    Max(0, Min(count, size))
  }

  /** Exactly the `size` slots from `tail` on are in use. */
  ghost predicate Window<T(!new)>(slots: seq<Option<T>>, tail: nat, size: nat) {
    && tail < |slots| && size <= |slots|
    && forall i :: 0 <= i < |slots| ==> (slots[Slot(tail, i, |slots|)].Some? <==> i < size)
  }

  ghost function Elements<T(!new)>(slots: seq<Option<T>>, tail: nat, size: nat): (s: seq<T>)
    requires Window(slots, tail, size)
    ensures |s| == size
    ensures forall i :: 0 <= i < size ==> s[i] == slots[Slot(tail, i, |slots|)].value
  {
    seq(size, i requires 0 <= i < size => slots[Slot(tail, i, |slots|)].value)
  }

  lemma Appended<T(!new)>(slots: seq<Option<T>>, tail: nat, size: nat, item: T)
    requires Window(slots, tail, size) && size < |slots|
    ensures var slots' := slots[Slot(tail, size, |slots|) := Some(item)];
            Window(slots', tail, size + 1) && Elements(slots', tail, size + 1) == Elements(slots, tail, size) + [item]
  {}

  lemma Overwritten<T(!new)>(slots: seq<Option<T>>, tail: nat, item: T)
    requires Window(slots, tail, |slots|)
    ensures var slots', tail' := slots[tail := Some(item)], Slot(tail, 1, |slots|);
            Window(slots', tail', |slots|)
                && Elements(slots', tail', |slots|) == Elements(slots, tail, |slots|)[1..] + [item]
  {
    var n := |slots|;
    var slots', tail' := slots[tail := Some(item)], Slot(tail, 1, n);
    forall i | 0 <= i < n
      ensures slots'[Slot(tail', i, n)].Some?
      ensures slots'[Slot(tail', i, n)].value == if i == n - 1 then item else Elements(slots, tail, n)[i + 1]
    {
      assert Slot(tail', i, n) == if i == n - 1 then tail else Slot(tail, i + 1, n);
    }
  }

  /** Writing into the slot behind the window makes the elements the newest that fit. */
  lemma Enqueued<T(!new)>(slots: seq<Option<T>>, tail: nat, size: nat, item: T)
    requires Window(slots, tail, size)
    ensures var slots' := slots[Slot(tail, size, |slots|) := Some(item)];
            var tail', size' := if size < |slots| then tail else Slot(tail, 1, |slots|), Min(size + 1, |slots|);
            && Window(slots', tail', size')
            && Elements(slots', tail', size') == Newest(Elements(slots, tail, size) + [item], |slots|)
  {
    if size < |slots| {
      Appended(slots, tail, size, item);
    } else {
      Overwritten(slots, tail, item);
    }
  }

  lemma Removed<T(!new)>(slots: seq<Option<T>>, tail: nat, size: nat)
    requires Window(slots, tail, size) && size > 0
    ensures slots[tail].Some?
    ensures var slots', tail' := slots[tail := None], Slot(tail, 1, |slots|);
            Window(slots', tail', size - 1)
            && slots[tail].value == Elements(slots, tail, size)[0]
            && Elements(slots', tail', size - 1) == Elements(slots, tail, size)[1..]
  {
    var n := |slots|;
    var slots', tail' := slots[tail := None], Slot(tail, 1, n);
    assert Slot(tail, 0, n) == tail;
    forall i | 0 <= i < n
      ensures slots'[Slot(tail', i, n)] == if i == n - 1 then None else slots[Slot(tail, i + 1, n)]
    {
      assert Slot(tail', i, n) == if i == n - 1 then tail else Slot(tail, i + 1, n);
    }
  }

  class CircularBuffer<T(!new)> {
    const buf: array<Option<T>>
    var head: nat
    var tail: nat
    var size: nat

    ghost predicate Valid()
      reads this, buf
    {
      Window(buf[..], tail, size) && head == Slot(tail, size, buf.Length)
    }

    /** The queued elements, oldest first. */
    ghost function Contents(): (s: seq<T>)
      requires Valid()
      reads this, buf
      ensures |s| == size
    {
      Elements(buf[..], tail, size)
    }

    constructor (capacity: nat)
      requires capacity > 0
      ensures Valid() && fresh(buf) && buf.Length == capacity && Contents() == []
    {
      buf := new Option<T>[capacity](_ => None);
      head, tail, size := 0, 0, 0;
    }

    /** The contents are always the newest elements that fit. */
    method Enqueue(item: T)
      requires Valid()
      modifies this, buf
      ensures Valid() && Contents() == Newest(old(Contents()) + [item], buf.Length)
    {
      var capacity := buf.Length;
      Enqueued(buf[..], tail, size, item);
      ghost var slots := buf[..][head := Some(item)];
      buf[head] := Some(item);
      assert buf[..] == slots;
      head := Next(head, capacity);
      if size < capacity {
        size := size + 1;
      } else {
        tail := Next(tail, capacity);
      }
    }

    /** One turn of the loop of `dequeue`; the freed slot is cleared. */
    method TakeOldest() returns (item: T)
      requires Valid() && size > 0
      modifies this, buf
      ensures Valid() && item == old(Contents())[0] && Contents() == old(Contents())[1..]
    {
      var capacity := buf.Length;
      ghost var was := buf[..];
      Removed(was, tail, size);
      item := buf[tail].value;
      buf[tail] := None;
      assert buf[..] == was[tail := None];
      tail := Next(tail, capacity);
      size := size - 1;
    }

    method Dequeue(count: int) returns (out: seq<T>)
      requires Valid()
      modifies this, buf
      ensures Valid()
      ensures var n := Taken(count, |old(Contents())|);
              out == old(Contents())[..n] && Contents() == old(Contents())[n..]
    {
      out := [];
      var n := Min(count, size);
      ghost var was := Contents();
      var i := 0;
      while i < n
        invariant Valid() && 0 <= i <= Taken(count, |was|) && Max(0, n) == Taken(count, |was|)
        invariant out == was[..i] && Contents() == was[i..]
      {
        var item := TakeOldest();
        assert was[..i] + [was[i]] == was[..i + 1];
        out := out + [item];
        i := i + 1;
      }
    }
  }
}
