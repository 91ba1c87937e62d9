/**
 What happens to the events of a bounded queue: the oldest leaves first, either into a batch or evicted to make room.
 */
module Ledger {
  datatype Exit<+T> = Evicted(event: T) | Batched(event: T)

  /** Everything that left the queue, in order. */
  function Left<T>(exits: seq<Exit<T>>): seq<T> {
    if exits == [] then [] else Left(exits[..|exits| - 1]) + [exits[|exits| - 1].event]
  }

  /** What left in batches, in order. */
  function Shipped<T>(exits: seq<Exit<T>>): seq<T> {
    if exits == [] then []
    else
      var earlier, last := Shipped(exits[..|exits| - 1]), exits[|exits| - 1];
      if last.Batched? then earlier + [last.event] else earlier
  }

  function Evictions<T>(exits: seq<Exit<T>>): nat {
    if exits == [] then 0
    else Evictions(exits[..|exits| - 1]) + if exits[|exits| - 1].Evicted? then 1 else 0
  }

  function AsBatch<T>(batch: seq<T>): (exits: seq<Exit<T>>)
    ensures |exits| == |batch| && forall i :: 0 <= i < |batch| ==> exits[i] == Batched(batch[i])
  {
    seq(|batch|, i requires 0 <= i < |batch| => Batched(batch[i]))
  }

  /** The last `n` of `s`, or all of them. */
  function Newest<T>(s: seq<T>, n: nat): seq<T> {
    if |s| <= n then s else s[|s| - n..]
  }

  lemma NewestAgain<T>(s: seq<T>, e: T, n: nat)
    ensures Newest(Newest(s, n) + [e], n) == Newest(s + [e], n)
  {}

  lemma EndIsNewest<T>(before: seq<T>, end: seq<T>)
    ensures Newest(before + end, |end|) == end
  {}

  /** `part` consists of elements of `whole`, each taken once, in the order of `whole`. */
  ghost predicate PickedBy<T>(part: seq<T>, whole: seq<T>, at: seq<nat>) {
    && |at| == |part|
    && (forall i :: 0 <= i < |at| ==> at[i] < |whole| && whole[at[i]] == part[i])
    && (forall i, j :: 0 <= i < j < |at| ==> at[i] < at[j])
  }

  ghost predicate InOrderPart<T>(part: seq<T>, whole: seq<T>) {
    exists at: seq<nat> :: PickedBy(part, whole, at)
  }

  lemma LeaveOne<T>(exits: seq<Exit<T>>, e: Exit<T>)
    ensures Left(exits + [e]) == Left(exits) + [e.event]
    ensures Shipped(exits + [e]) == if e.Batched? then Shipped(exits) + [e.event] else Shipped(exits)
    ensures Evictions(exits + [e]) == Evictions(exits) + if e.Evicted? then 1 else 0
  {
    assert (exits + [e])[..|exits|] == exits;
  }

  lemma Associate<T>(a: seq<T>, b: seq<T>, c: seq<T>)
    ensures a + (b + c) == a + b + c
  {}

  lemma Regroup<T>(before: seq<T>, s: seq<T>, n: nat)
    requires n <= |s|
    ensures before + s == (before + s[..n]) + s[n..]
  {}

  lemma {:induction false} LeaveBatch<T>(exits: seq<Exit<T>>, batch: seq<T>)
    ensures Left(exits + AsBatch(batch)) == Left(exits) + batch
    ensures Shipped(exits + AsBatch(batch)) == Shipped(exits) + batch
    ensures Evictions(exits + AsBatch(batch)) == Evictions(exits)
    decreases |batch|
  {
    if batch == [] {
      assert exits + AsBatch(batch) == exits;
    } else {
      var n := |batch| - 1;
      LeaveBatch(exits, batch[..n]);
      LeaveOne(exits + AsBatch(batch[..n]), Batched(batch[n]));
      assert exits + AsBatch(batch) == exits + AsBatch(batch[..n]) + [Batched(batch[n])];
      Regroup(Left(exits), batch, n);
      Regroup(Shipped(exits), batch, n);
      assert batch[n..] == [batch[n]];
    }
  }

  /** Moving the head of the queue to the exits, or its first `n` elements, changes nothing about what was accepted. */
  lemma EvictOldest<T>(accepted: seq<T>, exits: seq<Exit<T>>, queue: seq<T>)
    requires accepted == Left(exits) + queue && queue != []
    ensures accepted == Left(exits + [Evicted(queue[0])]) + queue[1..]
    ensures Shipped(exits + [Evicted(queue[0])]) == Shipped(exits)
  {
    LeaveOne(exits, Evicted(queue[0]));
    Regroup(Left(exits), queue, 1);
    assert queue[..1] == [queue[0]];
  }

  lemma ShipOldest<T>(accepted: seq<T>, exits: seq<Exit<T>>, queue: seq<T>, n: nat)
    requires accepted == Left(exits) + queue && n <= |queue|
    ensures accepted == Left(exits + AsBatch(queue[..n])) + queue[n..]
    ensures Shipped(exits + AsBatch(queue[..n])) == Shipped(exits) + queue[..n]
  {
    LeaveBatch(exits, queue[..n]);
    Regroup(Left(exits), queue, n);
  }

  lemma {:induction false} LeftAt<T>(exits: seq<Exit<T>>)
    ensures |Left(exits)| == |exits| && forall k :: 0 <= k < |exits| ==> Left(exits)[k] == exits[k].event
  {
    if exits != [] {
      LeftAt(exits[..|exits| - 1]);
    }
  }

  lemma {:induction false} NoneGoesMissing<T>(exits: seq<Exit<T>>)
    ensures |exits| == |Shipped(exits)| + Evictions(exits)
  {
    if exits != [] {
      NoneGoesMissing(exits[..|exits| - 1]);
    }
  }

  /** Where the shipped events stood among everything that left. */
  function Positions<T>(exits: seq<Exit<T>>): seq<nat> {
    if exits == [] then []
    else
      var n := |exits| - 1;
      if exits[n].Batched? then Positions(exits[..n]) + [n] else Positions(exits[..n])
  }

  lemma {:induction false} PositionsIncrease<T>(exits: seq<Exit<T>>)
    ensures forall i :: 0 <= i < |Positions(exits)| ==> Positions(exits)[i] < |exits|
    ensures forall i, j :: 0 <= i < j < |Positions(exits)| ==> Positions(exits)[i] < Positions(exits)[j]
  {
    if exits != [] {
      PositionsIncrease(exits[..|exits| - 1]);
    }
  }

  lemma {:induction false} PositionsSelect<T>(exits: seq<Exit<T>>, events: seq<T>, i: nat)
    requires |events| == |exits| && forall k :: 0 <= k < |exits| ==> events[k] == exits[k].event
    requires i < |Shipped(exits)|
    ensures i < |Positions(exits)| && Positions(exits)[i] < |events| && events[Positions(exits)[i]] == Shipped(exits)[i]
  {
    var n := |exits| - 1;
    SameNumber(exits[..n]);
    if i < |Shipped(exits[..n])| {
      PositionsSelect(exits[..n], events[..n], i);
    }
  }

  lemma {:induction false} SameNumber<T>(exits: seq<Exit<T>>)
    ensures |Positions(exits)| == |Shipped(exits)|
  {
    if exits != [] {
      SameNumber(exits[..|exits| - 1]);
    }
  }

  /** Batches hold what left the queue less what was evicted: each event at most once, and in order. */
  lemma ShippedInOrder<T>(exits: seq<Exit<T>>, whole: seq<T>)
    requires Left(exits) <= whole
    ensures InOrderPart(Shipped(exits), whole)
    ensures |exits| == |Left(exits)| == |Shipped(exits)| + Evictions(exits)
  {
    LeftAt(exits);
    NoneGoesMissing(exits);
    SameNumber(exits);
    PositionsIncrease(exits);
    forall i | 0 <= i < |Shipped(exits)| ensures whole[Positions(exits)[i]] == Shipped(exits)[i] {
      PositionsSelect(exits, Left(exits), i);
    }
    assert PickedBy(Shipped(exits), whole, Positions(exits));
  }
}
