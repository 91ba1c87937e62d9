/**
 The Python exporter as a state machine: producer threads and one flush thread share a bounded `queue.Queue` that counts
 unfinished tasks.  An action is one atomic operation on shared state, so every interleaving of the threads is a run.
 */
module ThreadedDelivery {
  import opened Prelude
  import opened Ledger
  import Runs

  datatype Event = Event(spanId: string)

  datatype Config = Config(maxSize: int, batchSize: int)

  /** Where a producer stands inside `enqueue` after its first `put_nowait` found the queue full. */
  datatype Producer = MustEvict(event: Event) | MustPut(event: Event)

  /** Where the flush thread stands. */
  datatype Flusher =
    | Checking                                // about to test the shutdown event
    | Waiting                                 // for the interval or the flush signal
    | Popping(batch: seq<Event>)
    | Shipping(batch: seq<Event>)
    | Acking(batch: seq<Event>, done: nat)    // calling task_done for each event
    | Stopped

  /**
   `last`: the loop has ended, this is the final drain.  `accepted`, `exits`, `sent`, `refused`, `offered` and `drains`
   only record history.
   */
  datatype State = State(
    cfg: Config, queue: seq<Event>, unfinished: int, shutdown: bool, flusher: Flusher, last: bool,
    producers: map<nat, Producer>,
    accepted: seq<Event>, exits: seq<Exit<Event>>, sent: seq<seq<Event>>, refused: seq<Event>, offered: nat,
    drains: nat)

  datatype Action =
    | Put(id: nat, event: Event)   // first put_nowait
    | Evict(id: nat)               // get_nowait after Full
    | Retry(id: nat)               // second put_nowait
    | Check
    | Wake
    | Pop
    | Ship
    | Ack
    | Shutdown

  function Init(cfg: Config): State { State(cfg, [], 0, false, Checking, false, map[], [], [], [], [], 0, 0) }

  /** A maximum size of zero or less means no maximum. */
  predicate Full(s: State) { s.cfg.maxSize > 0 && |s.queue| >= s.cfg.maxSize }

  function Accept(s: State, e: Event): State {
    s.(queue := s.queue + [e], unfinished := s.unfinished + 1, accepted := s.accepted + [e])
  }

  /** `get_nowait` by a producer: the oldest event is dropped, its task never done. */
  function DropOldest(s: State, id: nat, e: Event): State {
    if s.queue == [] then s.(producers := s.producers - {id}, refused := s.refused + [e])
    else s.(queue := s.queue[1..], exits := s.exits + [Evicted(s.queue[0])], producers := s.producers[id := MustPut(e)])
  }

  function PutAgain(s: State, id: nat, e: Event): State {
    var t := s.(producers := s.producers - {id});
    if Full(s) then t.(refused := s.refused + [e]) else Accept(t, e)
  }

  function Drained(s: State): State { s.(flusher := if s.last then Stopped else Checking) }

  /** `get_nowait` by the flush thread. */
  function TakeNext(s: State): State
    requires s.flusher.Popping? && s.queue != []
  {
    s.(flusher := Popping(s.flusher.batch + s.queue[..1]), queue := s.queue[1..],
        exits := s.exits + AsBatch(s.queue[..1]))
  }

  function SealBatch(s: State): State
    requires s.flusher.Popping?
  {
    s.(flusher := Shipping(s.flusher.batch), sent := s.sent + [s.flusher.batch])
  }

  /** One turn of the loop that fills a batch, or leaving it. */
  function PopOne(s: State): State
    requires s.flusher.Popping?
  {
    if |s.flusher.batch| < s.cfg.batchSize && s.queue != [] then TakeNext(s)
    else if s.flusher.batch == [] then Drained(s)
    else SealBatch(s)
  }

  /** `task_done` for the next event of the batch. */
  function AckOne(s: State): State
    requires s.flusher.Acking?
  {
    var t := s.(unfinished := s.unfinished - 1, flusher := Acking(s.flusher.batch, s.flusher.done + 1));
    if t.flusher.done < |t.flusher.batch| then t else Drained(t)
  }

  function Step(s: State, a: Action): Option<State> {
    match a
    case Put(id, e) =>
      if id in s.producers then None
      else
        var t := s.(offered := s.offered + 1);
        Some(if Full(s) then t.(producers := s.producers[id := MustEvict(e)]) else Accept(t, e))
    case Evict(id) =>
      if id in s.producers && s.producers[id].MustEvict? then Some(DropOldest(s, id, s.producers[id].event)) else None
    case Retry(id) =>
      if id in s.producers && s.producers[id].MustPut? then Some(PutAgain(s, id, s.producers[id].event)) else None
    case Check =>
      if !s.flusher.Checking? then None
      else if s.shutdown then Some(s.(flusher := Popping([]), last := true, drains := s.drains + 1))
      else Some(s.(flusher := Waiting))
    case Wake => if s.flusher.Waiting? then Some(s.(flusher := Popping([]), drains := s.drains + 1)) else None
    case Pop => if s.flusher.Popping? then Some(PopOne(s)) else None
    case Ship => if s.flusher.Shipping? then Some(s.(flusher := Acking(s.flusher.batch, 0))) else None
    case Ack => if s.flusher.Acking? then Some(AckOne(s)) else None
    case Shutdown => Some(s.(shutdown := true))
  }

  ghost predicate Reachable(s: State) { Runs.Reaches(Step, Init(s.cfg), s) }

  // ---------------------------------------------------------------- the invariant

  /** How many events of the current batch are not `task_done` yet. */
  function InBatch(f: Flusher): int {
    match f
    case Popping(batch) => |batch|
    case Shipping(batch) => |batch|
    case Acking(batch, done) => |batch| - done
    case _ => 0
  }

  function Flat(sent: seq<seq<Event>>): seq<Event> {
    if sent == [] then [] else Flat(sent[..|sent| - 1]) + sent[|sent| - 1]
  }

  /** Everything the flush thread has taken: the batches sent, and the one being filled. */
  function Handed(sent: seq<seq<Event>>, f: Flusher): seq<Event> {
    if f.Popping? then Flat(sent) + f.batch else Flat(sent)
  }

  predicate FlusherSound(cfg: Config, f: Flusher) {
    match f
    case Popping(batch) => |batch| <= Max(0, cfg.batchSize)
    case Shipping(batch) => 1 <= |batch| <= cfg.batchSize
    case Acking(batch, done) => done < |batch| <= cfg.batchSize
    case _ => true
  }

  predicate BatchesSound(cfg: Config, sent: seq<seq<Event>>) {
    forall i :: 0 <= i < |sent| ==> 1 <= |sent[i]| <= cfg.batchSize
  }

  ghost predicate Inv(s: State) {
    && (s.cfg.maxSize > 0 ==> |s.queue| <= s.cfg.maxSize)
    && s.unfinished == |s.queue| + InBatch(s.flusher) + Evictions(s.exits)
    && s.accepted == Left(s.exits) + s.queue
    && Shipped(s.exits) == Handed(s.sent, s.flusher)
    && s.offered == |s.accepted| + |s.refused| + |s.producers|
    && FlusherSound(s.cfg, s.flusher) && BatchesSound(s.cfg, s.sent)
    && (s.last ==> s.shutdown && !s.flusher.Checking? && !s.flusher.Waiting?)
  }

  lemma ProducersCount(m: map<nat, Producer>, id: nat, p: Producer)
    ensures |m[id := p]| == if id in m then |m| else |m| + 1
    ensures id in m ==> |m - {id}| == |m| - 1
  {
    assert m[id := p].Keys == m.Keys + {id};
    assert (m - {id}).Keys == m.Keys - {id};
  }

  lemma PutKeepsInv(s: State, id: nat, e: Event)
    requires Inv(s) && id !in s.producers
    ensures Inv(Step(s, Put(id, e)).value)
  {
    ProducersCount(s.producers, id, MustEvict(e));
  }

  lemma DropKeepsInv(s: State, id: nat)
    requires Inv(s) && id in s.producers && s.producers[id].MustEvict?
    ensures Inv(DropOldest(s, id, s.producers[id].event))
  {
    ProducersCount(s.producers, id, MustPut(s.producers[id].event));
    if s.queue != [] {
      EvictOldest(s.accepted, s.exits, s.queue);
      LeaveOne(s.exits, Evicted(s.queue[0]));
    }
  }

  lemma RetryKeepsInv(s: State, id: nat)
    requires Inv(s) && id in s.producers && s.producers[id].MustPut?
    ensures Inv(PutAgain(s, id, s.producers[id].event))
  {
    ProducersCount(s.producers, id, s.producers[id]);
  }

  lemma FlatNext(sent: seq<seq<Event>>, batch: seq<Event>)
    ensures Flat(sent + [batch]) == Flat(sent) + batch
  {
    assert (sent + [batch])[..|sent|] == sent;
  }

  lemma TakeKeepsInv(s: State)
    requires Inv(s) && s.flusher.Popping? && |s.flusher.batch| < s.cfg.batchSize && s.queue != []
    ensures Inv(TakeNext(s))
  {
    var next := s.queue[..1];
    ShipOldest(s.accepted, s.exits, s.queue, 1);
    LeaveBatch(s.exits, next);
    Associate(Flat(s.sent), s.flusher.batch, next);
  }

  lemma SealKeepsInv(s: State)
    requires Inv(s) && s.flusher.Popping? && s.flusher.batch != []
    ensures Inv(SealBatch(s))
  {
    FlatNext(s.sent, s.flusher.batch);
  }

  /** An empty batch is as good as none. */
  lemma EmptyBatchKeepsInv(s: State, f: Flusher, last: bool, drains: nat)
    requires Inv(s) && Handed(s.sent, s.flusher) == Flat(s.sent)
    requires InBatch(s.flusher) == InBatch(f) && (f.Popping? ==> f.batch == []) && FlusherSound(s.cfg, f)
    requires last ==> s.shutdown && !f.Checking? && !f.Waiting?
    ensures Inv(s.(flusher := f, last := last, drains := drains))
  {
    assert Flat(s.sent) + [] == Flat(s.sent);
  }

  lemma PopKeepsInv(s: State)
    requires Inv(s) && s.flusher.Popping?
    ensures Inv(PopOne(s))
  {
    if |s.flusher.batch| < s.cfg.batchSize && s.queue != [] {
      TakeKeepsInv(s);
    } else if s.flusher.batch == [] {
      assert Flat(s.sent) + [] == Flat(s.sent);
      EmptyBatchKeepsInv(s, Drained(s).flusher, s.last, s.drains);
    } else {
      SealKeepsInv(s);
    }
  }

  lemma AckKeepsInv(s: State)
    requires Inv(s) && s.flusher.Acking?
    ensures Inv(AckOne(s))
  {}

  lemma StepKeepsInv(s: State, a: Action)
    requires Inv(s) && Step(s, a).Some?
    ensures Inv(Step(s, a).value)
  {
    match a {
      case Put(id, e) => PutKeepsInv(s, id, e);
      case Evict(id) => DropKeepsInv(s, id);
      case Retry(id) => RetryKeepsInv(s, id);
      case Check => EmptyBatchKeepsInv(s, Step(s, a).value.flusher, Step(s, a).value.last, Step(s, a).value.drains);
      case Wake => EmptyBatchKeepsInv(s, Popping([]), s.last, s.drains + 1);
      case Pop => PopKeepsInv(s);
      case Ship =>
      case Ack => AckKeepsInv(s);
      case Shutdown =>
    }
  }

  lemma ReachableInv(s: State)
    requires Reachable(s)
    ensures Inv(s)
  {
    forall x, a | Inv(x) && Step(x, a).Some? ensures Inv(Step(x, a).value) {
      StepKeepsInv(x, a);
    }
    Runs.ReachesKeeps(Step, x => Inv(x), Init(s.cfg), s);
  }

  // ---------------------------------------------------------------- theorems

  /**
   `unfinished_tasks` counts what is queued, what is in the current batch, and what was ever evicted; the queue keeps
   its maximum; no event goes into two batches, batches keep the order of acceptance; and every event offered was
   accepted, refused, or is still being put.
   */
  lemma EveryTaskIsAccountedFor(s: State)
    requires Reachable(s)
    ensures s.unfinished == |s.queue| + InBatch(s.flusher) + Evictions(s.exits)
    ensures s.cfg.maxSize > 0 ==> |s.queue| <= s.cfg.maxSize
    ensures InOrderPart(Handed(s.sent, s.flusher), s.accepted) && BatchesSound(s.cfg, s.sent)
    ensures |s.accepted| == |Handed(s.sent, s.flusher)| + |s.queue| + Evictions(s.exits)
    ensures s.offered == |s.accepted| + |s.refused| + |s.producers|
  {
    ReachableInv(s);
    ShippedInOrder(s.exits, s.accepted);
  }

  /** `task_done` is never called once too often. */
  lemma TaskDoneIsNeverRefused(s: State)
    requires Reachable(s) && s.flusher.Acking?
    ensures s.unfinished > 0
  {
    ReachableInv(s);
  }

  /** What `flush` is to wait for: every event it found queued has been posted. */
  predicate NothingPending(s: State) { s.queue == [] && InBatch(s.flusher) == 0 }

  ghost predicate HasEvicted(cfg: Config, s: State) { s.cfg == cfg && Evictions(s.exits) > 0 }

  lemma EvictionsStay(s: State, a: Action)
    requires Evictions(s.exits) > 0 && Step(s, a).Some?
    ensures HasEvicted(s.cfg, Step(s, a).value)
  {
    if s.queue != [] {
      if a.Evict? {
        LeaveOne(s.exits, Evicted(s.queue[0]));
      } else if a.Pop? {
        LeaveBatch(s.exits, s.queue[..1]);
        assert Step(s, a).value.exits == s.exits || Step(s, a).value.exits == s.exits + AsBatch(s.queue[..1]);
      }
    }
  }

  /**
   `flush` returns before its deadline when `unfinished_tasks` is zero.  Then nothing is queued or in flight; but it
   sees that nothing is pending exactly as long as no event was ever evicted.
   */
  lemma EarlyReturnExactly(s: State)
    requires Reachable(s)
    ensures s.unfinished == 0 ==> NothingPending(s)
    ensures NothingPending(s) ==> (s.unfinished == 0 <==> Evictions(s.exits) == 0)
  {
    ReachableInv(s);
  }

  /** After one eviction every later flush waits out its deadline. */
  lemma EvictionDelaysEveryFlush(s: State, t: State)
    requires Reachable(s) && Evictions(s.exits) > 0 && Runs.Reaches(Step, s, t)
    ensures t.unfinished > 0
  {
    forall x, a | HasEvicted(s.cfg, x) && Step(x, a).Some? ensures HasEvicted(s.cfg, Step(x, a).value) {
      EvictionsStay(x, a);
    }
    Runs.ReachesKeeps(Step, (x: State) => HasEvicted(s.cfg, x), s, t);
    Runs.ReachesTransitive(Step, Init(s.cfg), s, t);
    ReachableInv(t);
  }

  // ---------------------------------------------------------------- what close ships

  /** How many more events the flush thread takes after shutdown: the rest of the batch in hand and one last batch. */
  function Room(s: State): nat {
    var size := Max(0, s.cfg.batchSize);
    match s.flusher
    case Checking => size
    case Waiting => 2 * size
    case Popping(batch) => Max(0, size - |batch|) + if s.last then 0 else size
    case Stopped => 0
    case _ => if s.last then 0 else size
  }

  predicate Flushing(a: Action) { a.Check? || a.Wake? || a.Pop? || a.Ship? || a.Ack? || a.Shutdown? }

  ghost predicate Leaves(n: int, s: State) {
    && FlusherSound(s.cfg, s.flusher) && s.shutdown && (s.last ==> !s.flusher.Checking? && !s.flusher.Waiting?)
    && Max(0, |s.queue| - Room(s)) == n
  }

  lemma PopKeepsLeftover(s: State, n: int)
    requires Leaves(n, s) && s.flusher.Popping?
    ensures Leaves(n, PopOne(s))
  {}

  lemma FlushingKeepsLeftover(s: State, a: Action, n: int)
    requires Leaves(n, s) && Flushing(a) && Step(s, a).Some?
    ensures Leaves(n, Step(s, a).value)
  {
    if a.Pop? {
      PopKeepsLeftover(s, n);
    }
  }

  /** Shipped so far, and room left, come to at most `n`. */
  ghost predicate ShipsAtMost(n: int, s: State) {
    && FlusherSound(s.cfg, s.flusher) && s.shutdown && (s.last ==> !s.flusher.Checking? && !s.flusher.Waiting?)
    && |Shipped(s.exits)| + Room(s) <= n
  }

  lemma PopKeepsShipsAtMost(s: State, n: int)
    requires ShipsAtMost(n, s) && s.flusher.Popping?
    ensures ShipsAtMost(n, PopOne(s))
  {
    if s.queue != [] {
      LeaveBatch(s.exits, s.queue[..1]);
    }
  }

  /** Producers move neither the flush thread nor what it has shipped. */
  lemma ProducersShipNothing(s: State, a: Action)
    requires (a.Put? || a.Evict? || a.Retry?) && Step(s, a).Some?
    ensures var t := Step(s, a).value;
            && t.cfg == s.cfg && t.flusher == s.flusher && t.last == s.last && t.shutdown == s.shutdown
            && Shipped(t.exits) == Shipped(s.exits)
  {
    if a.Evict? && s.queue != [] {
      LeaveOne(s.exits, Evicted(s.queue[0]));
    }
  }

  lemma ThreadKeepsShipsAtMost(s: State, a: Action, n: int)
    requires ShipsAtMost(n, s) && Flushing(a) && !a.Pop? && Step(s, a).Some?
    ensures ShipsAtMost(n, Step(s, a).value)
  {
    assert Step(s, a).value.exits == s.exits;
  }

  lemma StepKeepsShipsAtMost(s: State, a: Action, n: int)
    requires ShipsAtMost(n, s) && Step(s, a).Some?
    ensures ShipsAtMost(n, Step(s, a).value)
  {
    if a.Pop? {
      PopKeepsShipsAtMost(s, n);
    } else if Flushing(a) {
      ThreadKeepsShipsAtMost(s, a, n);
    } else {
      ProducersShipNothing(s, a);
    }
  }

  /**
   Whatever producers still add, after shutdown at most `Room` more events go into batches - never more than two
   batches; all others stay behind or are evicted.
   */
  lemma ShutdownShipsAtMostRoom(s: State, t: State)
    requires Reachable(s) && s.shutdown && Runs.Reaches(Step, s, t)
    ensures Room(s) <= 2 * Max(0, s.cfg.batchSize)
    ensures |Shipped(t.exits)| <= |Shipped(s.exits)| + Room(s)
  {
    ReachableInv(s);
    var n := |Shipped(s.exits)| + Room(s);
    forall x, a | ShipsAtMost(n, x) && Step(x, a).Some? ensures ShipsAtMost(n, Step(x, a).value) {
      StepKeepsShipsAtMost(x, a, n);
    }
    Runs.ReachesKeeps(Step, (x: State) => ShipsAtMost(n, x), s, t);
  }

  /** The same machine with every producer at rest. */
  function QuietStep(s: State, a: Action): Option<State> { if Flushing(a) then Step(s, a) else None }

  function NextOf(f: Flusher): Action
    requires !f.Stopped?
  {
    match f
    case Checking => Check
    case Waiting => Wake
    case Popping(_) => Pop
    case Shipping(_) => Ship
    case Acking(_, _) => Ack
  }

  /** How many more steps the flush thread takes after shutdown, at most. */
  function StepsLeft(s: State): int {
    var size := Max(0, s.cfg.batchSize);
    var after := if s.last then 0 else 2 * size + 3;
    match s.flusher
    case Stopped => 0
    case Checking => 2 * size + 3
    case Waiting => 3 + 2 * size + after
    case Popping(batch) => 2 + 2 * size - |batch| + after
    case Shipping(batch) => 1 + |batch| + after
    case Acking(batch, done) => |batch| - done + after
  }

  lemma StepsLeftDecrease(s: State)
    requires FlusherSound(s.cfg, s.flusher) && s.shutdown && !s.flusher.Stopped?
    requires s.last ==> !s.flusher.Checking? && !s.flusher.Waiting?
    ensures var next := Step(s, NextOf(s.flusher)); next.Some? && 0 <= StepsLeft(next.value) < StepsLeft(s)
  {}

  lemma FlushThreadGoesOn(s: State)
    requires Inv(s) && s.shutdown && !s.flusher.Stopped?
    ensures var next := QuietStep(s, NextOf(s.flusher));
            next.Some? && Inv(next.value) && next.value.shutdown && 0 <= StepsLeft(next.value) < StepsLeft(s)
  {
    StepsLeftDecrease(s);
    StepKeepsInv(s, NextOf(s.flusher));
  }

  /** After shutdown the flush thread, left to itself, always gets to its end. */
  lemma {:induction false} FlushThreadStops(s: State) returns (t: State)
    requires Inv(s) && s.shutdown
    ensures Runs.Reaches(QuietStep, s, t) && t.flusher.Stopped?
    decreases StepsLeft(s)
  {
    Runs.ReachesSelf(QuietStep, s);
    t := s;
    if !s.flusher.Stopped? {
      FlushThreadGoesOn(s);
      var next := QuietStep(s, NextOf(s.flusher)).value;
      Runs.ReachesNext(QuietStep, s, s, NextOf(s.flusher));
      t := FlushThreadStops(next);
      Runs.ReachesTransitive(QuietStep, s, next, t);
    }
  }

  /**
   After shutdown the thread takes up to `Room` more events - never more than two batches - and stops; the rest stay
   queued.  So `close` drains the queue exactly when no more than that were left.
   */
  lemma CloseLeavesTheRest(s: State, t: State)
    requires Reachable(s) && s.shutdown && Runs.Reaches(QuietStep, s, t) && t.flusher.Stopped?
    ensures Room(s) <= 2 * Max(0, s.cfg.batchSize)
    ensures |t.queue| == Max(0, |s.queue| - Room(s))
    ensures t.queue == [] <==> |s.queue| <= Room(s)
  {
    ReachableInv(s);
    var n := Max(0, |s.queue| - Room(s));
    forall x, a | Leaves(n, x) && QuietStep(x, a).Some? ensures Leaves(n, QuietStep(x, a).value) {
      FlushingKeepsLeftover(x, a, n);
    }
    Runs.ReachesKeeps(QuietStep, (x: State) => Leaves(n, x), s, t);
  }
}
