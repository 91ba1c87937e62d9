/**
 The Python exporter's code.  Each method performs the operations of one thread on the shared state of module
 ThreadedDelivery; between any two of them the other threads may take any number of steps.
 */
module PyExporter {
  import opened Prelude
  import opened ThreadedDelivery
  import opened Ledger
  import Runs

  datatype Thread = Caller(id: nat) | FlushThread | Control

  /** The actions only this thread's code performs. */
  predicate Owns(who: Thread, a: Action) {
    match who
    case Caller(id) =>
      (match a
       case Put(i, _) => i == id
       case Evict(i) => i == id
       case Retry(i) => i == id
       case _ => false)
    case FlushThread => a.Check? || a.Wake? || a.Pop? || a.Ship? || a.Ack?
    case Control => a.Shutdown?
  }

  /** What happened so far stays recorded. */
  ghost predicate Recorded(s: State, t: State) {
    s.accepted <= t.accepted && s.refused <= t.refused && s.exits <= t.exits && s.offered <= t.offered
  }

  /** What the other threads leave alone. */
  ghost predicate Untouched(who: Thread, s: State, t: State) {
    && (s.shutdown ==> t.shutdown) && t.cfg == s.cfg && Recorded(s, t)
    && match who
       case Caller(id) => (id in t.producers <==> id in s.producers)
           && (id in s.producers ==> t.producers[id] == s.producers[id])
       case FlushThread => t.flusher == s.flusher && t.last == s.last && t.drains == s.drains
       case Control => t.shutdown == s.shutdown
  }

  lemma StepIsRecorded(s: State, a: Action)
    requires Step(s, a).Some?
    ensures Recorded(s, Step(s, a).value)
  {}

  lemma OthersLeaveUntouched(who: Thread, s: State, a: Action)
    requires Step(s, a).Some? && !Owns(who, a)
    ensures Untouched(who, s, Step(s, a).value)
  {
    StepIsRecorded(s, a);
  }

  class World {
    var st: State
    var posts: nat  // requests made so far

    /** Nothing queued, nothing pending, the flush thread about to begin. */
    constructor (cfg: Config)
      ensures Inv(st) && Runs.Reaches(Step, Init(cfg), st) && st.cfg == cfg
      ensures st.queue == [] && st.unfinished == 0 && !st.shutdown && !st.last && st.flusher.Checking?
      ensures st.producers == map[] && st.accepted == [] && st.exits == [] && st.drains == 0 && posts == 0
    {
      st, posts := Init(cfg), 0;
      Runs.ReachesSelf(Step, Init(cfg));
    }

    method Perform(a: Action, ghost s0: State)
      requires Inv(st) && Step(st, a).Some? && Runs.Reaches(Step, s0, st)
      modifies this`st
      ensures st == Step(old(st), a).value && Inv(st) && Runs.Reaches(Step, s0, st)
    {
      StepKeepsInv(st, a);
      Runs.ReachesNext(Step, s0, st, a);
      st := Step(st, a).value;
    }

    method Others(who: Thread, ghost s0: State)
      requires Inv(st) && Runs.Reaches(Step, s0, st)
      modifies this`st
      ensures Inv(st) && Runs.Reaches(Step, s0, st) && Untouched(who, old(st), st)
    {
      var n :| n >= 0;
      for k := 0 to n
        invariant Inv(st) && Runs.Reaches(Step, s0, st) && Untouched(who, old(st), st)
      {
        var a: Action := *;
        if !Owns(who, a) && Step(st, a).Some? {
          OthersLeaveUntouched(who, st, a);
          Perform(a, s0);
        }
      }
    }
  }

  /** What became of an event offered to a full queue, and which event was dropped for it, if any. */
  datatype Fate = Fate(accepted: bool, dropped: Option<Event>)

  /** The event is among what was accepted, or refused, since `s`; and what was dropped left the queue since. */
  ghost predicate Befell(s: State, t: State, event: Event, fate: Fate) {
    && Recorded(s, t)
    && (if fate.accepted then event in t.accepted[|s.accepted|..] else event in t.refused[|s.refused|..])
    && (fate.dropped.Some? ==> Evicted(fate.dropped.value) in t.exits[|s.exits|..])
    && (fate.accepted ==> fate.dropped.Some?)
  }

  lemma BefellEarlier(r: State, s: State, t: State, event: Event, fate: Fate)
    requires Recorded(r, s) && Befell(s, t, event, fate)
    ensures Befell(r, t, event, fate)
  {
    LaterPart(r.accepted, s.accepted, t.accepted, event);
    LaterPart(r.refused, s.refused, t.refused, event);
    if fate.dropped.Some? {
      LaterPart(r.exits, s.exits, t.exits, Evicted(fate.dropped.value));
    }
  }

  lemma LaterPart<T>(a: seq<T>, b: seq<T>, c: seq<T>, x: T)
    requires a <= b <= c
    ensures x in c[|b|..] ==> x in c[|a|..]
  {
    if x in c[|b|..] {
      var k :| |b| <= k < |c| && c[k] == x;
      assert c[|a|..][k - |a|] == x;
    }
  }

  /**
   Three non-blocking queue operations at most.  A queue with room takes the event at once.  Otherwise the oldest event
   is dropped if one is still there and the event put if there is room then; if not, it is refused.
   */
  method Enqueue(w: World, id: nat, event: Event, ghost s0: State) returns (ghost fate: Fate)
    requires Inv(w.st) && Runs.Reaches(Step, s0, w.st) && id !in w.st.producers
    modifies w
    ensures Inv(w.st) && Runs.Reaches(Step, s0, w.st) && id !in w.st.producers
    ensures old(w.st.cfg.maxSize) <= 0 || |old(w.st.queue)| < old(w.st.cfg.maxSize) ==>
              w.st == old(w.st).(queue := old(w.st.queue) + [event], accepted := old(w.st.accepted) + [event],
                                 unfinished := old(w.st.unfinished) + 1, offered := old(w.st.offered) + 1)
              && fate == Fate(true, None)
    ensures 0 < old(w.st.cfg.maxSize) <= |old(w.st.queue)| ==>
              Befell(old(w.st), w.st, event, fate) && w.st.offered > old(w.st).offered
  {
    var full := Full(w.st);
    fate := Fate(true, None);
    w.Perform(Put(id, event), s0);
    if full {
      w.Others(Caller(id), s0);
      ghost var mid := w.st;
      fate := MakeRoom(w, id, event, s0);
      BefellEarlier(old(w.st), mid, w.st, event, fate);
    }
  }

  /** The handler of `queue.Full`: drop the oldest event and try once more. */
  method MakeRoom(w: World, id: nat, event: Event, ghost s0: State) returns (ghost fate: Fate)
    requires Inv(w.st) && Runs.Reaches(Step, s0, w.st) && id in w.st.producers && w.st.producers[id] == MustEvict(event)
    modifies w
    ensures Inv(w.st) && Runs.Reaches(Step, s0, w.st) && id !in w.st.producers
    ensures Befell(old(w.st), w.st, event, fate)
    ensures fate.dropped == if old(w.st).queue == [] then None else Some(old(w.st).queue[0])
  {
    var empty := w.st.queue == [];
    w.Perform(Evict(id), s0);
    if empty {
      fate := Fate(false, None);
      assert w.st.refused[|old(w.st).refused|] == event;
    } else {
      ghost var oldest := old(w.st).queue[0];
      assert w.st.exits == old(w.st).exits + [Evicted(oldest)];
      var accepted := PutOrGiveUp(w, id, event, s0);
      fate := Fate(accepted, Some(oldest));
      assert w.st.exits[|old(w.st).exits|] == Evicted(oldest);
    }
  }

  /** The second `put_nowait`. */
  method PutOrGiveUp(w: World, id: nat, event: Event, ghost s0: State) returns (accepted: bool)
    requires Inv(w.st) && Runs.Reaches(Step, s0, w.st) && id in w.st.producers && w.st.producers[id] == MustPut(event)
    modifies w
    ensures Inv(w.st) && Runs.Reaches(Step, s0, w.st) && id !in w.st.producers && Recorded(old(w.st), w.st)
    ensures if accepted then event in w.st.accepted[|old(w.st).accepted|..]
        else event in w.st.refused[|old(w.st).refused|..]
  {
    w.Others(Caller(id), s0);
    accepted := !Full(w.st);
    ghost var before := w.st;
    w.Perform(Retry(id), s0);
    if accepted {
      assert w.st.accepted[|before.accepted|] == event;
    } else {
      assert w.st.refused[|before.refused|] == event;
    }
  }

  /** One post, and the backoff if it was not answered well. */
  method Post(w: World, answered: bool, ghost s0: State)
    requires Inv(w.st) && Runs.Reaches(Step, s0, w.st)
    modifies w
    ensures Inv(w.st) && Runs.Reaches(Step, s0, w.st) && Untouched(FlushThread, old(w.st), w.st)
    ensures w.posts == old(w.posts) + 1
  {
    w.posts := w.posts + 1;
    w.Others(FlushThread, s0);
    if !answered {
      w.Others(FlushThread, s0);
    }
  }

  /**
   Post until one is answered well, which the first `bad` posts would not be: `maxRetries` times at most, and that often
   if need be, unless it is shut down in between; once shut down, no second time.
   */
  method SendBatch(w: World, maxRetries: int, bad: nat, ghost s0: State) returns (delivered: bool, posts: nat)
    requires Inv(w.st) && Runs.Reaches(Step, s0, w.st) && w.st.flusher.Shipping?
    modifies w
    ensures Inv(w.st) && Runs.Reaches(Step, s0, w.st) && Untouched(FlushThread, old(w.st), w.st)
    ensures w.posts == old(w.posts) + posts
    ensures (delivered <==> posts == bad + 1) && posts <= bad + 1
    ensures if maxRetries <= 0 then posts == 0 else 1 <= posts <= maxRetries
    ensures !delivered && !w.st.shutdown ==> posts == Max(0, maxRetries)
    ensures old(w.st.shutdown) ==> posts <= 1
  {
    posts := 0;
    while posts < maxRetries
      invariant Inv(w.st) && Runs.Reaches(Step, s0, w.st) && Untouched(FlushThread, old(w.st), w.st)
      invariant w.posts == old(w.posts) + posts
      invariant posts <= bad && (posts == 0 || posts <= maxRetries)
      invariant old(w.st.shutdown) ==> posts <= 1
    {
      if w.st.shutdown && posts > 0 {
        return false, posts;
      }
      Post(w, posts == bad, s0);
      posts := posts + 1;
      if posts > bad {
        return true, posts;
      }
    }
    delivered := false;
  }

  ghost predicate DrainOver(s: State) { s.flusher == if s.last then Stopped else Checking }

  /** Pop up to a batch, one event at a time, until it is full or the queue is seen empty. */
  method FillBatch(w: World, ghost s0: State)
    requires Inv(w.st) && Runs.Reaches(Step, s0, w.st) && w.st.flusher == Popping([])
    modifies w
    ensures Inv(w.st) && Runs.Reaches(Step, s0, w.st) && w.st.last == old(w.st.last)
    ensures w.st.drains == old(w.st.drains)
    ensures w.st.flusher.Shipping? || DrainOver(w.st)
  {
    while w.st.flusher.Popping?
      invariant Inv(w.st) && Runs.Reaches(Step, s0, w.st) && w.st.last == old(w.st.last) && w.st.cfg == old(w.st.cfg)
      invariant w.st.drains == old(w.st.drains)
      invariant w.st.flusher.Popping? || w.st.flusher.Shipping? || DrainOver(w.st)
      decreases if w.st.flusher.Popping? then 1 + Max(0, w.st.cfg.batchSize) - |w.st.flusher.batch| else 0
    {
      PopNext(w, s0);
    }
  }

  /** One turn of that loop: take an event, or leave with the batch, or with none. */
  method PopNext(w: World, ghost s0: State)
    requires Inv(w.st) && Runs.Reaches(Step, s0, w.st) && w.st.flusher.Popping?
    modifies w
    ensures Inv(w.st) && Runs.Reaches(Step, s0, w.st) && w.st.last == old(w.st.last) && w.st.cfg == old(w.st.cfg)
    ensures w.st.drains == old(w.st.drains)
    ensures w.st.flusher.Popping? || w.st.flusher.Shipping? || DrainOver(w.st)
    ensures w.st.flusher.Popping? ==> |w.st.flusher.batch| == |old(w.st.flusher.batch)| + 1
  {
    w.Perform(Pop, s0);
    w.Others(FlushThread, s0);
  }

  /** `task_done` for every event of the batch; it is never called once too often. */
  method AckBatch(w: World, ghost s0: State)
    requires Inv(w.st) && Runs.Reaches(Step, s0, w.st) && w.st.flusher.Acking?
    modifies w
    ensures Inv(w.st) && Runs.Reaches(Step, s0, w.st) && w.st.last == old(w.st.last)
    ensures w.st.drains == old(w.st.drains)
    ensures DrainOver(w.st)
  {
    while w.st.flusher.Acking?
      invariant Inv(w.st) && Runs.Reaches(Step, s0, w.st) && w.st.last == old(w.st.last)
      invariant w.st.drains == old(w.st.drains)
      invariant w.st.flusher.Acking? || DrainOver(w.st)
      decreases if w.st.flusher.Acking? then |w.st.flusher.batch| - w.st.flusher.done else 0
    {
      w.Perform(Ack, s0);
      w.Others(FlushThread, s0);
    }
  }

  /** One batch: fill it, ship it, mark its tasks done whether or not it was delivered. */
  method Drain(w: World, maxRetries: int, ghost s0: State)
    requires Inv(w.st) && Runs.Reaches(Step, s0, w.st) && w.st.flusher == Popping([])
    modifies w
    ensures Inv(w.st) && Runs.Reaches(Step, s0, w.st) && w.st.flusher == if old(w.st.last) then Stopped else Checking
    ensures w.st.drains == old(w.st.drains)
  {
    FillBatch(w, s0);
    if w.st.flusher.Shipping? {
      var bad :| bad >= 0;
      var _, _ := SendBatch(w, maxRetries, bad, s0);
      w.Perform(Ship, s0);
      w.Others(FlushThread, s0);
      AckBatch(w, s0);
    }
  }

  /**
   The flush thread; `turns` bounds how often it finds the shutdown event not yet set.  It drains once a turn, and once
   more when it has seen the event.
   */
  method Run(w: World, maxRetries: int, turns: nat, ghost s0: State) returns (ended: bool, taken: nat)
    requires Inv(w.st) && Runs.Reaches(Step, s0, w.st) && w.st.flusher.Checking? && !w.st.last
    modifies w
    ensures Inv(w.st) && Runs.Reaches(Step, s0, w.st) && (ended <==> w.st.flusher.Stopped?)
    ensures w.st.drains == old(w.st.drains) + taken + (if ended then 1 else 0)
    ensures taken <= turns && (!ended ==> taken == turns && !w.st.shutdown)
    ensures old(w.st.shutdown) ==> ended && taken == 0
  {
    ended, taken := false, 0;
    while !w.st.shutdown
      invariant Inv(w.st) && Runs.Reaches(Step, s0, w.st) && w.st.flusher.Checking? && !w.st.last
      invariant w.st.drains == old(w.st.drains) + taken && taken <= turns
      invariant old(w.st.shutdown) ==> w.st.shutdown && taken == 0
      decreases turns - taken
    {
      if taken == turns {
        return;
      }
      taken := taken + 1;
      Turn(w, maxRetries, s0);
    }
    w.Perform(Check, s0);
    w.Others(FlushThread, s0);
    Drain(w, maxRetries, s0);
    ended := true;
  }

  /** Wait, then ship one batch. */
  method Turn(w: World, maxRetries: int, ghost s0: State)
    requires Inv(w.st) && Runs.Reaches(Step, s0, w.st) && w.st.flusher.Checking? && !w.st.last && !w.st.shutdown
    modifies w
    ensures Inv(w.st) && Runs.Reaches(Step, s0, w.st) && w.st.flusher.Checking? && !w.st.last
    ensures w.st.drains == old(w.st.drains) + 1
  {
    w.Perform(Check, s0);
    w.Others(FlushThread, s0);
    w.Perform(Wake, s0);
    w.Others(FlushThread, s0);
    Drain(w, maxRetries, s0);
    w.Others(FlushThread, s0);
  }

  /** `polls` is how often the counter is looked at before the deadline. */
  method Flush(w: World, polls: nat, ghost s0: State) returns (early: bool)
    requires Runs.Reaches(Step, s0, w.st) && Inv(w.st)
    modifies w
    ensures Inv(w.st) && Runs.Reaches(Step, s0, w.st)
    ensures early ==> NothingPending(w.st) && |w.st.accepted| == |Flat(w.st.sent)|
    ensures old(w.st.unfinished) == 0 && polls > 0 ==> early && w.st == old(w.st)
  {
    for k := 0 to polls
      invariant Inv(w.st) && Runs.Reaches(Step, s0, w.st)
      invariant if k == 0 then w.st == old(w.st) else old(w.st.unfinished) != 0
    {
      if w.st.unfinished == 0 {
        NothingPendingMeansSent(w.st);
        return true;
      }
      w.Others(Control, s0);
    }
    early := false;
  }

  lemma NothingPendingMeansSent(s: State)
    requires Inv(s) && s.unfinished == 0
    ensures NothingPending(s) && |s.accepted| == |Flat(s.sent)|
  {
    ShippedInOrder(s.exits, s.accepted);
  }

  /** The second call is a no-op. */
  method Close(w: World, ghost s0: State)
    requires Inv(w.st) && Runs.Reaches(Step, s0, w.st)
    modifies w
    ensures Inv(w.st) && Runs.Reaches(Step, s0, w.st) && w.st.shutdown
    ensures old(w.st.shutdown) ==> w.st == old(w.st)
  {
    if w.st.shutdown {
      return;
    }
    w.Perform(Shutdown, s0);
    w.Others(Control, s0);  // joining the thread, up to its deadline
  }
}
