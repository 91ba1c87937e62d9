/**
 The TypeScript exporter as a state machine: a bounded queue, one drain at a time, retries, close.  An action is what
 runs between two suspension points of the event loop, so any interleaving of callers with the drain is a run.
 */
module BatchDelivery {
  import opened Prelude
  import opened CircularBuffer
  import opened Ledger
  import Runs

  datatype Event = Event(spanId: string)

  datatype Config = Config(capacity: nat, batchSize: int, maxRetries: int)

  /** What `inflightFlush` stands for; after it returns, a drain is in flight until its `finally` handler has run. */
  datatype Drain =
    | Idle
    | Testing                                     // about to test the loop condition again
    | Sending(batch: seq<Event>, attempt: nat)    // waiting for the transport
    | Backoff(batch: seq<Event>, attempt: nat)    // waiting for the retry timer
    | Exited

  datatype Fate = Delivered | Rejected | Exhausted

  datatype Response = Response(ok: bool, status: int)

  /** `answer`: what the last send came to; None if the transport threw. */
  datatype Settled = Settled(batch: seq<Event>, sends: nat, fate: Fate, answer: Option<Response>)

  /** `accepted`, `exits`, `settled`, `cleared` and `timeouts` only record history. */
  datatype State = State(
    cfg: Config, queue: seq<Event>, closed: bool, drain: Drain,
    accepted: seq<Event>, exits: seq<Exit<Event>>, settled: seq<Settled>, cleared: nat, timeouts: nat)

  datatype Action =
    | Enqueue(event: Event)
    | Flush(late: bool)              // `late`: the deadline has passed when the loop condition is tested
    | Shut                           // the first half of `close`; the second is a flush
    | Resume(late: bool)
    | Answer(res: Option<Response>)  // None: the transport threw
    | Wake                           // the retry timer
    | Clear                          // the `finally` handler: whoever awaits the drain is released

  function Init(cfg: Config): State { State(cfg, [], false, Idle, [], [], [], 0, 0) }

  /** `enqueue`: dropped once closed; a full queue gives up its oldest event. */
  function Accept(s: State, e: Event): State {
    if s.closed then s
    else
      var t := s.(accepted := s.accepted + [e], queue := Newest(s.queue + [e], s.cfg.capacity));
      if |s.queue| < s.cfg.capacity then t else t.(exits := s.exits + [Evicted((s.queue + [e])[0])])
  }

  /** One test of the drain's loop, up to handing a batch to the transport. */
  function Test(s: State, late: bool): State {
    if s.queue == [] then s.(drain := Exited)
    else if late then s.(drain := Exited, timeouts := s.timeouts + 1)
    else
      var n := Taken(s.cfg.batchSize, |s.queue|);
      s.(drain := Sending(s.queue[..n], 0), queue := s.queue[n..], exits := s.exits + AsBatch(s.queue[..n]))
  }

  /** `flush`: join the drain in flight, or start one. */
  function Call(s: State, late: bool): State { if s.drain.Idle? then Test(s, late) else s }

  /** 4xx other than 429. */
  predicate ClientError(r: Response) { 400 <= r.status < 500 && r.status != 429 }

  function Settle(s: State, fate: Fate, res: Option<Response>): State
    requires s.drain.Sending?
  {
    s.(drain := Testing, settled := s.settled + [Settled(s.drain.batch, s.drain.attempt + 1, fate, res)])
  }

  /** A transport that throws counts as unavailable. */
  function Read(res: Option<Response>): Response { if res.Some? then res.value else Response(false, 503) }

  function Respond(s: State, res: Option<Response>): State
    requires s.drain.Sending?
  {
    var r := Read(res);
    if r.ok then Settle(s, Delivered, res)
    else if ClientError(r) then Settle(s, Rejected, res)
    else if s.drain.attempt >= s.cfg.maxRetries then Settle(s, Exhausted, res)
    else s.(drain := Backoff(s.drain.batch, s.drain.attempt))
  }

  function Step(s: State, a: Action): Option<State> {
    match a
    case Enqueue(e) => Some(Accept(s, e))
    case Flush(late) => Some(Call(s, late))
    case Shut => Some(s.(closed := true))
    case Resume(late) => if s.drain.Testing? then Some(Test(s, late)) else None
    case Answer(res) => if s.drain.Sending? then Some(Respond(s, res)) else None
    case Wake => if s.drain.Backoff? then Some(s.(drain := Sending(s.drain.batch, s.drain.attempt + 1))) else None
    case Clear => if s.drain.Exited? then Some(s.(drain := Idle, cleared := s.cleared + 1)) else None
  }

  ghost predicate Reachable(s: State) {
    s.cfg.capacity > 0 && Runs.Reaches(Step, Init(s.cfg), s)
  }

  // ---------------------------------------------------------------- the invariant

  /** What drains have taken from the queue so far, as the record of batches has it. */
  function Handed(settled: seq<Settled>, d: Drain): seq<Event> {
    if d.Sending? || d.Backoff? then Flat(settled) + d.batch else Flat(settled)
  }

  function Flat(settled: seq<Settled>): seq<Event> {
    if settled == [] then [] else Flat(settled[..|settled| - 1]) + settled[|settled| - 1].batch
  }

  /** How often one batch may be sent. */
  function MaxSends(cfg: Config): nat { Max(0, cfg.maxRetries) + 1 }

  /** An answer of 4xx other than 429 is final. */
  predicate Refusal(res: Option<Response>) {
    res.Some? && !res.value.ok && 400 <= res.value.status < 500 && res.value.status != 429
  }

  predicate SettledSoundly(cfg: Config, b: Settled) {
    && 1 <= b.sends <= MaxSends(cfg)
    && |b.batch| <= Max(0, cfg.batchSize)
    && (b.fate.Delivered? <==> b.answer.Some? && b.answer.value.ok)
    && (b.fate.Rejected? <==> Refusal(b.answer))
    && (b.fate.Exhausted? ==> b.sends == MaxSends(cfg))
  }

  predicate AllSound(cfg: Config, settled: seq<Settled>) {
    forall i :: 0 <= i < |settled| ==> SettledSoundly(cfg, settled[i])
  }

  predicate DrainSound(cfg: Config, d: Drain) {
    match d
    case Sending(batch, attempt) => attempt < MaxSends(cfg) && |batch| <= Max(0, cfg.batchSize)
    case Backoff(batch, attempt) => attempt < cfg.maxRetries && |batch| <= Max(0, cfg.batchSize)
    case _ => true
  }

  ghost predicate Inv(s: State) {
    && s.cfg.capacity > 0 && |s.queue| <= s.cfg.capacity
    && s.accepted == Left(s.exits) + s.queue
    && Shipped(s.exits) == Handed(s.settled, s.drain)
    && DrainSound(s.cfg, s.drain)
    && AllSound(s.cfg, s.settled)
  }

  lemma FlatNext(settled: seq<Settled>, b: Settled)
    ensures Flat(settled + [b]) == Flat(settled) + b.batch
  {
    assert (settled + [b])[..|settled|] == settled;
  }

  /** The books after an event is accepted, whether or not the oldest has to go. */
  lemma AcceptedStillBalances(accepted: seq<Event>, exits: seq<Exit<Event>>, queue: seq<Event>, e: Event)
    requires accepted == Left(exits) + queue
    ensures accepted + [e] == Left(exits) + (queue + [e])
    ensures accepted + [e] == Left(exits + [Evicted((queue + [e])[0])]) + (queue + [e])[1..]
    ensures Shipped(exits + [Evicted((queue + [e])[0])]) == Shipped(exits)
  {
    Associate(Left(exits), queue, [e]);
    EvictOldest(accepted + [e], exits, queue + [e]);
  }

  lemma AcceptKeepsInv(s: State, e: Event)
    requires Inv(s)
    ensures Inv(Accept(s, e))
  {
    AcceptedStillBalances(s.accepted, s.exits, s.queue, e);
  }

  lemma TestKeepsInv(s: State, late: bool)
    requires Inv(s) && (s.drain.Idle? || s.drain.Testing?)
    ensures Inv(Test(s, late))
  {
    ShipOldest(s.accepted, s.exits, s.queue, Taken(s.cfg.batchSize, |s.queue|));
  }

  lemma SettleKeepsInv(s: State, fate: Fate, res: Option<Response>)
    requires Inv(s) && s.drain.Sending?
    requires SettledSoundly(s.cfg, Settled(s.drain.batch, s.drain.attempt + 1, fate, res))
    ensures Inv(Settle(s, fate, res))
  {
    var b := Settled(s.drain.batch, s.drain.attempt + 1, fate, res);
    var t := Settle(s, fate, res);
    assert t.settled == s.settled + [b];
    assert Handed(t.settled, t.drain) == Handed(s.settled, s.drain) by { FlatNext(s.settled, b); }
    assert AllSound(s.cfg, t.settled) by { assert SettledSoundly(s.cfg, b); }
  }

  lemma RespondKeepsInv(s: State, res: Option<Response>)
    requires Inv(s) && s.drain.Sending?
    ensures Inv(Respond(s, res))
  {
    if Read(res).ok {
      SettleKeepsInv(s, Delivered, res);
    } else if ClientError(Read(res)) {
      SettleKeepsInv(s, Rejected, res);
    } else if s.drain.attempt >= s.cfg.maxRetries {
      SettleKeepsInv(s, Exhausted, res);
    }
  }

  lemma StepKeepsInv(s: State, a: Action)
    requires Inv(s) && Step(s, a).Some?
    ensures Inv(Step(s, a).value)
  {
    match a {
      case Enqueue(e) => AcceptKeepsInv(s, e);
      case Flush(late) => if s.drain.Idle? { TestKeepsInv(s, late); }
      case Shut =>
      case Resume(late) => TestKeepsInv(s, late);
      case Answer(res) => RespondKeepsInv(s, res);
      case Wake =>
      case Clear =>
    }
  }

  lemma InvAlong(s: State, t: State)
    requires Inv(s) && Runs.Reaches(Step, s, t)
    ensures Inv(t)
  {
    forall x, a | Inv(x) && Step(x, a).Some? ensures Inv(Step(x, a).value) {
      StepKeepsInv(x, a);
    }
    Runs.ReachesKeeps(Step, x => Inv(x), s, t);
  }

  lemma ReachableInv(s: State)
    requires Reachable(s)
    ensures Inv(s)
  {
    InvAlong(Init(s.cfg), s);
  }

  // ---------------------------------------------------------------- theorems

  /**
   Nothing is duplicated, reordered or unaccounted for: what was settled and what is in flight are accepted events in
   order, each at most once; every accepted event is settled, in flight, queued or was evicted.  A batch is delivered
   exactly if its last answer was good and refused exactly if that was a 4xx other than 429; none is sent more than
   `maxRetries` + 1 times, and one that is given up for want of a usable answer was sent exactly that often.
   */
  lemma EveryEventIsAccountedFor(s: State)
    requires Reachable(s)
    ensures InOrderPart(Handed(s.settled, s.drain), s.accepted)
    ensures |s.accepted| == |Handed(s.settled, s.drain)| + |s.queue| + Evictions(s.exits)
    ensures |s.queue| <= s.cfg.capacity && s.queue == Newest(s.accepted, |s.queue|)
    ensures AllSound(s.cfg, s.settled) && DrainSound(s.cfg, s.drain)
  {
    ReachableInv(s);
    ShippedInOrder(s.exits, s.accepted);
    EndIsNewest(Left(s.exits), s.queue);
  }

  function AcceptAll(s: State, events: seq<Event>): State {
    if events == [] then s
    else Accept(AcceptAll(s, events[..|events| - 1]), events[|events| - 1])
  }

  /** A burst of events between two drain steps leaves the newest that fit. */
  lemma {:induction false} BurstKeepsTheNewest(s: State, events: seq<Event>)
    requires |s.queue| <= s.cfg.capacity && !s.closed
    ensures var t := AcceptAll(s, events);
            !t.closed && t.cfg == s.cfg && t.queue == Newest(s.queue + events, s.cfg.capacity)
    decreases |events|
  {
    if events == [] {
      assert s.queue + events == s.queue;
    } else {
      var n := |events| - 1;
      var last := events[n];
      BurstKeepsTheNewest(s, events[..n]);
      Regroup(s.queue, events, n);
      assert events[n..] == [last];
      NewestAgain(s.queue + events[..n], last, s.cfg.capacity);
    }
  }

  // ---------------------------------------------------------------- what awaiting a flush is worth

  /**
   What is left once a flush called in `s` has returned in `t`.  The promise: everything accepted before the call has
   left the queue, unless a drain ran out of time.
   */
  ghost predicate FlushPromise(s: State) {
    forall late, t: State ::
      Runs.Reaches(Step, Call(s, late), t) && t.cleared > s.cleared && t.timeouts == s.timeouts ==>
          |t.exits| >= |s.accepted|
  }

  /** What holds from the call of `flush` in `s` on, provided the drain in flight was not already over. */
  ghost predicate SinceFlush(s: State, t: State) {
    && Inv(t) && t.cleared >= s.cleared && t.timeouts >= s.timeouts && |t.accepted| >= |s.accepted|
    && (t.cleared == s.cleared ==> !t.drain.Idle?)
    && (t.timeouts == s.timeouts && (t.cleared > s.cleared || t.drain.Exited?) ==> |t.exits| >= |s.accepted|)
  }

  lemma AcceptedHaveLeft(s: State)
    requires Inv(s)
    ensures |s.accepted| == |s.exits| + |s.queue|
  {
    LeftAt(s.exits);
  }

  lemma StepKeepsSinceFlush(s: State, t: State, a: Action)
    requires SinceFlush(s, t) && Step(t, a).Some?
    ensures SinceFlush(s, Step(t, a).value)
  {
    StepKeepsInv(t, a);
    AcceptedHaveLeft(t);
    AcceptedHaveLeft(Step(t, a).value);
  }

  lemma FlushKeepsPromise(s: State, late: bool, t: State)
    requires Inv(s) && !(s.drain.Exited? && s.queue != [])
    requires Runs.Reaches(Step, Call(s, late), t) && t.cleared > s.cleared && t.timeouts == s.timeouts
    ensures |t.exits| >= |s.accepted|
  {
    StepKeepsInv(s, Flush(late));
    AcceptedHaveLeft(s);
    AcceptedHaveLeft(Call(s, late));
    forall x, a | SinceFlush(s, x) && Step(x, a).Some? ensures SinceFlush(s, Step(x, a).value) {
      StepKeepsSinceFlush(s, x, a);
    }
    Runs.ReachesKeeps(Step, (x: State) => SinceFlush(s, x), Call(s, late), t);
  }

  lemma FlushBreaksPromise(s: State)
    requires Inv(s) && s.drain.Exited? && s.queue != []
    ensures !FlushPromise(s)
  {
    var t := Step(s, Clear).value;
    Runs.ReachesSelf(Step, s);
    Runs.ReachesNext(Step, s, s, Clear);
    assert Runs.Reaches(Step, Call(s, false), t);
    AcceptedHaveLeft(s);
  }

  /**
   `flush` keeps its promise exactly when it does not join a drain that is already over with events in the queue; such a
   call returns without sending anything.
   */
  lemma FlushPromiseExactly(s: State)
    requires Reachable(s)
    ensures FlushPromise(s) <==> !(s.drain.Exited? && s.queue != [])
  {
    ReachableInv(s);
    if s.drain.Exited? && s.queue != [] {
      FlushBreaksPromise(s);
    } else {
      forall late, t: State | Runs.Reaches(Step, Call(s, late), t) && t.cleared > s.cleared && t.timeouts == s.timeouts
        ensures |t.exits| >= |s.accepted|
      {
        FlushKeepsPromise(s, late, t);
      }
    }
  }

  ghost predicate ClosedSince(accepted: seq<Event>, t: State) {
    t.closed && t.accepted == accepted
  }

  lemma NothingAcceptedAfterClose(s: State, t: State)
    requires s.closed && Runs.Reaches(Step, s, t)
    ensures t.closed && t.accepted == s.accepted
  {
    Runs.ReachesKeeps(Step, (x: State) => ClosedSince(s.accepted, x), s, t);
  }

  /** Once an awaited `close` returns the queue is empty, under the same condition on the flush it ends with. */
  lemma CloseEmptiesTheQueue(s: State, late: bool, t: State)
    requires Reachable(s) && s.closed && !(s.drain.Exited? && s.queue != [])
    requires Runs.Reaches(Step, Call(s, late), t) && t.cleared > s.cleared && t.timeouts == s.timeouts
    ensures t.closed && t.queue == []
  {
    ReachableInv(s);
    StepKeepsInv(s, Flush(late));
    FlushKeepsPromise(s, late, t);
    NothingAcceptedAfterClose(Call(s, late), t);
    InvAlong(Call(s, late), t);
    AcceptedHaveLeft(t);
  }

  /** Whenever a flush called now returns in time, the queue is empty. */
  ghost predicate ReturnsEmpty(s: State) {
    forall late, t: State ::
      Runs.Reaches(Step, Call(s, late), t) && t.cleared > s.cleared && t.timeouts == s.timeouts ==> t.queue == []
  }

  /** So it is exactly if the flush that `close` ends with does not join an exited drain with events queued. */
  lemma CloseEmptiesExactly(s: State)
    requires Reachable(s) && s.closed
    ensures ReturnsEmpty(s) <==> !(s.drain.Exited? && s.queue != [])
  {
    if s.drain.Exited? && s.queue != [] {
      Runs.ReachesSelf(Step, s);
      Runs.ReachesNext(Step, s, s, Clear);
      assert Runs.Reaches(Step, Call(s, false), Step(s, Clear).value);
    } else {
      forall late, t: State |
        Runs.Reaches(Step, Call(s, late), t) && t.cleared > s.cleared && t.timeouts == s.timeouts
        ensures t.queue == []
      {
        CloseEmptiesTheQueue(s, late, t);
      }
    }
  }

  /** Such a join occurs: flush an empty queue, record an event, close at once - and the event is left behind unsent. */
  lemma CloseMayLeaveEvents(cfg: Config, e: Event) returns (t: State)
    requires cfg.capacity > 0
    ensures Runs.Exec(Step, Init(cfg), [Flush(false), Enqueue(e), Shut, Flush(false), Clear]) == Some(t)
    ensures t.closed && t.drain.Idle? && t.queue == [e] && t.settled == [] && t.timeouts == 0
  {
    var s1 := Init(cfg).(drain := Exited);
    var s2 := Accept(s1, e);
    var s3 := s2.(closed := true);
    t := s3.(drain := Idle, cleared := 1);
    var none: seq<Action> := [];
    assert Runs.Exec(Step, Init(cfg), none) == Some(Init(cfg));
    assert [Flush(false)][..0] == none;
    assert Runs.Exec(Step, Init(cfg), [Flush(false)]) == Some(s1);
    assert [Flush(false), Enqueue(e)][..1] == [Flush(false)];
    assert Runs.Exec(Step, Init(cfg), [Flush(false), Enqueue(e)]) == Some(s2);
    assert [Flush(false), Enqueue(e), Shut][..2] == [Flush(false), Enqueue(e)];
    assert Runs.Exec(Step, Init(cfg), [Flush(false), Enqueue(e), Shut]) == Some(s3);
    assert [Flush(false), Enqueue(e), Shut, Flush(false)][..3] == [Flush(false), Enqueue(e), Shut];
    assert Runs.Exec(Step, Init(cfg), [Flush(false), Enqueue(e), Shut, Flush(false)]) == Some(s3);
    assert [Flush(false), Enqueue(e), Shut, Flush(false), Clear][..4] == [Flush(false), Enqueue(e), Shut, Flush(false)];
  }

  // ---------------------------------------------------------------- a drain comes to an end

  predicate Busy(d: Drain) { d.Testing? || d.Sending? || d.Backoff? }

  /** What a drain can do next: test again, get an answer, or send again. */
  function NextOf(d: Drain): Action
    requires Busy(d)
  {
    match d
    case Testing => Resume(false)
    case Sending(_, _) => Answer(Some(Response(true, 200)))
    case Backoff(_, _) => Wake
  }

  /** Every turn of the drain takes something from the queue. */
  predicate TakesSomething(s: State) { s.cfg.batchSize >= 1 || s.queue == [] }

  /** An action of the drain itself, with time left. */
  predicate Progress(a: Action) { a == Resume(false) || a.Answer? || a.Wake? }

  /** The work left in `n` full laps of at most `1 + retries` sends each. */
  function Laps(n: nat, retries: nat): nat { if n == 0 then 0 else Laps(n - 1, retries) + 2 * retries + 3 }

  /** How many more of its own steps a drain can take when nothing is added to the queue. */
  function Work(s: State): nat
    requires DrainSound(s.cfg, s.drain)
  {
    var retries := Max(0, s.cfg.maxRetries);
    match s.drain
    case Testing => Laps(|s.queue|, retries) + 1
    case Sending(_, attempt) => Laps(|s.queue|, retries) + 2 + 2 * (retries - attempt)
    case Backoff(_, attempt) => Laps(|s.queue|, retries) + 1 + 2 * (retries - attempt)
    case _ => 0
  }

  lemma {:induction false} LapsGrow(m: nat, n: nat, retries: nat)
    requires m < n
    ensures Laps(m, retries) + 2 * retries + 3 <= Laps(n, retries)
    decreases n
  {
    if m < n - 1 {
      LapsGrow(m, n - 1, retries);
    }
  }

  lemma TestUsesWork(s: State)
    requires Inv(s) && TakesSomething(s) && s.drain.Testing?
    ensures var t := Test(s, false);
            DrainSound(t.cfg, t.drain) && Work(t) < Work(s) && (t.drain.Sending? || (t.drain.Exited? && t.queue == []))
  {
    if s.queue != [] {
      LapsGrow(|Test(s, false).queue|, |s.queue|, Max(0, s.cfg.maxRetries));
    }
  }

  lemma ProgressUsesWork(s: State, a: Action)
    requires Inv(s) && TakesSomething(s) && Busy(s.drain) && Progress(a) && Step(s, a).Some?
    ensures Inv(Step(s, a).value) && Work(Step(s, a).value) < Work(s)
    ensures var t := Step(s, a).value; (Busy(t.drain) || (t.drain.Exited? && t.queue == [])) && t.closed == s.closed
  {
    StepKeepsInv(s, a);
    if a.Resume? {
      TestUsesWork(s);
    }
  }

  /** After close: the drain is going on, or it is over and has left nothing. */
  ghost predicate UnderWay(cfg: Config, t: State) {
    && Inv(t) && t.closed && t.cfg == cfg
    && (Busy(t.drain) || (t.drain.Exited? && t.queue == []))
  }

  /** Once closed, whatever is not progress of the drain leaves it as it is. */
  lemma ClosedStep(s: State, a: Action)
    requires UnderWay(s.cfg, s) && TakesSomething(s) && a != Resume(true) && a != Clear
    requires Step(s, a).Some?
    ensures var t := Step(s, a).value;
            && UnderWay(s.cfg, t) && TakesSomething(t)
            && (if Progress(a) then Work(t) < Work(s) else t == s)
  {
    if Progress(a) {
      ProgressUsesWork(s, a);
    }
  }

  function CountProgress(acts: seq<Action>): nat {
    if acts == [] then 0 else CountProgress(acts[..|acts| - 1]) + if Progress(acts[|acts| - 1]) then 1 else 0
  }

  /** No deadline passes and the drain is not yet cleared away. */
  predicate Untimed(acts: seq<Action>) {
    forall i :: 0 <= i < |acts| ==> acts[i] != Resume(true) && acts[i] != Clear
  }

  lemma {:induction false} ClosedRunUsesWork(s: State, acts: seq<Action>)
    requires UnderWay(s.cfg, s) && TakesSomething(s) && Untimed(acts)
    ensures var t := Runs.Exec(Step, s, acts);
            t.Some? ==>
              UnderWay(s.cfg, t.value) && TakesSomething(t.value) && CountProgress(acts) + Work(t.value) <= Work(s)
    decreases |acts|
  {
    if acts != [] {
      var n := |acts| - 1;
      ClosedRunUsesWork(s, acts[..n]);
      var m := Runs.Exec(Step, s, acts[..n]);
      if m.Some? && Step(m.value, acts[n]).Some? {
        ClosedStep(m.value, acts[n]);
      }
    }
  }

  /**
   After `close` a drain that is not cut short by its deadline finishes: whatever else is called meanwhile, it takes at
   most `Work(s)` steps, can always take the next one, and when it is over the queue is empty.
   */
  lemma ClosedDrainFinishes(s: State, acts: seq<Action>)
    requires UnderWay(s.cfg, s) && TakesSomething(s) && Untimed(acts)
    ensures var t := Runs.Exec(Step, s, acts);
            t.Some? ==>
              && UnderWay(s.cfg, t.value) && TakesSomething(t.value) && CountProgress(acts) + Work(t.value) <= Work(s)
              && (Busy(t.value.drain) ==> Progress(NextOf(t.value.drain)) && Step(t.value, NextOf(t.value.drain)).Some?)
  {
    ClosedRunUsesWork(s, acts);
  }

  lemma EmptyBatchTurns(s: State)
    requires Busy(s.drain) && s.queue != [] && s.cfg.batchSize <= 0
    ensures var t := Step(s, NextOf(s.drain));
            t.Some? && Busy(t.value.drain) && t.value.queue == s.queue && t.value.cfg == s.cfg
  {}

  lemma OneMoreProgress(acts: seq<Action>, a: Action)
    requires Untimed(acts) && Progress(a)
    ensures Untimed(acts + [a]) && CountProgress(acts + [a]) == CountProgress(acts) + 1
  {
    assert (acts + [a])[..|acts|] == acts;
  }

  /** With empty batches a drain can take any number of steps and the queue stays as it is. */
  lemma {:induction false} EmptyBatchesNeverEnd(s: State, rounds: nat) returns (acts: seq<Action>)
    requires Busy(s.drain) && s.queue != [] && s.cfg.batchSize <= 0
    ensures Untimed(acts) && CountProgress(acts) == rounds
    ensures var t := Runs.Exec(Step, s, acts);
            t.Some? && Busy(t.value.drain) && t.value.queue == s.queue && t.value.cfg == s.cfg
  {
    acts := [];
    if rounds > 0 {
      var before := EmptyBatchesNeverEnd(s, rounds - 1);
      var m := Runs.Exec(Step, s, before).value;
      EmptyBatchTurns(m);
      OneMoreProgress(before, NextOf(m.drain));
      acts := before + [NextOf(m.drain)];
      assert acts[..|before|] == before;
    }
  }

  ghost predicate AtMost(s: State, bound: nat) {
    forall acts :: Untimed(acts) && Runs.Exec(Step, s, acts).Some? ==> CountProgress(acts) <= bound
  }

  /** The drain takes boundedly many steps of its own as long as no deadline passes. */
  ghost predicate Finite(s: State) { exists bound: nat :: AtMost(s, bound) }

  /** So after `close` a drain is finite of itself exactly if batches hold at least one event, or nothing is queued. */
  lemma ClosedDrainIsFiniteExactly(s: State)
    requires Reachable(s) && s.closed && Busy(s.drain)
    ensures Finite(s) <==> s.cfg.batchSize >= 1 || s.queue == []
  {
    ReachableInv(s);
    if TakesSomething(s) {
      forall acts | Untimed(acts) && Runs.Exec(Step, s, acts).Some? ensures CountProgress(acts) <= Work(s) {
        ClosedDrainFinishes(s, acts);
      }
      assert AtMost(s, Work(s));
    } else {
      forall bound: nat ensures !AtMost(s, bound) {
        var acts := EmptyBatchesNeverEnd(s, bound + 1);
      }
    }
  }

  ghost predicate StillTurning(s: State, t: State) {
    && t.cfg == s.cfg && t.cfg.capacity > 0 && t.timeouts >= s.timeouts
    && (t.timeouts == s.timeouts ==> Busy(t.drain) && t.queue != [])
  }

  /** Otherwise nothing but its deadline ends it, whatever is called. */
  lemma OnlyTheDeadlineEndsIt(s: State, t: State)
    requires Reachable(s) && Busy(s.drain) && s.queue != [] && s.cfg.batchSize <= 0
    requires Runs.Reaches(Step, s, t) && t.timeouts == s.timeouts
    ensures Busy(t.drain) && t.queue != []
  {
    forall x, a | StillTurning(s, x) && Step(x, a).Some? ensures StillTurning(s, Step(x, a).value) {
      StepKeepsTurning(s, x, a);
    }
    Runs.ReachesKeeps(Step, (x: State) => StillTurning(s, x), s, t);
  }

  lemma StepKeepsTurning(s: State, t: State, a: Action)
    requires s.cfg.batchSize <= 0 && StillTurning(s, t) && Step(t, a).Some?
    ensures StillTurning(s, Step(t, a).value)
  {}
}
