/**
 The TypeScript exporter's code over the ring buffer.  Each method performs a run of the machine of module
 BatchDelivery, kept in lockstep in a ghost field; at every suspension point other callers may run.
 */
module Exporter {
  import opened Prelude
  import opened CircularBuffer
  import opened BatchDelivery
  import Runs

  /** What other callers leave alone, and what only grows, while a drain is in flight. */
  ghost predicate Continues(s: State, t: State) {
    && t.timeouts == s.timeouts && t.cleared == s.cleared
    && |t.accepted| >= |s.accepted| && |t.exits| >= |s.exits|
    && (s.closed ==> t.closed && t.queue == s.queue)
  }

  /** One more batch is settled, this one. */
  ghost predicate SettledOne(s: State, t: State, batch: seq<Event>) {
    && |t.settled| == |s.settled| + 1 && t.settled[..|s.settled|] == s.settled
    && t.settled[|s.settled|].batch == batch && SettledSoundly(t.cfg, t.settled[|s.settled|])
  }

  /** Whether a batch is to be sent again after this answer. */
  predicate SendAgain(cfg: Config, attempt: nat, res: Option<Response>) {
    && attempt < cfg.maxRetries
    && (res.None? ||
          (!res.value.ok && (res.value.status < 400 || res.value.status >= 500 || res.value.status == 429)))
  }

  /** What becomes of a batch that is not sent again. */
  function FateOf(res: Option<Response>): Fate {
    if res.Some? && res.value.ok then Delivered else if Refusal(res) then Rejected else Exhausted
  }

  lemma Responds(s: State, res: Option<Response>)
    requires s.drain.Sending?
    ensures Respond(s, res) == if SendAgain(s.cfg, s.drain.attempt, res)
                               then s.(drain := Backoff(s.drain.batch, s.drain.attempt))
                               else Settle(s, FateOf(res), res)
  {}

  /** What an answer does to the protocol state. */
  lemma AnswerTaken(s: State, res: Option<Response>)
    requires Inv(s) && s.drain.Sending?
    ensures Step(s, Answer(res)).Some?
    ensures SendAgain(s.cfg, s.drain.attempt, res) ==>
              Step(s, Answer(res)).value == s.(drain := Backoff(s.drain.batch, s.drain.attempt))
    ensures !SendAgain(s.cfg, s.drain.attempt, res) ==>
              var t := Step(s, Answer(res)).value;
              && t.drain.Testing? && SettledOne(s, t, s.drain.batch)
              && t.settled[|s.settled|].answer == res && t.settled[|s.settled|].sends == s.drain.attempt + 1
  {
    Responds(s, res);
    RespondKeepsInv(s, res);
    if !SendAgain(s.cfg, s.drain.attempt, res) {
      var t := Settle(s, FateOf(res), res);
      assert t.settled == s.settled + [Settled(s.drain.batch, s.drain.attempt + 1, FateOf(res), res)];
      assert AllSound(t.cfg, t.settled);
    }
  }

  class ScopeCallExporter {
    const cfg: Config
    const queue: CircularBuffer<Event>
    var closed: bool
    var inflightFlush: bool
    ghost var st: State

    ghost predicate Valid()
      reads this, queue, queue.buf
    {
      && queue.Valid() && queue.buf.Length == cfg.capacity
      && st.cfg == cfg && st.queue == queue.Contents() && st.closed == closed
      && (inflightFlush <==> !st.drain.Idle?)
      && Inv(st)
    }

    constructor (cfg: Config)
      requires cfg.capacity > 0
      ensures Valid() && fresh(queue) && fresh(queue.buf) && this.cfg == cfg && st == Init(cfg)
      ensures !closed && !inflightFlush && st.queue == [] && st.accepted == [] && st.settled == []
    {
      this.cfg := cfg;
      queue := new CircularBuffer<Event>(cfg.capacity);
      closed, inflightFlush := false, false;
      st := Init(cfg);
    }

    /** Record that the machine has taken a step. */
    ghost method Perform(a: Action, s0: State)
      requires Inv(st) && Step(st, a).Some? && Runs.Reaches(Step, s0, st)
      modifies this`st
      ensures st == Step(old(st), a).value && Inv(st) && Runs.Reaches(Step, s0, st)
    {
      StepKeepsInv(st, a);
      Runs.ReachesNext(Step, s0, st, a);
      st := Step(st, a).value;
    }

    method Enqueue(event: Event, ghost s0: State)
      requires Valid() && Runs.Reaches(Step, s0, st)
      modifies this`st, queue, queue.buf
      ensures Valid() && Runs.Reaches(Step, s0, st) && st == Accept(old(st), event)
    {
      Perform(BatchDelivery.Enqueue(event), s0);
      if closed {
        return;
      }
      queue.Enqueue(event);
    }

    /** One other caller: it records an event, closes, or joins the drain in flight. */
    method OtherCaller(ghost s0: State)
      requires Valid() && inflightFlush && Runs.Reaches(Step, s0, st)
      modifies this, queue, queue.buf
      ensures Valid() && Runs.Reaches(Step, s0, st)
      ensures st.drain == old(st.drain) && st.settled == old(st.settled) && Continues(old(st), st)
    {
      if * {
        var id: string := *;
        Enqueue(Event(id), s0);
      } else if * {
        closed := true;
        Perform(Shut, s0);
      } else {
        Perform(BatchDelivery.Flush(false), s0);
      }
    }

    /** While a drain waits, any number of other callers run. */
    method Others(ghost s0: State)
      requires Valid() && inflightFlush && Runs.Reaches(Step, s0, st)
      modifies this, queue, queue.buf
      ensures Valid() && Runs.Reaches(Step, s0, st)
      ensures st.drain == old(st.drain) && st.settled == old(st.settled) && Continues(old(st), st)
    {
      var n :| n >= 0;
      for k := 0 to n
        invariant Valid() && inflightFlush && Runs.Reaches(Step, s0, st)
        invariant st.drain == old(st.drain) && st.settled == old(st.settled) && Continues(old(st), st)
      {
        OtherCaller(s0);
      }
    }

    /**
     One request and its answer, None if the transport throws.  It is tried again if attempts are left and the answer is
     neither good nor a 4xx other than 429; otherwise the batch is settled.
     */
    method SendOnce(batch: seq<Event>, attempt: nat, res: Option<Response>, ghost s0: State) returns (again: bool)
      requires Valid() && inflightFlush && Runs.Reaches(Step, s0, st) && st.drain == Sending(batch, attempt)
      modifies this, queue, queue.buf
      ensures Valid() && inflightFlush && Runs.Reaches(Step, s0, st) && Continues(old(st), st)
      ensures again <==> SendAgain(cfg, attempt, res)
      ensures if again then st.drain == Backoff(batch, attempt) && st.settled == old(st.settled)
              else st.drain.Testing? && SettledOne(old(st), st, batch)
      ensures !again ==> var b := st.settled[|old(st.settled)|]; b.answer == res && b.sends == attempt + 1
    {
      Others(s0);
      var r := if res.None? then Response(false, 503) else res.value;
      AnswerTaken(st, res);
      Perform(Answer(res), s0);
      again := !r.ok && !ClientError(r) && attempt < cfg.maxRetries;
    }

    /** Send until settled; between sends the retry timer runs. */
    method SendWithRetry(batch: seq<Event>, attempt: nat, ghost s0: State)
      requires Valid() && inflightFlush && Runs.Reaches(Step, s0, st) && st.drain == Sending(batch, attempt)
      modifies this, queue, queue.buf
      ensures Valid() && inflightFlush && Runs.Reaches(Step, s0, st) && st.drain.Testing? && Continues(old(st), st)
      ensures SettledOne(old(st), st, batch)
      decreases Max(0, cfg.maxRetries) - attempt
    {
      var res: Option<Response> := *;
      var again := SendOnce(batch, attempt, res, s0);
      if again {
        AwaitRetry(batch, attempt, s0);
        SendWithRetry(batch, attempt + 1, s0);
      }
    }

    /** The retry timer runs, and wakes the drain. */
    method AwaitRetry(batch: seq<Event>, attempt: nat, ghost s0: State)
      requires Valid() && inflightFlush && Runs.Reaches(Step, s0, st) && st.drain == Backoff(batch, attempt)
      modifies this, queue, queue.buf
      ensures Valid() && inflightFlush && Runs.Reaches(Step, s0, st) && Continues(old(st), st)
      ensures st.drain == Sending(batch, attempt + 1) && st.settled == old(st.settled)
    {
      Others(s0);
      Perform(Wake, s0);
    }

    /** The drain loop has ended, or its deadline has passed. */
    method Leave(late: bool, ghost s0: State)
      requires Valid() && Runs.Reaches(Step, s0, st) && (st.drain.Idle? || st.drain.Testing?)
      requires late || st.queue == []
      modifies this`st, this`inflightFlush
      ensures Valid() && st == Test(old(st), late) && st.drain.Exited? && Runs.Reaches(Step, s0, st)
    {
      Perform(if st.drain.Idle? then BatchDelivery.Flush(late) else Resume(late), s0);
      inflightFlush := true;
    }

    method TakeBatch(ghost s0: State) returns (batch: seq<Event>)
      requires Valid() && Runs.Reaches(Step, s0, st) && (st.drain.Idle? || st.drain.Testing?) && st.queue != []
      modifies this`st, this`inflightFlush, queue, queue.buf
      ensures Valid() && inflightFlush && st == Test(old(st), false) && Runs.Reaches(Step, s0, st)
      ensures st.settled == old(st.settled)
      ensures st.drain == Sending(batch, 0)
      ensures batch == old(st.queue)[..|batch|] && |batch| == Max(0, Min(cfg.batchSize, |old(st.queue)|))
      ensures st.queue == old(st.queue)[|batch|..]
    {
      Perform(if st.drain.Idle? then BatchDelivery.Flush(false) else Resume(false), s0);
      batch := queue.Dequeue(cfg.batchSize);
      inflightFlush := true;  // in the same synchronous stretch as the first loop test
    }

    /** `budget` is how often the loop condition is tested before the deadline. */
    method DrainOnce(budget: nat, ghost s0: State)
      requires Valid() && Runs.Reaches(Step, s0, st) && st.drain.Idle?
      modifies this, queue, queue.buf
      ensures Valid() && Runs.Reaches(Step, s0, st) && st.drain.Exited? && st.cleared == old(st.cleared)
      ensures if st.timeouts == old(st.timeouts) then st.queue == []
              else st.timeouts == old(st.timeouts) + 1 && |st.settled| == |old(st.settled)| + budget
      ensures |st.accepted| >= |old(st.accepted)| && |st.exits| >= |old(st.exits)|
      ensures old(closed) ==> closed
    {
      var left := budget;
      while queue.size > 0
        invariant Valid() && Runs.Reaches(Step, s0, st) && (st.drain.Idle? || st.drain.Testing?)
        invariant st.timeouts == old(st.timeouts) && st.cleared == old(st.cleared)
        invariant |st.settled| == |old(st.settled)| + budget - left
        invariant |st.accepted| >= |old(st.accepted)| && |st.exits| >= |old(st.exits)|
        invariant old(closed) ==> closed
        decreases left
      {
        if left == 0 {
          Leave(true, s0);
          return;
        }
        left := left - 1;
        var batch := TakeBatch(s0);
        SendWithRetry(batch, 0, s0);
        Others(s0);
      }
      Leave(false, s0);
    }

    /** A call that starts a drain returns with everything accepted before it gone, unless it ran out of time. */
    method Flush(budget: nat, ghost s0: State) returns (joined: bool)
      requires Valid() && Runs.Reaches(Step, s0, st)
      modifies this, queue, queue.buf
      ensures Valid() && Runs.Reaches(Step, s0, st)
      ensures joined == old(inflightFlush) && (joined ==> st == old(st))
      ensures !joined ==> st.drain.Idle? && st.cleared == old(st.cleared) + 1
      ensures !joined && st.timeouts == old(st.timeouts) ==> |st.exits| >= |old(st.accepted)|
      ensures !joined && st.timeouts == old(st.timeouts) && old(closed) ==> st.queue == []
      ensures !joined && st.timeouts != old(st.timeouts) ==> |st.settled| == |old(st.settled)| + budget
      ensures old(closed) ==> closed
    {
      if inflightFlush {
        return true;
      }
      DrainOnce(budget, s0);
      AcceptedHaveLeft(st);
      Finish(s0);
      joined := false;
    }

    /** The `finally` handler, run after whatever other callers do before it. */
    method Finish(ghost s0: State)
      requires Valid() && inflightFlush && Runs.Reaches(Step, s0, st) && st.drain.Exited?
      modifies this, queue, queue.buf
      ensures Valid() && Runs.Reaches(Step, s0, st) && st.drain.Idle?
      ensures st.settled == old(st.settled)
      ensures st.cleared == old(st.cleared) + 1 && Continues(old(st), st.(cleared := old(st.cleared)))
    {
      Others(s0);
      Perform(Clear, s0);
      inflightFlush := false;
    }

    /** Once it returns the queue is empty, unless it joined a drain or ran out of time. */
    method Close(budget: nat, ghost s0: State) returns (joined: bool)
      requires Valid() && Runs.Reaches(Step, s0, st)
      modifies this, queue, queue.buf
      ensures Valid() && Runs.Reaches(Step, s0, st) && closed && joined == old(inflightFlush)
      ensures !joined && st.timeouts == old(st.timeouts) ==> st.queue == []
      ensures !joined && st.timeouts != old(st.timeouts) ==> |st.settled| == |old(st.settled)| + budget
    {
      closed := true;
      Perform(Shut, s0);
      joined := Flush(budget, s0);
    }
  }
}
