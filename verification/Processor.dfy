/**
 The processor's crash/replay protocol: one process consumes a log, enriches, buffers and inserts in batches,
 falls back to single rows and the dead-letter queue, and only then stores the offset to resume from.
 A crash can fall between any two steps.
 */
module Processor {
  import opened Prelude
  import opened Enrichment
  import Pricing
  import Runs

  const MAX_WRITE_ATTEMPTS: nat := 3

  /** The flush threshold, and enrichment as the function of the event that the enricher computes. */
  datatype Config = Config(batchSize: nat, enrich: Event -> Event)

  function DeployedConfig(batchSize: nat, prices: Pricing.Table, redact: string -> string): Config {
    Config(batchSize, e => Enrich(prices, redact, e))
  }

  /** What the log holds at one offset: no value, bytes that do not parse, or an event. */
  datatype Record = NoValue | Malformed | Payload(event: Event)

  datatype Pending = Pending(event: Event, offset: nat)

  /** Where the process is.  `upTo` is the offset that will be stored, `last` says the process exits afterwards. */
  datatype Phase =
    | Down
    | Polling
    | Inserting(batch: seq<Event>, upTo: int, last: bool)
    | Retrying(todo: seq<Event>, attempt: nat, upTo: int, last: bool)
    | DeadLettering(todo: seq<Event>, upTo: int, last: bool)
    | Saving(upTo: int, last: bool)

  /**
   `log`, `table`, `dlq` and `cell` (the offset file) survive a crash; `lost` lists the events whose dead-letter send
   failed, which the code only logs.  `saved` (every offset ever stored), `covered` (the highest offset this
   process has flushed or resumed from) and `tracked` (whether the offset file reflects `covered`) are history.
   */
  datatype State = State(
    cfg: Config, log: seq<Record>,
    phase: Phase, buf: seq<Pending>, maxSeen: int, next: nat,
    cell: Option<nat>, table: seq<Row>, dlq: seq<Event>, lost: seq<Event>,
    saved: set<nat>, covered: int, tracked: bool)

  datatype Action =
    | Produce(record: Record)                      // another record reaches the log
    | Restart(readable: bool)                      // start-up; the offset file may be unreadable
    | Poll                                         // the next record of the stream
    | Tick                                         // the flush timer
    | StreamEnd
    | InsertBatch(ok: bool, written: seq<Event>)   // a failed insert may have landed in part or whole
    | InsertRow(ok: bool, landed: bool)
    | DeadLetter(ok: bool, landed: bool)
    | Save(landed: bool)
    | Crash(cell: Option<nat>)                     // no fsync: the file may be gone or hold an older value

  function Start(cfg: Config, log: seq<Record>): State {
    State(cfg, log, Down, [], -1, 0, None, [], [], [], {}, -1, true)
  }

  function Events(buf: seq<Pending>): seq<Event> { seq(|buf|, i requires 0 <= i < |buf| => buf[i].event) }

  function Rows(events: seq<Event>): seq<Row> { seq(|events|, i requires 0 <= i < |events| => RowOf(events[i])) }

  function MaxOffset(buf: seq<Pending>): (m: int)
    ensures forall p :: p in buf ==> p.offset <= m
    ensures buf == [] ==> m == -1
    ensures buf != [] ==> exists p :: p in buf && p.offset == m
  {
    if buf == [] then -1
    else
      var m := MaxOffset(buf[..|buf| - 1]);
      var p := buf[|buf| - 1];
      assert forall q :: q in buf <==> q in buf[..|buf| - 1] || q == p;
      Max(m, p.offset)
  }

  function AfterFlush(last: bool): Phase { if last then Down else Polling }

  /** The beginning of `flush`: drain the buffer into one batch, remembering the offset to store afterwards. */
  function BeginFlush(s: State, last: bool): State {
    if s.buf == [] then
      if s.maxSeen >= 0 then s.(phase := Saving(s.maxSeen, last), covered := s.maxSeen)
      else s.(phase := AfterFlush(last))
    else
      var upTo := Max(MaxOffset(s.buf), s.maxSeen);
      s.(phase := Inserting(Events(s.buf), upTo, last), buf := [], covered := upTo)
  }

  /** Per-event retry of `todo`, one event at a time. */
  function BeginRetry(todo: seq<Event>, upTo: int, last: bool): Phase {
    if todo == [] then Saving(upTo, last) else Retrying(todo, 1, upTo, last)
  }

  function PollStep(s: State): Option<State> {
    if !(s.phase.Polling? && s.next < |s.log|) then None
    else
      var seen := s.(maxSeen := Max(s.maxSeen, s.next), next := s.next + 1);
      match s.log[s.next]
      case NoValue => Some(seen)
      case Malformed => Some(seen)
      case Payload(event) =>
        var full := seen.(buf := s.buf + [Pending(s.cfg.enrich(event), s.next)]);
        if |full.buf| >= s.cfg.batchSize then Some(BeginFlush(full, false)) else Some(full)
  }

  function RestartStep(s: State, readable: bool): Option<State> {
    if !s.phase.Down? then None
    else
      var from := if readable && s.cell.Some? then s.cell.value + 1 else 0;
      Some(s.(phase := Polling, buf := [], maxSeen := -1, next := from, covered := from - 1,
              tracked := readable || s.cell.None?))
  }

  function TickStep(s: State): Option<State> {
    if !s.phase.Polling? then None
    else if s.buf != [] then Some(BeginFlush(s, false))
    else if s.maxSeen >= 0 then Some(s.(phase := Saving(s.maxSeen, false), covered := s.maxSeen))
    else Some(s)
  }

  function InsertBatchStep(s: State, ok: bool, written: seq<Event>): Option<State> {
    if !(s.phase.Inserting? && (forall e :: e in written ==> e in s.phase.batch)
        && (ok ==> written == s.phase.batch)) then None
    else
      Some(s.(table := s.table + Rows(written),
              phase := if ok then Saving(s.phase.upTo, s.phase.last)
                       else BeginRetry(s.phase.batch, s.phase.upTo, s.phase.last)))
  }

  function InsertRowStep(s: State, ok: bool, landed: bool): Option<State> {
    if !(s.phase.Retrying? && s.phase.todo != [] && (ok ==> landed)) then None
    else
      Some(s.(table := if landed then s.table + [RowOf(s.phase.todo[0])] else s.table,
              phase := if ok then BeginRetry(s.phase.todo[1..], s.phase.upTo, s.phase.last)
                       else if s.phase.attempt < MAX_WRITE_ATTEMPTS then s.phase.(attempt := s.phase.attempt + 1)
                       else DeadLettering(s.phase.todo, s.phase.upTo, s.phase.last)))
  }

  function DeadLetterStep(s: State, ok: bool, landed: bool): Option<State> {
    if !(s.phase.DeadLettering? && s.phase.todo != [] && (ok ==> landed)) then None
    else
      var e := s.phase.todo[0];
      Some(s.(dlq := if landed then s.dlq + [e] else s.dlq,
              lost := if ok then s.lost else s.lost + [e],
              phase := BeginRetry(s.phase.todo[1..], s.phase.upTo, s.phase.last)))
  }

  function SaveStep(s: State, landed: bool): Option<State> {
    if !s.phase.Saving? then None
    else if landed && s.phase.upTo >= 0 then
      Some(s.(phase := AfterFlush(s.phase.last), cell := Some(s.phase.upTo), saved := s.saved + {s.phase.upTo},
          tracked := true))
    else Some(s.(phase := AfterFlush(s.phase.last)))
  }

  function CrashStep(s: State, cell: Option<nat>): Option<State> {
    if cell != None && cell != s.cell && cell.value !in s.saved then None
    else Some(s.(phase := Down, buf := [], maxSeen := -1, next := 0, covered := -1, tracked := false, cell := cell))
  }

  function Step(s: State, a: Action): Option<State> {
    match a
    case Produce(record) => Some(s.(log := s.log + [record]))
    case Restart(readable) => RestartStep(s, readable)
    case Poll => PollStep(s)
    case Tick => TickStep(s)
    case StreamEnd => if s.phase.Polling? then Some(BeginFlush(s, true)) else None
    case InsertBatch(ok, written) => InsertBatchStep(s, ok, written)
    case InsertRow(ok, landed) => InsertRowStep(s, ok, landed)
    case DeadLetter(ok, landed) => DeadLetterStep(s, ok, landed)
    case Save(landed) => SaveStep(s, landed)
    case Crash(cell) => CrashStep(s, cell)
  }

  ghost predicate Reachable(s: State) {
    exists cfg, log :: Runs.Reaches(Step, Start(cfg, log), s)
  }

  // ---------------------------------------------------------------- the invariant

  /** The event reached the table, or the dead-letter queue, or was dropped in the open. */
  ghost predicate Settled(s: State, e: Event) {
    RowOf(e) in s.table || e in s.dlq || e in s.lost
  }

  ghost predicate SettledAt(s: State, i: nat) {
    i < |s.log| && s.log[i].Payload? ==> Settled(s, s.cfg.enrich(s.log[i].event))
  }

  /** Every well-formed record at or below offset `upTo` is settled. */
  ghost predicate SettledUpTo(s: State, upTo: int) {
    upTo < |s.log| && forall i: nat :: i <= upTo ==> SettledAt(s, i)
  }

  function InFlight(p: Phase): seq<Event> {
    match p
    case Inserting(batch, _, _) => batch
    case Retrying(todo, _, _, _) => todo
    case DeadLettering(todo, _, _) => todo
    case _ => []
  }

  ghost predicate FromLog(s: State, e: Event) {
    exists i :: 0 <= i < |s.log| && s.log[i].Payload? && e == s.cfg.enrich(s.log[i].event)
  }

  ghost predicate RowFromLog(s: State, r: Row) {
    exists i :: 0 <= i < |s.log| && s.log[i].Payload? && r == RowOf(s.cfg.enrich(s.log[i].event))
  }

  ghost predicate Pends(s: State, i: nat) {
    i < |s.log| && s.log[i].Payload? ==>
        (exists p :: p in s.buf && p.offset == i) || s.cfg.enrich(s.log[i].event) in InFlight(s.phase)
  }

  /** What the disk may say is always safe to resume from. */
  ghost predicate DiskSafe(s: State) {
    && (forall n :: n in s.saved ==> SettledUpTo(s, n))
    && (s.cell.Some? ==> s.cell.value in s.saved)
  }

  ghost predicate BufferFaithful(s: State) {
    && (forall k :: 0 <= k < |s.buf| ==>
         && s.covered < s.buf[k].offset <= s.maxSeen
         && s.buf[k].offset < |s.log| && s.log[s.buf[k].offset].Payload?
         && s.buf[k].event == s.cfg.enrich(s.log[s.buf[k].offset].event))
    && (forall j, k :: 0 <= j < k < |s.buf| ==> s.buf[j].offset < s.buf[k].offset)
  }

  /** Nothing the process has consumed is forgotten. */
  ghost predicate NothingForgotten(s: State) {
    forall i: nat :: i < s.next ==> SettledAt(s, i) || Pends(s, i)
  }

  ghost predicate Bookkeeping(s: State) {
    && s.next <= |s.log|
    && -1 <= s.covered < s.next
    && (s.maxSeen == -1 || s.covered <= s.maxSeen == s.next - 1)
    && (!s.phase.Polling? ==> s.buf == [])
    && (s.tracked && s.cell.Some? ==> s.cell.value <= s.covered)
    && (s.phase.Saving? ==> s.phase.upTo == s.covered == s.maxSeen)
    && (s.phase.Inserting? ==> s.phase.upTo == s.covered == s.maxSeen && s.phase.batch != [])
    && (s.phase.Retrying? ==>
        s.phase.upTo == s.covered == s.maxSeen && 1 <= s.phase.attempt <= MAX_WRITE_ATTEMPTS && s.phase.todo != [])
    && (s.phase.DeadLettering? ==> s.phase.upTo == s.covered == s.maxSeen && s.phase.todo != [])
  }

  ghost predicate Inv(s: State) {
    && DiskSafe(s)
    && (!s.phase.Down? ==> Bookkeeping(s) && NothingForgotten(s))
    && BufferFaithful(s)
    && (s.phase.Polling? ==> |s.buf| < Max(1, s.cfg.batchSize))
    && (s.phase.Down? ==> s.buf == [])
    && (forall e :: e in InFlight(s.phase) ==> FromLog(s, e))
    && (forall r :: r in s.table ==> RowFromLog(s, r))
  }

  // ---------------------------------------------------------------- every step keeps it

  /** Log, table, dead letters and losses only grow, and the configuration is fixed. */
  ghost predicate Grows(s: State, t: State) {
    && t.cfg == s.cfg && s.log <= t.log && s.table <= t.table && s.dlq <= t.dlq && s.lost <= t.lost
  }

  lemma GrowthKeepsSettled(s: State, t: State)
    requires Grows(s, t)
    ensures forall e :: Settled(s, e) ==> Settled(t, e)
    ensures forall upTo :: SettledUpTo(s, upTo) ==> SettledUpTo(t, upTo)
  {
    forall e | Settled(s, e) ensures Settled(t, e) {
      assert t.table == s.table + t.table[|s.table|..];
      assert t.dlq == s.dlq + t.dlq[|s.dlq|..];
      assert t.lost == s.lost + t.lost[|s.lost|..];
    }
    forall upTo | SettledUpTo(s, upTo) ensures SettledUpTo(t, upTo) {
      forall i: nat | i <= upTo ensures SettledAt(t, i) {
        assert SettledAt(s, i);
        assert t.log[i] == s.log[i];
      }
    }
  }

  lemma GrowthKeepsProvenance(s: State, t: State)
    requires Grows(s, t)
    ensures forall e :: FromLog(s, e) ==> FromLog(t, e)
    ensures forall r :: RowFromLog(s, r) ==> RowFromLog(t, r)
  {
    assert forall i :: 0 <= i < |s.log| ==> t.log[i] == s.log[i];
  }

  /** The invariant at the loop head, except that the buffer may just have become full. */
  ghost predicate PollingInv(s: State) {
    && s.phase.Polling?
    && DiskSafe(s) && BufferFaithful(s) && Bookkeeping(s) && NothingForgotten(s)
    && forall r :: r in s.table ==> RowFromLog(s, r)
  }

  lemma FlushCarries(s: State, last: bool, i: nat)
    requires s.phase.Polling? && BufferFaithful(s) && i < |s.log| && s.log[i].Payload?
    requires exists p :: p in s.buf && p.offset == i
    ensures s.cfg.enrich(s.log[i].event) in InFlight(BeginFlush(s, last).phase)
  {
    var p :| p in s.buf && p.offset == i;
    var k :| 0 <= k < |s.buf| && s.buf[k] == p;
    assert Events(s.buf)[k] == s.cfg.enrich(s.log[i].event);
  }

  lemma FlushForgetsNothing(s: State, last: bool)
    requires s.phase.Polling? && BufferFaithful(s) && NothingForgotten(s)
    ensures NothingForgotten(BeginFlush(s, last))
  {
    var t := BeginFlush(s, last);
    forall i: nat | i < t.next ensures SettledAt(t, i) || Pends(t, i) {
      assert SettledAt(s, i) || Pends(s, i);
      if SettledAt(s, i) {
        assert SettledAt(t, i);
      } else if i < |s.log| && s.log[i].Payload? {
        FlushCarries(s, last, i);
      }
    }
  }

  lemma FlushedComesFromLog(s: State)
    requires BufferFaithful(s)
    ensures forall e :: e in Events(s.buf) ==> FromLog(s, e)
  {
    forall e | e in Events(s.buf) ensures FromLog(s, e) {
      var k :| 0 <= k < |s.buf| && e == Events(s.buf)[k];
      assert s.log[s.buf[k].offset].Payload?;
    }
  }

  lemma FlushKeepsBooks(s: State, last: bool)
    requires s.phase.Polling? && BufferFaithful(s) && Bookkeeping(s)
    ensures Bookkeeping(BeginFlush(s, last)) && BufferFaithful(BeginFlush(s, last))
  {
    if s.buf != [] {
      assert s.buf[0] in s.buf;
    }
  }

  /** Flushing is safe even from a buffer that has just become too full for the loop head. */
  lemma FlushKeepsInv(s: State, last: bool)
    requires PollingInv(s)
    ensures Inv(BeginFlush(s, last))
  {
    var t := BeginFlush(s, last);
    GrowthKeepsSettled(s, t);
    GrowthKeepsProvenance(s, t);
    FlushForgetsNothing(s, last);
    FlushedComesFromLog(s);
    FlushKeepsBooks(s, last);
  }

  /** The buffer after appending the record just read. */
  lemma ReadKeepsPollingInv(s: State)
    requires PollingInv(s) && s.next < |s.log|
    ensures var i := s.next;
            var seen := s.(maxSeen := Max(s.maxSeen, i), next := i + 1);
            match s.log[i]
            case Payload(event) => PollingInv(seen.(buf := s.buf + [Pending(s.cfg.enrich(event), i)]))
            case _ => PollingInv(seen)
  {
    var i := s.next;
    var seen := s.(maxSeen := Max(s.maxSeen, i), next := i + 1);
    var t := if s.log[i].Payload? then seen.(buf := s.buf + [Pending(s.cfg.enrich(s.log[i].event), i)]) else seen;
    GrowthKeepsProvenance(s, t);
    GrowthKeepsSettled(s, t);
    forall j: nat | j < t.next ensures SettledAt(t, j) || Pends(t, j) {
      if j < i {
        assert SettledAt(s, j) || Pends(s, j);
        if !SettledAt(s, j) {
          var p :| p in s.buf && p.offset == j;
          assert p in t.buf;
        }
      } else if s.log[i].Payload? {
        assert t.buf[|s.buf|].offset == i;
      }
    }
  }

  lemma PollKeepsInv(s: State)
    requires Inv(s) && Step(s, Poll).Some?
    ensures Inv(Step(s, Poll).value)
  {
    ReadKeepsPollingInv(s);
    var t := PollStep(s).value;
    if s.log[s.next].Payload? && |s.buf| + 1 >= s.cfg.batchSize {
      var seen := s.(maxSeen := Max(s.maxSeen, s.next), next := s.next + 1);
      var full := seen.(buf := s.buf + [Pending(s.cfg.enrich(s.log[s.next].event), s.next)]);
      assert t == BeginFlush(full, false);
      FlushKeepsInv(full, false);
    } else {
      assert PollingInv(t);
    }
  }

  lemma BatchRowsAreFromLog(s: State, t: State, written: seq<Event>)
    requires Grows(s, t) && t.table == s.table + Rows(written)
    requires (forall r :: r in s.table ==> RowFromLog(s, r)) && forall e :: e in written ==> FromLog(s, e)
    ensures forall r :: r in t.table ==> RowFromLog(t, r)
    ensures forall e :: FromLog(s, e) ==> FromLog(t, e)
  {
    GrowthKeepsProvenance(s, t);
    forall r | r in t.table ensures RowFromLog(t, r) {
      if r !in s.table {
        var k :| 0 <= k < |written| && r == Rows(written)[k];
        assert FromLog(s, written[k]);
      }
    }
  }

  lemma BatchKeepsInv(s: State, ok: bool, written: seq<Event>)
    requires Inv(s) && Step(s, InsertBatch(ok, written)).Some?
    ensures Inv(Step(s, InsertBatch(ok, written)).value)
  {
    var t := Step(s, InsertBatch(ok, written)).value;
    GrowthKeepsSettled(s, t);
    BatchRowsAreFromLog(s, t, written);
    forall i: nat | i < t.next ensures SettledAt(t, i) || Pends(t, i) {
      assert SettledAt(s, i) || Pends(s, i);
      if ok && !SettledAt(s, i) {
        var e := s.cfg.enrich(s.log[i].event);
        var k :| 0 <= k < |written| && written[k] == e;
        assert Rows(written)[k] in t.table;
      }
    }
  }

  /** One event of the per-event retry is done with; it is settled, the others still pend. */
  lemma RetireHead(s: State, t: State, todo: seq<Event>)
    requires Inv(s) && Grows(s, t) && todo != [] && InFlight(s.phase) == todo && s.buf == []
    requires InFlight(t.phase) == todo[1..] && Settled(t, todo[0])
    requires !s.phase.Down? && t.next == s.next && t.log == s.log && t.buf == s.buf
    ensures NothingForgotten(t)
  {
    GrowthKeepsSettled(s, t);
    forall i: nat | i < t.next ensures SettledAt(t, i) || Pends(t, i) {
      assert SettledAt(s, i) || Pends(s, i);
      if !SettledAt(t, i) {
        var e := s.cfg.enrich(s.log[i].event);
        assert e in todo && e != todo[0];
        assert todo == [todo[0]] + todo[1..];
      }
    }
  }

  lemma LandedRowKeepsInv(s: State)
    requires Inv(s) && Step(s, InsertRow(true, true)).Some?
    ensures Inv(Step(s, InsertRow(true, true)).value)
  {
    var t := Step(s, InsertRow(true, true)).value;
    var todo := s.phase.todo;
    GrowthKeepsSettled(s, t);
    GrowthKeepsProvenance(s, t);
    assert todo[0] in InFlight(s.phase);
    assert t.table[|s.table|] == RowOf(todo[0]);
    RetireHead(s, t, todo);
  }

  /** The row may have landed all the same. */
  lemma FailedRowKeepsInv(s: State, landed: bool)
    requires Inv(s) && Step(s, InsertRow(false, landed)).Some?
    ensures Inv(Step(s, InsertRow(false, landed)).value)
  {
    var t := Step(s, InsertRow(false, landed)).value;
    GrowthKeepsSettled(s, t);
    GrowthKeepsProvenance(s, t);
    assert s.phase.todo[0] in InFlight(s.phase);
    forall i: nat | i < t.next ensures SettledAt(t, i) || Pends(t, i) {
      assert SettledAt(s, i) || Pends(s, i);
    }
  }

  lemma RowKeepsInv(s: State, ok: bool, landed: bool)
    requires Inv(s) && Step(s, InsertRow(ok, landed)).Some?
    ensures Inv(Step(s, InsertRow(ok, landed)).value)
  {
    if ok {
      LandedRowKeepsInv(s);
    } else {
      FailedRowKeepsInv(s, landed);
    }
  }

  lemma DeadLetterKeepsInv(s: State, ok: bool, landed: bool)
    requires Inv(s) && Step(s, DeadLetter(ok, landed)).Some?
    ensures Inv(Step(s, DeadLetter(ok, landed)).value)
  {
    var t := Step(s, DeadLetter(ok, landed)).value;
    GrowthKeepsSettled(s, t);
    GrowthKeepsProvenance(s, t);
    if ok {
      assert t.dlq[|s.dlq|] == s.phase.todo[0];
    } else {
      assert t.lost[|s.lost|] == s.phase.todo[0];
    }
    RetireHead(s, t, s.phase.todo);
  }

  /** With nothing in flight, everything consumed is settled. */
  lemma QuietMeansSettled(s: State)
    requires Inv(s) && !s.phase.Down? && s.buf == [] && InFlight(s.phase) == []
    ensures SettledUpTo(s, s.next - 1)
  {
    forall i: nat | i < s.next ensures SettledAt(s, i) {
      assert SettledAt(s, i) || Pends(s, i);
    }
  }

  lemma SaveKeepsInv(s: State, landed: bool)
    requires Inv(s) && Step(s, Save(landed)).Some?
    ensures Inv(Step(s, Save(landed)).value)
  {
    var t := Step(s, Save(landed)).value;
    QuietMeansSettled(s);
    GrowthKeepsSettled(s, t);
    GrowthKeepsProvenance(s, t);
    if !t.phase.Down? {
      forall i: nat | i < t.next ensures SettledAt(t, i) || Pends(t, i) {
        assert SettledAt(s, i);
      }
    }
  }

  lemma RestartKeepsInv(s: State, readable: bool)
    requires Inv(s) && Step(s, Restart(readable)).Some?
    ensures Inv(Step(s, Restart(readable)).value)
  {
    var t := Step(s, Restart(readable)).value;
    GrowthKeepsSettled(s, t);
    GrowthKeepsProvenance(s, t);
    if readable && s.cell.Some? {
      assert SettledUpTo(s, s.cell.value);
      forall i: nat | i < t.next ensures SettledAt(t, i) {
        assert SettledAt(s, i);
      }
    }
  }

  lemma ProduceKeepsInv(s: State, record: Record)
    requires Inv(s)
    ensures Inv(Step(s, Produce(record)).value)
  {
    var t := Step(s, Produce(record)).value;
    GrowthKeepsSettled(s, t);
    GrowthKeepsProvenance(s, t);
    if !t.phase.Down? {
      forall i: nat | i < t.next ensures SettledAt(t, i) || Pends(t, i) {
        assert t.log[i] == s.log[i];
        assert SettledAt(s, i) || Pends(s, i);
      }
    }
  }

  lemma IdleTickKeepsInv(s: State)
    requires Inv(s) && s.phase.Polling? && s.buf == []
    ensures Inv(Step(s, Tick).value)
  {
    var t := Step(s, Tick).value;
    GrowthKeepsSettled(s, t);
    GrowthKeepsProvenance(s, t);
    forall i: nat | i < t.next ensures SettledAt(t, i) || Pends(t, i) {
      assert SettledAt(s, i) || Pends(s, i);
    }
  }

  lemma CrashKeepsInv(s: State, cell: Option<nat>)
    requires Inv(s) && Step(s, Crash(cell)).Some?
    ensures Inv(Step(s, Crash(cell)).value)
  {
    var t := Step(s, Crash(cell)).value;
    GrowthKeepsSettled(s, t);
    GrowthKeepsProvenance(s, t);
  }

  lemma StepKeepsInv(s: State, a: Action)
    requires Inv(s) && Step(s, a).Some?
    ensures Inv(Step(s, a).value)
  {
    match a {
      case Produce(record) => ProduceKeepsInv(s, record);
      case Restart(readable) => RestartKeepsInv(s, readable);
      case Poll => PollKeepsInv(s);
      case Tick => if s.buf != [] { FlushKeepsInv(s, false); } else { IdleTickKeepsInv(s); }
      case StreamEnd => FlushKeepsInv(s, true);
      case InsertBatch(ok, written) => BatchKeepsInv(s, ok, written);
      case InsertRow(ok, landed) => RowKeepsInv(s, ok, landed);
      case DeadLetter(ok, landed) => DeadLetterKeepsInv(s, ok, landed);
      case Save(landed) => SaveKeepsInv(s, landed);
      case Crash(cell) => CrashKeepsInv(s, cell);
    }
  }

  lemma ReachableInv(s: State)
    requires Reachable(s)
    ensures Inv(s)
  {
    var cfg, log :| Runs.Reaches(Step, Start(cfg, log), s);
    forall x, a | Inv(x) && Step(x, a).Some? ensures Inv(Step(x, a).value) {
      StepKeepsInv(x, a);
    }
    Runs.ReachesKeeps(Step, x => Inv(x), Start(cfg, log), s);
  }

  lemma RunsStayReachable(s: State, t: State)
    requires Reachable(s) && Runs.Reaches(Step, s, t)
    ensures Reachable(t)
  {
    var cfg, log :| Runs.Reaches(Step, Start(cfg, log), s);
    Runs.ReachesTransitive(Step, Start(cfg, log), s, t);
  }

  // ---------------------------------------------------------------- no loss, safe watermark

  /**
   In every reachable state, whatever crashed or failed, every well-formed record at or below the stored offset has its
   enriched row in the table, or an envelope in the dead-letter queue, or went through the logged dead-letter failure.
   */
  lemma NoLoss(s: State)
    requires Reachable(s)
    ensures s.cell.Some? ==>
              && s.cell.value < |s.log|
              && forall i :: 0 <= i <= s.cell.value && s.log[i].Payload? ==>
                   var e := s.cfg.enrich(s.log[i].event);
                   RowOf(e) in s.table || e in s.dlq || e in s.lost
  {
    ReachableInv(s);
    if s.cell.Some? {
      assert SettledUpTo(s, s.cell.value);
      forall i | 0 <= i <= s.cell.value && s.log[i].Payload? ensures Settled(s, s.cfg.enrich(s.log[i].event)) {
        assert SettledAt(s, i);
      }
    }
  }

  /**
   Once the process has read the offset file or stored an offset itself, the stored offset is strictly below every
   buffered offset and no later step of that process moves it back; the buffer is below its flush threshold at the loop
   head.
   */
  lemma WatermarkIsSafe(s: State, a: Action)
    requires Reachable(s)
    ensures s.phase.Polling? ==> |s.buf| < Max(1, s.cfg.batchSize)
    ensures !s.phase.Down? && s.tracked && s.cell.Some? ==> forall p :: p in s.buf ==> s.cell.value < p.offset
    ensures !s.phase.Down? && s.tracked && s.cell.Some? && !a.Crash? && Step(s, a).Some? ==>
              var t := Step(s, a).value;
              t.cell.Some? && t.cell.value >= s.cell.value && (t.phase.Down? || t.tracked)
  {
    ReachableInv(s);
  }

  // ---------------------------------------------------------------- which starts keep the watermark

  /** What a process does from start to exit. */
  function UpStep(s: State, a: Action): Option<State> { if a.Crash? || a.Restart? then None else Step(s, a) }

  predicate BufferedAboveStored(s: State) {
    s.cell.Some? ==> forall k :: 0 <= k < |s.buf| ==> s.cell.value < s.buf[k].offset
  }

  /** However long the process runs that started in `s`, what it buffers is above what is stored. */
  ghost predicate KeepsWatermark(s: State) {
    forall t :: Runs.Reaches(UpStep, s, t) ==> BufferedAboveStored(t)
  }

  predicate NoPayloadUpTo(log: seq<Record>, n: int)
    requires n < |log|
  {
    forall i :: 0 <= i <= n ==> !log[i].Payload?
  }

  /**
   A start that can do no harm: the file is read or absent, nothing stays buffered, or there is nothing to buffer
   below.
   */
  ghost predicate HarmlessStart(s: State, readable: bool)
    requires s.cell.Some? ==> s.cell.value < |s.log|
  {
    readable || s.cell.None? || s.cfg.batchSize < 2 || NoPayloadUpTo(s.log, s.cell.value)
  }

  /** What such a start has going for it, as long as the process runs. */
  ghost predicate StaysAbove(s: State, t: State) {
    && Inv(t) && t.cfg == s.cfg && s.log <= t.log
    && (t.tracked || (t.cell == s.cell
        && (s.cell.Some? ==> s.cell.value < |s.log| && NoPayloadUpTo(s.log, s.cell.value))))
  }

  lemma UpStepStaysAbove(s: State, t: State, a: Action)
    requires StaysAbove(s, t) && UpStep(t, a).Some?
    ensures StaysAbove(s, UpStep(t, a).value)
  {
    StepKeepsInv(t, a);
  }

  lemma StayingAboveIsSafe(s: State, t: State)
    requires StaysAbove(s, t)
    ensures BufferedAboveStored(t)
  {
    if t.cell.Some? && !t.tracked {
      forall k | 0 <= k < |t.buf| ensures t.cell.value < t.buf[k].offset {
        assert t.log[t.buf[k].offset].Payload?;
        assert forall i :: 0 <= i < |s.log| ==> t.log[i] == s.log[i];
      }
    }
  }

  ghost predicate SmallBatches(s: State) { Inv(s) && s.cfg.batchSize < 2 }

  lemma SmallBatchesKeepWatermark(u: State, t: State)
    requires Inv(u) && u.cfg.batchSize < 2 && Runs.Reaches(UpStep, u, t)
    ensures BufferedAboveStored(t)
  {
    forall x, a | SmallBatches(x) && UpStep(x, a).Some? ensures SmallBatches(UpStep(x, a).value) {
      StepKeepsInv(x, a);
    }
    Runs.ReachesKeeps(UpStep, (x: State) => SmallBatches(x), u, t);
  }

  lemma StayingAboveKeepsWatermark(s: State, u: State, t: State)
    requires StaysAbove(s, u) && Runs.Reaches(UpStep, u, t)
    ensures BufferedAboveStored(t)
  {
    forall x, a | StaysAbove(s, x) && UpStep(x, a).Some? ensures StaysAbove(s, UpStep(x, a).value) {
      UpStepStaysAbove(s, x, a);
    }
    Runs.ReachesKeeps(UpStep, (x: State) => StaysAbove(s, x), u, t);
    StayingAboveIsSafe(s, t);
  }

  lemma HarmlessStartsKeepWatermark(s: State, readable: bool, t: State)
    requires Inv(s) && s.phase.Down? && (s.cell.Some? ==> s.cell.value < |s.log|) && HarmlessStart(s, readable)
    requires Runs.Reaches(UpStep, RestartStep(s, readable).value, t)
    ensures BufferedAboveStored(t)
  {
    var u := RestartStep(s, readable).value;
    StepKeepsInv(s, Restart(readable));
    if s.cfg.batchSize < 2 {
      SmallBatchesKeepWatermark(u, t);
    } else {
      StayingAboveKeepsWatermark(s, u, t);
    }
  }

  /** A process that has just started reads over records without a payload, and nothing else changes. */
  lemma {:induction false} SkipsTo(u: State, k: nat) returns (t: State)
    requires u.phase.Polling? && u.buf == [] && u.next == 0 && u.maxSeen == -1 && k <= |u.log|
    requires NoPayloadUpTo(u.log, k - 1)
    ensures Runs.Reaches(UpStep, u, t) && t == u.(next := k, maxSeen := k - 1)
    decreases k
  {
    if k == 0 {
      t := u;
      Runs.ReachesSelf(UpStep, u);
    } else {
      var m := SkipsTo(u, k - 1);
      Runs.ReachesNext(UpStep, u, m, Poll);
      t := UpStep(m, Poll).value;
    }
  }

  lemma {:induction false} FirstPayload(log: seq<Record>, n: nat) returns (i: nat)
    requires n < |log| && !NoPayloadUpTo(log, n)
    ensures i <= n && log[i].Payload? && NoPayloadUpTo(log, i - 1)
    decreases n
  {
    if n == 0 || NoPayloadUpTo(log, n - 1) {
      i := n;
    } else {
      i := FirstPayload(log, n - 1);
    }
  }

  lemma HarmfulStartBreaksWatermark(s: State) returns (t: State)
    requires s.phase.Down? && s.cell.Some? && s.cell.value < |s.log| && !HarmlessStart(s, false)
    ensures Runs.Reaches(UpStep, RestartStep(s, false).value, t) && !BufferedAboveStored(t)
  {
    var u := RestartStep(s, false).value;
    var i := FirstPayload(s.log, s.cell.value);
    var m := SkipsTo(u, i);
    Runs.ReachesNext(UpStep, u, m, Poll);
    t := UpStep(m, Poll).value;
    assert t.buf == [Pending(s.cfg.enrich(s.log[i].event), i)];
    assert t.cell.value >= t.buf[0].offset;
  }

  /**
   The promise that the stored offset is below every buffered one, for all that a started process may do: it holds
   exactly if the offset file could be read or is absent, or batches are of one event, or all records up to the stored
   offset are bad.
   */
  lemma StartKeepsWatermarkExactly(s: State, readable: bool)
    requires Reachable(s) && s.phase.Down?
    ensures s.cell.Some? ==> s.cell.value < |s.log|
    ensures KeepsWatermark(RestartStep(s, readable).value) <==> HarmlessStart(s, readable)
  {
    ReachableInv(s);
    NoLoss(s);
    if HarmlessStart(s, readable) {
      forall t | Runs.Reaches(UpStep, RestartStep(s, readable).value, t) ensures BufferedAboveStored(t) {
        HarmlessStartsKeepWatermark(s, readable, t);
      }
    } else {
      var t := HarmfulStartBreaksWatermark(s);
    }
  }

  // ---------------------------------------------------------------- which starts keep the stored offset

  predicate StoresAtLeast(least: nat, s: State) { s.cell.Some? ==> s.cell.value >= least }

  /** However long the process runs that started in `s`, it never stores less than this. */
  ghost predicate NeverStoresLess(least: nat, s: State) {
    forall t :: Runs.Reaches(UpStep, s, t) ==> StoresAtLeast(least, t)
  }

  ghost predicate HoldsAtLeast(least: nat, s: State) {
    Inv(s) && s.tracked && s.cell.Some? && s.cell.value >= least
  }

  /** The one step that stores an offset stores one at or above those flushed before. */
  lemma StoredMovesOn(s: State, a: Action)
    requires Inv(s) && s.tracked && s.cell.Some? && UpStep(s, a).Some?
    ensures var t := UpStep(s, a).value; t.tracked && t.cell.Some? && t.cell.value >= s.cell.value
  {}

  lemma UpStepHoldsAtLeast(least: nat, s: State, a: Action)
    requires HoldsAtLeast(least, s) && UpStep(s, a).Some?
    ensures HoldsAtLeast(least, UpStep(s, a).value)
  {
    StoredMovesOn(s, a);
    StepKeepsInv(s, a);
  }

  lemma ReadableStartsNeverStoreLess(s: State, t: State)
    requires Inv(s) && s.phase.Down? && s.cell.Some? && Runs.Reaches(UpStep, RestartStep(s, true).value, t)
    ensures StoresAtLeast(s.cell.value, t)
  {
    var u := RestartStep(s, true).value;
    StepKeepsInv(s, Restart(true));
    forall x, a | HoldsAtLeast(s.cell.value, x) && UpStep(x, a).Some?
      ensures HoldsAtLeast(s.cell.value, UpStep(x, a).value)
    {
      UpStepHoldsAtLeast(s.cell.value, x, a);
    }
    Runs.ReachesKeeps(UpStep, (x: State) => HoldsAtLeast(s.cell.value, x), u, t);
  }

  /** A process that has just started reads its first record; now or on the timer it is flushed. */
  lemma UpNext(u: State, s: State, a: Action, t: State)
    requires Runs.Reaches(UpStep, u, s) && UpStep(s, a) == Some(t)
    ensures Runs.Reaches(UpStep, u, t)
  {
    Runs.ReachesNext(UpStep, u, s, a);
  }

  lemma UpPoll(u: State, s: State)
    requires Runs.Reaches(UpStep, u, s) && PollStep(s).Some?
    ensures Runs.Reaches(UpStep, u, PollStep(s).value)
  {
    UpNext(u, s, Poll, PollStep(s).value);
  }

  lemma UpTick(u: State, s: State)
    requires Runs.Reaches(UpStep, u, s) && TickStep(s).Some?
    ensures Runs.Reaches(UpStep, u, TickStep(s).value)
  {
    UpNext(u, s, Tick, TickStep(s).value);
  }

  lemma UpSave(u: State, s: State)
    requires Runs.Reaches(UpStep, u, s) && SaveStep(s, true).Some?
    ensures Runs.Reaches(UpStep, u, SaveStep(s, true).value)
  {
    UpNext(u, s, Save(true), SaveStep(s, true).value);
  }

  predicate FlushesFirst(s: State) {
    s.phase == Saving(0, false) || (s.phase.Inserting? && s.phase.upTo == 0 && !s.phase.last)
  }

  /** Polling, with the first record alone in the buffer or skipped. */
  predicate HoldsFirst(t: State) {
    t.phase.Polling? && t.maxSeen == 0 && (t.buf == [] || (|t.buf| == 1 && t.buf[0].offset == 0))
  }

  lemma FirstPoll(u: State)
    requires u.phase.Polling? && u.buf == [] && u.next == 0 && u.maxSeen == -1 && |u.log| > 0
    ensures PollStep(u).Some? && PollStep(u).value.cell == u.cell
    ensures FlushesFirst(PollStep(u).value) || HoldsFirst(PollStep(u).value)
  {}

  lemma FirstTick(t: State)
    requires HoldsFirst(t)
    ensures TickStep(t).Some? && FlushesFirst(TickStep(t).value) && TickStep(t).value.cell == t.cell
  {}

  lemma FirstRecordToFlush(u: State) returns (t: State)
    requires u.phase.Polling? && u.buf == [] && u.next == 0 && u.maxSeen == -1 && |u.log| > 0
    ensures Runs.Reaches(UpStep, u, t) && t.cell == u.cell && FlushesFirst(t)
  {
    FirstPoll(u);
    Runs.ReachesSelf(UpStep, u);
    t := PollStep(u).value;
    UpPoll(u, u);
    if !FlushesFirst(t) {
      FirstTick(t);
      UpTick(u, t);
      t := TickStep(t).value;
    }
  }

  lemma BatchWritten(u: State, s: State) returns (t: State)
    requires Runs.Reaches(UpStep, u, s) && s.phase.Inserting?
    ensures Runs.Reaches(UpStep, u, t) && t.phase == Saving(s.phase.upTo, s.phase.last) && t.cell == s.cell
  {
    t := InsertBatchStep(s, true, s.phase.batch).value;
    UpNext(u, s, InsertBatch(true, s.phase.batch), t);
  }

  /** And its offset stored. */
  lemma FirstRecordStored(u: State) returns (t: State)
    requires u.phase.Polling? && u.buf == [] && u.next == 0 && u.maxSeen == -1 && |u.log| > 0
    ensures Runs.Reaches(UpStep, u, t) && t.cell == Some(0)
  {
    t := FirstRecordToFlush(u);
    if t.phase.Inserting? {
      t := BatchWritten(u, t);
    }
    UpSave(u, t);
    t := SaveStep(t, true).value;
  }

  /**
   The stored offset never moves back in all that a started process may do, exactly if the file was read or holds zero.
   */
  lemma StartKeepsOffsetExactly(s: State, readable: bool)
    requires Reachable(s) && s.phase.Down? && s.cell.Some?
    ensures NeverStoresLess(s.cell.value, RestartStep(s, readable).value) <==> readable || s.cell.value == 0
  {
    ReachableInv(s);
    NoLoss(s);
    var u := RestartStep(s, readable).value;
    if readable {
      forall t | Runs.Reaches(UpStep, u, t) ensures StoresAtLeast(s.cell.value, t) {
        ReadableStartsNeverStoreLess(s, t);
      }
    } else if s.cell.value > 0 {
      var t := FirstRecordStored(u);
      assert !StoresAtLeast(s.cell.value, t);
    }
  }

  /**
   Whatever a crash leaves in the offset file - what it held, an offset stored earlier, or nothing - the stores are as
   they were, and a start that can read the file resumes right after it, with everything before settled.
   */
  lemma CrashResumesAfterTheFile(s: State, cell: Option<nat>)
    requires Reachable(s) && (cell.None? || cell == s.cell || cell.value in s.saved)
    ensures Step(s, Crash(cell)).Some? && Step(Step(s, Crash(cell)).value, Restart(true)).Some?
    ensures var d := Step(s, Crash(cell)).value;
            var u := Step(d, Restart(true)).value;
            && d.phase.Down? && d.table == s.table && d.dlq == s.dlq && d.lost == s.lost && d.log == s.log
            && u == d.(phase := Polling, next := u.next, covered := u.next - 1, tracked := true)
            && d.buf == [] && d.maxSeen == -1
            && u.cell == cell && u.next == (if cell.Some? then cell.value + 1 else 0) && SettledUpTo(u, u.next - 1)
  {
    var d := Step(s, Crash(cell)).value;
    var u := Step(d, Restart(true)).value;
    Runs.ReachesSelf(Step, s);
    Runs.ReachesNext(Step, s, s, Crash(cell));
    Runs.ReachesNext(Step, s, d, Restart(true));
    RunsStayReachable(s, u);
    ReachableInv(u);
    if cell.Some? {
      NoLoss(u);
    }
  }

  // ---------------------------------------------------------------- a harmful start occurs

  /** A process starts on an empty log. */
  lemma OneRecordProduced(cfg: Config, e: Event) returns (s: State)
    ensures Runs.Reaches(Step, Start(cfg, []), s)
    ensures s == Start(cfg, [Payload(e)]).(phase := Polling)
  {
    var s0 := Start(cfg, []);
    Runs.ReachesSelf(Step, s0);
    Runs.ReachesNext(Step, s0, s0, Restart(true));
    var s1 := s0.(phase := Polling);
    Runs.ReachesNext(Step, s0, s1, Produce(Payload(e)));
    s := Step(s1, Produce(Payload(e))).value;
    assert s.log == [Payload(e)];
  }

  /** It reads the one record that arrives. */
  lemma OneRecordRead(cfg: Config, e: Event) returns (s: State)
    requires cfg.batchSize >= 2
    ensures Runs.Reaches(Step, Start(cfg, []), s)
    ensures s == Start(cfg, [Payload(e)]).(phase := Polling, buf := [Pending(cfg.enrich(e), 0)], maxSeen := 0,
                                                  next := 1)
  {
    var s1 := OneRecordProduced(cfg, e);
    Runs.ReachesNext(Step, Start(cfg, []), s1, Poll);
    s := Step(s1, Poll).value;
    assert s.buf == [Pending(cfg.enrich(e), 0)];
  }

  /** It flushes the record on the timer, the insert succeeds. */
  lemma OneRecordWritten(cfg: Config, e: Event) returns (s: State)
    requires cfg.batchSize >= 2
    ensures Runs.Reaches(Step, Start(cfg, []), s)
    ensures s.phase == Saving(0, false) && s.log == [Payload(e)] && s.cfg == cfg && s.saved == {}
  {
    var s0 := Start(cfg, []);
    var s2 := OneRecordRead(cfg, e);
    var s3 := Step(s2, Tick).value;
    Runs.ReachesNext(Step, s0, s2, Tick);
    assert MaxOffset(s2.buf) == 0;
    var a := InsertBatch(true, s3.phase.batch);
    Runs.ReachesNext(Step, s0, s3, a);
    s := Step(s3, a).value;
  }

  /** And stores its offset. */
  lemma OneRecordStored(cfg: Config, e: Event) returns (s: State)
    requires cfg.batchSize >= 2
    ensures Runs.Reaches(Step, Start(cfg, []), s)
    ensures s.phase.Polling? && s.cell == Some(0) && s.saved == {0} && s.log == [Payload(e)] && s.cfg == cfg
  {
    var s0 := Start(cfg, []);
    var s4 := OneRecordWritten(cfg, e);
    Runs.ReachesNext(Step, s0, s4, Save(true));
    s := Step(s4, Save(true)).value;
  }

  /** A record is stored, then the process crashes. */
  lemma OneRecordThenCrash(cfg: Config, e: Event) returns (s: State)
    requires cfg.batchSize >= 2
    ensures Reachable(s) && s.phase.Down? && s.cell == Some(0) && s.log == [Payload(e)] && !HarmlessStart(s, false)
  {
    var s0 := Start(cfg, []);
    var s5 := OneRecordStored(cfg, e);
    Runs.ReachesNext(Step, s0, s5, Crash(Some(0)));
    s := Step(s5, Crash(Some(0))).value;
    assert s.log[0].Payload?;
  }

  /**
   So harm does occur: with the file unreadable at that restart, the record is buffered below the offset the file
   holds.
   */
  lemma UnreadableFileBuffersBelowWatermark(cfg: Config, e: Event) returns (s: State)
    requires cfg.batchSize >= 2
    ensures Reachable(s) && s.cell.Some? && exists p :: p in s.buf && p.offset <= s.cell.value
  {
    var d := OneRecordThenCrash(cfg, e);
    s := HarmfulStartBreaksWatermark(d);
    Runs.ReachesSelf(Step, d);
    Runs.ReachesNext(Step, d, d, Restart(false));
    Runs.ReachesInLarger(UpStep, Step, RestartStep(d, false).value, s);
    Runs.ReachesTransitive(Step, d, RestartStep(d, false).value, s);
    RunsStayReachable(d, s);
    var k :| 0 <= k < |s.buf| && s.cell.value >= s.buf[k].offset;
    assert s.buf[k] in s.buf;
  }

  // ---------------------------------------------------------------- replay

  /** The raw table as readers see it: per key, the row inserted last. */
  function Dedup(table: seq<Row>): map<Key, Row> {
    if table == [] then map[]
    else Dedup(table[..|table| - 1])[table[|table| - 1].key := table[|table| - 1]]
  }

  /** What processing the log once, in order, with no failure at all, leaves for readers. */
  function CrashFree(cfg: Config, log: seq<Record>): map<Key, Row> {
    if log == [] then map[]
    else
      var before := CrashFree(cfg, log[..|log| - 1]);
      match log[|log| - 1]
      case Payload(event) => before[KeyOf(event) := RowOf(cfg.enrich(event))]
      case _ => before
  }

  /** A key identifies an event; the same event may well be in the log more than once. */
  ghost predicate OneEventPerKey(log: seq<Record>) {
    forall i, j | 0 <= i < |log| && 0 <= j < |log| && log[i].Payload? && log[j].Payload? ::
      KeyOf(log[i].event) == KeyOf(log[j].event) ==> log[i].event == log[j].event
  }

  ghost predicate KeepsKeys(cfg: Config) {
    forall e :: KeyOf(cfg.enrich(e)) == KeyOf(e)
  }

  lemma DeployedConfigKeepsKeys(batchSize: nat, prices: Pricing.Table, redact: string -> string)
    ensures KeepsKeys(DeployedConfig(batchSize, prices, redact))
  {
    forall e ensures KeyOf(DeployedConfig(batchSize, prices, redact).enrich(e)) == KeyOf(e) {
      EnrichKeepsKey(prices, redact, e);
    }
  }

  lemma {:induction false} DedupHolds(table: seq<Row>)
    ensures forall k :: k in Dedup(table) ==> Dedup(table)[k] in table && Dedup(table)[k].key == k
    ensures forall r :: r in table ==> r.key in Dedup(table)
  {
    if table != [] {
      var init := table[..|table| - 1];
      DedupHolds(init);
      assert table == init + [table[|table| - 1]];
    }
  }

  lemma {:induction false} CrashFreeAt(cfg: Config, log: seq<Record>, i: nat)
    requires OneEventPerKey(log) && i < |log| && log[i].Payload?
    ensures KeyOf(log[i].event) in CrashFree(cfg, log)
    ensures CrashFree(cfg, log)[KeyOf(log[i].event)] == RowOf(cfg.enrich(log[i].event))
  {
    var n := |log| - 1;
    if i < n {
      CrashFreeAt(cfg, log[..n], i);
      if log[n].Payload? && KeyOf(log[n].event) == KeyOf(log[i].event) {
        assert log[n].event == log[i].event;
      }
    }
  }

  /** Every key of the crash-free result is that of a record. */
  lemma {:induction false} CrashFreeSource(cfg: Config, log: seq<Record>, k: Key) returns (i: nat)
    requires k in CrashFree(cfg, log)
    ensures i < |log| && log[i].Payload? && KeyOf(log[i].event) == k
  {
    var n := |log| - 1;
    if log[n].Payload? && KeyOf(log[n].event) == k {
      i := n;
    } else {
      i := CrashFreeSource(cfg, log[..n], k);
    }
  }

  lemma CrashFreeHolds(cfg: Config, log: seq<Record>)
    requires OneEventPerKey(log)
    ensures forall i :: 0 <= i < |log| && log[i].Payload? ==>
              KeyOf(log[i].event) in CrashFree(cfg, log)
                  && CrashFree(cfg, log)[KeyOf(log[i].event)] == RowOf(cfg.enrich(log[i].event))
    ensures forall k :: k in CrashFree(cfg, log) ==>
        exists i :: 0 <= i < |log| && log[i].Payload? && KeyOf(log[i].event) == k
  {
    forall i | 0 <= i < |log| && log[i].Payload?
      ensures KeyOf(log[i].event) in CrashFree(cfg, log)
          && CrashFree(cfg, log)[KeyOf(log[i].event)] == RowOf(cfg.enrich(log[i].event))
    {
      CrashFreeAt(cfg, log, i);
    }
    forall k | k in CrashFree(cfg, log)
      ensures exists i :: 0 <= i < |log| && log[i].Payload? && KeyOf(log[i].event) == k
    {
      var i := CrashFreeSource(cfg, log, k);
    }
  }

  lemma ShownRowsAreCrashFree(s: State)
    requires Reachable(s) && KeepsKeys(s.cfg) && OneEventPerKey(s.log)
    ensures forall k :: k in Dedup(s.table) ==>
        k in CrashFree(s.cfg, s.log) && Dedup(s.table)[k] == CrashFree(s.cfg, s.log)[k]
  {
    ReachableInv(s);
    DedupHolds(s.table);
    CrashFreeHolds(s.cfg, s.log);
    var shown := Dedup(s.table);
    forall k | k in shown ensures k in CrashFree(s.cfg, s.log) && shown[k] == CrashFree(s.cfg, s.log)[k] {
      assert RowFromLog(s, shown[k]);
    }
  }

  lemma NothingIsMissing(s: State)
    requires Reachable(s) && KeepsKeys(s.cfg) && OneEventPerKey(s.log)
    requires s.dlq == [] && s.lost == [] && s.cell.Some? && s.cell.value < |s.log|
    ensures forall k :: k in CrashFree(s.cfg, s.log[..s.cell.value + 1]) ==> k in Dedup(s.table)
  {
    NoLoss(s);
    DedupHolds(s.table);
    var done := s.log[..s.cell.value + 1];
    assert forall i :: 0 <= i < |done| ==> done[i] == s.log[i];
    CrashFreeHolds(s.cfg, done);
    forall k | k in CrashFree(s.cfg, done) ensures k in Dedup(s.table) {
      var i :| 0 <= i < |done| && done[i].Payload? && KeyOf(done[i].event) == k;
      assert s.log[i].Payload?;
      assert RowOf(s.cfg.enrich(s.log[i].event)) in s.table;
    }
  }

  /**
   Replays are invisible.  The deduplicated table never shows anything but rows of the crash-free result, and while
   nothing was dead-lettered or lost it shows all of the crash-free result up to the stored offset; so once the stored
   offset has reached the end of the log the two are equal, however often the processor crashed on the way.
   */
  lemma ReplayIsInvisible(s: State)
    requires Reachable(s) && KeepsKeys(s.cfg) && OneEventPerKey(s.log)
    ensures forall k :: k in Dedup(s.table) ==>
        k in CrashFree(s.cfg, s.log) && Dedup(s.table)[k] == CrashFree(s.cfg, s.log)[k]
    ensures s.dlq == [] && s.lost == [] && s.cell.Some? && s.cell.value < |s.log| ==>
              forall k :: k in CrashFree(s.cfg, s.log[..s.cell.value + 1]) ==> k in Dedup(s.table)
    ensures s.dlq == [] && s.lost == [] && s.cell == Some(|s.log| - 1) ==> Dedup(s.table) == CrashFree(s.cfg, s.log)
  {
    ShownRowsAreCrashFree(s);
    if s.dlq == [] && s.lost == [] && s.cell.Some? {
      NoLoss(s);
      NothingIsMissing(s);
      if s.cell.value == |s.log| - 1 {
        assert s.log[..s.cell.value + 1] == s.log;
      }
    }
  }
}
