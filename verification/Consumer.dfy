/**
 The processor's code: offset file, batch writer, dead-letter producer and the consumer loop.
 Each method of the loop performs a run of the protocol of module Processor, kept in lockstep in a ghost field.
 */
module Consumer {
  import opened Prelude
  import opened Enrichment
  import opened Processor
  import Runs

  datatype FileText = Number(n: int) | Garbage

  lemma EventsOfBuffer(buf: seq<Pending>)
    ensures forall p :: p in buf ==> p.event in Events(buf)
  {
    forall p | p in buf ensures p.event in Events(buf) {
      var k :| 0 <= k < |buf| && buf[k] == p;
      assert Events(buf)[k] == p.event;
    }
  }

  lemma RowsHold(events: seq<Event>)
    ensures AllHold(Rows(events), events)
  {
    forall i | 0 <= i < |events| ensures Holds(Rows(events)[i], events[i]) {
      RowHolds(events[i]);
    }
  }

  /** Once its row is in the table an event is settled. */
  lemma WrittenAreSettled(s: State, before: seq<Row>, events: seq<Event>)
    requires s.table == before + Rows(events)
    ensures forall e :: e in events ==> Settled(s, e)
  {
    forall e | e in events ensures Settled(s, e) {
      var k :| 0 <= k < |events| && events[k] == e;
      assert Rows(events)[k] == RowOf(e) == s.table[|before| + k];
    }
  }

  /** How far a save gets. */
  datatype Disk = NoDirectory | TornWrite | NoRename | Works

  /** The offset file: written to a sibling file first, then renamed into place. */
  class OffsetStore {
    var tmp: Option<FileText>
    var file: Option<FileText>
    ghost var asked: seq<int>  // every offset a save was asked for

    /** What the file is worth as an offset to resume after. */
    function Contents(): Option<nat>
      reads this
    {
      match file
      case Some(Number(n)) => if n >= 0 then Some(n) else None
      case _ => None
    }

    method Load(readable: bool) returns (offset: Option<nat>)
      ensures offset == if readable then Contents() else None
    {
      if !readable {
        return None;  // I/O error: treated as a first run
      }
      match file {
        case None => offset := None;
        case Some(Garbage) => offset := None;
        case Some(Number(n)) => offset := if n >= 0 then Some(n) else None;
      }
    }

    /** However far it gets, the file holds either the old offset or the new one. */
    method Save(offset: nat, disk: Disk) returns (ok: bool)
      modifies this
      ensures ok <==> disk.Works?
      ensures file == if ok then Some(Number(offset)) else old(file)
      ensures asked == old(asked) + [offset]
      ensures Contents() == if ok then Some(offset) else old(Contents())
    {
      asked := asked + [offset];
      if disk.NoDirectory? {
        return false;
      }
      if disk.TornWrite? {
        tmp := Some(Garbage);  // touches only the sibling file
        return false;
      }
      tmp := Some(Number(offset));
      if disk.NoRename? {
        return false;
      }
      file, tmp := tmp, None;
      ok := true;
    }
  }

  class ClickHouseWriter {
    var table: seq<Row>

    /**
     `failsAt`: the row whose write fails, or any number beyond them for the final commit.  A failed insert may have
     landed any part of what was sent.
     */
    method InsertBatch(events: seq<Event>, failsAt: Option<nat>) returns (ok: bool, ghost written: seq<Event>)
      modifies this
      ensures ok <==> failsAt.None?
      ensures written <= events && (ok ==> written == events)
      ensures table == old(table) + Rows(written)
      ensures AllHold(table[|old(table)|..], written)
    {
      var sent: seq<Row> := [];
      var n: nat;
      for i := 0 to |events|
        invariant sent == Rows(events[..i])
        invariant table == old(table)
        invariant failsAt.Some? ==> i <= failsAt.value
      {
        sent := sent + [RowOf(events[i])];
        assert events[..i + 1] == events[..i] + [events[i]];
        if failsAt == Some(i) {
          n :| 0 <= n <= |sent|;
          table := table + sent[..n];
          assert sent[..n] == Rows(events[..n]);
          RowsHold(events[..n]);
          return false, events[..n];
        }
      }
      assert events[..|events|] == events;
      if failsAt.Some? {
        n :| 0 <= n <= |sent|;
        table := table + sent[..n];
        assert sent[..n] == Rows(events[..n]);
        RowsHold(events[..n]);
        return false, events[..n];
      }
      table := table + sent;
      RowsHold(events);
      return true, events;
    }

    /** A batch of one. */
    method InsertOne(event: Event, fails: bool) returns (ok: bool, ghost landed: bool)
      modifies this
      ensures (ok <==> !fails) && (ok ==> landed)
      ensures table == if landed then old(table) + [RowOf(event)] else old(table)
    {
      var at :| at >= 0;
      ghost var written;
      ok, written := InsertBatch([event], if fails then Some(at) else None);
      landed := written != [];
      assert Rows(written) == if landed then [RowOf(event)] else [];
    }
  }

  /** What becomes of a send; an unconfirmed one has landed and is reported as failed. */
  datatype Sending = Refused | Unconfirmed | Acknowledged

  class DlqProducer {
    var topic: seq<Event>

    method Send(event: Event, outcome: Sending) returns (ok: bool)
      modifies this
      ensures ok <==> outcome.Acknowledged?
      ensures topic == if outcome.Refused? then old(topic) else old(topic) + [event]
    {
      if outcome.Refused? {
        return false;
      }
      topic := topic + [event];
      ok := outcome.Acknowledged?;
    }
  }

  /** The offset a flush stores, if there is one. */
  function Due(buf: seq<Pending>, watermark: int): seq<int> {
    if buf == [] && watermark < 0 then [] else [Max(MaxOffset(buf), watermark)]
  }

  /**
   At or below the stored offset nothing is missing from table and dead-letter queue but what was lost in the open.
   */
  ghost predicate Complete(s: State) {
    s.cell.Some? ==> s.cell.value < |s.log| && SettledUpTo(s, s.cell.value)
  }

  /** Readers of the deduplicated table see nothing but rows of the crash-free result. */
  ghost predicate ReplaysInvisible(s: State) {
    OneEventPerKey(s.log) ==>
      forall k :: k in Dedup(s.table) ==>
          k in CrashFree(s.cfg, s.log) && Dedup(s.table)[k] == CrashFree(s.cfg, s.log)[k]
  }

  /** The protocol's theorems hold of whatever this code does from a reachable state. */
  lemma Conclude(s0: State, s: State)
    requires Reachable(s0) && Runs.Reaches(Step, s0, s) && KeepsKeys(s.cfg)
    ensures Reachable(s) && Complete(s) && ReplaysInvisible(s)
  {
    RunsStayReachable(s0, s);
    ReachableInv(s);
    if OneEventPerKey(s.log) {
      ShownRowsAreCrashFree(s);
    }
  }

  lemma Started(s: State, readable: bool)
    requires Reachable(s) && s.phase.Down? && KeepsKeys(s.cfg)
    ensures var t := RestartStep(s, readable).value;
            Step(s, Restart(readable)) == Some(t) && Runs.Reaches(Step, s, t) && Reachable(t) && Complete(t)
                && ReplaysInvisible(t)
  {
    Runs.ReachesSelf(Step, s);
    Runs.ReachesNext(Step, s, s, Restart(readable));
    Conclude(s, RestartStep(s, readable).value);
  }

  /** What the insert of a batch does to the protocol state. */
  lemma BatchInserted(s: State, ok: bool, written: seq<Event>)
    requires s.phase.Inserting? && written <= s.phase.batch && (ok ==> written == s.phase.batch)
    ensures Step(s, InsertBatch(ok, written)) == Some(s.(table := s.table + Rows(written),
                phase := if ok then Saving(s.phase.upTo, s.phase.last)
                         else BeginRetry(s.phase.batch, s.phase.upTo, s.phase.last)))
  {
    assert forall e :: e in written ==> e in s.phase.batch;
  }

  /** What reading a record does to it. */
  lemma RecordRead(s: State)
    requires s.phase.Polling? && s.next < |s.log|
    ensures var seen := s.(maxSeen := Max(s.maxSeen, s.next), next := s.next + 1);
            match s.log[s.next]
            case Payload(event) =>
              var full := seen.(buf := s.buf + [Pending(s.cfg.enrich(event), s.next)]);
              Step(s, Poll) == Some(if |full.buf| >= s.cfg.batchSize then BeginFlush(full, false) else full)
            case _ => Step(s, Poll) == Some(seen)
  {}

  ghost predicate StaySettled(s: State, t: State) { forall e :: Settled(s, e) ==> Settled(t, e) }

  class ConsumerLoop {
    const batchSize: nat
    const enricher: Enricher
    const writer: ClickHouseWriter
    const dlq: DlqProducer
    const store: OffsetStore
    var buf: seq<Pending>
    var maxOffsetSeen: int
    ghost var st: State

    ghost predicate Matches(s: State)
      reads this, writer, dlq, store
    {
      && s.cfg == DeployedConfig(batchSize, enricher.pricer.table, enricher.redact)
      && s.buf == buf && s.maxSeen == maxOffsetSeen
      && s.table == writer.table && s.dlq == dlq.topic && s.cell == store.Contents()
    }

    ghost predicate AtLoopHead()
      reads this, writer, dlq, store
    {
      st.phase.Polling? && Matches(st)
    }

    constructor (batchSize: nat, enricher: Enricher, writer: ClickHouseWriter, dlq: DlqProducer, store: OffsetStore,
        readable: bool, ghost s: State)
      requires s.phase.Down? && Reachable(s)
      requires s.cfg == DeployedConfig(batchSize, enricher.pricer.table, enricher.redact)
      requires s.table == writer.table && s.dlq == dlq.topic && s.cell == store.Contents()
      ensures Reachable(st) && Complete(st) && ReplaysInvisible(st)
      ensures AtLoopHead() && buf == [] && maxOffsetSeen == -1
      ensures Runs.Reaches(Step, s, st) && st.log == s.log
      ensures st.next == if readable && s.cell.Some? then s.cell.value + 1 else 0
    {
      this.batchSize, this.enricher, this.writer, this.dlq, this.store := batchSize, enricher, writer, dlq, store;
      buf := [];
      maxOffsetSeen := -1;
      new;
      var offset := store.Load(readable);
      DeployedConfigKeepsKeys(batchSize, enricher.pricer.table, enricher.redact);
      Started(s, readable);
      st := RestartStep(s, readable).value;
    }

    /** Advance the protocol state by one action of the run that began in `s0`. */
    ghost method Perform(s0: State, a: Action)
      requires Step(st, a).Some? && Runs.Reaches(Step, s0, st)
      modifies this`st
      ensures st == Step(old(st), a).value && Runs.Reaches(Step, s0, st)
    {
      Runs.ReachesNext(Step, s0, st, a);
      st := Step(st, a).value;
    }

    /**
     Retry one row, whose first `bad` writes fail; on exhaustion dead-letter it.  Either way the event is settled
     afterwards.
     */
    method WriteWithRetry(event: Event, maxAttempts: nat, bad: nat, ghost rest: seq<Event>) returns (attempts: nat)
      requires maxAttempts == MAX_WRITE_ATTEMPTS
      requires Matches(st) && st.phase.Retrying? && st.phase.todo == [event] + rest && st.phase.attempt == 1
      modifies this`st, writer, dlq
      ensures Matches(st) && st.phase == BeginRetry(rest, old(st.phase.upTo), old(st.phase.last))
      ensures Runs.Reaches(Step, old(st), st) && Grows(old(st), st)
      ensures st.maxSeen == old(st.maxSeen) && st.next == old(st.next) && st.cell == old(st.cell)
          && st.log == old(st.log)
      ensures Settled(st, event)
      ensures attempts == if bad < 3 then bad + 1 else 3
      ensures st.dlq != old(st.dlq) || st.lost != old(st.lost) <==> bad >= 3
    {
      Runs.ReachesSelf(Step, st);
      for attempt := 1 to maxAttempts + 1
        invariant Matches(st) && Runs.Reaches(Step, old(st), st) && Grows(old(st), st)
        invariant st == old(st).(table := st.table, phase := st.phase) && attempt <= bad + 1
        invariant st.phase == if attempt <= maxAttempts then old(st.phase).(attempt := attempt)
                              else DeadLettering([event] + rest, old(st.phase.upTo), old(st.phase.last))
      {
        var ok := TryRow(event, attempt <= bad, rest, old(st));
        if ok {
          return attempt;
        }
      }
      DeadLetterHead(event, rest, old(st));
      attempts := maxAttempts;
    }

    /** One attempt at one row. */
    method TryRow(event: Event, fails: bool, ghost rest: seq<Event>, ghost s0: State) returns (ok: bool)
      requires Matches(st) && st.phase.Retrying? && st.phase.todo == [event] + rest && Runs.Reaches(Step, s0, st)
      modifies this`st, writer
      ensures Matches(st) && Runs.Reaches(Step, s0, st) && Grows(old(st), st)
      ensures st == old(st).(table := st.table, phase := st.phase)
      ensures st.phase == if ok then BeginRetry(rest, old(st.phase.upTo), old(st.phase.last))
                          else if old(st.phase.attempt) < MAX_WRITE_ATTEMPTS then
                              old(st.phase).(attempt := old(st.phase.attempt) + 1)
                          else DeadLettering([event] + rest, old(st.phase.upTo), old(st.phase.last))
      ensures (ok <==> !fails) && (ok ==> Settled(st, event))
    {
      assert ([event] + rest)[1..] == rest;
      ghost var landed;
      ok, landed := writer.InsertOne(event, fails);
      Perform(s0, InsertRow(ok, landed));
      if ok {
        assert st.table[|old(st.table)|] == RowOf(event);
      }
    }

    /** Publish the envelope; a failed send is only logged. */
    method DeadLetterHead(event: Event, ghost rest: seq<Event>, ghost s0: State)
      requires Matches(st) && st.phase.DeadLettering? && st.phase.todo == [event] + rest
      requires Runs.Reaches(Step, s0, st)
      modifies this`st, dlq
      ensures Matches(st) && Runs.Reaches(Step, s0, st) && Grows(old(st), st)
      ensures st == old(st).(
                      phase := BeginRetry(rest, old(st.phase.upTo), old(st.phase.last)), dlq := st.dlq, lost := st.lost)
      ensures Settled(st, event) && |st.dlq| + |st.lost| > |old(st.dlq)| + |old(st.lost)|
    {
      assert ([event] + rest)[1..] == rest;
      var outcome: Sending := *;
      var ok := dlq.Send(event, outcome);
      Perform(s0, DeadLetter(ok, !outcome.Refused?));
      if ok {
        assert st.dlq[|old(st.dlq)|] == event;
      } else {
        assert st.lost[|old(st.lost)|] == event;
      }
    }

    /** The batch failed: issue every row on its own, in order. */
    method RetryEach(events: seq<Event>)
      requires Matches(st) && st.phase.Retrying? && st.phase.todo == events != [] && st.phase.attempt == 1
      modifies this`st, writer, dlq
      ensures Matches(st) && st.phase == Saving(old(st.phase.upTo), old(st.phase.last))
      ensures Runs.Reaches(Step, old(st), st) && Grows(old(st), st)
      ensures st.next == old(st.next) && st.log == old(st.log)
      ensures forall e :: e in events ==> Settled(st, e)
    {
      Runs.ReachesSelf(Step, st);
      assert events[0..] == events;
      for i := 0 to |events|
        invariant Matches(st) && Runs.Reaches(Step, old(st), st) && Grows(old(st), st)
        invariant st.next == old(st.next) && st.log == old(st.log)
        invariant st.phase == BeginRetry(events[i..], old(st.phase.upTo), old(st.phase.last))
        invariant forall k :: 0 <= k < i ==> Settled(st, events[k])
      {
        assert events[i..] == [events[i]] + events[i + 1..];
        RetryNext(events[i], events[i + 1..], old(st));
      }
    }

    /** The next row of the failed batch. */
    method RetryNext(event: Event, ghost rest: seq<Event>, ghost s0: State)
      requires Matches(st) && st.phase.Retrying? && st.phase.todo == [event] + rest && st.phase.attempt == 1
      requires Runs.Reaches(Step, s0, st)
      modifies this`st, writer, dlq
      ensures Matches(st) && st.phase == BeginRetry(rest, old(st.phase.upTo), old(st.phase.last))
      ensures Runs.Reaches(Step, s0, st) && Grows(old(st), st)
      ensures st.next == old(st.next) && st.log == old(st.log)
      ensures Settled(st, event) && StaySettled(old(st), st)
    {
      ghost var before := st;
      var bad :| bad >= 0;
      var _ := WriteWithRetry(event, MAX_WRITE_ATTEMPTS, bad, rest);
      GrowthKeepsSettled(before, st);
      Runs.ReachesTransitive(Step, s0, before, st);
    }

    /** One insert for the whole batch, row by row if it fails; the batch is settled afterwards. */
    method WriteBatch(events: seq<Event>, failsAt: Option<nat>)
      requires Matches(st) && st.phase.Inserting? && st.phase.batch == events != []
      modifies this`st, writer, dlq
      ensures Matches(st) && st.phase == Saving(old(st.phase.upTo), old(st.phase.last))
      ensures Runs.Reaches(Step, old(st), st) && Grows(old(st), st)
      ensures st.next == old(st.next) && st.log == old(st.log)
      ensures forall e :: e in events ==> Settled(st, e)
      ensures failsAt.None? ==> st == old(st).(phase := st.phase, table := old(st.table) + Rows(events))
    {
      Runs.ReachesSelf(Step, st);
      var ok, written := writer.InsertBatch(events, failsAt);
      BatchInserted(st, ok, written);
      Perform(old(st), InsertBatch(ok, written));
      if ok {
        WrittenAreSettled(st, old(st.table), events);
      } else {
        ghost var mid := st;
        RetryEach(events);
        Runs.ReachesTransitive(Step, old(st), mid, st);
      }
    }

    /** Store the offset of the batch that has been written. */
    method SaveOffset(offset: nat, ghost s0: State)
      requires Matches(st) && st.phase.Saving? && st.phase.upTo == offset && Runs.Reaches(Step, s0, st)
      modifies this`st, store
      ensures Matches(st) && st.phase == AfterFlush(old(st.phase.last)) && Runs.Reaches(Step, s0, st)
      ensures Grows(old(st), st) && st.next == old(st.next) && st.log == old(st.log)
      ensures store.asked == old(store.asked) + [offset]
    {
      var disk: Disk := *;
      var ok := store.Save(offset, disk);
      Perform(s0, Save(ok));
    }

    /** Drain the buffer, write it, and only then store the offset. */
    method Flush(watermark: int, ghost pre: State, ghost last: bool)
      requires Matches(pre) && pre.phase.Polling? && st == BeginFlush(pre, last) && watermark == maxOffsetSeen
      modifies this`st, this`buf, writer, dlq, store
      ensures buf == [] && Matches(st) && st.phase == AfterFlush(last)
      ensures store.asked == old(store.asked) + Due(old(buf), watermark)
      ensures Runs.Reaches(Step, old(st), st) && Grows(old(st), st)
      ensures st.next == old(st.next) && st.log == old(st.log)
      ensures forall p :: p in old(buf) ==> Settled(st, p.event)
    {
      Runs.ReachesSelf(Step, st);
      if buf == [] {
        if watermark >= 0 {
          SaveOffset(watermark, st);
        }
        return;
      }
      var maxOffset := Max(MaxOffset(buf), watermark);
      assert maxOffset >= 0 by { assert buf[0] in buf; }
      WriteBuffer(old(st));
      ghost var mid := st;
      if maxOffset >= 0 {
        SaveOffset(maxOffset, old(st));
      }
      GrowthKeepsSettled(mid, st);
    }

    /** The buffer becomes one batch, which is settled afterwards. */
    method WriteBuffer(ghost s0: State)
      requires buf != [] && st.phase.Inserting? && st.phase.batch == Events(buf) && Matches(st.(buf := buf))
          && st.buf == []
      requires Runs.Reaches(Step, s0, st)
      modifies this`st, this`buf, writer, dlq
      ensures buf == [] && Matches(st) && st.phase == Saving(old(st.phase.upTo), old(st.phase.last))
      ensures Runs.Reaches(Step, s0, st) && Grows(old(st), st)
      ensures st.next == old(st.next) && st.log == old(st.log)
      ensures forall p :: p in old(buf) ==> Settled(st, p.event)
    {
      ghost var pre := st;
      var events := Events(buf);
      EventsOfBuffer(buf);
      buf := [];
      var failsAt: Option<nat> := *;
      WriteBatch(events, failsAt);
      Runs.ReachesTransitive(Step, s0, pre, st);
    }

    /** Enrichment as this process performs it is the function the protocol speaks of. */
    method EnrichRecord(event: Event, offset: nat) returns (p: Pending)
      requires st.cfg == DeployedConfig(batchSize, enricher.pricer.table, enricher.redact)
      modifies enricher.pricer`warned
      ensures p == Pending(st.cfg.enrich(event), offset)
    {
      var ev := enricher.EnrichInPlace(event);
      p := Pending(ev, offset);
    }

    /** The stream yields the next record of the log. */
    method OnRecord(record: Record, offset: nat)
      requires AtLoopHead() && Reachable(st) && offset == st.next < |st.log| && record == st.log[offset]
      modifies this`st, this`buf, this`maxOffsetSeen, writer, dlq, store, enricher.pricer`warned
      ensures AtLoopHead() && Runs.Reaches(Step, old(st), st)
      ensures st.next == offset + 1 && st.log == old(st.log) && maxOffsetSeen == Max(old(maxOffsetSeen), offset)
      ensures !record.Payload? ==> buf == old(buf) && store.asked == old(store.asked)
      ensures record.Payload? ==> Appended(old(buf), Pending(st.cfg.enrich(record.event), offset), old(store.asked))
      ensures Reachable(st) && Complete(st) && ReplaysInvisible(st)
    {
      ghost var s0 := st;
      TakeRecord(record, offset);
      DeployedConfigKeepsKeys(batchSize, enricher.pricer.table, enricher.redact);
      Conclude(s0, st);
    }

    method TakeRecord(record: Record, offset: nat)
      requires AtLoopHead() && offset == st.next < |st.log| && record == st.log[offset]
      modifies this`st, this`buf, this`maxOffsetSeen, writer, dlq, store, enricher.pricer`warned
      ensures AtLoopHead() && Runs.Reaches(Step, old(st), st) && st.cfg == old(st.cfg)
      ensures st.next == offset + 1 && st.log == old(st.log) && maxOffsetSeen == Max(old(maxOffsetSeen), offset)
      ensures !record.Payload? ==> buf == old(buf) && store.asked == old(store.asked)
      ensures record.Payload? ==> Appended(old(buf), Pending(st.cfg.enrich(record.event), offset), old(store.asked))
    {
      ghost var s0 := st;
      Runs.ReachesSelf(Step, s0);
      RecordRead(s0);
      Perform(s0, Poll);
      if offset > maxOffsetSeen {
        maxOffsetSeen := offset;
      }
      match record {
        case NoValue =>
        case Malformed =>  // skipped; the next flush stores an offset past it
        case Payload(event) => OnPayload(event, offset, s0.(maxSeen := maxOffsetSeen, next := offset + 1), s0);
      }
    }

    /** The record parsed: enrich and buffer the event. */
    method OnPayload(event: Event, offset: nat, ghost seen: State, ghost s0: State)
      requires seen.phase.Polling? && Matches(seen) && Runs.Reaches(Step, s0, st)
      requires var full := seen.(buf := buf + [Pending(seen.cfg.enrich(event), offset)]);
               st == if |full.buf| >= batchSize then BeginFlush(full, false) else full
      modifies this`st, this`buf, writer, dlq, store, enricher.pricer`warned
      ensures AtLoopHead() && Runs.Reaches(Step, s0, st)
      ensures st.next == old(st.next) && st.log == old(st.log) && st.cfg == old(st.cfg)
      ensures Appended(old(buf), Pending(st.cfg.enrich(event), offset), old(store.asked))
    {
      var p := EnrichRecord(event, offset);
      Append(p, seen.(buf := buf + [p]), s0);
    }

    /**
     The event was buffered; if that made the buffer full it was flushed, and the offset to store was handed to the
     file.
     */
    ghost predicate Appended(was: seq<Pending>, p: Pending, asked: seq<int>)
      reads this, store
    {
      if |was| + 1 >= batchSize then buf == [] && store.asked == asked + Due(was + [p], maxOffsetSeen)
      else buf == was + [p] && store.asked == asked
    }

    /** Buffer an enriched event; a full buffer is flushed. */
    method Append(p: Pending, ghost full: State, ghost s0: State)
      requires full.buf == buf + [p] && full.phase.Polling? && Matches(full.(buf := buf))
      requires st == (if |full.buf| >= batchSize then BeginFlush(full, false) else full)
      requires Runs.Reaches(Step, s0, st)
      modifies this`st, this`buf, writer, dlq, store
      ensures AtLoopHead() && Runs.Reaches(Step, s0, st)
      ensures st.next == old(st.next) && st.log == old(st.log) && st.cfg == old(st.cfg)
      ensures Appended(old(buf), p, old(store.asked))
    {
      buf := buf + [p];
      if |buf| >= batchSize {
        ghost var mid := st;
        Flush(maxOffsetSeen, full, false);
        Runs.ReachesTransitive(Step, s0, mid, st);
      }
    }

    /** The flush timer: write what is buffered, or store an offset that moved past bad records. */
    method OnTick()
      requires AtLoopHead() && Reachable(st)
      modifies this`st, this`buf, writer, dlq, store
      ensures AtLoopHead() && Runs.Reaches(Step, old(st), st) && buf == []
      ensures forall p :: p in old(buf) ==> Settled(st, p.event)
      ensures store.asked == old(store.asked) + Due(old(buf), maxOffsetSeen)
      ensures Reachable(st) && Complete(st) && ReplaysInvisible(st)
    {
      Runs.ReachesSelf(Step, st);
      ghost var s0 := st;
      Perform(s0, Tick);
      if buf != [] {
        ghost var mid := st;
        Flush(maxOffsetSeen, s0, false);
        Runs.ReachesTransitive(Step, s0, mid, st);
      } else if maxOffsetSeen >= 0 {
        SaveOffset(maxOffsetSeen, s0);
      }
      DeployedConfigKeepsKeys(batchSize, enricher.pricer.table, enricher.redact);
      Conclude(s0, st);
    }

    /** The stream ends: flush what is buffered, then exit. */
    method OnStreamEnd()
      requires AtLoopHead() && Reachable(st)
      modifies this`st, this`buf, writer, dlq, store
      ensures st.phase.Down? && Matches(st) && Runs.Reaches(Step, old(st), st) && buf == []
      ensures forall p :: p in old(buf) ==> Settled(st, p.event)
      ensures store.asked == old(store.asked) + Due(old(buf), maxOffsetSeen)
      ensures Reachable(st) && Complete(st) && ReplaysInvisible(st)
    {
      Runs.ReachesSelf(Step, st);
      ghost var s0 := st;
      Perform(s0, StreamEnd);
      ghost var mid := st;
      Flush(maxOffsetSeen, s0, true);
      Runs.ReachesTransitive(Step, s0, mid, st);
      DeployedConfigKeepsKeys(batchSize, enricher.pricer.table, enricher.redact);
      Conclude(s0, st);
    }
  }
}
