/**
 API-key resolution against a positive and a negative cache, raced by revocation.
 Any number of requests for one key are in flight at once; each takes its steps one at a time, interleaved with
 the revoker, the clean-up job, and the passage of time.
 */
module KeyCache {
  import opened Prelude
  import Runs

  const POSITIVE_TTL := 60.0
  const NEGATIVE_TTL := 300.0
  const INGEST_SCOPE := "ingest:write"

  datatype KeyRow = KeyRow(orgId: string, scopes: Option<seq<string>>, revoked: bool)

  datatype Entry = Entry(orgId: string, expiry: real)

  /** The key as it was minted; the token is random, so it is minted once. */
  datatype Minted = Minted(row: KeyRow, at: real)

  datatype Revoker = Idle | Deleting | Marking | Finished

  /**
   How the request got past the negative cache: when, whether the EXISTS command itself succeeded, and (history)
   whether the revocation marker had been set before.
   */
  datatype Check = Check(at: real, answered: bool, marked: bool)

  /** One `resolve_key` call.  `Orphan` is a call that was cancelled with its cache write still on the wire. */
  datatype Request =
    | Started
    | Connected
    | Unchecked(passed: Check)                      // not revoked as far as Redis said
    | Missed(check: Option<Check>)                  // to Postgres next; no check if Redis was unreachable
    | Read(check: Option<Check>, row: KeyRow, readAt: real)
    | Orphan(row: KeyRow, readAt: real)
    | Accepted(orgId: string, check: Option<Check>, at: real)
    | Rejected

  /**
   `delay` bounds the time from a Postgres read to the effects that depend on it.
   `minted`, `revokedAt` and `markedAt` are history.
   */
  datatype State = State(
    delay: real, now: real,
    row: Option<KeyRow>, positive: Option<Entry>, negative: Option<real>,
    revoker: Revoker, requests: map<nat, Request>,
    minted: Option<Minted>, revokedAt: Option<real>, markedAt: Option<real>)

  datatype Action =
    | Advance(dt: real)
    | Mint(orgId: string, scopes: Option<seq<string>>)
    | Revoke                                        // the UPDATE commits
    | DeletePositive(ok: bool)
    | SetMarker(ok: bool)
    | CleanUp                                       // a revoked row is garbage-collected
    | Begin(id: nat)
    | Connect(id: nat, ok: bool)
    | CheckNegative(id: nat, ok: bool)
    | CheckPositive(id: nat, ok: bool)
    | Lookup(id: nat, ok: bool)
    | Respond(id: nat, stored: bool)                // the cache write, if any, then the answer
    | Cancel(id: nat)
    | LateStore(id: nat)

  function Init(delay: real): State {
    State(delay, 0.0, None, None, None, Idle, map[], None, None, None)
  }

  /** NULL scopes are a legacy key: allowed. */
  predicate Allowed(scopes: Option<seq<string>>) { scopes.None? || INGEST_SCOPE in scopes.value }

  predicate Live(expiry: real, now: real) { now < expiry }

  function With(s: State, id: nat, r: Request): State { s.(requests := s.requests[id := r]) }

  /** SET EX: a fresh entry with a full time to live. */
  function Store(s: State, orgId: string): State { s.(positive := Some(Entry(orgId, s.now + POSITIVE_TTL))) }

  function StepRequest(s: State, id: nat, r: Request, a: Action): Option<State> {
    match a
    case Connect(_, ok) =>
      if !r.Started? then None else Some(With(s, id, if ok then Connected else Missed(None)))
    case CheckNegative(_, ok) =>
      if !r.Connected? then None
      else if ok && s.negative.Some? && Live(s.negative.value, s.now) then Some(With(s, id, Rejected))
      else Some(With(s, id, Unchecked(Check(s.now, ok, s.markedAt.Some?))))
    case CheckPositive(_, ok) =>
      if !r.Unchecked? then None
      else if ok && s.positive.Some? && Live(s.positive.value.expiry, s.now)
      then Some(With(s, id, Accepted(s.positive.value.orgId, Some(r.passed), s.now)))
      else Some(With(s, id, Missed(Some(r.passed))))
    case Lookup(_, ok) =>
      if !r.Missed? then None
      else if ok && s.row.Some? && !s.row.value.revoked && Allowed(s.row.value.scopes)
      then Some(With(s, id, Read(r.check, s.row.value, s.now)))
      else Some(With(s, id, Rejected))
    case Respond(_, stored) =>
      if !(r.Read? && s.now <= r.readAt + s.delay && (stored ==> r.check.Some?)) then None
      else Some(With(if stored then Store(s, r.row.orgId) else s, id, Accepted(r.row.orgId, r.check, s.now)))
    case Cancel(_) =>
      if r.Accepted? || r.Rejected? || r.Orphan? then None
      else Some(With(s, id, if r.Read? && r.check.Some? then Orphan(r.row, r.readAt) else Rejected))
    case LateStore(_) =>
      if !(r.Orphan? && s.now <= r.readAt + s.delay) then None
      else Some(With(Store(s, r.row.orgId), id, Rejected))
    case _ => None
  }

  function Step(s: State, a: Action): Option<State> {
    match a
    case Advance(dt) => if dt < 0.0 then None else Some(s.(now := s.now + dt))
    case Mint(orgId, scopes) =>
      if s.minted.Some? then None
      else
        var row := KeyRow(orgId, scopes, false);
        Some(s.(row := Some(row), minted := Some(Minted(row, s.now))))
    case Revoke =>
      if s.row.None? || s.row.value.revoked then None
      else Some(s.(row := Some(s.row.value.(revoked := true)), revokedAt := Some(s.now), revoker := Deleting))
    case DeletePositive(ok) =>
      if !s.revoker.Deleting? then None
      else Some(s.(positive := if ok then None else s.positive, revoker := Marking))
    case SetMarker(ok) =>
      if !s.revoker.Marking? then None
      else if ok then Some(s.(negative := Some(s.now + NEGATIVE_TTL), markedAt := Some(s.now), revoker := Finished))
      else Some(s.(revoker := Finished))
    case CleanUp =>
      if s.row.None? || !s.row.value.revoked then None else Some(s.(row := None))
    case Begin(id) => if id in s.requests then None else Some(With(s, id, Started))
    case Connect(id, _) => if id in s.requests then StepRequest(s, id, s.requests[id], a) else None
    case CheckNegative(id, _) => if id in s.requests then StepRequest(s, id, s.requests[id], a) else None
    case CheckPositive(id, _) => if id in s.requests then StepRequest(s, id, s.requests[id], a) else None
    case Lookup(id, _) => if id in s.requests then StepRequest(s, id, s.requests[id], a) else None
    case Respond(id, _) => if id in s.requests then StepRequest(s, id, s.requests[id], a) else None
    case Cancel(id) => if id in s.requests then StepRequest(s, id, s.requests[id], a) else None
    case LateStore(id) => if id in s.requests then StepRequest(s, id, s.requests[id], a) else None
  }

  ghost predicate Reachable(s: State) {
    s.delay >= 0.0 && Runs.Reaches(Step, Init(s.delay), s)
  }

  // ---------------------------------------------------------------- invariants

  /** The key was minted with ingest rights and not yet revoked at time `t`. */
  ghost predicate ActiveAt(s: State, orgId: string, t: real) {
    && s.minted.Some? && s.minted.value.at <= t <= s.now
    && s.minted.value.row.orgId == orgId && Allowed(s.minted.value.row.scopes)
    && (s.revokedAt.Some? ==> t <= s.revokedAt.value)
  }

  /** The last moment, up to now, at which the key was not revoked. */
  function LastActive(s: State): real {
    match s.revokedAt case Some(t) => t case None => s.now
  }

  ghost predicate Books(s: State) {
    && (s.minted.Some? ==> s.minted.value.at <= LastActive(s) && !s.minted.value.row.revoked)
    && (s.row.Some? ==> s.minted.Some? && s.row.value == s.minted.value.row.(revoked := s.revokedAt.Some?))
    && (s.revokedAt.Some? ==> s.minted.Some? && s.revokedAt.value <= s.now)
    && (s.markedAt.Some? ==> s.revokedAt.Some? && s.revokedAt.value <= s.markedAt.value <= s.now
                             && s.negative == Some(s.markedAt.value + NEGATIVE_TTL) && s.revoker.Finished?)
    && (!s.revoker.Idle? ==> s.revokedAt.Some?)
    && (s.negative.Some? ==> s.markedAt.Some?)
    && (s.minted.Some? && s.revokedAt.None? ==> s.row == Some(s.minted.value.row))
  }

  /** A cached entry dates from a read of the active key that happened at most `delay` before it was written. */
  ghost predicate EntrySound(s: State) {
    s.positive.Some? ==>
      && ActiveAt(s, s.positive.value.orgId, LastActive(s))
      && s.positive.value.expiry <= LastActive(s) + s.delay + POSITIVE_TTL
  }

  /** If the marker had been set before this check was answered, it had also expired again. */
  ghost predicate CheckSound(s: State, c: Check) {
    && c.at <= s.now
    && (c.marked ==> s.markedAt.Some? && (c.answered ==> s.markedAt.value + NEGATIVE_TTL <= c.at))
  }

  ghost predicate ReadSound(s: State, row: KeyRow, readAt: real) { ActiveAt(s, row.orgId, readAt) }

  /** An accepted request saw the key active at most `delay + POSITIVE_TTL` before its answer. */
  ghost predicate FreshEnough(s: State, orgId: string, at: real) {
    at <= s.now && exists t :: at - s.delay - POSITIVE_TTL <= t <= at && ActiveAt(s, orgId, t)
  }

  /** Accepted although the negative cache answered after the marker was set. */
  ghost predicate AcceptedAfterMarker(r: Request) {
    r.Accepted? && r.check.Some? && r.check.value.answered && r.check.value.marked
  }

  ghost predicate RequestSound(s: State, r: Request) {
    match r
    case Unchecked(check) => CheckSound(s, check)
    case Missed(check) => check.Some? ==> CheckSound(s, check.value)
    case Read(check, row, readAt) => ReadSound(s, row, readAt)
        && (check.Some? ==> CheckSound(s, check.value) && check.value.at <= readAt)
    case Orphan(row, readAt) => ReadSound(s, row, readAt)
    case Accepted(orgId, check, at) => FreshEnough(s, orgId, at)
                                       && (s.delay + POSITIVE_TTL <= NEGATIVE_TTL ==> !AcceptedAfterMarker(r))
    case _ => true
  }

  ghost predicate Inv(s: State) {
    s.delay >= 0.0 && Books(s) && EntrySound(s) && forall id :: id in s.requests ==> RequestSound(s, s.requests[id])
  }

  // ---------------------------------------------------------------- every step keeps them

  /** History is only ever added to, at the current time. */
  ghost predicate Later(s: State, t: State) {
    && t.delay == s.delay && t.now >= s.now
    && (s.minted.Some? ==> t.minted == s.minted)
    && (s.revokedAt.Some? ==> t.revokedAt == s.revokedAt)
    && (s.revokedAt.None? && t.revokedAt.Some? ==> t.revokedAt.value >= s.now)
    && (s.markedAt.Some? ==> t.markedAt == s.markedAt)
  }

  lemma LaterKeepsActive(s: State, t: State, orgId: string, at: real)
    requires Later(s, t) && ActiveAt(s, orgId, at)
    ensures ActiveAt(t, orgId, at)
  {}

  lemma LaterKeepsSound(s: State, t: State, r: Request)
    requires Later(s, t) && RequestSound(s, r)
    ensures RequestSound(t, r)
  {
    match r {
      case Accepted(orgId, _, at) =>
        var u :| at - s.delay - POSITIVE_TTL <= u <= at && ActiveAt(s, orgId, u);
        LaterKeepsActive(s, t, orgId, u);
      case Read(_, row, readAt) => LaterKeepsActive(s, t, row.orgId, readAt);
      case Orphan(row, readAt) => LaterKeepsActive(s, t, row.orgId, readAt);
      case _ =>
    }
  }

  lemma StepIsLater(s: State, a: Action)
    requires Books(s) && Step(s, a).Some?
    ensures Later(s, Step(s, a).value)
  {}

  /** Writing the cache within `delay` of a read of the active key keeps the entry sound. */
  lemma StoreKeepsEntrySound(s: State, row: KeyRow, readAt: real)
    requires Books(s) && ReadSound(s, row, readAt) && s.now <= readAt + s.delay
    ensures EntrySound(Store(s, row.orgId)) && Books(Store(s, row.orgId))
  {}

  /** A cache hit after the marker's expiry would be a hit on an entry that has itself expired. */
  lemma HitIsFresh(s: State, check: Check)
    requires s.delay >= 0.0 && Books(s) && EntrySound(s) && CheckSound(s, check)
    requires s.positive.Some? && Live(s.positive.value.expiry, s.now)
    ensures FreshEnough(s, s.positive.value.orgId, s.now)
    ensures s.delay + POSITIVE_TTL <= NEGATIVE_TTL && check.answered ==> !check.marked
  {
    assert ActiveAt(s, s.positive.value.orgId, LastActive(s));
  }

  lemma ReadIsFresh(s: State, check: Option<Check>, row: KeyRow, readAt: real)
    requires s.delay >= 0.0 && Books(s) && RequestSound(s, Read(check, row, readAt)) && s.now <= readAt + s.delay
    ensures FreshEnough(s, row.orgId, s.now)
    ensures check.Some? && check.value.answered ==> !check.value.marked
  {
    assert ActiveAt(s, row.orgId, readAt);
  }

  /**
   A request's step changes its own entry in the table of requests and, when it writes the cache, the positive entry.
   */
  lemma RequestStepShape(s: State, id: nat, r: Request, a: Action)
    requires StepRequest(s, id, r, a).Some?
    ensures var t := StepRequest(s, id, r, a).value;
            && id in t.requests
            && (t == With(s, id, t.requests[id])
                || ((r.Read? || r.Orphan?) && s.now <= r.readAt + s.delay
                    && t == With(Store(s, r.row.orgId), id, t.requests[id])))
  {}

  lemma RequestStepKeepsEntry(s: State, id: nat, r: Request, a: Action)
    requires Books(s) && EntrySound(s) && RequestSound(s, r) && StepRequest(s, id, r, a).Some?
    ensures var t := StepRequest(s, id, r, a).value;
            Books(t) && EntrySound(t) && Later(s, t) && id in t.requests
                && t.requests == s.requests[id := t.requests[id]]
  {
    RequestStepShape(s, id, r, a);
    var t := StepRequest(s, id, r, a).value;
    var next := t.requests[id];
    if t != With(s, id, next) {
      StoreKeepsEntrySound(s, r.row, r.readAt);
    }
  }

  /** What becomes of a request in one of its steps. */
  function Moved(s: State, id: nat, r: Request, a: Action): (next: Request)
    requires StepRequest(s, id, r, a).Some?
    ensures id in StepRequest(s, id, r, a).value.requests && next == StepRequest(s, id, r, a).value.requests[id]
  {
    StepRequest(s, id, r, a).value.requests[id]
  }

  lemma CheckedRequestIsSound(s: State, id: nat, r: Request, a: Action)
    requires Books(s) && a.CheckNegative? && StepRequest(s, id, r, a).Some?
    ensures RequestSound(s, Moved(s, id, r, a))
  {}

  lemma HitRequestIsSound(s: State, id: nat, r: Request, a: Action)
    requires s.delay >= 0.0 && Books(s) && EntrySound(s) && RequestSound(s, r)
    requires a.CheckPositive? && StepRequest(s, id, r, a).Some?
    ensures RequestSound(s, Moved(s, id, r, a))
  {
    if a.ok && s.positive.Some? && Live(s.positive.value.expiry, s.now) {
      HitIsFresh(s, r.passed);
    }
  }

  lemma LookedUpRequestIsSound(s: State, id: nat, r: Request, a: Action)
    requires Books(s) && RequestSound(s, r) && a.Lookup? && StepRequest(s, id, r, a).Some?
    ensures RequestSound(s, Moved(s, id, r, a))
  {}

  lemma AnsweredRequestIsSound(s: State, id: nat, r: Request, a: Action)
    requires s.delay >= 0.0 && Books(s) && RequestSound(s, r) && a.Respond? && StepRequest(s, id, r, a).Some?
    ensures RequestSound(s, Moved(s, id, r, a))
  {
    ReadIsFresh(s, r.check, r.row, r.readAt);
  }

  /** Connecting, being cancelled, and the write of a cancelled request. */
  lemma OtherwiseMovedRequestIsSound(s: State, id: nat, r: Request, a: Action)
    requires Books(s) && RequestSound(s, r) && (a.Connect? || a.Cancel? || a.LateStore?)
    requires StepRequest(s, id, r, a).Some?
    ensures RequestSound(s, Moved(s, id, r, a))
  {}

  lemma MovedRequestIsSound(s: State, id: nat, r: Request, a: Action)
    requires s.delay >= 0.0 && Books(s) && EntrySound(s) && RequestSound(s, r) && StepRequest(s, id, r, a).Some?
    ensures RequestSound(s, Moved(s, id, r, a))
  {
    match a {
      case CheckNegative(_, _) => CheckedRequestIsSound(s, id, r, a);
      case CheckPositive(_, _) => HitRequestIsSound(s, id, r, a);
      case Lookup(_, _) => LookedUpRequestIsSound(s, id, r, a);
      case Respond(_, _) => AnsweredRequestIsSound(s, id, r, a);
      case _ => OtherwiseMovedRequestIsSound(s, id, r, a);
    }
  }

  lemma RequestStepKeepsInv(s: State, id: nat, a: Action)
    requires Inv(s) && id in s.requests && StepRequest(s, id, s.requests[id], a).Some?
    ensures Inv(StepRequest(s, id, s.requests[id], a).value)
  {
    var r := s.requests[id];
    var t := StepRequest(s, id, r, a).value;
    assert RequestSound(s, r);
    RequestStepKeepsEntry(s, id, r, a);
    MovedRequestIsSound(s, id, r, a);
    forall i | i in t.requests ensures RequestSound(t, t.requests[i]) {
      LaterKeepsSound(s, t, t.requests[i]);
    }
  }

  lemma StepKeepsInv(s: State, a: Action)
    requires Inv(s) && Step(s, a).Some?
    ensures Inv(Step(s, a).value)
  {
    var t := Step(s, a).value;
    if a.Connect? || a.CheckNegative? || a.CheckPositive? || a.Lookup? || a.Respond? || a.Cancel? || a.LateStore? {
      RequestStepKeepsInv(s, a.id, a);
    } else {
      StepIsLater(s, a);
      forall i | i in t.requests ensures RequestSound(t, t.requests[i]) {
        if i in s.requests { LaterKeepsSound(s, t, s.requests[i]); }
      }
      if s.positive.Some? {
        LaterKeepsActive(s, t, s.positive.value.orgId, LastActive(s));
      }
    }
  }

  lemma ReachableInv(s: State)
    requires Reachable(s)
    ensures Inv(s)
  {
    forall x, a | Inv(x) && Step(x, a).Some? ensures Inv(Step(x, a).value) {
      StepKeepsInv(x, a);
    }
    Runs.ReachesKeeps(Step, x => Inv(x), Init(s.delay), s);
  }

  // ---------------------------------------------------------------- theorems

  /**
   No run with this in-flight delay ever accepts a request whose negative check was answered after the marker was set.
   */
  ghost predicate RevocationWins(delay: real) {
    forall s, id :: Reachable(s) && s.delay == delay && id in s.requests ==> !AcceptedAfterMarker(s.requests[id])
  }

  /**
   Revocation wins every race exactly when in-flight lookups write within 300 - 60 = 240 seconds of their read:
   for any interleaving, also after the marker expires and after the row is garbage-collected.
   */
  lemma RevocationWinsExactlyUpTo240Seconds(delay: real)
    requires delay >= 0.0
    ensures RevocationWins(delay) <==> delay <= 240.0
  {
    if delay <= 240.0 {
      forall s, id | Reachable(s) && s.delay == delay && id in s.requests ensures !AcceptedAfterMarker(s.requests[id]) {
        ReachableInv(s);
        assert RequestSound(s, s.requests[id]);
      }
    } else {
      var s := StaleWriteOutlivesMarker(delay, false);
      assert 1 in s.requests;
    }
  }

  /**
   A key accepted at time `at` was active, for the same organisation, no earlier than the positive TTL plus the delay
   before.
   */
  lemma BoundedStaleness(s: State, id: nat)
    requires Reachable(s) && id in s.requests && s.requests[id].Accepted?
    ensures var r := s.requests[id];
            exists t :: r.at - 60.0 - s.delay <= t <= r.at && ActiveAt(s, r.orgId, t)
  {
    ReachableInv(s);
    var r := s.requests[id];
    assert RequestSound(s, r);
    var t :| r.at - s.delay - POSITIVE_TTL <= t <= r.at && ActiveAt(s, r.orgId, t);
    assert r.at - 60.0 - s.delay <= t;
  }

  /** So from delay plus 60 seconds after the revocation on, nothing is accepted, whatever Redis does. */
  lemma EventuallyRejected(s: State, id: nat)
    requires Reachable(s) && id in s.requests && s.requests[id].Accepted? && s.revokedAt.Some?
    ensures s.requests[id].at <= s.revokedAt.value + 60.0 + s.delay
  {
    BoundedStaleness(s, id);
  }

  /** One request for a freshly minted key has passed the negative check. */
  lemma CheckPassed(delay: real) returns (s: State)
    requires delay >= 0.0
    ensures Runs.Reaches(Step, Init(delay), s)
    ensures var row := KeyRow("org", None, false);
            s == With(Init(delay).(row := Some(row), minted := Some(Minted(row, 0.0))), 0,
                Unchecked(Check(0.0, true, false)))
  {
    var s0 := Init(delay);
    var row := KeyRow("org", None, false);
    Runs.ReachesSelf(Step, s0);
    Runs.ReachesNext(Step, s0, s0, Mint("org", None));
    var s1 := s0.(row := Some(row), minted := Some(Minted(row, 0.0)));
    Runs.ReachesNext(Step, s0, s1, Begin(0));
    var s2 := With(s1, 0, Started);
    Runs.ReachesNext(Step, s0, s2, Connect(0, true));
    var s3 := With(s2, 0, Connected);
    Runs.ReachesNext(Step, s0, s3, CheckNegative(0, true));
    s := With(s3, 0, Unchecked(Check(0.0, true, false)));
    assert s.requests == With(s1, 0, s.requests[0]).requests;
  }

  /** And has just read the key from Postgres. */
  lemma LookupInFlight(delay: real) returns (s: State)
    requires delay >= 0.0
    ensures Runs.Reaches(Step, Init(delay), s) && s.delay == delay && s.now == 0.0 && s.requests.Keys == {0}
    ensures s.requests[0] == Read(Some(Check(0.0, true, false)), KeyRow("org", None, false), 0.0)
    ensures s.row == Some(KeyRow("org", None, false)) && s.markedAt.None? && s.positive.None?
  {
    var s0, check := Init(delay), Check(0.0, true, false);
    var s4 := CheckPassed(delay);
    Runs.ReachesNext(Step, s0, s4, CheckPositive(0, true));
    var s5 := With(s4, 0, Missed(Some(check)));
    Runs.ReachesNext(Step, s0, s5, Lookup(0, true));
    s := With(s5, 0, Read(Some(check), KeyRow("org", None, false), 0.0));
  }

  /** Behind it the key is revoked and the marker set, all at time zero. */
  lemma RevokedBehindALookup(delay: real) returns (s: State)
    requires delay >= 0.0
    ensures Runs.Reaches(Step, Init(delay), s) && s.delay == delay && s.now == 0.0
    ensures s.markedAt == Some(0.0) && s.negative == Some(300.0) && s.positive == None && s.requests.Keys == {0}
    ensures s.row == Some(KeyRow("org", None, true))
    ensures s.requests[0] == Read(Some(Check(0.0, true, false)), KeyRow("org", None, false), 0.0)
  {
    var s0 := Init(delay);
    var row := KeyRow("org", None, false);
    var s6 := LookupInFlight(delay);
    var s7 := s6.(row := Some(row.(revoked := true)), revokedAt := Some(0.0), revoker := Deleting);
    Runs.ReachesNext(Step, s0, s6, Revoke);
    var s8 := s7.(positive := None, revoker := Marking);
    Runs.ReachesNext(Step, s0, s7, DeletePositive(true));
    s := s8.(negative := Some(300.0), markedAt := Some(0.0), revoker := Finished);
    Runs.ReachesNext(Step, s0, s8, SetMarker(true));
  }

  /** The request writes its entry at the last moment, also if it was cancelled right after it read the key. */
  lemma StoredAtLast(delay: real, cancelled: bool) returns (s: State)
    requires delay >= 0.0
    ensures Runs.Reaches(Step, Init(delay), s) && s.delay == s.now == delay && 1 !in s.requests
    ensures s.markedAt.Some? && s.negative == Some(300.0) && s.positive == Some(Entry("org", delay + 60.0))
    ensures s.row == Some(KeyRow("org", None, true))
  {
    var s0 := Init(delay);
    var s1 := WriteToCome(delay, cancelled);
    Runs.ReachesNext(Step, s0, s1, Advance(delay));
    var s2 := s1.(now := s1.now + delay);
    if cancelled {
      Runs.ReachesNext(Step, s0, s2, LateStore(0));
      s := With(Store(s2, "org"), 0, Rejected);
    } else {
      Runs.ReachesNext(Step, s0, s2, Respond(0, true));
      s := With(Store(s2, "org"), 0, Accepted("org", Some(Check(0.0, true, false)), delay));
    }
  }

  lemma WriteToCome(delay: real, cancelled: bool) returns (s: State)
    requires delay >= 0.0
    ensures Runs.Reaches(Step, Init(delay), s) && s.delay == delay && s.now == 0.0
    ensures s.markedAt == Some(0.0) && s.negative == Some(300.0) && s.requests.Keys == {0}
    ensures var row := KeyRow("org", None, false);
            && s.row == Some(row.(revoked := true))
            && s.requests[0] == if cancelled then Orphan(row, 0.0) else Read(Some(Check(0.0, true, false)), row, 0.0)
  {
    s := RevokedBehindALookup(delay);
    if cancelled {
      Runs.ReachesNext(Step, Init(delay), s, Cancel(0));
      s := With(s, 0, Orphan(KeyRow("org", None, false), 0.0));
    }
  }

  /** With a longer delay the stale entry it writes is still alive when the marker has gone and the row is collected. */
  lemma StaleEntryWritten(delay: real, cancelled: bool) returns (s: State)
    requires delay > 240.0
    ensures Runs.Reaches(Step, Init(delay), s) && s.delay == delay && 1 !in s.requests && s.row.None?
    ensures s.markedAt.Some? && s.negative.Some? && !Live(s.negative.value, s.now)
    ensures s.positive.Some? && Live(s.positive.value.expiry, s.now)
  {
    var s3 := StoredAtLast(delay, cancelled);
    var wait := if delay < 300.0 then 300.0 - delay else 0.0;
    var s4 := s3.(now := s3.now + wait);
    Runs.ReachesNext(Step, Init(delay), s3, Advance(wait));
    s := s4.(row := None);
    Runs.ReachesNext(Step, Init(delay), s4, CleanUp);
  }

  /** Such an entry lets a key in that no longer exists, whether the call that wrote it was answered or cancelled. */
  lemma StaleWriteOutlivesMarker(delay: real, cancelled: bool) returns (s: State)
    requires delay > 240.0
    ensures Reachable(s) && s.delay == delay && 1 in s.requests && AcceptedAfterMarker(s.requests[1]) && s.row.None?
  {
    var s0 := Init(delay);
    var s4 := StaleEntryWritten(delay, cancelled);
    var s5 := With(s4, 1, Started);
    Runs.ReachesNext(Step, s0, s4, Begin(1));
    var s6 := With(s5, 1, Connected);
    Runs.ReachesNext(Step, s0, s5, Connect(1, true));
    var late := Check(s6.now, true, true);
    var s7 := With(s6, 1, Unchecked(late));
    Runs.ReachesNext(Step, s0, s6, CheckNegative(1, true));
    s := With(s7, 1, Accepted(s4.positive.value.orgId, Some(late), s7.now));
    Runs.ReachesNext(Step, s0, s7, CheckPositive(1, true));
  }
}
