/**
 The code around the key cache: `resolve_key` in the ingest service and `RevokeKey` with its cache invalidation in the
 API.  Between any two commands other requests, the other side and the clock may take any number of steps.
 */
module KeyAuth {
  import opened Prelude
  import opened KeyCache
  import Runs

  datatype AuthError = Unauthorized | Internal

  datatype Actor = Requester(id: nat) | Revocation

  /** The actions only this actor's code performs. */
  predicate Owns(who: Actor, a: Action) {
    match who
    case Requester(id) =>
      (match a
       case Begin(i) => i == id
       case Connect(i, _) => i == id
       case CheckNegative(i, _) => i == id
       case CheckPositive(i, _) => i == id
       case Lookup(i, _) => i == id
       case Respond(i, _) => i == id
       case Cancel(i) => i == id
       case LateStore(i) => i == id
       case _ => false)
    case Revocation => a.Revoke? || a.DeletePositive? || a.SetMarker?
  }

  /** What the others leave alone while this actor waits. */
  ghost predicate Untouched(who: Actor, s: State, t: State) {
    match who
    case Requester(id) =>
      && (id in t.requests <==> id in s.requests)
      && (id in s.requests ==> t.requests[id] == s.requests[id])
      && (id in s.requests && s.requests[id].Read? && InTime(s, id) ==> InTime(t, id))
    case Revocation => t.revoker == s.revoker && t.revokedAt == s.revokedAt && t.markedAt == s.markedAt
  }

  /** The time since the request's Postgres read is within the assumed bound. */
  predicate InTime(s: State, id: nat)
    requires id in s.requests && s.requests[id].Read?
  {
    s.now <= s.requests[id].readAt + s.delay
  }

  class World {
    var st: State

    /** No key yet, nothing cached, nobody asking. */
    constructor (delay: real)
      requires delay >= 0.0
      ensures Reachable(st) && st.delay == delay
      ensures st.row.None? && st.positive.None? && st.negative.None? && st.requests == map[] && st.revoker.Idle?
    {
      st := Init(delay);
      Runs.ReachesSelf(Step, Init(delay));
    }

    /** Perform one step of the protocol as part of the run that began in `s0`. */
    method Perform(a: Action, ghost s0: State)
      requires Step(st, a).Some? && Runs.Reaches(Step, s0, st)
      modifies this
      ensures st == Step(old(st), a).value && Runs.Reaches(Step, s0, st)
    {
      Runs.ReachesNext(Step, s0, st, a);
      st := Step(st, a).value;
    }

    /** Anybody else takes any number of steps; a request that has read Postgres is not kept waiting too long. */
    method Others(who: Actor, ghost s0: State)
      requires Runs.Reaches(Step, s0, st)
      modifies this
      ensures Runs.Reaches(Step, s0, st) && Runs.Reaches(Step, old(st), st) && Untouched(who, old(st), st)
    {
      Runs.ReachesSelf(Step, st);
      var n :| n >= 0;
      for k := 0 to n
        invariant Runs.Reaches(Step, s0, st) && Runs.Reaches(Step, old(st), st) && Untouched(who, old(st), st)
      {
        var a: Action := *;
        if !Owns(who, a) && Step(st, a).Some? {
          var t := Step(st, a).value;
          if a.Advance? && who.Requester? && who.id in st.requests && st.requests[who.id].Read? && !InTime(t, who.id) {
            continue;
          }
          OthersLeaveUntouched(who, st, a);
          Runs.ReachesNext(Step, old(st), st, a);
          Perform(a, s0);
        }
      }
    }
  }

  lemma OthersLeaveUntouched(who: Actor, s: State, a: Action)
    requires !Owns(who, a) && Step(s, a).Some?
    requires a.Advance? && who.Requester? && who.id in s.requests && s.requests[who.id].Read? ==>
        InTime(Step(s, a).value, who.id)
    ensures Untouched(who, s, Step(s, a).value)
  {}

  /** What the outside does during one call: connect to Redis, EXISTS, GET, the Postgres query, SET. */
  datatype Luck = Luck(connects: bool, checks: bool, gets: bool, postgres: bool, stores: bool)

  /** The states in which EXISTS, GET and the query were answered, or could have been. */
  datatype Moments = Moments(checked: State, got: State, asked: State)

  predicate MarkerLive(s: State) { s.negative.Some? && s.now < s.negative.value }

  predicate EntryLive(s: State) { s.positive.Some? && s.now < s.positive.value.expiry }

  /** Postgres has the key, unrevoked and allowed to ingest. */
  predicate Serves(s: State) {
    && s.row.Some? && !s.row.value.revoked
    && (s.row.value.scopes.None? || "ingest:write" in s.row.value.scopes.value)
  }

  /** The answer: a live marker rejects, a live entry accepts, and all else is for Postgres to say. */
  function Answer(luck: Luck, m: Moments): Result<string, AuthError> {
    if luck.connects && luck.checks && MarkerLive(m.checked) then Err(Unauthorized)
    else if luck.connects && luck.gets && EntryLive(m.got) then Ok(m.got.positive.value.orgId)
    else PostgresSays(luck, m.asked)
  }

  function PostgresSays(luck: Luck, asked: State): Result<string, AuthError> {
    if !luck.postgres then Err(Internal)
    else if Serves(asked) then Ok(asked.row.value.orgId)
    else Err(Unauthorized)
  }

  /** The moments lie in order on a run from `s` to `t`. */
  ghost predicate InOrder(s: State, m: Moments, t: State) {
    && Runs.Reaches(Step, s, m.checked) && Runs.Reaches(Step, m.checked, m.got)
    && Runs.Reaches(Step, m.got, m.asked) && Runs.Reaches(Step, m.asked, t)
  }

  /** The request has its answer. */
  ghost predicate Answered(s: State, me: nat, r: Result<string, AuthError>) {
    me in s.requests &&
    match r
    case Ok(orgId) =>
      s.requests[me].Accepted? && s.requests[me].orgId == orgId && s.requests[me].at == s.now
    case Err(_) => s.requests[me].Rejected?
  }

  /** The row the lookup query yields, if Postgres answers, and whether it may ingest. */
  method LookupPostgres(w: World, me: nat, answered: bool, ghost s0: State) returns (r: Result<string, AuthError>)
    requires Runs.Reaches(Step, s0, w.st) && me in w.st.requests && w.st.requests[me].Missed? && w.st.delay >= 0.0
    modifies w
    ensures Runs.Reaches(Step, s0, w.st) && w.st.now == old(w.st.now)
    ensures me in w.st.requests && w.st == With(old(w.st), me, w.st.requests[me])
    ensures r.Ok? <==> w.st.requests[me].Read?
    ensures r.Ok? <==> answered && Serves(w.st)
    ensures r.Err? ==> r.error == if answered then Unauthorized else Internal
    ensures r.Ok? ==>
              && w.st.row.Some?
              && w.st.requests[me] == Read(old(w.st.requests[me].check), w.st.row.value, w.st.now)
              && r.value == w.st.row.value.orgId && !w.st.row.value.revoked && InTime(w.st, me)
    ensures r.Err? ==> w.st.requests[me].Rejected?
  {
    if !answered {
      w.Perform(Lookup(me, false), s0);
      return Err(Internal);
    }
    var row := if w.st.row.Some? && !w.st.row.value.revoked then w.st.row else None;
    if row.None? {
      w.Perform(Lookup(me, true), s0);
      return Err(Unauthorized);
    }
    var allowed := row.value.scopes.None?;
    if row.value.scopes.Some? {
      var list := row.value.scopes.value;
      for i := 0 to |list|
        invariant allowed <==> INGEST_SCOPE in list[..i]
      {
        assert list[..i + 1] == list[..i] + [list[i]];
        allowed := allowed || list[i] == INGEST_SCOPE;
      }
      assert list[..|list|] == list;
    }
    w.Perform(Lookup(me, true), s0);
    r := if allowed then Ok(row.value.orgId) else Err(Unauthorized);
  }

  /** The command sequence of `resolve_key`; without Redis it goes straight to Postgres. */
  method Attempt(w: World, me: nat, luck: Luck, ghost s0: State)
      returns (r: Result<string, AuthError>, ghost m: Moments)
    requires me !in w.st.requests && Reachable(s0) && w.st == s0
    modifies w
    ensures Answered(w.st, me, r) && r == Answer(luck, m) && InOrder(s0, m, w.st)
    ensures r.Ok? && s0.markedAt.Some? ==> w.st.requests[me].check.Some? && w.st.requests[me].check.value.marked
    ensures FillsCache(luck, m, w.st)
  {
    Runs.ReachesSelf(Step, s0);
    w.Perform(Begin(me), s0);
    w.Others(Requester(me), s0);
    w.Perform(Connect(me, luck.connects), s0);
    w.Others(Requester(me), s0);
    ghost var s1 := w.st;
    Runs.ReachesSelf(Step, s1);
    ReachableOnwards(s0, s1);
    if s0.markedAt.Some? { MarkerStays(s0, s1); }
    if luck.connects {
      r, m := ThroughCache(w, me, luck, s1);
      Runs.ReachesTransitive(Step, s0, s1, m.checked);
    } else {
      r := FromPostgres(w, me, luck, false, s1);
      m := Moments(s1, s1, s1);
    }
  }

  /** After an answer from Postgres, with Redis connected and storing, the entry has its full sixty seconds. */
  ghost predicate FillsCache(luck: Luck, m: Moments, t: State) {
    luck.connects && luck.stores && Answer(luck, m).Ok? && !(luck.gets && EntryLive(m.got)) ==>
      t.positive == Some(Entry(Answer(luck, m).value, t.now + 60.0))
  }

  /** EXISTS revoked:, then GET key:, each best effort; on a miss to Postgres. */
  method ThroughCache(w: World, me: nat, luck: Luck, ghost s0: State)
      returns (r: Result<string, AuthError>, ghost m: Moments)
    requires Reachable(s0) && w.st == s0 && me in w.st.requests && w.st.requests[me].Connected? && luck.connects
    modifies w
    ensures Answered(w.st, me, r) && r == Answer(luck, m) && InOrder(s0, m, w.st)
    ensures r.Ok? && s0.markedAt.Some? ==> w.st.requests[me].check.Some? && w.st.requests[me].check.value.marked
    ensures FillsCache(luck, m, w.st)
  {
    Runs.ReachesSelf(Step, s0);
    var revoked := ExistsRevoked(w, me, luck.checks, s0);
    m := Moments(s0, s0, s0);
    if revoked {
      return Err(Unauthorized), m;
    }
    w.Others(Requester(me), s0);
    ghost var s1 := w.st;
    Runs.ReachesSelf(Step, s1);
    ReachableOnwards(s0, s1);
    r, m := PastMarker(w, me, luck, s1);
    m := Moments(s0, m.got, m.asked);
    Runs.ReachesTransitive(Step, s0, s1, m.got);
    if s0.markedAt.Some? { MarkerStays(s0, s1); }
  }

  /** Not known to be revoked: the cached entry, or Postgres. */
  method PastMarker(w: World, me: nat, luck: Luck, ghost s0: State)
      returns (r: Result<string, AuthError>, ghost m: Moments)
    requires Reachable(s0) && w.st == s0 && me in w.st.requests && w.st.requests[me].Unchecked? && luck.connects
    modifies w
    ensures Answered(w.st, me, r) && InOrder(s0, m, w.st) && m.checked == s0
    ensures r == if luck.gets && EntryLive(m.got) then Ok(m.got.positive.value.orgId) else PostgresSays(luck, m.asked)
    ensures r.Ok? ==> s0.markedAt.None? || w.st.requests[me].check == Some(old(w.st.requests[me].passed))
    ensures r.Ok? && luck.stores && !(luck.gets && EntryLive(m.got)) ==>
              w.st.positive == Some(Entry(r.value, w.st.now + 60.0))
  {
    Runs.ReachesSelf(Step, s0);
    var hit := GetPositive(w, me, luck.gets, s0);
    if hit.Some? {
      Runs.ReachesSelf(Step, w.st);
      return Ok(hit.value), Moments(s0, s0, w.st);
    }
    w.Others(Requester(me), s0);
    ghost var s1 := w.st;
    Runs.ReachesSelf(Step, s1);
    ReachableOnwards(s0, s1);
    if s0.markedAt.Some? { MarkerStays(s0, s1); }
    r := FromPostgres(w, me, luck, true, s1);
    m := Moments(s0, s0, s1);
  }

  /** A failed command counts as "not revoked". */
  method ExistsRevoked(w: World, me: nat, answered: bool, ghost s0: State) returns (revoked: bool)
    requires Runs.Reaches(Step, s0, w.st) && me in w.st.requests && w.st.requests[me].Connected?
    modifies w
    ensures Runs.Reaches(Step, s0, w.st) && me in w.st.requests
    ensures revoked <==> answered && MarkerLive(old(w.st))
    ensures w.st == With(old(w.st), me, if revoked then Rejected
                                        else Unchecked(Check(old(w.st.now), answered, old(w.st.markedAt).Some?)))
  {
    revoked := answered && w.st.negative.Some? && Live(w.st.negative.value, w.st.now);
    w.Perform(CheckNegative(me, answered), s0);
  }

  /** A failed command counts as a miss; a hit leaves the entry's expiry alone. */
  method GetPositive(w: World, me: nat, answered: bool, ghost s0: State) returns (hit: Option<string>)
    requires Runs.Reaches(Step, s0, w.st) && me in w.st.requests && w.st.requests[me].Unchecked?
    modifies w
    ensures Runs.Reaches(Step, s0, w.st) && me in w.st.requests && w.st.positive == old(w.st.positive)
    ensures hit.Some? <==> answered && EntryLive(old(w.st))
    ensures hit.Some? ==> hit.value == old(w.st.positive).value.orgId
    ensures w.st.now == old(w.st.now)
    ensures w.st.requests[me] == match hit
                                 case Some(orgId) => Accepted(orgId, Some(old(w.st.requests[me].passed)), w.st.now)
                                 case None => Missed(Some(old(w.st.requests[me].passed)))
  {
    hit := if answered && w.st.positive.Some? && Live(w.st.positive.value.expiry, w.st.now)
           then Some(w.st.positive.value.orgId) else None;
    w.Perform(CheckPositive(me, answered), s0);
  }

  /** Ask the source of truth; with a connection, also fill the positive cache, best effort. */
  method FromPostgres(w: World, me: nat, luck: Luck, cached: bool, ghost s0: State)
      returns (r: Result<string, AuthError>)
    requires Reachable(s0) && w.st == s0
    requires me in w.st.requests && w.st.requests[me].Missed? && (cached <==> w.st.requests[me].check.Some?)
    modifies w
    ensures Runs.Reaches(Step, s0, w.st) && Answered(w.st, me, r) && r == PostgresSays(luck, s0)
    ensures r.Ok? ==> s0.markedAt.None?
    ensures r.Ok? && cached && luck.stores ==> w.st.positive == Some(Entry(r.value, w.st.now + 60.0))
  {
    Runs.ReachesSelf(Step, s0);
    r := LookupPostgres(w, me, luck.postgres, s0);
    if r.Err? {
      return;
    }
    RevokedRowIsNotServed(s0, w.st);
    Serve(w, me, luck.stores && cached, s0);
  }

  /** Store the entry if it is to be stored, and answer. */
  method Serve(w: World, me: nat, stored: bool, ghost s0: State)
    requires Runs.Reaches(Step, s0, w.st) && me in w.st.requests && w.st.requests[me].Read? && InTime(w.st, me)
    requires stored ==> w.st.requests[me].check.Some?
    modifies w
    ensures Runs.Reaches(Step, s0, w.st) && Answered(w.st, me, Ok(old(w.st.requests[me].row.orgId)))
    ensures w.st.requests[me].check == old(w.st.requests[me].check)
    ensures stored ==> w.st.positive == Some(Entry(old(w.st.requests[me].row.orgId), w.st.now + 60.0))
  {
    w.Others(Requester(me), s0);
    w.Perform(Respond(me, stored), s0);
  }

  lemma MarkerStays(s: State, t: State)
    requires Runs.Reaches(Step, s, t) && s.markedAt.Some?
    ensures t.markedAt.Some?
  {
    Runs.ReachesKeeps(Step, (x: State) => x.markedAt.Some?, s, t);
  }

  /** As long as the row is served unrevoked, no marker has been set. */
  lemma RevokedRowIsNotServed(s0: State, s: State)
    requires Reachable(s0) && Runs.Reaches(Step, s0, s) && s.row.Some? && !s.row.value.revoked
    ensures s0.markedAt.None?
  {
    if s0.markedAt.Some? {
      MarkerStays(s0, s);
      ReachableOnwards(s0, s);
      ReachableInv(s);
    }
  }

  /**
   A key that Postgres serves when the call ends, and had when it began, was served all along; no marker was alive, and
   a cached entry could only name its own organisation.
   */
  lemma ServedThroughout(s: State, m: Moments, t: State)
    requires Reachable(s) && InOrder(s, m, t) && s.row.Some? && Serves(t)
    ensures !MarkerLive(m.checked) && Serves(m.asked) && m.asked.row == t.row
    ensures EntryLive(m.got) ==> m.got.positive.value.orgId == t.row.value.orgId
  {
    ReachableOnwards(s, m.checked);
    ReachableOnwards(m.checked, m.got);
    ReachableOnwards(m.got, m.asked);
    ReachableOnwards(m.asked, t);
    ReachableInv(s);
    ReachableInv(m.checked);
    ReachableInv(m.got);
    ReachableInv(m.asked);
    ReachableInv(t);
    HistoryStays(s, m.checked);
    HistoryStays(m.checked, m.got);
    HistoryStays(m.got, m.asked);
    HistoryStays(m.asked, t);
  }

  ghost predicate Remembers(s: State, t: State) {
    && Inv(t)
    && (s.minted.Some? ==> t.minted == s.minted) && (s.revokedAt.Some? ==> t.revokedAt == s.revokedAt)
  }

  lemma HistoryStays(s: State, t: State)
    requires Inv(s) && Runs.Reaches(Step, s, t)
    ensures Remembers(s, t)
  {
    forall x, a | Remembers(s, x) && Step(x, a).Some? ensures Remembers(s, Step(x, a).value) {
      StepKeepsInv(x, a);
      StepRemembers(x, a);
    }
    Runs.ReachesKeeps(Step, (x: State) => Remembers(s, x), s, t);
  }

  lemma StepRemembers(s: State, a: Action)
    requires Inv(s) && Step(s, a).Some?
    ensures var t := Step(s, a).value;
            (s.minted.Some? ==> t.minted == s.minted) && (s.revokedAt.Some? ==> t.revokedAt == s.revokedAt)
  {
    StepIsLater(s, a);
  }

  /**
   Resolve a key for ingest.  The call is a run of the protocol that ends in this request's answer, and the answer is
   the one that what it met at each moment calls for.  So an accepted key was recently active; once the marker is set
   acceptance needs a negative check that Redis failed to answer; and a key that Postgres serves throughout is accepted
   for its organisation, with or without Redis.
   */
  method ResolveKey(w: World, me: nat, luck: Luck) returns (r: Result<string, AuthError>, ghost m: Moments)
    requires me !in w.st.requests && Reachable(w.st)
    modifies w
    ensures Reachable(w.st) && Runs.Reaches(Step, old(w.st), w.st) && me in w.st.requests
    ensures r == Answer(luck, m) && InOrder(old(w.st), m, w.st) && FillsCache(luck, m, w.st)
    ensures r.Ok? <==> w.st.requests[me].Accepted?
    ensures r.Err? <==> w.st.requests[me].Rejected?
    ensures r.Ok? ==> r.value == w.st.requests[me].orgId && w.st.requests[me].at <= w.st.now
    ensures r.Ok? ==>
              exists t :: w.st.requests[me].at - 60.0 - w.st.delay <= t <= w.st.now && ActiveAt(w.st, r.value, t)
    ensures r.Ok? && w.st.delay <= 240.0 && old(w.st.markedAt).Some? ==>
              w.st.requests[me].check.Some? && !w.st.requests[me].check.value.answered
    ensures luck.postgres && old(w.st.row).Some? && Serves(w.st) ==> r == Ok(w.st.row.value.orgId)
  {
    ghost var s0 := w.st;
    r, m := Attempt(w, me, luck, s0);
    OnTheWay(s0, m, w.st);
    ReachableOnwards(s0, w.st);
    if r.Ok? {
      BoundedStaleness(w.st, me);
      MarkedRequestsNeedLuck(w.st, me);
    }
    if s0.row.Some? && Serves(w.st) {
      ServedThroughout(s0, m, w.st);
    }
  }

  lemma OnTheWay(s: State, m: Moments, t: State)
    requires InOrder(s, m, t)
    ensures Runs.Reaches(Step, s, t)
  {
    Runs.ReachesTransitive(Step, s, m.checked, m.got);
    Runs.ReachesTransitive(Step, s, m.got, m.asked);
    Runs.ReachesTransitive(Step, s, m.asked, t);
  }

  lemma ReachableOnwards(s: State, t: State)
    requires Reachable(s) && Runs.Reaches(Step, s, t)
    ensures Reachable(t) && t.delay == s.delay
  {
    DelayIsFixed(s, t);
    Runs.ReachesTransitive(Step, Init(s.delay), s, t);
  }

  lemma DelayIsFixed(s: State, t: State)
    requires Runs.Reaches(Step, s, t)
    ensures t.delay == s.delay
  {
    Runs.ReachesKeeps(Step, (x: State) => x.delay == s.delay, s, t);
  }

  lemma MarkedRequestsNeedLuck(s: State, id: nat)
    requires Reachable(s) && id in s.requests && s.requests[id].Accepted?
    ensures s.delay <= 240.0 && s.requests[id].check.Some? && s.requests[id].check.value.marked ==>
        !s.requests[id].check.value.answered
  {
    RevocationWinsExactlyUpTo240Seconds(s.delay);
  }

  datatype RevokeStatus = Done | NotFound

  /**
   Revoke: the row first, then - best effort, and only if Redis is configured - the positive entry and the marker.
   `deletes` and `marks` say which of the two commands Redis carries out.  `deleted` is the moment after the first.
   */
  method RevokeKey(w: World, redis: bool, deletes: bool, marks: bool)
      returns (status: RevokeStatus, ghost deleted: State)
    requires Reachable(w.st)
    modifies w
    ensures Runs.Reaches(Step, old(w.st), w.st) && Reachable(w.st)
    ensures status.Done? <==> old(w.st.row).Some? && !old(w.st.row).value.revoked
    ensures status.NotFound? ==> w.st == old(w.st)
    ensures status.Done? ==> w.st.revokedAt == Some(old(w.st.now)) && (w.st.row.None? || w.st.row.value.revoked)
    ensures status.Done? && !redis ==> w.st.row == Some(old(w.st.row).value.(revoked := true))
    ensures status.Done? && redis ==> Runs.Reaches(Step, old(w.st), deleted) && Runs.Reaches(Step, deleted, w.st)
    ensures status.Done? && redis && deletes ==> deleted.positive == None
    ensures status.Done? && redis && marks ==>
              w.st.markedAt == Some(w.st.now) && w.st.negative == Some(w.st.now + 300.0)
    ensures status.Done? && !(redis && marks) ==> w.st.markedAt == old(w.st.markedAt)
    ensures status.Done? && redis ==> w.st.revoker.Finished?
  {
    ghost var s0 := w.st;
    deleted := s0;
    Runs.ReachesSelf(Step, s0);
    if w.st.row.None? || w.st.row.value.revoked {
      return NotFound, s0;
    }
    status := Done;
    w.Perform(Revoke, s0);
    if redis {
      w.Others(Revocation, s0);
      w.Perform(DeletePositive(deletes), s0);
      deleted := w.st;
      SetMarkerLater(w, marks, s0);
    }
    ReachableOnwards(s0, w.st);
    RevokedMeansNoRow(w.st);
  }

  /** A revoked key's row is revoked, or collected. */
  lemma RevokedMeansNoRow(s: State)
    requires Reachable(s) && s.revokedAt.Some?
    ensures s.row.None? || s.row.value.revoked
  {
    ReachableInv(s);
  }

  /** Others run between the two commands. */
  method SetMarkerLater(w: World, marks: bool, ghost s0: State)
    requires Runs.Reaches(Step, s0, w.st) && w.st.revoker.Marking?
    modifies w
    ensures Runs.Reaches(Step, s0, w.st) && Runs.Reaches(Step, old(w.st), w.st) && w.st.revokedAt == old(w.st.revokedAt)
    ensures marks ==> w.st.markedAt == Some(w.st.now) && w.st.negative == Some(w.st.now + 300.0)
    ensures !marks ==> w.st.markedAt == old(w.st.markedAt)
    ensures w.st.revoker.Finished?
  {
    ghost var before := w.st;
    w.Others(Revocation, s0);
    ghost var mid := w.st;
    w.Perform(SetMarker(marks), s0);
    Runs.ReachesNext(Step, before, mid, SetMarker(marks));
  }
}
