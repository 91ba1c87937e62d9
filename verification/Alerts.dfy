/**
 Alert rules: the hysteresis machine of one rule, and its evaluation by any number of replicas that share the event
 table and exclude each other with a try-lock per rule.
 */
module Alerts {
  import opened Prelude
  import Runs

  type RuleId = string

  datatype Event = Event(value: real, open: bool)

  datatype Decision = Fire | Resolve | Stay

  const HYSTERESIS := 0.9

  predicate Firing(threshold: real, value: real) { value > threshold }

  predicate Recovered(threshold: real, value: real) { value <= threshold * HYSTERESIS }

  /** What one evaluation does, given whether it saw an open event. */
  function Decide(threshold: real, open: bool, value: real): Decision {
    if Firing(threshold, value) && !open then Fire
    else if Firing(threshold, value) then Stay
    else if Recovered(threshold, value) && open then Resolve
    else Stay
  }

  predicate HasOpen(events: seq<Event>) { exists e :: e in events && e.open }

  /** `UPDATE ... WHERE resolved_at IS NULL`: closes every open event of the rule. */
  function Closed(events: seq<Event>): seq<Event> {
    seq(|events|, i requires 0 <= i < |events| => events[i].(open := false))
  }

  function Apply(d: Decision, events: seq<Event>, value: real): seq<Event> {
    match d
    case Fire => events + [Event(value, true)]
    case Resolve => Closed(events)
    case Stay => events
  }

  /** One evaluator, no failures, reading after reading. */
  function Sequential(threshold: real, readings: seq<real>): seq<Event> {
    if readings == [] then []
    else
      var events := Sequential(threshold, readings[..|readings| - 1]);
      var value := readings[|readings| - 1];
      Apply(Decide(threshold, HasOpen(events), value), events, value)
  }

  /** What a rule's history records besides its events. */
  datatype Change = Fired(value: real) | Resolved(value: real)

  function ChangeOf(d: Decision, value: real): seq<Change> {
    match d case Fire => [Fired(value)] case Resolve => [Resolved(value)] case Stay => []
  }

  /** The fires and resolves of one evaluator, in order. */
  function Changes(threshold: real, readings: seq<real>): seq<Change> {
    if readings == [] then []
    else
      var before := readings[..|readings| - 1];
      var value := readings[|readings| - 1];
      Changes(threshold, before) + ChangeOf(Decide(threshold, HasOpen(Sequential(threshold, before)), value), value)
  }

  /** Fire, resolve, fire, resolve, ... */
  predicate Alternates(changes: seq<Change>) {
    forall i :: 0 <= i < |changes| ==> (changes[i].Fired? <==> i % 2 == 0)
  }

  // ---------------------------------------------------------------- hysteresis

  /** Whether the rule has an open event after these readings. */
  predicate OpenAfter(threshold: real, readings: seq<real>) {
    if readings == [] then false
    else
      var v := readings[|readings| - 1];
      Firing(threshold, v) || (OpenAfter(threshold, readings[..|readings| - 1]) && !Recovered(threshold, v))
  }

  /** The reading at `j` makes the rule fire. */
  predicate Fires(threshold: real, readings: seq<real>, j: nat)
    requires j < |readings|
  {
    Firing(threshold, readings[j]) && !OpenAfter(threshold, readings[..j])
  }

  function FireCount(threshold: real, readings: seq<real>): nat {
    if readings == [] then 0
    else FireCount(threshold, readings[..|readings| - 1]) + if Fires(threshold, readings, |readings| - 1) then 1 else 0
  }

  /**
   A positive threshold, which rule creation insists on, keeps the two conditions apart; only a negative one mixes
   them.
   */
  lemma FiringAndRecoveredExclude(threshold: real)
    ensures (forall v :: !(Firing(threshold, v) && Recovered(threshold, v))) <==> threshold >= 0.0
  {
    if threshold < 0.0 {
      assert Firing(threshold, threshold * HYSTERESIS) && Recovered(threshold, threshold * HYSTERESIS);
    }
  }

  /** At most one event is open, it is the last, and there are as many events as fires. */
  lemma {:induction false} SequentialIsTidy(threshold: real, readings: seq<real>)
    ensures var events := Sequential(threshold, readings);
            && (forall i :: 0 <= i < |events| && events[i].open ==> i == |events| - 1)
            && (HasOpen(events) <==> OpenAfter(threshold, readings))
            && |events| == FireCount(threshold, readings)
            && (HasOpen(events) ==> events != [] && events[|events| - 1].open)
  {
    if readings != [] {
      var init := readings[..|readings| - 1];
      SequentialIsTidy(threshold, init);
      var before, after := Sequential(threshold, init), Sequential(threshold, readings);
      var v := readings[|readings| - 1];
      match Decide(threshold, HasOpen(before), v) {
        case Fire => assert after[|before|] == Event(v, true);
        case Resolve => assert !HasOpen(after);
        case Stay =>
      }
    }
  }

  /** Fires and resolves strictly alternate, a fire first; an event is open exactly while the last change is a fire. */
  lemma {:induction false} ChangesAlternate(threshold: real, readings: seq<real>)
    ensures Alternates(Changes(threshold, readings))
    ensures HasOpen(Sequential(threshold, readings)) <==> |Changes(threshold, readings)| % 2 == 1
    ensures |Sequential(threshold, readings)| == (|Changes(threshold, readings)| + 1) / 2
    ensures Changes(threshold, readings) != [] ==> Changes(threshold, readings)[0].Fired?
  {
    if readings != [] {
      var init, v := readings[..|readings| - 1], readings[|readings| - 1];
      ChangesAlternate(threshold, init);
      OpenAfterApply(Sequential(threshold, init), Decide(threshold, HasOpen(Sequential(threshold, init)), v), v);
    }
  }

  lemma OpenAfterApply(events: seq<Event>, d: Decision, value: real)
    ensures HasOpen(Apply(d, events, value)) <==> d.Fire? || (d.Stay? && HasOpen(events))
  {
    match d {
      case Fire => assert Apply(d, events, value)[|events|].open;
      case Resolve => assert forall k :: 0 <= k < |events| ==> !Closed(events)[k].open;
      case Stay =>
    }
  }

  /**
   The whole law: with a positive threshold a further reading leaves the rule open exactly if it is above the threshold,
   or the rule was open and it is above 0.9 of the threshold.
   */
  lemma OpenExactly(threshold: real, readings: seq<real>, v: real)
    requires threshold > 0.0
    ensures HasOpen(Sequential(threshold, readings + [v])) <==>
              v > threshold || (HasOpen(Sequential(threshold, readings)) && v > 0.9 * threshold)
  {
    assert (readings + [v])[..|readings|] == readings;
    OpenAfterEvaluation(threshold, Sequential(threshold, readings), v);
  }

  /** One evaluation of any events: whether one is open then, and how many there are. */
  lemma OpenAfterEvaluation(threshold: real, events: seq<Event>, v: real)
    requires threshold > 0.0
    ensures var after := Apply(Decide(threshold, HasOpen(events), v), events, v);
            && (HasOpen(after) <==> v > threshold || (HasOpen(events) && v > 0.9 * threshold))
            && |after| == |events| + (if v > threshold && !HasOpen(events) then 1 else 0)
            && (|after| > |events| ==> after[|events|] == Event(v, true))
            && forall i :: 0 <= i < |events| ==>
                after[i].value == events[i].value && (after[i].open ==> events[i].open)
  {
    OpenAfterApply(events, Decide(threshold, HasOpen(events), v), v);
  }

  /** From a fire on the rule stays open until a reading at or below 0.9 of the threshold. */
  lemma {:induction false} StaysOpen(threshold: real, readings: seq<real>, i: nat)
    requires i < |readings| && Firing(threshold, readings[i])
    requires forall k :: i < k < |readings| ==> !Recovered(threshold, readings[k])
    ensures OpenAfter(threshold, readings)
  {
    if i < |readings| - 1 {
      StaysOpen(threshold, readings[..|readings| - 1], i);
    }
  }

  /** An open rule fired some time ago and has not recovered since. */
  lemma {:induction false} OpenSince(threshold: real, readings: seq<real>) returns (i: nat)
    requires OpenAfter(threshold, readings)
    ensures i < |readings| && Fires(threshold, readings, i)
    ensures forall k :: i < k < |readings| ==> Firing(threshold, readings[k]) || !Recovered(threshold, readings[k])
  {
    var last := |readings| - 1;
    var init := readings[..last];
    if OpenAfter(threshold, init) {
      i := OpenSince(threshold, init);
      assert init[..i] == readings[..i];
    } else {
      i := last;
    }
  }

  /**
   With a positive threshold, a reading fires exactly when it exceeds the threshold and every earlier fire has been
   followed by a reading at or below 0.9 of the threshold.
   */
  lemma FiresExactlyAfterRecovery(threshold: real, readings: seq<real>, j: nat)
    requires threshold > 0.0 && j < |readings|
    ensures Fires(threshold, readings, j) <==>
              && Firing(threshold, readings[j])
              && forall i :: 0 <= i < j && Fires(threshold, readings, i) ==>
                  exists k :: i < k < j && Recovered(threshold, readings[k])
  {
    var past := readings[..j];
    if Firing(threshold, readings[j]) {
      if OpenAfter(threshold, past) {
        var i := OpenSince(threshold, past);
        assert past[..i] == readings[..i];
        assert Fires(threshold, readings, i);
        assert forall k :: i < k < j ==> past[k] == readings[k] && !Recovered(threshold, readings[k]);
      } else {
        forall i | 0 <= i < j && Fires(threshold, readings, i)
          ensures exists k :: i < k < j && Recovered(threshold, readings[k])
        {
          if forall k :: i < k < j ==> !Recovered(threshold, readings[k]) {
            assert forall k :: i < k < |past| ==> past[k] == readings[k];
            StaysOpen(threshold, past, i);
          }
        }
      }
    }
  }

  /** The k-th event was opened by the k-th fire. */
  lemma {:induction false} EventIsFire(threshold: real, readings: seq<real>, k: nat) returns (i: nat)
    requires k < |Sequential(threshold, readings)|
    ensures i < |readings| && Fires(threshold, readings, i) && FireCount(threshold, readings[..i]) == k
    ensures readings[i] == Sequential(threshold, readings)[k].value
  {
    SequentialIsTidy(threshold, readings);
    var last := |readings| - 1;
    var init := readings[..last];
    SequentialIsTidy(threshold, init);
    if k < |Sequential(threshold, init)| {
      i := EventIsFire(threshold, init, k);
      assert init[..i] == readings[..i];
    } else {
      i := last;
    }
  }

  lemma {:induction false} FireCountGrows(threshold: real, readings: seq<real>, j: nat, i: nat)
    requires j <= i <= |readings|
    ensures FireCount(threshold, readings[..j]) <= FireCount(threshold, readings[..i])
    decreases i - j
  {
    if j < i {
      FireCountGrows(threshold, readings, j, i - 1);
      assert readings[..i][..i - 1] == readings[..i - 1];
    }
  }

  /** Two consecutive events are readings above the threshold with a reading at or below 0.9 of it in between. */
  lemma EventsAreSeparated(threshold: real, readings: seq<real>, k: nat) returns (i: nat, m: nat, j: nat)
    requires threshold > 0.0 && k + 1 < |Sequential(threshold, readings)|
    ensures i < m < j < |readings|
    ensures readings[i] == Sequential(threshold, readings)[k].value > threshold
    ensures readings[j] == Sequential(threshold, readings)[k + 1].value > threshold
    ensures readings[m] <= 0.9 * threshold
  {
    i := EventIsFire(threshold, readings, k);
    j := EventIsFire(threshold, readings, k + 1);
    if j <= i {
      FireCountGrows(threshold, readings, j, i);
    }
    FiresExactlyAfterRecovery(threshold, readings, j);
    m :| i < m < j && Recovered(threshold, readings[m]);
  }

  /** Readings that never drop to 0.9 of the threshold produce at most one event. */
  lemma NoFlapping(threshold: real, readings: seq<real>)
    requires threshold > 0.0
    requires forall k :: 0 <= k < |readings| ==> readings[k] > 0.9 * threshold
    ensures |Sequential(threshold, readings)| <= 1
  {
    if |Sequential(threshold, readings)| >= 2 {
      var _, m, _ := EventsAreSeparated(threshold, readings, 0);
    }
  }

  // ---------------------------------------------------------------- replicas

  /** What a replica is doing about a rule whose lock it holds. */
  datatype Task =
    | Locked(rule: RuleId)
    | Valued(rule: RuleId, value: real)
    | Sighted(rule: RuleId, value: real, open: bool)
    | Evaluated(rule: RuleId)

  /**
   `keyOf` is the hash that turns a rule id into a lock key; rules may collide.  `readings` and `changes`
   are history: per rule, the metric values of the evaluations whose outcome took effect, and the fires and resolves.
   */
  datatype State = State(
    keyOf: RuleId -> int, thresholds: map<RuleId, real>,
    locks: map<int, nat>, tasks: map<nat, Task>,
    events: map<RuleId, seq<Event>>, readings: map<RuleId, seq<real>>, changes: map<RuleId, seq<Change>>)

  datatype Action =
    | Create(rule: RuleId, threshold: real)
    | TryLock(replica: nat, rule: RuleId)
    | Compute(replica: nat, outcome: Option<real>)   // None: the metric query failed
    | Look(replica: nat, ok: bool)                   // read the open event
    | Act(replica: nat, committed: bool)             // a commit may still be reported as an error
    | Unlock(replica: nat)
    | Crash(replica: nat)                            // the lock dies with the session

  function Init(keyOf: RuleId -> int): State { State(keyOf, map[], map[], map[], map[], map[], map[]) }

  function Release(s: State, p: nat): State
    requires p in s.tasks
  {
    s.(tasks := s.tasks - {p}, locks := s.locks - {s.keyOf(s.tasks[p].rule)})
  }

  function ActStep(s: State, p: nat, committed: bool): Option<State> {
    if !(p in s.tasks && s.tasks[p].Sighted? && s.tasks[p].rule in s.thresholds
         && s.tasks[p].rule in s.events && s.tasks[p].rule in s.readings && s.tasks[p].rule in s.changes) then None
    else
      var Sighted(rule, value, open) := s.tasks[p];
      var d := Decide(s.thresholds[rule], open, value);
      var done := s.(tasks := s.tasks[p := Evaluated(rule)]);
      if d.Stay? || committed
      then Some(done.(events := s.events[rule := Apply(d, s.events[rule], value)],
                      readings := s.readings[rule := s.readings[rule] + [value]],
                      changes := s.changes[rule := s.changes[rule] + ChangeOf(d, value)]))
      else Some(done)
  }

  function Step(s: State, a: Action): Option<State> {
    match a
    case Create(rule, threshold) =>
      if threshold <= 0.0 || rule in s.thresholds then None
      else
        Some(s.(thresholds := s.thresholds[rule := threshold],
                events := s.events[rule := []], readings := s.readings[rule := []], changes := s.changes[rule := []]))
    case TryLock(p, rule) =>
      if p in s.tasks || rule !in s.thresholds then None
      else if s.keyOf(rule) in s.locks then Some(s)
      else Some(s.(locks := s.locks[s.keyOf(rule) := p], tasks := s.tasks[p := Locked(rule)]))
    case Compute(p, outcome) =>
      if !(p in s.tasks && s.tasks[p].Locked?) then None
      else
        var rule := s.tasks[p].rule;
        Some(s.(tasks := s.tasks[p := if outcome.Some? then Valued(rule, outcome.value) else Evaluated(rule)]))
    case Look(p, ok) =>
      if !(p in s.tasks && s.tasks[p].Valued? && s.tasks[p].rule in s.events) then None
      else
        var Valued(rule, value) := s.tasks[p];
        Some(s.(tasks := s.tasks[p := if ok then Sighted(rule, value, HasOpen(s.events[rule])) else Evaluated(rule)]))
    case Act(p, committed) => ActStep(s, p, committed)
    case Unlock(p) => if p in s.tasks && s.tasks[p].Evaluated? then Some(Release(s, p)) else None
    case Crash(p) => if p in s.tasks then Some(Release(s, p)) else None
  }

  ghost predicate Reachable(s: State) { Runs.Reaches(Step, Init(s.keyOf), s) }

  ghost predicate TaskSound(s: State, p: nat, t: Task) {
    && t.rule in s.thresholds && t.rule in s.events && t.rule in s.readings && t.rule in s.changes
    && s.keyOf(t.rule) in s.locks && s.locks[s.keyOf(t.rule)] == p
    && (t.Sighted? ==> t.open == HasOpen(s.events[t.rule]))
  }

  ghost predicate RuleSound(s: State, rule: RuleId) {
    && rule in s.events && rule in s.readings && rule in s.thresholds && s.thresholds[rule] > 0.0
    && s.events[rule] == Sequential(s.thresholds[rule], s.readings[rule])
    && rule in s.changes && s.changes[rule] == Changes(s.thresholds[rule], s.readings[rule])
  }

  ghost predicate Inv(s: State) {
    && (forall p :: p in s.tasks ==> TaskSound(s, p, s.tasks[p]))
    && (forall rule :: rule in s.thresholds ==> RuleSound(s, rule))
  }

  lemma ActKeepsInv(s: State, p: nat, committed: bool)
    requires Inv(s) && ActStep(s, p, committed).Some?
    ensures Inv(ActStep(s, p, committed).value)
  {
    var t := ActStep(s, p, committed).value;
    var Sighted(rule, value, open) := s.tasks[p];
    assert TaskSound(s, p, s.tasks[p]);
    assert (s.readings[rule] + [value])[..|s.readings[rule]|] == s.readings[rule];
    forall q | q in t.tasks ensures TaskSound(t, q, t.tasks[q]) {
      assert TaskSound(s, q, s.tasks[q]);
    }
    forall r | r in t.thresholds ensures RuleSound(t, r) {
      assert RuleSound(s, r);
    }
  }

  lemma CreateKeepsInv(s: State, rule: RuleId, threshold: real)
    requires Inv(s) && Step(s, Create(rule, threshold)).Some?
    ensures Inv(Step(s, Create(rule, threshold)).value)
  {
    var t := Step(s, Create(rule, threshold)).value;
    forall q | q in t.tasks ensures TaskSound(t, q, t.tasks[q]) {
      assert TaskSound(s, q, s.tasks[q]);
    }
    forall r | r in t.thresholds ensures RuleSound(t, r) {
      assert r != rule ==> RuleSound(s, r);
    }
  }

  lemma LocksKeepInv(s: State, a: Action)
    requires Inv(s) && !a.Act? && !a.Create? && Step(s, a).Some?
    ensures Inv(Step(s, a).value)
  {
    var t := Step(s, a).value;
    forall q | q in t.tasks ensures TaskSound(t, q, t.tasks[q]) {
      if q in s.tasks { assert TaskSound(s, q, s.tasks[q]); }
      if a.TryLock? { assert RuleSound(s, a.rule); }
    }
    forall r | r in t.thresholds ensures RuleSound(t, r) {
      assert RuleSound(s, r);
    }
  }

  lemma StepKeepsInv(s: State, a: Action)
    requires Inv(s) && Step(s, a).Some?
    ensures Inv(Step(s, a).value)
  {
    match a {
      case Act(p, committed) => ActKeepsInv(s, p, committed);
      case Create(rule, threshold) => CreateKeepsInv(s, rule, threshold);
      case _ => LocksKeepInv(s, a);
    }
  }

  lemma ReachableInv(s: State)
    requires Reachable(s)
    ensures Inv(s)
  {
    forall x, a | Inv(x) && Step(x, a).Some? ensures Inv(Step(x, a).value) {
      StepKeepsInv(x, a);
    }
    Runs.ReachesKeeps(Step, x => Inv(x), Init(s.keyOf), s);
  }

  /**
   Replication is invisible: in every reachable state each rule's events, fires and resolves are those of a single
   evaluator that never fails, fed with the readings that took effect; so at most one event is open, and it is the
   latest, and fires and resolves strictly alternate.
   */
  lemma ReplicasActAsOne(s: State, rule: RuleId)
    requires Reachable(s) && rule in s.thresholds
    ensures s.thresholds[rule] > 0.0 && rule in s.events && rule in s.readings
    ensures s.events[rule] == Sequential(s.thresholds[rule], s.readings[rule])
    ensures forall i :: 0 <= i < |s.events[rule]| && s.events[rule][i].open ==> i == |s.events[rule]| - 1
    ensures rule in s.changes && s.changes[rule] == Changes(s.thresholds[rule], s.readings[rule])
    ensures Alternates(s.changes[rule]) && (HasOpen(s.events[rule]) <==> |s.changes[rule]| % 2 == 1)
  {
    ReachableInv(s);
    assert RuleSound(s, rule);
    SequentialIsTidy(s.thresholds[rule], s.readings[rule]);
    ChangesAlternate(s.thresholds[rule], s.readings[rule]);
  }

  /** The lock has a holder, and the holder a task on a rule with this key. */
  ghost predicate Held(s: State, key: int) {
    key in s.locks && s.locks[key] in s.tasks && s.keyOf(s.tasks[s.locks[key]].rule) == key
  }

  ghost predicate NoLockForgotten(s: State) { forall key :: key in s.locks ==> Held(s, key) }

  lemma StepForgetsNoLock(s: State, a: Action)
    requires NoLockForgotten(s) && Step(s, a).Some?
    ensures NoLockForgotten(Step(s, a).value)
  {
    var t := Step(s, a).value;
    forall key | key in t.locks ensures Held(t, key) {
      assert key in s.locks ==> Held(s, key);
    }
  }

  /** A rule's lock is taken exactly while some replica is at a rule with this key: who stops or crashes frees it. */
  lemma LockedExactlyWhileEvaluated(s: State, rule: RuleId)
    requires Reachable(s)
    ensures s.keyOf(rule) in s.locks <==> exists p :: p in s.tasks && s.keyOf(s.tasks[p].rule) == s.keyOf(rule)
  {
    ReachableInv(s);
    forall x, a | NoLockForgotten(x) && Step(x, a).Some? ensures NoLockForgotten(Step(x, a).value) {
      StepForgetsNoLock(x, a);
    }
    Runs.ReachesKeeps(Step, x => NoLockForgotten(x), Init(s.keyOf), s);
    if s.keyOf(rule) in s.locks {
      assert Held(s, s.keyOf(rule));
    }
    forall p | p in s.tasks && s.keyOf(s.tasks[p].rule) == s.keyOf(rule) ensures s.keyOf(rule) in s.locks {
      assert TaskSound(s, p, s.tasks[p]);
    }
  }

  /** No two replicas ever evaluate one rule at the same time. */
  lemma OneEvaluatorPerRule(s: State, p: nat, q: nat)
    requires Reachable(s) && p in s.tasks && q in s.tasks && s.tasks[p].rule == s.tasks[q].rule
    ensures p == q
  {
    ReachableInv(s);
    assert TaskSound(s, p, s.tasks[p]) && TaskSound(s, q, s.tasks[q]);
  }
}
