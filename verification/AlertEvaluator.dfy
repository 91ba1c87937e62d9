/** The evaluator's code.  Between any two statements the other replicas take any number of steps. */
module AlertEvaluator {
  import opened Prelude
  import opened Alerts
  import Runs

  /** The replica whose code performs the action; creating rules is nobody's. */
  predicate By(p: nat, a: Action) {
    match a
    case Create(_, _) => false
    case TryLock(q, _) => q == p
    case Compute(q, _) => q == p
    case Look(q, _) => q == p
    case Act(q, _) => q == p
    case Unlock(q) => q == p
    case Crash(q) => q == p
  }

  ghost predicate RulesKept(s: State, t: State) {
    forall r :: r in s.thresholds ==> r in t.thresholds && t.thresholds[r] == s.thresholds[r]
  }

  /** While replica `p` waits, its task and - if it holds the rule's lock - the rule's events stay as they are. */
  ghost predicate Untouched(p: nat, s: State, t: State) {
    && (p in t.tasks <==> p in s.tasks)
    && (p in s.tasks ==> t.tasks[p] == s.tasks[p])
    && RulesKept(s, t)
    && (p in s.tasks && s.tasks[p].rule in s.events && s.tasks[p].rule in s.readings ==>
          var r := s.tasks[p].rule;
          r in t.events && r in t.readings && t.events[r] == s.events[r] && t.readings[r] == s.readings[r])
  }

  /** Another replica acts on another rule: two tasks on one rule would hold one lock. */
  lemma ActsElsewhere(p: nat, s: State, q: nat, committed: bool)
    requires Inv(s) && p != q && ActStep(s, q, committed).Some?
    ensures Untouched(p, s, ActStep(s, q, committed).value)
  {
    assert TaskSound(s, q, s.tasks[q]);
    if p in s.tasks {
      assert TaskSound(s, p, s.tasks[p]);
      assert s.tasks[p].rule != s.tasks[q].rule;
    }
  }

  lemma OthersLeaveUntouched(p: nat, s: State, a: Action)
    requires Inv(s) && !By(p, a) && Step(s, a).Some?
    ensures Untouched(p, s, Step(s, a).value)
  {
    if a.Act? {
      ActsElsewhere(p, s, a.replica, a.committed);
    } else if p in s.tasks {
      assert TaskSound(s, p, s.tasks[p]);
    }
  }

  class World {
    var st: State

    /** No rules, no locks, nobody evaluating. */
    constructor (keyOf: RuleId -> int)
      ensures Inv(st) && Reachable(st) && st.keyOf == keyOf
      ensures st.thresholds == map[] && st.locks == map[] && st.tasks == map[] && st.events == map[]
    {
      st := Init(keyOf);
      Runs.ReachesSelf(Step, Init(keyOf));
    }

    /** Perform one step as part of the run that began in `s0`; rules are never forgotten. */
    method Perform(a: Action, ghost s0: State)
      requires Step(st, a).Some? && Runs.Reaches(Step, s0, st) && Inv(st)
      modifies this
      ensures st == Step(old(st), a).value && Runs.Reaches(Step, s0, st) && Inv(st)
      ensures RulesKept(old(st), st)
    {
      Runs.ReachesNext(Step, s0, st, a);
      StepKeepsInv(st, a);
      st := Step(st, a).value;
    }

    /** Others run, seen as a run of its own. */
    method OthersFrom(p: nat, ghost s0: State)
      requires Runs.Reaches(Step, s0, st) && Inv(st)
      modifies this
      ensures Runs.Reaches(Step, s0, st) && Runs.Reaches(Step, old(st), st) && Inv(st) && Untouched(p, old(st), st)
    {
      ghost var s := st;
      Runs.ReachesSelf(Step, s);
      Others(p, s);
      Runs.ReachesTransitive(Step, s0, s, st);
    }

    method Others(p: nat, ghost s0: State)
      requires Runs.Reaches(Step, s0, st) && Inv(st)
      modifies this
      ensures Runs.Reaches(Step, s0, st) && Inv(st) && Untouched(p, old(st), st)
    {
      var n :| n >= 0;
      for k := 0 to n
        invariant Runs.Reaches(Step, s0, st) && Inv(st) && Untouched(p, old(st), st)
      {
        var a: Action := *;
        if !By(p, a) && Step(st, a).Some? {
          OthersLeaveUntouched(p, st, a);
          Perform(a, s0);
        }
      }
    }
  }

  /** The rule can be evaluated by `p`, which holds its lock. */
  ghost predicate Holds(s: State, p: nat, rule: RuleId) {
    && Inv(s) && p in s.tasks && s.tasks[p].rule == rule
    && rule in s.thresholds && rule in s.events && rule in s.readings
  }

  /** What an evaluation with this value makes of a rule's events: it opens one, closes it, or changes nothing. */
  ghost predicate Evaluates(threshold: real, before: seq<Event>, after: seq<Event>, value: real) {
    && (HasOpen(after) <==> value > threshold || (HasOpen(before) && value > 0.9 * threshold))
    && |after| == |before| + (if value > threshold && !HasOpen(before) then 1 else 0)
    && (|after| > |before| ==> after[|before|] == Event(value, true))
    && (forall i :: 0 <= i < |before| ==> after[i].value == before[i].value && (after[i].open ==> before[i].open))
  }

  /** The rule's events moved by exactly one evaluation with this value. */
  ghost predicate Evolved(s: State, t: State, rule: RuleId, value: real)
    requires rule in s.thresholds && rule in s.events && rule in s.readings
  {
    && rule in t.events && rule in t.readings
    && t.events[rule] == Apply(Decide(s.thresholds[rule], HasOpen(s.events[rule]), value), s.events[rule], value)
    && t.readings[rule] == s.readings[rule] + [value]
  }

  ghost predicate Unmoved(s: State, t: State, rule: RuleId)
    requires rule in s.events && rule in s.readings
  {
    rule in t.events && rule in t.readings && t.events[rule] == s.events[rule] && t.readings[rule] == s.readings[rule]
  }

  /**
   What the outside does during one evaluation: the lock connection is had, the metric query answers, the open-event
   query answers, the insert or update commits, and its success is reported.
   */
  datatype Luck = Luck(connects: bool, value: Option<real>, answers: bool, commits: bool, reports: bool)

  /** The reading that takes effect in an evaluation of a rule in this situation, if any. */
  function EffectOf(luck: Luck, threshold: real, events: seq<Event>): Option<real> {
    if luck.value.Some? && luck.answers && (Decide(threshold, HasOpen(events), luck.value.value).Stay? || luck.commits)
    then luck.value else None
  }

  /** The rule's events moved as this luck has it. */
  ghost predicate Moved(s: State, t: State, rule: RuleId, luck: Luck)
    requires rule in s.thresholds && rule in s.events && rule in s.readings
  {
    match EffectOf(luck, s.thresholds[rule], s.events[rule])
    case Some(value) => Evolved(s, t, rule, value)
    case None => Unmoved(s, t, rule)
  }

  /** With the value and the open event known and the change committed, the law of hysteresis; else nothing. */
  ghost predicate Lawful(threshold: real, before: seq<Event>, after: seq<Event>, luck: Luck) {
    if luck.value.Some? && luck.answers && luck.commits then Evaluates(threshold, before, after, luck.value.value)
    else after == before
  }

  /** A rule that moved as this luck has it moved by the law of hysteresis. */
  lemma MovesAreLawful(s: State, t: State, rule: RuleId, luck: Luck)
    requires Inv(s) && rule in s.thresholds && rule in s.events && rule in s.readings && Moved(s, t, rule, luck)
    ensures Lawful(s.thresholds[rule], s.events[rule], t.events[rule], luck)
  {
    assert RuleSound(s, rule);
    if luck.value.Some? {
      OpenAfterEvaluation(s.thresholds[rule], s.events[rule], luck.value.value);
    }
  }

  /** Fire, resolve, or leave things as they are.  A statement may commit and still report an error. */
  method Settle(w: World, p: nat, rule: RuleId, value: real, open: bool, luck: Luck, ghost s0: State)
      returns (ok: bool, committed: bool)
    requires Runs.Reaches(Step, s0, w.st) && Holds(w.st, p, rule) && w.st.tasks[p] == Sighted(rule, value, open)
    modifies w
    ensures Runs.Reaches(Step, s0, w.st) && Holds(w.st, p, rule) && w.st.tasks[p] == Evaluated(rule)
    ensures RulesKept(old(w.st), w.st)
    ensures committed <==> luck.commits || Decide(old(w.st.thresholds[rule]), open, value).Stay?
    ensures ok <==> (luck.commits && luck.reports) || Decide(old(w.st.thresholds[rule]), open, value).Stay?
    ensures if committed then Evolved(old(w.st), w.st, rule, value) else Unmoved(old(w.st), w.st, rule)
  {
    assert TaskSound(w.st, p, w.st.tasks[p]);
    var threshold := w.st.thresholds[rule];
    var firing := value > threshold;
    var recovered := value <= threshold * HYSTERESIS;
    committed, ok := true, true;
    if firing && !open {
      committed, ok := luck.commits, luck.commits && luck.reports;  // InsertEvent
    } else if firing && open {
    } else if recovered && open {
      committed, ok := luck.commits, luck.commits && luck.reports;  // ResolveOpenEvent
    }
    ActedOnce(w.st, p, committed);
    w.Perform(Act(p, committed), s0);
  }

  lemma ActedOnce(s: State, p: nat, committed: bool)
    requires Inv(s) && p in s.tasks && s.tasks[p].Sighted? && Holds(s, p, s.tasks[p].rule)
    requires Decide(s.thresholds[s.tasks[p].rule], s.tasks[p].open, s.tasks[p].value).Stay? ==> committed
    ensures Step(s, Act(p, committed)).Some?
    ensures var t, rule, value := Step(s, Act(p, committed)).value, s.tasks[p].rule, s.tasks[p].value;
            && p in t.tasks && t.tasks[p] == Evaluated(rule) && t.thresholds == s.thresholds
            && if committed then Evolved(s, t, rule, value) else Unmoved(s, t, rule)
  {
    assert TaskSound(s, p, s.tasks[p]);
  }

  /** The metric query; it may fail. */
  method ComputeValue(w: World, p: nat, rule: RuleId, luck: Luck, ghost s0: State) returns (value: Option<real>)
    requires Runs.Reaches(Step, s0, w.st) && Holds(w.st, p, rule) && w.st.tasks[p].Locked?
    modifies w
    ensures Runs.Reaches(Step, s0, w.st) && Holds(w.st, p, rule) && RulesKept(old(w.st), w.st)
    ensures value == luck.value
    ensures w.st.tasks[p] == if value.Some? then Valued(rule, value.value) else Evaluated(rule)
    ensures Unmoved(old(w.st), w.st, rule)
  {
    value := luck.value;
    w.Perform(Compute(p, value), s0);
  }

  /** Whether the rule has an open event; the query may fail. */
  method OpenEventForRule(w: World, p: nat, rule: RuleId, luck: Luck, ghost s0: State) returns (open: Option<bool>)
    requires Runs.Reaches(Step, s0, w.st) && Holds(w.st, p, rule) && w.st.tasks[p].Valued?
    modifies w
    ensures Runs.Reaches(Step, s0, w.st) && Holds(w.st, p, rule) && RulesKept(old(w.st), w.st)
    ensures open == if luck.answers then Some(HasOpen(w.st.events[rule])) else None
    ensures w.st.tasks[p] == if open.Some? then Sighted(rule, old(w.st.tasks[p].value), open.value) else Evaluated(rule)
    ensures Unmoved(old(w.st), w.st, rule)
  {
    open := if luck.answers then Some(HasOpen(w.st.events[rule])) else None;
    w.Perform(Look(p, luck.answers), s0);
  }

  method ReleaseLock(w: World, p: nat, ghost s0: State)
    requires Runs.Reaches(Step, s0, w.st) && Inv(w.st) && p in w.st.tasks && w.st.tasks[p].Evaluated?
    modifies w
    ensures Runs.Reaches(Step, s0, w.st) && Inv(w.st) && RulesKept(old(w.st), w.st)
    ensures p !in w.st.tasks && w.st.locks == old(w.st.locks) - {old(w.st.keyOf(w.st.tasks[p].rule))}
    ensures w.st.events == old(w.st.events) && w.st.readings == old(w.st.readings)
  {
    w.Perform(Unlock(p), s0);
  }

  /** Holding the rule's lock: compute the value, look for an open event, decide. */
  method EvaluateRule(w: World, p: nat, rule: RuleId, luck: Luck, ghost s0: State) returns (ok: bool)
    requires Runs.Reaches(Step, s0, w.st) && Holds(w.st, p, rule) && w.st.tasks[p].Locked?
    modifies w
    ensures Runs.Reaches(Step, s0, w.st) && Holds(w.st, p, rule) && w.st.tasks[p].Evaluated?
    ensures RulesKept(old(w.st), w.st) && Moved(old(w.st), w.st, rule, luck)
    ensures Lawful(old(w.st.thresholds[rule]), old(w.st.events[rule]), w.st.events[rule], luck)
    ensures ok ==> luck.value.Some? && luck.answers
    ensures luck.value.Some? && luck.answers && luck.commits && luck.reports ==> ok
  {
    ok := ComputeAndSettle(w, p, rule, luck, s0);
    MovesAreLawful(old(w.st), w.st, rule, luck);
  }

  method ComputeAndSettle(w: World, p: nat, rule: RuleId, luck: Luck, ghost s0: State) returns (ok: bool)
    requires Runs.Reaches(Step, s0, w.st) && Holds(w.st, p, rule) && w.st.tasks[p].Locked?
    modifies w
    ensures Runs.Reaches(Step, s0, w.st) && Holds(w.st, p, rule) && w.st.tasks[p].Evaluated?
    ensures RulesKept(old(w.st), w.st) && Moved(old(w.st), w.st, rule, luck)
    ensures ok ==> luck.value.Some? && luck.answers
    ensures luck.value.Some? && luck.answers && luck.commits && luck.reports ==> ok
  {
    var value := ComputeValue(w, p, rule, luck, s0);
    if value.None? {
      return false;
    }
    w.Others(p, s0);
    var open := OpenEventForRule(w, p, rule, luck, s0);
    if open.None? {
      return false;
    }
    w.Others(p, s0);
    assert TaskSound(w.st, p, w.st.tasks[p]);
    var committed;
    ok, committed := Settle(w, p, rule, value.value, open.value, luck, s0);
  }

  /** A rule exists once it is created, and only with a positive threshold. */
  method CreateRule(w: World, rule: RuleId, threshold: real, ghost s0: State) returns (ok: bool)
    requires Runs.Reaches(Step, s0, w.st) && Inv(w.st) && rule !in w.st.thresholds
    modifies w
    ensures Runs.Reaches(Step, s0, w.st) && Inv(w.st)
    ensures ok <==> threshold > 0.0
    ensures ok ==> w.st.thresholds == old(w.st.thresholds)[rule := threshold]
    ensures ok ==> rule in w.st.events && w.st.events[rule] == []
    ensures !ok ==> w.st == old(w.st)
  {
    if threshold <= 0.0 {
      return false;
    }
    w.Perform(Create(rule, threshold), s0);
    ok := true;
  }

  /** What one turn of the loop over the rules comes to. */
  ghost predicate RanRule(s: State, t: State, rule: RuleId, luck: Luck)
    requires rule in s.thresholds && rule in s.events && rule in s.readings
  {
    if luck.connects && s.keyOf(rule) !in s.locks then Moved(s, t, rule, luck) else t == s
  }

  lemma RulesHaveHistories(s: State)
    requires Inv(s)
    ensures forall r :: r in s.thresholds ==> r in s.events && r in s.readings
  {
    forall r | r in s.thresholds ensures r in s.events && r in s.readings {
      assert RuleSound(s, r);
    }
  }

  /** Evaluate the rule if its lock is free; release the lock whatever happened. */
  method RunRule(w: World, p: nat, rule: RuleId, luck: Luck, ghost s0: State)
    requires Runs.Reaches(Step, s0, w.st) && Inv(w.st) && p !in w.st.tasks
    requires rule in w.st.thresholds && rule in w.st.events && rule in w.st.readings
    modifies w
    ensures Runs.Reaches(Step, s0, w.st) && Inv(w.st) && p !in w.st.tasks
    ensures RulesKept(old(w.st), w.st) && RanRule(old(w.st), w.st, rule, luck)
  {
    if !luck.connects {
      return;  // no connection for the lock
    }
    w.Perform(TryLock(p, rule), s0);
    if p in w.st.tasks {
      assert TaskSound(w.st, p, w.st.tasks[p]);
      w.Others(p, s0);
      EvaluateAndUnlock(w, p, rule, luck, s0);
    }
  }

  method EvaluateAndUnlock(w: World, p: nat, rule: RuleId, luck: Luck, ghost s0: State)
    requires Runs.Reaches(Step, s0, w.st) && Holds(w.st, p, rule) && w.st.tasks[p].Locked?
    modifies w
    ensures Runs.Reaches(Step, s0, w.st) && Inv(w.st) && p !in w.st.tasks && RulesKept(old(w.st), w.st)
    ensures Moved(old(w.st), w.st, rule, luck)
  {
    var _ := EvaluateRule(w, p, rule, luck, s0);
    w.Others(p, s0);
    ReleaseLock(w, p, s0);
  }

  /** One turn, as part of a tick: others run, then the rule is dealt with between these two states. */
  datatype Turn = Turn(before: State, after: State)

  ghost predicate SoundTurn(t: Turn, rule: RuleId, luck: Luck) {
    && rule in t.before.thresholds && rule in t.before.events && rule in t.before.readings
    && RanRule(t.before, t.after, rule, luck) && Runs.Reaches(Step, t.before, t.after)
  }

  /** The state the turns taken so far have led to. */
  function Reached(start: State, turns: seq<Turn>): State { if turns == [] then start else turns[|turns| - 1].after }

  /** Rule after rule is dealt with, and each turn starts from a state reached from the end of the one before. */
  ghost predicate SoundTick(start: State, turns: seq<Turn>, rules: seq<RuleId>, lucks: seq<Luck>)
    requires |turns| <= |rules| == |lucks|
  {
    turns == [] ||
    var n := |turns| - 1;
    && SoundTick(start, turns[..n], rules, lucks)
    && Runs.Reaches(Step, Reached(start, turns[..n]), turns[n].before) && SoundTurn(turns[n], rules[n], lucks[n])
  }

  lemma OneMoreTurn(start: State, turns: seq<Turn>, turn: Turn, rules: seq<RuleId>, lucks: seq<Luck>)
    requires |turns| < |rules| == |lucks| && SoundTick(start, turns, rules, lucks)
    requires Runs.Reaches(Step, Reached(start, turns), turn.before) && SoundTurn(turn, rules[|turns|], lucks[|turns|])
    ensures SoundTick(start, turns + [turn], rules, lucks) && Reached(start, turns + [turn]) == turn.after
  {
    assert (turns + [turn])[..|turns|] == turns;
  }

  /** One tick over the listed rules: each is dealt with in turn, with the others running in between. */
  method RunOnce(w: World, p: nat, rules: seq<RuleId>, lucks: seq<Luck>, ghost s0: State)
      returns (ghost turns: seq<Turn>)
    requires Runs.Reaches(Step, s0, w.st) && Inv(w.st) && p !in w.st.tasks && |lucks| == |rules|
    requires forall i :: 0 <= i < |rules| ==> rules[i] in w.st.thresholds
    modifies w
    ensures Runs.Reaches(Step, s0, w.st) && Inv(w.st) && p !in w.st.tasks
    ensures |turns| == |rules| && SoundTick(old(w.st), turns, rules, lucks) && w.st == Reached(old(w.st), turns)
  {
    turns := [];
    for i := 0 to |rules|
      invariant Runs.Reaches(Step, s0, w.st) && Inv(w.st) && p !in w.st.tasks
      invariant RulesKept(old(w.st), w.st)
      invariant |turns| == i && SoundTick(old(w.st), turns, rules, lucks) && w.st == Reached(old(w.st), turns)
    {
      ghost var turn := TakeTurn(w, p, rules[i], lucks[i], s0);
      OneMoreTurn(old(w.st), turns, turn, rules, lucks);
      turns := turns + [turn];
    }
  }

  method TakeTurn(w: World, p: nat, rule: RuleId, luck: Luck, ghost s0: State) returns (ghost turn: Turn)
    requires Runs.Reaches(Step, s0, w.st) && Inv(w.st) && p !in w.st.tasks && rule in w.st.thresholds
    modifies w
    ensures Runs.Reaches(Step, s0, w.st) && Inv(w.st) && p !in w.st.tasks && RulesKept(old(w.st), w.st)
    ensures SoundTurn(turn, rule, luck) && Runs.Reaches(Step, old(w.st), turn.before) && turn.after == w.st
  {
    w.OthersFrom(p, s0);
    ghost var before := w.st;
    RulesHaveHistories(before);
    Runs.ReachesSelf(Step, before);
    RunRule(w, p, rule, luck, before);
    turn := Turn(before, w.st);
    Runs.ReachesTransitive(Step, s0, before, w.st);
  }
}
