/**
 Runs of a labelled transition system.  A system is a partial step function: `step(s, a)` is `None` when
 action `a` cannot happen in state `s`.  All nondeterminism (failures, interleaving, clocks) sits in the action.
 */
module Runs {
  import opened Prelude

  /** The state after performing `acts` in order, if every one of them could happen. */
  function Exec<S, A>(step: (S, A) -> Option<S>, s: S, acts: seq<A>): Option<S>
    decreases |acts|
  {
    if acts == [] then Some(s)
    else
      match Exec(step, s, acts[..|acts| - 1])
      case None => None
      case Some(m) => step(m, acts[|acts| - 1])
  }

  ghost predicate Reaches<S(!new), A(!new)>(step: (S, A) -> Option<S>, s: S, t: S) {
    exists acts: seq<A> :: Exec(step, s, acts) == Some(t)
  }

  ghost predicate Inductive<S(!new), A(!new)>(step: (S, A) -> Option<S>, inv: S -> bool) {
    forall s, a :: inv(s) && step(s, a).Some? ==> inv(step(s, a).value)
  }

  lemma ReachesSelf<S(!new), A(!new)>(step: (S, A) -> Option<S>, s: S)
    ensures Reaches(step, s, s)
  {
    var none: seq<A> := [];
    assert Exec(step, s, none) == Some(s);
  }

  lemma ReachesNext<S(!new), A(!new)>(step: (S, A) -> Option<S>, s: S, m: S, a: A)
    requires Reaches(step, s, m) && step(m, a).Some?
    ensures Reaches(step, s, step(m, a).value)
  {
    var acts: seq<A> :| Exec(step, s, acts) == Some(m);
    assert (acts + [a])[..|acts|] == acts;
    assert Exec(step, s, acts + [a]) == step(m, a);
  }

  lemma {:induction false} ExecAppend<S, A>(step: (S, A) -> Option<S>, s: S, first: seq<A>, second: seq<A>)
    ensures Exec(step, s, first + second)
         == (match Exec(step, s, first) case None => None case Some(m) => Exec(step, m, second))
    decreases |second|
  {
    if second == [] {
      assert first + second == first;
    } else {
      var init := second[..|second| - 1];
      ExecAppend(step, s, first, init);
      assert (first + second)[..|first + second| - 1] == first + init;
    }
  }

  lemma ReachesTransitive<S(!new), A(!new)>(step: (S, A) -> Option<S>, s: S, m: S, t: S)
    requires Reaches(step, s, m) && Reaches(step, m, t)
    ensures Reaches(step, s, t)
  {
    var first: seq<A> :| Exec(step, s, first) == Some(m);
    var second: seq<A> :| Exec(step, m, second) == Some(t);
    ExecAppend(step, s, first, second);
  }

  lemma {:induction false} ExecKeeps<S(!new), A(!new)>(step: (S, A) -> Option<S>, inv: S -> bool, s: S, acts: seq<A>)
    requires Inductive(step, inv) && inv(s)
    ensures Exec(step, s, acts).Some? ==> inv(Exec(step, s, acts).value)
    decreases |acts|
  {
    if acts != [] {
      ExecKeeps(step, inv, s, acts[..|acts| - 1]);
    }
  }

  /** What every step keeps, every run keeps. */
  lemma ReachesKeeps<S(!new), A(!new)>(step: (S, A) -> Option<S>, inv: S -> bool, s: S, t: S)
    requires Inductive(step, inv) && inv(s) && Reaches(step, s, t)
    ensures inv(t)
  {
    var acts: seq<A> :| Exec(step, s, acts) == Some(t);
    ExecKeeps(step, inv, s, acts);
  }

  lemma {:induction false} ExecInLarger<S(!new), A(!new)>(small: (S, A) -> Option<S>, large: (S, A) -> Option<S>,
      s: S, acts: seq<A>)
    requires forall x, a :: small(x, a).Some? ==> large(x, a) == small(x, a)
    ensures Exec(small, s, acts).Some? ==> Exec(large, s, acts) == Exec(small, s, acts)
    decreases |acts|
  {
    if acts != [] {
      ExecInLarger(small, large, s, acts[..|acts| - 1]);
    }
  }

  /** A system with more actions has all runs of one with fewer. */
  lemma ReachesInLarger<S(!new), A(!new)>(small: (S, A) -> Option<S>, large: (S, A) -> Option<S>, s: S, t: S)
    requires Reaches(small, s, t) && forall x, a :: small(x, a).Some? ==> large(x, a) == small(x, a)
    ensures Reaches(large, s, t)
  {
    var acts: seq<A> :| Exec(small, s, acts) == Some(t);
    ExecInLarger(small, large, s, acts);
  }
}
