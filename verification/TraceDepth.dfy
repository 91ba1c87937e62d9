/** The trace gantt's depth computation: a memoised, cycle-guarded recursion over parent links. */
module TraceDepth {
  import opened Prelude

  datatype Span = Span(spanId: string, parentSpanId: Option<string>)

  /** `new Map(spans.map(...))`: of several spans with one id the last wins. */
  function ById(spans: seq<Span>): (m: map<string, Span>)
    ensures forall id :: id in m ==> m[id] in spans && m[id].spanId == id
    ensures forall s :: s in spans ==> s.spanId in m
  {
    if spans == [] then map[]
    else
      var last := spans[|spans| - 1];
      assert spans == spans[..|spans| - 1] + [last];
      ById(spans[..|spans| - 1])[last.spanId := last]
  }

  /** The parent link, if it leads anywhere: null, empty and dangling links make a root. */
  function Parent(byId: map<string, Span>, id: string): Option<string> {
    if id !in byId then None
    else
      match byId[id].parentSpanId
      case Some(p) => if p != "" && p in byId then Some(p) else None
      case None => None
  }

  /** The span's ancestor chain is finite and `k` long. */
  predicate RootAfter(byId: map<string, Span>, id: string, k: nat)
    decreases k
  {
    match Parent(byId, id)
    case None => k == 0
    case Some(p) => k > 0 && RootAfter(byId, p, k - 1)
  }

  /** `ancestor` is reached from `id` by following `j` parent links. */
  predicate Climbs(byId: map<string, Span>, id: string, ancestor: string, j: nat)
    decreases j
  {
    if j == 0 then id == ancestor
    else Parent(byId, id).Some? && Climbs(byId, Parent(byId, id).value, ancestor, j - 1)
  }

  lemma {:induction false} ChainLengthIsUnique(byId: map<string, Span>, id: string, j: nat, k: nat)
    requires RootAfter(byId, id, j) && RootAfter(byId, id, k)
    ensures j == k
    decreases j
  {
    if j > 0 && k > 0 {
      ChainLengthIsUnique(byId, Parent(byId, id).value, j - 1, k - 1);
    }
  }

  lemma {:induction false} ClimbShortensChain(byId: map<string, Span>, id: string, ancestor: string, j: nat, k: nat)
    requires RootAfter(byId, id, k) && Climbs(byId, id, ancestor, j)
    ensures j <= k && RootAfter(byId, ancestor, k - j)
    decreases j
  {
    if j > 0 {
      ClimbShortensChain(byId, Parent(byId, id).value, ancestor, j - 1, k - 1);
    }
  }

  lemma {:induction false} ClimbFurther(byId: map<string, Span>, id: string, ancestor: string, j: nat)
    requires Climbs(byId, id, ancestor, j) && Parent(byId, ancestor).Some?
    ensures Climbs(byId, id, Parent(byId, ancestor).value, j + 1)
    decreases j
  {
    if j > 0 {
      ClimbFurther(byId, Parent(byId, id).value, ancestor, j - 1);
    }
  }

  /** A span on a cycle has no finite ancestor chain. */
  lemma CyclesHaveNoRoot(byId: map<string, Span>, id: string, j: nat, k: nat)
    requires j >= 1 && Climbs(byId, id, id, j)
    ensures !RootAfter(byId, id, k)
  {
    if RootAfter(byId, id, k) {
      ClimbShortensChain(byId, id, id, j, k);
      ChainLengthIsUnique(byId, id, k, k - j);
    }
  }

  /** `id` is a proper ancestor of `s`. */
  ghost predicate LiesBelow(byId: map<string, Span>, s: string, id: string) {
    exists j: nat :: j >= 1 && Climbs(byId, s, id, j)
  }

  ghost predicate HasFiniteChain(byId: map<string, Span>, id: string) {
    exists k: nat :: RootAfter(byId, id, k)
  }

  lemma ParentKeepsBelow(byId: map<string, Span>, s: string, id: string)
    requires (s == id || LiesBelow(byId, s, id)) && Parent(byId, id).Some?
    ensures LiesBelow(byId, s, Parent(byId, id).value)
  {
    assert Climbs(byId, id, id, 0);
    var j: nat :| Climbs(byId, s, id, j);
    ClimbFurther(byId, s, id, j);
  }

  ghost predicate Acyclic(byId: map<string, Span>) {
    forall id :: !LiesBelow(byId, id, id)
  }

  lemma {:induction false} ChainIsFinite(byId: map<string, Span>, id: string, below: set<string>)
    requires Acyclic(byId) && id in byId && below <= byId.Keys
    requires forall s :: s in below ==> LiesBelow(byId, s, id)
    ensures HasFiniteChain(byId, id)
    decreases byId.Keys - below
  {
    if Parent(byId, id).None? {
      assert RootAfter(byId, id, 0);
    } else {
      var p := Parent(byId, id).value;
      forall s | s in below + {id} ensures LiesBelow(byId, s, p) {
        ParentKeepsBelow(byId, s, id);
      }
      assert id !in below;
      ChainIsFinite(byId, p, below + {id});
      var k: nat :| RootAfter(byId, p, k);
      assert RootAfter(byId, id, k + 1);
    }
  }

  /** Every span has a finite ancestor chain exactly when no span is its own ancestor. */
  lemma FiniteChainsExactlyWhenAcyclic(byId: map<string, Span>)
    ensures (forall id :: id in byId ==> HasFiniteChain(byId, id)) <==> Acyclic(byId)
  {
    if Acyclic(byId) {
      forall id | id in byId ensures HasFiniteChain(byId, id) {
        ChainIsFinite(byId, id, {});
      }
    } else {
      var id :| LiesBelow(byId, id, id);
      var j: nat :| j >= 1 && Climbs(byId, id, id, j);
      forall k: nat ensures !RootAfter(byId, id, k) {
        CyclesHaveNoRoot(byId, id, j, k);
      }
      assert id in byId && !HasFiniteChain(byId, id);
    }
  }

  /** The closure of `computeDepths`: a cache for the whole computation, a `seen` set per top-level call. */
  class Depths {
    const byId: map<string, Span>
    var cache: map<string, nat>
    var seen: set<string>

    constructor (byId: map<string, Span>)
      ensures this.byId == byId && cache == map[] && seen == {}
    {
      this.byId := byId;
      cache := map[];
      seen := {};
    }

    /**
     Cached depths are right for every span with a finite ancestor chain, and no depth exceeds the number of cached
     spans.
     */
    ghost predicate CacheSound()
      reads this
    {
      && cache.Keys <= byId.Keys
      && (forall id, k: nat :: id in cache && RootAfter(byId, id, k) ==> cache[id] == k)
      && (forall id :: id in cache ==> cache[id] <= |cache.Keys|)
    }

    /** Everything seen lies strictly below `id` and is not cached yet. */
    ghost predicate Descending(id: string)
      reads this
    {
      && seen <= byId.Keys && seen !! cache.Keys
      && forall s :: s in seen ==> LiesBelow(byId, s, id)
    }

    method DepthOf(id: string) returns (d: nat)
      requires id in byId && CacheSound() && Descending(id)
      modifies this
      decreases byId.Keys - seen
      ensures CacheSound() && old(cache.Keys) <= cache.Keys && old(seen) !! cache.Keys
      ensures forall k: nat :: RootAfter(byId, id, k) ==> d == k
      ensures id !in old(seen) ==> id in cache
      ensures d <= |cache.Keys|
    {
      if id in cache {
        return cache[id];
      }
      if id in seen {
        // cycle guard
        ghost var j: nat :| j >= 1 && Climbs(byId, id, id, j);
        forall k: nat ensures !RootAfter(byId, id, k) {
          CyclesHaveNoRoot(byId, id, j, k);
        }
        return 0;
      }
      seen := seen + {id};
      var parent := byId[id].parentSpanId;
      if parent.None? || parent.value == "" || parent.value !in byId {
        Store(id, 0);
        return 0;
      }
      assert Descending(parent.value) by {
        assert Parent(byId, id) == parent;
        forall s | s in seen ensures LiesBelow(byId, s, parent.value) {
          ParentKeepsBelow(byId, s, id);
        }
      }
      var up := DepthOf(parent.value);
      d := 1 + up;
      Store(id, d);
    }

    /** `depthOf(id)` from the outside, with a fresh `seen`. */
    method Visit(id: string)
      requires id in byId && CacheSound()
      modifies this
      ensures CacheSound() && old(cache.Keys) <= cache.Keys && id in cache.Keys
    {
      seen := {};
      var _ := DepthOf(id);
    }

    /** `cache.set(id, d)` for an id that is not cached. */
    method Store(id: string, d: nat)
      requires id in byId && id !in cache && CacheSound() && d <= |cache.Keys| + 1
      requires forall k: nat :: RootAfter(byId, id, k) ==> d == k
      modifies this`cache
      ensures CacheSound() && cache == old(cache)[id := d]
      ensures |cache.Keys| == |old(cache.Keys)| + 1
    {
      cache := cache[id := d];
      assert cache.Keys == old(cache.Keys) + {id};
    }
  }

  /** The loop over the spans, for any parent relation that knows them. */
  method AllDepths(spans: seq<Span>, byId: map<string, Span>) returns (depths: map<string, nat>)
    requires forall s :: s in spans ==> s.spanId in byId
    ensures depths.Keys <= byId.Keys && forall s :: s in spans ==> s.spanId in depths
    ensures forall id, k: nat :: id in depths && RootAfter(byId, id, k) ==> depths[id] == k
    ensures forall id :: id in depths ==> depths[id] <= |depths.Keys|
  {
    var c := new Depths(byId);
    for i := 0 to |spans|
      invariant c.CacheSound()
      invariant forall k :: 0 <= k < i ==> spans[k].spanId in c.cache.Keys
    {
      assert spans[i] in spans;
      c.Visit(spans[i].spanId);
    }
    depths := c.cache;
  }

  /**
   Every span gets a depth: its ancestor count if its ancestor chain is finite, whatever the order of the spans and
   however the other spans are linked; and in any case at most the number of distinct spans.
   */
  method ComputeDepths(spans: seq<Span>) returns (depths: map<string, nat>)
    ensures depths.Keys == ById(spans).Keys
    ensures forall id, k: nat :: id in depths && RootAfter(ById(spans), id, k) ==> depths[id] == k
    ensures forall id :: id in depths ==> depths[id] <= |ById(spans).Keys|
  {
    var byId := ById(spans);
    depths := AllDepths(spans, byId);
    assert depths.Keys == byId.Keys by {
      forall id | id in byId ensures id in depths {
        assert byId[id] in spans;
      }
    }
  }
}
