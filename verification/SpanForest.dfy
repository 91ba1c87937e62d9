/**
 Where every span of a traced program sits in the nesting of its blocks, defined without contexts or parent links; and
 what rows that say so amount to: a forest, from which the gantt recovers the nesting depth.
 */
module SpanForest {
  import opened Prelude
  import opened TraceDepth
  import opened TraceEmission

  /** One open block: its identifiers, and the name, the kind and the options it was given. */
  datatype Frame = Frame(
    spanId: string, traceId: string, name: string, kind: BlockKind, prompt: Setting, customer: Setting)

  /**
   A span and the blocks around it, outermost first; a block's own span also has its frame.  `failed`: the block's body
   or the call itself threw.
   */
  datatype Placed = Placed(spanId: string, traceId: string, around: seq<Frame>, frame: Option<Frame>, failed: bool)

  datatype Nested = Nested(placed: seq<Placed>, next: nat, threw: bool)

  /** A root block draws a trace id and a span id, a nested one a span id only. */
  function FrameOf(ids: Uuids, around: seq<Frame>, st: Statement, n: nat): Frame
    requires st.Trace?
  {
    if around == [] then Frame(ids(n + 1), ids(n), st.name, st.kind, st.prompt, st.customer)
    else Frame(ids(n), around[0].traceId, st.name, st.kind, st.prompt, st.customer)
  }

  function BlockPlace(around: seq<Frame>, frame: Frame, threw: bool): Placed {
    Placed(frame.spanId, frame.traceId, around, Some(frame), threw)
  }

  /** `lead` is how many identifiers a call outside every block draws before its span id. */
  function NestStatement(ids: Uuids, lead: nat, around: seq<Frame>, st: Statement, n: nat): Nested
    decreases st
  {
    match st
    case Throw => Nested([], n, true)
    case Call(fails) =>
      var own := n + if around == [] then lead else 0;
      var traceId := if around == [] then ids(n) else around[0].traceId;
      Nested([Placed(ids(own), traceId, around, None, fails)], own + 1, fails)
    case Trace(_, _, _, _, body) =>
      var frame := FrameOf(ids, around, st, n);
      var inner := Nest(ids, lead, around + [frame], body, n + if around == [] then 2 else 1);
      inner.(placed := inner.placed + [BlockPlace(around, frame, inner.threw)])
    case Catch(guarded) => Nest(ids, lead, around, guarded, n).(threw := false)
    case Parallel(left, right) =>
      var l := Nest(ids, lead, around, left, n);
      var r := Nest(ids, lead, around, right, l.next);
      Nested(l.placed + r.placed, r.next, l.threw || r.threw)
  }

  function Nest(ids: Uuids, lead: nat, around: seq<Frame>, p: Program, n: nat): Nested
    decreases p
  {
    match p
    case Done => Nested([], n, false)
    case Then(first, rest) =>
      var here := NestStatement(ids, lead, around, first, n);
      if here.threw then here
      else
        var later := Nest(ids, lead, around, rest, here.next);
        later.(placed := here.placed + later.placed)
  }

  /** The blocks whose options count for a span: those around it and, for a block, itself. */
  function Scope(p: Placed): seq<Frame> {
    match p.frame case Some(f) => p.around + [f] case None => p.around
  }

  function InnermostId(frames: seq<Frame>): Option<string> {
    if frames == [] then None else Some(frames[|frames| - 1].spanId)
  }

  /** The row says where the span sits, what kind of span it is, and whether it failed. */
  ghost predicate Sits(row: Row, p: Placed) {
    && row.spanId == p.spanId
    && row.traceId == p.traceId
    && row.parentSpanId == InnermostId(p.around)
    && row.kind == (if p.frame.Some? then p.frame.value.kind else Llm)
    && row.failed == p.failed
    && (Scope(p) != [] ==> p.traceId == Scope(p)[0].traceId)
    && (p.frame.Some? ==> p.frame.value.spanId == p.spanId)
  }

  /** Two lists of the same length, related place by place. */
  ghost predicate Pairwise<A, B>(related: (A, B) -> bool, xs: seq<A>, ys: seq<B>) {
    |xs| == |ys| && forall i :: 0 <= i < |xs| ==> related(xs[i], ys[i])
  }

  lemma JoinPairwise<A, B>(related: (A, B) -> bool, xs: seq<A>, ys: seq<B>, xs': seq<A>, ys': seq<B>)
    requires Pairwise(related, xs, ys) && Pairwise(related, xs', ys')
    ensures Pairwise(related, xs + xs', ys + ys')
  {
    forall i | 0 <= i < |xs + xs'| ensures related((xs + xs')[i], (ys + ys')[i]) {
      assert if i < |xs| then related(xs[i], ys[i]) else related(xs'[i - |xs|], ys'[i - |xs|]);
    }
  }

  ghost predicate AllSit(rows: seq<Row>, placed: seq<Placed>) {
    |rows| == |placed| && forall i :: 0 <= i < |rows| ==> Sits(rows[i], placed[i])
  }

  // ---------------------------------------------------------------- places have spans

  /** The identifier was drawn between `lo` and `hi`. */
  ghost predicate Drawn(ids: Uuids, lo: nat, hi: nat, id: string) {
    exists k: nat :: lo <= k < hi && ids(k) == id
  }

  /** The block `frame` around a span has a span of its own, surrounded by the blocks around `frame`. */
  ghost predicate HasSpan(placed: seq<Placed>, frame: Frame, around: seq<Frame>) {
    exists j :: 0 <= j < |placed| && IsSpanOf(placed[j], frame, around)
  }

  predicate IsSpanOf(p: Placed, frame: Frame, around: seq<Frame>) {
    p.spanId == frame.spanId && p.around == around && p.frame == Some(frame)
  }

  ghost predicate WellPlaced(ids: Uuids, around: seq<Frame>, placed: seq<Placed>, lo: nat, hi: nat) {
    && lo <= hi
    && (forall i :: 0 <= i < |placed| ==> Drawn(ids, lo, hi, placed[i].spanId) && around <= placed[i].around)
    && (forall i, j :: 0 <= i < j < |placed| ==> placed[i].spanId != placed[j].spanId)
    && (forall i, k :: 0 <= i < |placed| && |around| <= k < |placed[i].around| ==>
          HasSpan(placed, placed[i].around[k], placed[i].around[..k]))
  }

  lemma Widen(ids: Uuids, lo: nat, hi: nat, lo': nat, hi': nat, id: string)
    requires Drawn(ids, lo, hi, id) && lo' <= lo && hi <= hi'
    ensures Drawn(ids, lo', hi', id)
  {}

  lemma Joined(ids: Uuids, around: seq<Frame>, a: seq<Placed>, b: seq<Placed>, lo: nat, mid: nat, hi: nat)
    requires Unique(ids) && WellPlaced(ids, around, a, lo, mid) && WellPlaced(ids, around, b, mid, hi)
    ensures WellPlaced(ids, around, a + b, lo, hi)
  {
    var c := a + b;
    forall i | 0 <= i < |c| ensures Drawn(ids, lo, hi, c[i].spanId) && around <= c[i].around {
      if i < |a| { Widen(ids, lo, mid, lo, hi, c[i].spanId); } else { Widen(ids, mid, hi, lo, hi, c[i].spanId); }
    }
    forall i, k | 0 <= i < |c| && |around| <= k < |c[i].around| ensures HasSpan(c, c[i].around[k], c[i].around[..k]) {
      if i < |a| {
        var j :| 0 <= j < |a| && IsSpanOf(a[j], a[i].around[k], a[i].around[..k]);
        assert c[j] == a[j];
      } else {
        var p := b[i - |a|];
        assert HasSpan(b, p.around[k], p.around[..k]);
        var j :| 0 <= j < |b| && IsSpanOf(b[j], p.around[k], p.around[..k]);
        assert c[|a| + j] == b[j];
      }
    }
  }

  lemma Enclosed(ids: Uuids, around: seq<Frame>, frame: Frame, inner: seq<Placed>, threw: bool, n: nat, lo: nat,
      hi: nat)
    requires Unique(ids) && n < lo && WellPlaced(ids, around + [frame], inner, lo, hi)
    requires Drawn(ids, n, lo, frame.spanId)
    ensures WellPlaced(ids, around, inner + [BlockPlace(around, frame, threw)], n, hi)
  {
    var own := BlockPlace(around, frame, threw);
    var c := inner + [own];
    forall i | 0 <= i < |c| ensures Drawn(ids, n, hi, c[i].spanId) && around <= c[i].around {
      if i < |inner| { Widen(ids, lo, hi, n, hi, c[i].spanId); } else { Widen(ids, n, lo, n, hi, c[i].spanId); }
    }
    forall i, k | 0 <= i < |c| && |around| <= k < |c[i].around| ensures HasSpan(c, c[i].around[k], c[i].around[..k]) {
      assert i < |inner|;
      if k == |around| {
        assert c[i].around[k] == frame && c[i].around[..k] == around;
        assert c[|inner|] == own;
      } else {
        var f := inner[i].around[k];
        assert HasSpan(inner, f, inner[i].around[..k]);
        var j :| 0 <= j < |inner| && IsSpanOf(inner[j], f, inner[i].around[..k]);
        assert c[j] == inner[j];
      }
    }
  }

  lemma {:induction false} StatementWellPlaced(ids: Uuids, lead: nat, around: seq<Frame>, st: Statement, n: nat)
    requires Unique(ids)
    ensures var nest := NestStatement(ids, lead, around, st, n); WellPlaced(ids, around, nest.placed, n, nest.next)
    decreases st
  {
    match st {
      case Throw =>
      case Call(_) =>
        var own := n + if around == [] then lead else 0;
        assert Drawn(ids, n, own + 1, ids(own));
      case Trace(_, _, _, _, body) =>
        var frame := FrameOf(ids, around, st, n);
        var lo := n + if around == [] then 2 else 1;
        ProgramWellPlaced(ids, lead, around + [frame], body, lo);
        var inner := Nest(ids, lead, around + [frame], body, lo);
        assert Drawn(ids, n, lo, frame.spanId);
        Enclosed(ids, around, frame, inner.placed, inner.threw, n, lo, inner.next);
      case Catch(guarded) => ProgramWellPlaced(ids, lead, around, guarded, n);
      case Parallel(left, right) =>
        var l := Nest(ids, lead, around, left, n);
        ProgramWellPlaced(ids, lead, around, left, n);
        ProgramWellPlaced(ids, lead, around, right, l.next);
        Joined(ids, around, l.placed, Nest(ids, lead, around, right, l.next).placed, n, l.next,
            Nest(ids, lead, around, right, l.next).next);
    }
  }

  lemma {:induction false} ProgramWellPlaced(ids: Uuids, lead: nat, around: seq<Frame>, p: Program, n: nat)
    requires Unique(ids)
    ensures var nest := Nest(ids, lead, around, p, n); WellPlaced(ids, around, nest.placed, n, nest.next)
    decreases p
  {
    match p {
      case Done =>
      case Then(first, rest) =>
        var here := NestStatement(ids, lead, around, first, n);
        StatementWellPlaced(ids, lead, around, first, n);
        if !here.threw {
          var later := Nest(ids, lead, around, rest, here.next);
          ProgramWellPlaced(ids, lead, around, rest, here.next);
          Joined(ids, around, here.placed, later.placed, n, here.next, later.next);
        }
    }
  }

  // ---------------------------------------------------------------- rows and depths

  ghost predicate DistinctIds(rows: seq<Row>) {
    forall i, j :: 0 <= i < j < |rows| ==> rows[i].spanId != rows[j].spanId
  }

  /** Span ids are distinct, and every parent id names a block's row in the same trace. */
  ghost predicate IsForest(rows: seq<Row>) {
    && DistinctIds(rows)
    && forall i :: 0 <= i < |rows| && rows[i].parentSpanId.Some? ==> HasParent(rows, rows[i])
  }

  ghost predicate HasParent(rows: seq<Row>, row: Row) {
    exists j :: 0 <= j < |rows| && !rows[j].kind.Llm? && rows[j].traceId == row.traceId
        && Some(rows[j].spanId) == row.parentSpanId
  }

  /** The place of the innermost block around a span. */
  lemma ParentPlace(places: seq<Placed>, i: nat, ids: Uuids, hi: nat) returns (j: nat)
    requires WellPlaced(ids, [], places, 0, hi) && i < |places| && places[i].around != []
    ensures var around := places[i].around;
            var frame := around[|around| - 1];
            j < |places| && IsSpanOf(places[j], frame, around[..|around| - 1]) && Scope(places[j]) == around
  {
    var around := places[i].around;
    var k := |around| - 1;
    assert HasSpan(places, around[k], around[..k]);
    j :| 0 <= j < |places| && IsSpanOf(places[j], around[k], around[..k]);
    assert around[..k] + [around[k]] == around;
  }

  /** Rows that sit where the nesting says form a forest. */
  lemma SittingRowsFormAForest(ids: Uuids, hi: nat, rows: seq<Row>, places: seq<Placed>)
    requires AllSit(rows, places) && WellPlaced(ids, [], places, 0, hi)
    ensures IsForest(rows)
  {
    forall i, j | 0 <= i < j < |rows| ensures rows[i].spanId != rows[j].spanId {
      assert Sits(rows[i], places[i]) && Sits(rows[j], places[j]);
    }
    forall i | 0 <= i < |rows| && rows[i].parentSpanId.Some? ensures HasParent(rows, rows[i]) {
      assert Sits(rows[i], places[i]);
      var j := ParentPlace(places, i, ids, hi);
      assert Sits(rows[j], places[j]);
      assert Scope(places[i])[0] == places[i].around[0];
    }
  }

  function SpanOf(r: Row): Span { Span(r.spanId, r.parentSpanId) }

  /** The spans a dashboard has fetched are those of the rows, in any order. */
  ghost predicate SpansOf(spans: seq<Span>, rows: seq<Row>) {
    && (forall s :: s in spans ==> exists r :: r in rows && s == SpanOf(r))
    && (forall r :: r in rows ==> SpanOf(r) in spans)
  }

  lemma LookedUp(rows: seq<Row>, spans: seq<Span>, i: nat)
    requires DistinctIds(rows) && SpansOf(spans, rows) && i < |rows|
    ensures rows[i].spanId in ById(spans) && ById(spans)[rows[i].spanId] == SpanOf(rows[i])
  {
    assert rows[i] in rows;
    assert SpanOf(rows[i]) in spans;
    var s := ById(spans)[rows[i].spanId];
    var r :| r in rows && s == SpanOf(r);
  }

  /** One step up: the parent link of a row leads to the row of the innermost block around it. */
  lemma LinkedToParent(ids: Uuids, hi: nat, rows: seq<Row>, places: seq<Placed>, spans: seq<Span>, i: nat)
      returns (j: nat)
    requires Unique(ids) && AllSit(rows, places) && WellPlaced(ids, [], places, 0, hi)
    requires DistinctIds(rows) && SpansOf(spans, rows) && i < |rows| && places[i].around != []
    ensures j < |rows| && |places[j].around| == |places[i].around| - 1
    ensures Parent(ById(spans), rows[i].spanId) == Some(rows[j].spanId)
  {
    j := ParentPlace(places, i, ids, hi);
    assert Sits(rows[i], places[i]) && Sits(rows[j], places[j]);
    assert Drawn(ids, 0, hi, places[j].spanId);
    LookedUp(rows, spans, i);
    LookedUp(rows, spans, j);
  }

  /**
   In the parent relation rebuilt from the rows, a span's ancestor chain is as long as the number of blocks around it.
   */
  lemma {:induction false} ChainIsNesting(ids: Uuids, hi: nat, rows: seq<Row>, places: seq<Placed>, spans: seq<Span>,
      i: nat)
    requires Unique(ids) && AllSit(rows, places) && WellPlaced(ids, [], places, 0, hi)
    requires DistinctIds(rows) && SpansOf(spans, rows) && i < |rows|
    ensures rows[i].spanId in ById(spans) && RootAfter(ById(spans), rows[i].spanId, |places[i].around|)
    decreases |places[i].around|
  {
    LookedUp(rows, spans, i);
    if places[i].around == [] {
      assert Sits(rows[i], places[i]);
    } else {
      var j := LinkedToParent(ids, hi, rows, places, spans, i);
      ChainIsNesting(ids, hi, rows, places, spans, j);
    }
  }

  /** The gantt gives every span exactly the depth at which it was nested, whatever order the rows arrive in. */
  method DepthsOf(ghost ids: Uuids, ghost hi: nat, ghost rows: seq<Row>, ghost places: seq<Placed>, spans: seq<Span>)
      returns (depths: map<string, nat>)
    requires Unique(ids) && AllSit(rows, places) && WellPlaced(ids, [], places, 0, hi) && SpansOf(spans, rows)
    ensures forall i :: 0 <= i < |rows| ==> rows[i].spanId in depths && depths[rows[i].spanId] == |places[i].around|
  {
    depths := ComputeDepths(spans);
    SittingRowsFormAForest(ids, hi, rows, places);
    forall i | 0 <= i < |rows| ensures rows[i].spanId in depths && depths[rows[i].spanId] == |places[i].around| {
      ChainIsNesting(ids, hi, rows, places, spans, i);
    }
  }
}
