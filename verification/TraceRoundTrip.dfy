/**
 The TypeScript SDK's rows against the nesting of blocks: each row sits where its span sits, and carries the attribution
 of the nearest enclosing block that sets one.
 */
module TraceRoundTrip {
  import opened Prelude
  import opened TraceDepth
  import opened TraceEmission
  import opened SpanForest

  /** The value set explicitly, null included, by the innermost block that sets one. */
  function NearestPrompt(frames: seq<Frame>): Option<string> {
    if frames == [] then None
    else
      match frames[|frames| - 1].prompt
      case Given(value) => value
      case Absent => NearestPrompt(frames[..|frames| - 1])
  }

  function NearestCustomer(frames: seq<Frame>): Option<string> {
    if frames == [] then None
    else
      match frames[|frames| - 1].customer
      case Given(value) => value
      case Absent => NearestCustomer(frames[..|frames| - 1])
  }

  /** The name of the innermost block. */
  function InnermostName(frames: seq<Frame>): Option<string> {
    if frames == [] then None else Some(frames[|frames| - 1].name)
  }

  /** The emitted row says where the span sits and carries the attribution of its scope. */
  ghost predicate Agrees(cfg: Config, row: Row, p: Placed) {
    var name, prompt := InnermostName(Scope(p)), NearestPrompt(Scope(p));
    && Sits(row, p)
    && row.featureName == (if name.Some? then name else cfg.defaultFeature)
    && row.promptVersion == (if prompt.Some? then prompt else cfg.defaultPromptVersion)
    && row.customerId == NearestCustomer(Scope(p))
  }

  ghost function Agreement(cfg: Config): (Row, Placed) -> bool { (row, p) => Agrees(cfg, row, p) }

  ghost predicate AllAgree(cfg: Config, rows: seq<Row>, placed: seq<Placed>) {
    Pairwise(Agreement(cfg), rows, placed)
  }

  ghost predicate ContextAgrees(ctx: Option<Context>, around: seq<Frame>) {
    match ctx
    case None => around == []
    case Some(c) =>
      && around != [] && Some(c.spanId) == InnermostId(around) && c.traceId == around[0].traceId
      && Some(c.name) == InnermostName(around)
      && c.promptVersion == NearestPrompt(around) && c.customerId == NearestCustomer(around)
  }

  lemma EnteredContextAgrees(ids: Uuids, ctx: Option<Context>, around: seq<Frame>, st: Statement, n: nat)
    requires ContextAgrees(ctx, around) && st.Trace?
    ensures ContextAgrees(Some(Enter(ids, ctx, st, n)), around + [FrameOf(ids, around, st, n)])
    ensures Enter(ids, ctx, st, n).parentSpanId == InnermostId(around)
  {
    assert (around + [FrameOf(ids, around, st, n)])[..|around|] == around;
  }

  /** The row of a block agrees with the block's place. */
  lemma BlockAgrees(cfg: Config, ids: Uuids, ctx: Option<Context>, around: seq<Frame>, st: Statement, n: nat,
      failed: bool)
    requires ContextAgrees(ctx, around) && st.Trace?
    ensures var frame := FrameOf(ids, around, st, n);
            Agrees(cfg, ContainerRow(cfg, Enter(ids, ctx, st, n), failed), BlockPlace(around, frame, failed))
  {
    EnteredContextAgrees(ids, ctx, around, st, n);
  }

  /** The row of a provider call agrees with the call's place. */
  lemma CallAgrees(cfg: Config, ids: Uuids, ctx: Option<Context>, around: seq<Frame>, n: nat, failed: bool)
    requires ContextAgrees(ctx, around)
    ensures var traceId := if around == [] then ids(n) else around[0].traceId;
            Agrees(cfg, CallRow(cfg, ids, ctx, n, failed), Placed(ids(n), traceId, around, None, failed))
  {}

  lemma BothAgree(cfg: Config, rows: seq<Row>, placed: seq<Placed>, rows': seq<Row>, placed': seq<Placed>)
    requires AllAgree(cfg, rows, placed) && AllAgree(cfg, rows', placed')
    ensures AllAgree(cfg, rows + rows', placed + placed')
  {
    JoinPairwise(Agreement(cfg), rows, placed, rows', placed');
  }

  lemma OneMoreAgrees(cfg: Config, rows: seq<Row>, placed: seq<Placed>, row: Row, p: Placed)
    requires AllAgree(cfg, rows, placed) && Agrees(cfg, row, p)
    ensures AllAgree(cfg, rows + [row], placed + [p])
  {
    JoinPairwise(Agreement(cfg), rows, placed, [row], [p]);
  }

  lemma {:induction false} TraceAgrees(cfg: Config, ids: Uuids, ctx: Option<Context>, around: seq<Frame>,
      st: Statement, n: nat)
    requires ContextAgrees(ctx, around) && st.Trace?
    ensures var out, nest := EmitStatement(cfg, ids, ctx, st, n), NestStatement(ids, 0, around, st, n);
            out.next == nest.next && out.threw == nest.threw && AllAgree(cfg, out.rows, nest.placed)
    decreases st, 0
  {
    var c, frame := Enter(ids, ctx, st, n), FrameOf(ids, around, st, n);
    var draws := Draws(ctx);
    assert draws == if around == [] then 2 else 1;
    EnteredContextAgrees(ids, ctx, around, st, n);
    ProgramAgrees(cfg, ids, Some(c), around + [frame], st.body, n + draws);
    var out, nest := Emit(cfg, ids, Some(c), st.body, n + draws), Nest(ids, 0, around + [frame], st.body, n + draws);
    BlockAgrees(cfg, ids, ctx, around, st, n, out.threw);
    OneMoreAgrees(cfg, out.rows, nest.placed, ContainerRow(cfg, c, out.threw), BlockPlace(around, frame, out.threw));
  }

  lemma {:induction false} StatementAgrees(cfg: Config, ids: Uuids, ctx: Option<Context>, around: seq<Frame>,
      st: Statement, n: nat)
    requires ContextAgrees(ctx, around)
    ensures var out, nest := EmitStatement(cfg, ids, ctx, st, n), NestStatement(ids, 0, around, st, n);
            out.next == nest.next && out.threw == nest.threw && AllAgree(cfg, out.rows, nest.placed)
    decreases st, 1
  {
    match st {
      case Throw =>
      case Call(fails) => CallAgrees(cfg, ids, ctx, around, n, fails);
      case Trace(_, _, _, _, _) => TraceAgrees(cfg, ids, ctx, around, st, n);
      case Catch(guarded) => ProgramAgrees(cfg, ids, ctx, around, guarded, n);
      case Parallel(left, right) =>
        ProgramAgrees(cfg, ids, ctx, around, left, n);
        var mid := Nest(ids, 0, around, left, n).next;
        ProgramAgrees(cfg, ids, ctx, around, right, mid);
        BothAgree(cfg, Emit(cfg, ids, ctx, left, n).rows, Nest(ids, 0, around, left, n).placed,
                  Emit(cfg, ids, ctx, right, mid).rows, Nest(ids, 0, around, right, mid).placed);
    }
  }

  lemma {:induction false} ProgramAgrees(cfg: Config, ids: Uuids, ctx: Option<Context>, around: seq<Frame>, p: Program,
      n: nat)
    requires ContextAgrees(ctx, around)
    ensures var out, nest := Emit(cfg, ids, ctx, p, n), Nest(ids, 0, around, p, n);
            out.next == nest.next && out.threw == nest.threw && AllAgree(cfg, out.rows, nest.placed)
    decreases p
  {
    match p {
      case Done =>
      case Then(first, rest) =>
        StatementAgrees(cfg, ids, ctx, around, first, n);
        var here := NestStatement(ids, 0, around, first, n);
        ProgramAgrees(cfg, ids, ctx, around, rest, here.next);
        BothAgree(cfg, EmitStatement(cfg, ids, ctx, first, n).rows, here.placed,
                  Emit(cfg, ids, ctx, rest, here.next).rows, Nest(ids, 0, around, rest, here.next).placed);
    }
  }

  // ---------------------------------------------------------------- round trip

  function RowsOf(cfg: Config, ids: Uuids, p: Program): seq<Row> { Emit(cfg, ids, None, p, 0).rows }

  function PlacesOf(ids: Uuids, p: Program): seq<Placed> { Nest(ids, 0, [], p, 0).placed }

  /**
   What a program emits, row by row, is what the nesting of its blocks says: span ids are distinct; every parent id
   names the row of the innermost enclosing block, in the same trace; version and customer are those of the nearest
   block that set them explicitly, null included, with the configured version as the last resort.
   */
  lemma EmittedRowsFormTheForest(cfg: Config, ids: Uuids, p: Program)
    requires Unique(ids)
    ensures AllAgree(cfg, RowsOf(cfg, ids, p), PlacesOf(ids, p))
    ensures IsForest(RowsOf(cfg, ids, p))
  {
    ProgramAgrees(cfg, ids, None, [], p, 0);
    ProgramWellPlaced(ids, 0, [], p, 0);
    SittingRowsFormAForest(ids, Nest(ids, 0, [], p, 0).next, RowsOf(cfg, ids, p), PlacesOf(ids, p));
  }

  /** The gantt gives every span exactly the depth at which it was nested, whatever order the rows arrive in. */
  method DepthsFromRows(cfg: Config, ids: Uuids, p: Program, spans: seq<Span>) returns (depths: map<string, nat>)
    requires Unique(ids) && SpansOf(spans, RowsOf(cfg, ids, p))
    ensures |RowsOf(cfg, ids, p)| == |PlacesOf(ids, p)|
    ensures forall i :: 0 <= i < |RowsOf(cfg, ids, p)| ==>
              var id := RowsOf(cfg, ids, p)[i].spanId;
              id in depths && depths[id] == |PlacesOf(ids, p)[i].around|
  {
    ProgramAgrees(cfg, ids, None, [], p, 0);
    ProgramWellPlaced(ids, 0, [], p, 0);
    depths := DepthsOf(ids, Nest(ids, 0, [], p, 0).next, RowsOf(cfg, ids, p), PlacesOf(ids, p), spans);
  }
}
