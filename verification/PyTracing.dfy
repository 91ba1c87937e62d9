/**
 Nested trace blocks of the Python SDK, over the same programs as the TypeScript SDK, and how far the two agree.
 `None` arguments mean "not given", so Python cannot clear an inherited value; and `or` skips an empty string that is
 not its last operand.
 */
module PyTracing {
  import opened Prelude
  import opened TraceDepth
  import opened TraceEmission
  import opened SpanForest
  import opened TraceRoundTrip

  /** A keyword argument: absent and null are the same. */
  function Argument(setting: Setting): Option<string> {
    match setting case Given(value) => value case Absent => None
  }

  /** Python's `a or b` on optional strings. */
  function Or(a: Option<string>, b: Option<string>): Option<string> { if a.Some? && a.value != "" then a else b }

  /**
   The context of a new block: argument, else the parent's value; the version falls back to the configuration at once.
   */
  function PyEnter(cfg: Config, ids: Uuids, parent: Option<Context>, t: Statement, n: nat): Context
    requires t.Trace?
  {
    var prompt := OrDefault(Argument(t.prompt), if parent.Some? then parent.value.promptVersion else None);
    var customer := OrDefault(Argument(t.customer), if parent.Some? then parent.value.customerId else None);
    Context(if parent.Some? then parent.value.traceId else ids(n), ids(n + Draws(parent) - 1),
            if parent.Some? then Some(parent.value.spanId) else None,
            t.name, OrDefault(prompt, cfg.defaultPromptVersion), t.kind, customer)
  }

  function PyContainerRow(cfg: Config, c: Context, failed: bool): Row {
    Row(c.spanId, c.traceId, c.parentSpanId, c.kind, Or(Some(c.name), cfg.defaultFeature), c.promptVersion,
        c.customerId, failed)
  }

  /**
   `record_llm_call` without explicit attribution; outside any block it mints a trace id of its own first.  Name and
   version have a configured default to fall back to, the block's customer comes last and is taken as it is.
   */
  function PyCallRow(cfg: Config, ids: Uuids, ctx: Option<Context>, n: nat, failed: bool): Row {
    match ctx
    case Some(c) =>
      Row(ids(n), c.traceId, Some(c.spanId), Llm, Or(Some(c.name), cfg.defaultFeature),
          Or(c.promptVersion, cfg.defaultPromptVersion),
          c.customerId, failed)
    case None => Row(ids(n + 1), ids(n), None, Llm, cfg.defaultFeature, cfg.defaultPromptVersion, None, failed)
  }

  function PyEmitStatement(cfg: Config, ids: Uuids, ctx: Option<Context>, st: Statement, n: nat): Outcome
    decreases st
  {
    match st
    case Throw => Outcome([], n, true)
    case Call(fails) => Outcome([PyCallRow(cfg, ids, ctx, n, fails)], n + Draws(ctx), fails)
    case Trace(_, _, _, _, body) =>
      var c := PyEnter(cfg, ids, ctx, st, n);
      var inner := PyEmit(cfg, ids, Some(c), body, n + Draws(ctx));
      inner.(rows := inner.rows + [PyContainerRow(cfg, c, inner.threw)])
    case Catch(guarded) => PyEmit(cfg, ids, ctx, guarded, n).(threw := false)
    case Parallel(left, right) =>
      var l := PyEmit(cfg, ids, ctx, left, n);
      var r := PyEmit(cfg, ids, ctx, right, l.next);
      Outcome(l.rows + r.rows, r.next, l.threw || r.threw)
  }

  function PyEmit(cfg: Config, ids: Uuids, ctx: Option<Context>, p: Program, n: nat): Outcome
    decreases p
  {
    match p
    case Done => Outcome([], n, false)
    case Then(first, rest) =>
      var here := PyEmitStatement(cfg, ids, ctx, first, n);
      if here.threw then here
      else
        var later := PyEmit(cfg, ids, ctx, rest, here.next);
        later.(rows := here.rows + later.rows)
  }

  /** The SDK at run time: the context variable, the exporter's queue, the identifiers drawn so far. */
  class PySdk {
    const cfg: Config
    const ids: Uuids
    var current: Option<Context>
    var queue: seq<Row>
    var drawn: nat

    constructor (cfg: Config, ids: Uuids)
      ensures this.cfg == cfg && this.ids == ids && current == None && queue == [] && drawn == 0
    {
      this.cfg, this.ids := cfg, ids;
      current, queue, drawn := None, [], 0;
    }

    /** Set the current context; the token remembers the one before. */
    method Push(ctx: Context) returns (token: Option<Context>)
      modifies this`current
      ensures current == Some(ctx) && token == old(current)
    {
      token := current;
      current := Some(ctx);
    }

    method Pop(token: Option<Context>)
      modifies this`current
      ensures current == token
    {
      current := token;
    }

    method Execute(st: Statement) returns (raised: bool)
      modifies this
      ensures var out := PyEmitStatement(cfg, ids, old(current), st, old(drawn));
              queue == old(queue) + out.rows && drawn == out.next && raised == out.threw
      ensures current == old(current)
      decreases st
    {
      match st {
        case Throw => raised := true;
        case Call(fails) =>
          queue := queue + [PyCallRow(cfg, ids, current, drawn, fails)];
          drawn := drawn + Draws(current);
          raised := fails;
        case Trace(_, _, _, _, body) =>
          var ctx := PyEnter(cfg, ids, current, st, drawn);
          drawn := drawn + Draws(current);
          var token := Push(ctx);
          raised := Run(body);
          Pop(token);  // first, whether or not the block raised
          queue := queue + [PyContainerRow(cfg, ctx, raised)];
        case Catch(guarded) =>
          var _ := Run(guarded);
          raised := false;
        case Parallel(left, right) =>
          var l := Run(left);
          var r := Run(right);
          raised := l || r;
      }
    }

    method Run(p: Program) returns (raised: bool)
      modifies this
      ensures var out := PyEmit(cfg, ids, old(current), p, old(drawn));
              queue == old(queue) + out.rows && drawn == out.next && raised == out.threw
      ensures current == old(current)
      decreases p
    {
      match p {
        case Done => raised := false;
        case Then(first, rest) =>
          raised := Execute(first);
          if !raised {
            raised := Run(rest);
          }
      }
    }
  }

  // ---------------------------------------------------------------- the forest

  /** The value given, null not counting, by the innermost block that gives one. */
  function NearestGivenPrompt(frames: seq<Frame>): Option<string> {
    if frames == [] then None
    else
      var own := frames[|frames| - 1].prompt;
      if own.Given? && own.value.Some? then own.value else NearestGivenPrompt(frames[..|frames| - 1])
  }

  function NearestGivenCustomer(frames: seq<Frame>): Option<string> {
    if frames == [] then None
    else
      var own := frames[|frames| - 1].customer;
      if own.Given? && own.value.Some? then own.value else NearestGivenCustomer(frames[..|frames| - 1])
  }

  /** No value, or an empty one. */
  predicate Blank(value: Option<string>) { value.None? || value.value == "" }

  /**
   The row says where the span sits, and whose values it carries; an empty name gives way to the configured one, and in
   a call's row an empty version does.
   */
  ghost predicate PyAgrees(cfg: Config, row: Row, p: Placed) {
    && Sits(row, p)
    && PyCarries(cfg, row, p.frame.None?, InnermostName(Scope(p)), NearestGivenPrompt(Scope(p)))
    && row.customerId == NearestGivenCustomer(Scope(p))
  }

  predicate PyCarries(cfg: Config, row: Row, call: bool, name: Option<string>, prompt: Option<string>) {
    && row.featureName == (if Blank(name) then cfg.defaultFeature else name)
    && row.promptVersion == (if prompt.None? || (call && Blank(prompt)) then cfg.defaultPromptVersion else prompt)
  }

  ghost function PyAgreement(cfg: Config): (Row, Placed) -> bool { (row, p) => PyAgrees(cfg, row, p) }

  ghost predicate AllPyAgree(cfg: Config, rows: seq<Row>, placed: seq<Placed>) {
    Pairwise(PyAgreement(cfg), rows, placed)
  }

  ghost predicate PyContextAgrees(cfg: Config, ctx: Option<Context>, around: seq<Frame>) {
    match ctx
    case None => around == []
    case Some(c) =>
      && around != [] && Some(c.spanId) == InnermostId(around) && c.traceId == around[0].traceId
      && Some(c.name) == InnermostName(around)
      && c.promptVersion == OrDefault(NearestGivenPrompt(around), cfg.defaultPromptVersion)
      && c.customerId == NearestGivenCustomer(around)
  }

  lemma PyEnteredContextAgrees(cfg: Config, ids: Uuids, ctx: Option<Context>, around: seq<Frame>, st: Statement, n: nat)
    requires PyContextAgrees(cfg, ctx, around) && st.Trace?
    ensures PyContextAgrees(cfg, Some(PyEnter(cfg, ids, ctx, st, n)), around + [FrameOf(ids, around, st, n)])
    ensures PyEnter(cfg, ids, ctx, st, n).parentSpanId == InnermostId(around)
  {
    GivenInside(around, FrameOf(ids, around, st, n));
  }

  /** Inside one more block its own values count first. */
  lemma GivenInside(around: seq<Frame>, frame: Frame)
    ensures NearestGivenPrompt(around + [frame]) == OrDefault(Argument(frame.prompt), NearestGivenPrompt(around))
    ensures NearestGivenCustomer(around + [frame]) == OrDefault(Argument(frame.customer), NearestGivenCustomer(around))
    ensures InnermostName(around + [frame]) == Some(frame.name) && InnermostId(around + [frame]) == Some(frame.spanId)
  {
    assert (around + [frame])[..|around|] == around;
  }

  lemma PyBlockAgrees(cfg: Config, ids: Uuids, ctx: Option<Context>, around: seq<Frame>, st: Statement, n: nat,
      failed: bool)
    requires PyContextAgrees(cfg, ctx, around) && st.Trace?
    ensures var frame := FrameOf(ids, around, st, n);
            PyAgrees(cfg, PyContainerRow(cfg, PyEnter(cfg, ids, ctx, st, n), failed), BlockPlace(around, frame, failed))
  {
    PyEnteredContextAgrees(cfg, ids, ctx, around, st, n);
    PyContainerAgrees(cfg, PyEnter(cfg, ids, ctx, st, n), around, FrameOf(ids, around, st, n), failed);
  }

  /** A row made from a context that agrees with its block agrees with the block's place. */
  lemma PyContainerAgrees(cfg: Config, c: Context, around: seq<Frame>, frame: Frame, failed: bool)
    requires PyContextAgrees(cfg, Some(c), around + [frame])
    requires c.parentSpanId == InnermostId(around) && c.kind == frame.kind
    requires c.spanId == frame.spanId && c.traceId == frame.traceId
    ensures PyAgrees(cfg, PyContainerRow(cfg, c, failed), BlockPlace(around, frame, failed))
  {
    assert Scope(BlockPlace(around, frame, failed)) == around + [frame];
  }

  lemma BothPyAgree(cfg: Config, rows: seq<Row>, placed: seq<Placed>, rows': seq<Row>, placed': seq<Placed>)
    requires AllPyAgree(cfg, rows, placed) && AllPyAgree(cfg, rows', placed')
    ensures AllPyAgree(cfg, rows + rows', placed + placed')
  {
    JoinPairwise(PyAgreement(cfg), rows, placed, rows', placed');
  }

  lemma OneMorePyAgrees(cfg: Config, rows: seq<Row>, placed: seq<Placed>, row: Row, p: Placed)
    requires AllPyAgree(cfg, rows, placed) && PyAgrees(cfg, row, p)
    ensures AllPyAgree(cfg, rows + [row], placed + [p])
  {
    JoinPairwise(PyAgreement(cfg), rows, placed, [row], [p]);
  }

  /** What a block emits, and where it puts it. */
  lemma PyTraceUnfolds(cfg: Config, ids: Uuids, ctx: Option<Context>, around: seq<Frame>, st: Statement, n: nat)
    requires st.Trace? && (ctx.None? <==> around == [])
    ensures var c, frame, lo := PyEnter(cfg, ids, ctx, st, n), FrameOf(ids, around, st, n), n + Draws(ctx);
            var out, nest := PyEmit(cfg, ids, Some(c), st.body, lo), Nest(ids, 1, around + [frame], st.body, lo);
            && PyEmitStatement(cfg, ids, ctx, st, n) == out.(rows := out.rows + [PyContainerRow(cfg, c, out.threw)])
            && NestStatement(ids, 1, around, st, n)
                == nest.(placed := nest.placed + [BlockPlace(around, frame, nest.threw)])
  {}

  lemma {:induction false} PyTraceAgrees(cfg: Config, ids: Uuids, ctx: Option<Context>, around: seq<Frame>,
      st: Statement, n: nat)
    requires PyContextAgrees(cfg, ctx, around) && st.Trace?
    ensures var out, nest := PyEmitStatement(cfg, ids, ctx, st, n), NestStatement(ids, 1, around, st, n);
            out.next == nest.next && out.threw == nest.threw && AllPyAgree(cfg, out.rows, nest.placed)
    decreases st, 0
  {
    var c, frame, lo := PyEnter(cfg, ids, ctx, st, n), FrameOf(ids, around, st, n), n + Draws(ctx);
    var out, nest := PyEmit(cfg, ids, Some(c), st.body, lo), Nest(ids, 1, around + [frame], st.body, lo);
    PyTraceUnfolds(cfg, ids, ctx, around, st, n);
    PyEnteredContextAgrees(cfg, ids, ctx, around, st, n);
    PyProgramAgrees(cfg, ids, Some(c), around + [frame], st.body, lo);
    PyBlockAgrees(cfg, ids, ctx, around, st, n, out.threw);
    OneMorePyAgrees(cfg, out.rows, nest.placed, PyContainerRow(cfg, c, out.threw),
        BlockPlace(around, frame, out.threw));
  }

  lemma {:induction false} PyStatementAgrees(cfg: Config, ids: Uuids, ctx: Option<Context>, around: seq<Frame>,
      st: Statement, n: nat)
    requires PyContextAgrees(cfg, ctx, around)
    ensures var out, nest := PyEmitStatement(cfg, ids, ctx, st, n), NestStatement(ids, 1, around, st, n);
            out.next == nest.next && out.threw == nest.threw && AllPyAgree(cfg, out.rows, nest.placed)
    decreases st, 1
  {
    match st {
      case Throw =>
      case Call(_) =>
      case Trace(_, _, _, _, _) => PyTraceAgrees(cfg, ids, ctx, around, st, n);
      case Catch(guarded) => PyProgramAgrees(cfg, ids, ctx, around, guarded, n);
      case Parallel(left, right) =>
        PyProgramAgrees(cfg, ids, ctx, around, left, n);
        var mid := Nest(ids, 1, around, left, n).next;
        PyProgramAgrees(cfg, ids, ctx, around, right, mid);
        BothPyAgree(cfg, PyEmit(cfg, ids, ctx, left, n).rows, Nest(ids, 1, around, left, n).placed,
                    PyEmit(cfg, ids, ctx, right, mid).rows, Nest(ids, 1, around, right, mid).placed);
    }
  }

  lemma {:induction false} PyProgramAgrees(cfg: Config, ids: Uuids, ctx: Option<Context>, around: seq<Frame>,
      p: Program, n: nat)
    requires PyContextAgrees(cfg, ctx, around)
    ensures var out, nest := PyEmit(cfg, ids, ctx, p, n), Nest(ids, 1, around, p, n);
            out.next == nest.next && out.threw == nest.threw && AllPyAgree(cfg, out.rows, nest.placed)
    decreases p
  {
    match p {
      case Done =>
      case Then(first, rest) =>
        PyStatementAgrees(cfg, ids, ctx, around, first, n);
        var here := NestStatement(ids, 1, around, first, n);
        PyProgramAgrees(cfg, ids, ctx, around, rest, here.next);
        BothPyAgree(cfg, PyEmitStatement(cfg, ids, ctx, first, n).rows, here.placed,
                    PyEmit(cfg, ids, ctx, rest, here.next).rows, Nest(ids, 1, around, rest, here.next).placed);
    }
  }

  function PyRowsOf(cfg: Config, ids: Uuids, p: Program): seq<Row> { PyEmit(cfg, ids, None, p, 0).rows }

  function PyPlacesOf(ids: Uuids, p: Program): seq<Placed> { Nest(ids, 1, [], p, 0).placed }

  /**
   For every program, calls outside all blocks and empty strings included: the rows form a forest, each sits where its
   span sits, and it carries the values of the nearest block that gives one, then the configured version.
   */
  lemma PyRowsFormTheForest(cfg: Config, ids: Uuids, p: Program)
    requires Unique(ids)
    ensures AllPyAgree(cfg, PyRowsOf(cfg, ids, p), PyPlacesOf(ids, p))
    ensures IsForest(PyRowsOf(cfg, ids, p))
  {
    PyProgramAgrees(cfg, ids, None, [], p, 0);
    ProgramWellPlaced(ids, 1, [], p, 0);
    SittingRowsFormAForest(ids, Nest(ids, 1, [], p, 0).next, PyRowsOf(cfg, ids, p), PyPlacesOf(ids, p));
  }

  /** The gantt gives every span of a Python program its nesting depth. */
  method DepthsFromPyRows(cfg: Config, ids: Uuids, p: Program, spans: seq<Span>) returns (depths: map<string, nat>)
    requires Unique(ids) && SpansOf(spans, PyRowsOf(cfg, ids, p))
    ensures |PyRowsOf(cfg, ids, p)| == |PyPlacesOf(ids, p)|
    ensures forall i :: 0 <= i < |PyRowsOf(cfg, ids, p)| ==>
              var id := PyRowsOf(cfg, ids, p)[i].spanId;
              id in depths && depths[id] == |PyPlacesOf(ids, p)[i].around|
  {
    PyProgramAgrees(cfg, ids, None, [], p, 0);
    ProgramWellPlaced(ids, 1, [], p, 0);
    depths := DepthsOf(ids, Nest(ids, 1, [], p, 0).next, PyRowsOf(cfg, ids, p), PyPlacesOf(ids, p), spans);
  }

  // ---------------------------------------------------------------- agreement of the two SDKs

  /** What the enclosing block hands down in TypeScript. */
  datatype Inherited = Inherited(prompt: Option<string>, customer: Option<string>)

  function HandedDown(ctx: Option<Context>): Option<Inherited> {
    match ctx case Some(c) => Some(Inherited(c.promptVersion, c.customerId)) case None => None
  }

  function Outer(scope: Option<Inherited>): Inherited {
    match scope case Some(i) => i case None => Inherited(None, None)
  }

  /** A null is harmless where it clears nothing, an empty name where the default feature is empty too. */
  predicate AlikeBlock(cfg: Config, scope: Option<Inherited>, t: Statement)
    requires t.Trace?
  {
    && (t.name != "" || cfg.defaultFeature == Some(""))
    && (t.prompt == Given(None) ==>
        OrDefault(Outer(scope).prompt, cfg.defaultPromptVersion) == cfg.defaultPromptVersion)
    && (t.customer == Given(None) ==> Outer(scope).customer == None)
  }

  /** A call is alike inside a block whose version is not an empty string that Python would skip. */
  predicate AlikeCall(cfg: Config, scope: Option<Inherited>) {
    && scope.Some?
    && (scope.value.prompt == Some("") ==> cfg.defaultPromptVersion == Some(""))
  }

  /** Whether a statement ends in an exception, whatever the SDK. */
  predicate Raises(st: Statement)
    decreases st
  {
    match st
    case Throw => true
    case Call(fails) => fails
    case Trace(_, _, _, _, body) => RunRaises(body)
    case Catch(_) => false
    case Parallel(left, right) => RunRaises(left) || RunRaises(right)
  }

  predicate RunRaises(p: Program)
    decreases p
  {
    match p case Done => false case Then(first, rest) => Raises(first) || RunRaises(rest)
  }

  /** Every block and call that is executed is alike; a property of the program text and the configuration. */
  predicate AlikeStatement(cfg: Config, scope: Option<Inherited>, st: Statement)
    decreases st
  {
    match st
    case Throw => true
    case Call(_) => AlikeCall(cfg, scope)
    case Trace(_, _, prompt, customer, body) =>
      && AlikeBlock(cfg, scope, st)
      && Alike(cfg, Some(Inherited(Inherit(prompt, Outer(scope).prompt), Inherit(customer, Outer(scope).customer))),
          body)
    case Catch(guarded) => Alike(cfg, scope, guarded)
    case Parallel(left, right) => Alike(cfg, scope, left) && Alike(cfg, scope, right)
  }

  predicate Alike(cfg: Config, scope: Option<Inherited>, p: Program)
    decreases p
  {
    match p
    case Done => true
    case Then(first, rest) => AlikeStatement(cfg, scope, first) && (Raises(first) || Alike(cfg, scope, rest))
  }

  /** The Python context of a block against the TypeScript one: the configured version is filled in already. */
  ghost predicate SameContext(cfg: Config, py: Option<Context>, ts: Option<Context>) {
    match ts
    case None => py.None?
    case Some(c) =>
      && (c.name != "" || cfg.defaultFeature == Some(""))
      && py == Some(c.(promptVersion := OrDefault(c.promptVersion, cfg.defaultPromptVersion)))
  }

  /** Both SDKs emit as many rows and end the same way, in any contexts. */
  lemma {:induction false} SameShapeOfStatement(cfg: Config, ids: Uuids, py: Option<Context>, ts: Option<Context>,
      st: Statement, n: nat, m: nat)
    ensures var a, b := PyEmitStatement(cfg, ids, py, st, n), EmitStatement(cfg, ids, ts, st, m);
            |a.rows| == |b.rows| && a.threw == b.threw == Raises(st)
    decreases st
  {
    match st {
      case Throw =>
      case Call(_) =>
      case Trace(_, _, _, _, body) =>
        SameShape(cfg, ids, Some(PyEnter(cfg, ids, py, st, n)), Some(Enter(ids, ts, st, m)), body, n + Draws(py),
            m + Draws(ts));
      case Catch(guarded) => SameShape(cfg, ids, py, ts, guarded, n, m);
      case Parallel(left, right) =>
        SameShape(cfg, ids, py, ts, left, n, m);
        SameShape(cfg, ids, py, ts, right, PyEmit(cfg, ids, py, left, n).next, Emit(cfg, ids, ts, left, m).next);
    }
  }

  lemma {:induction false} SameShape(cfg: Config, ids: Uuids, py: Option<Context>, ts: Option<Context>, p: Program,
      n: nat, m: nat)
    ensures var a, b := PyEmit(cfg, ids, py, p, n), Emit(cfg, ids, ts, p, m);
            |a.rows| == |b.rows| && a.threw == b.threw == RunRaises(p)
    decreases p
  {
    match p {
      case Done =>
      case Then(first, rest) =>
        SameShapeOfStatement(cfg, ids, py, ts, first, n, m);
        SameShape(cfg, ids, py, ts, rest, PyEmitStatement(cfg, ids, py, first, n).next,
            EmitStatement(cfg, ids, ts, first, m).next);
    }
  }

  lemma JoinsEqual<T>(a: seq<T>, b: seq<T>, c: seq<T>, d: seq<T>)
    requires |a| == |c|
    ensures a + b == c + d <==> a == c && b == d
  {
    if a + b == c + d {
      assert a == (a + b)[..|a|] == (c + d)[..|c|] == c;
      assert b == (a + b)[|a|..] == (c + d)[|c|..] == d;
    }
  }

  /** The rows of a block are the same exactly if the block is alike; then so are the contexts inside. */
  lemma BlocksAgree(cfg: Config, ids: Uuids, py: Option<Context>, ts: Option<Context>, t: Statement, n: nat,
      failed: bool)
    requires SameContext(cfg, py, ts) && t.Trace?
    ensures PyContainerRow(cfg, PyEnter(cfg, ids, py, t, n), failed) == ContainerRow(cfg, Enter(ids, ts, t, n), failed)
       <==> AlikeBlock(cfg, HandedDown(ts), t)
    ensures AlikeBlock(cfg, HandedDown(ts), t) ==>
        SameContext(cfg, Some(PyEnter(cfg, ids, py, t, n)), Some(Enter(ids, ts, t, n)))
  {}

  lemma CallsAgree(cfg: Config, ids: Uuids, py: Option<Context>, ts: Option<Context>, n: nat, fails: bool)
    requires Unique(ids) && SameContext(cfg, py, ts)
    ensures PyCallRow(cfg, ids, py, n, fails) == CallRow(cfg, ids, ts, n, fails) <==> AlikeCall(cfg, HandedDown(ts))
  {}

  /**
   What is to be shown of two outcomes: their rows are the same exactly if the text is alike, and then so is the rest.
   */
  ghost predicate AgreeIff(a: Outcome, b: Outcome, alike: bool) {
    (a.rows == b.rows <==> alike) && (alike ==> a == b)
  }

  /** What a block comes to in both SDKs, and when its text is alike. */
  lemma BothTracesUnfold(cfg: Config, ids: Uuids, py: Option<Context>, ts: Option<Context>, st: Statement, n: nat)
    requires st.Trace? && (py.None? <==> ts.None?)
    ensures var pyc, tsc, lo := PyEnter(cfg, ids, py, st, n), Enter(ids, ts, st, n), n + Draws(py);
            var a, b := PyEmit(cfg, ids, Some(pyc), st.body, lo), Emit(cfg, ids, Some(tsc), st.body, lo);
            && PyEmitStatement(cfg, ids, py, st, n) == a.(rows := a.rows + [PyContainerRow(cfg, pyc, a.threw)])
            && EmitStatement(cfg, ids, ts, st, n) == b.(rows := b.rows + [ContainerRow(cfg, tsc, b.threw)])
            && (AlikeStatement(cfg, HandedDown(ts), st) <==>
                  AlikeBlock(cfg, HandedDown(ts), st) && Alike(cfg, HandedDown(Some(tsc)), st.body))
  {}

  lemma {:induction false} TracesAgree(cfg: Config, ids: Uuids, py: Option<Context>, ts: Option<Context>,
      st: Statement, n: nat)
    requires Unique(ids) && SameContext(cfg, py, ts) && st.Trace?
    ensures AgreeIff(PyEmitStatement(cfg, ids, py, st, n), EmitStatement(cfg, ids, ts, st, n),
        AlikeStatement(cfg, HandedDown(ts), st))
    decreases st, 0
  {
    var pyc, tsc, lo := PyEnter(cfg, ids, py, st, n), Enter(ids, ts, st, n), n + Draws(py);
    var a, b := PyEmit(cfg, ids, Some(pyc), st.body, lo), Emit(cfg, ids, Some(tsc), st.body, lo);
    SameShape(cfg, ids, Some(pyc), Some(tsc), st.body, lo, lo);
    BlocksAgree(cfg, ids, py, ts, st, n, a.threw);
    BothTracesUnfold(cfg, ids, py, ts, st, n);
    JoinsEqual(a.rows, [PyContainerRow(cfg, pyc, a.threw)], b.rows, [ContainerRow(cfg, tsc, a.threw)]);
    if AlikeBlock(cfg, HandedDown(ts), st) {
      RunsAgree(cfg, ids, Some(pyc), Some(tsc), st.body, lo);
    }
  }

  lemma {:induction false} StatementsAgree(cfg: Config, ids: Uuids, py: Option<Context>, ts: Option<Context>,
      st: Statement, n: nat)
    requires Unique(ids) && SameContext(cfg, py, ts)
    ensures AgreeIff(PyEmitStatement(cfg, ids, py, st, n), EmitStatement(cfg, ids, ts, st, n),
        AlikeStatement(cfg, HandedDown(ts), st))
    decreases st, 1
  {
    match st {
      case Throw =>
      case Call(fails) => CallsAgree(cfg, ids, py, ts, n, fails);
      case Trace(_, _, _, _, _) => TracesAgree(cfg, ids, py, ts, st, n);
      case Catch(guarded) =>
        RunsAgree(cfg, ids, py, ts, guarded, n);
      case Parallel(left, right) =>
        var a, b := PyEmit(cfg, ids, py, left, n), Emit(cfg, ids, ts, left, n);
        SameShape(cfg, ids, py, ts, left, n, n);
        RunsAgree(cfg, ids, py, ts, left, n);
        RunsAgree(cfg, ids, py, ts, right, a.next);
        JoinsEqual(a.rows, PyEmit(cfg, ids, py, right, a.next).rows, b.rows, Emit(cfg, ids, ts, right, b.next).rows);
    }
  }

  lemma {:induction false} RunsAgree(cfg: Config, ids: Uuids, py: Option<Context>, ts: Option<Context>, p: Program,
      n: nat)
    requires Unique(ids) && SameContext(cfg, py, ts)
    ensures AgreeIff(PyEmit(cfg, ids, py, p, n), Emit(cfg, ids, ts, p, n), Alike(cfg, HandedDown(ts), p))
    decreases p
  {
    match p {
      case Done =>
      case Then(first, rest) =>
        var a, b := PyEmitStatement(cfg, ids, py, first, n), EmitStatement(cfg, ids, ts, first, n);
        SameShapeOfStatement(cfg, ids, py, ts, first, n, n);
        StatementsAgree(cfg, ids, py, ts, first, n);
        RunsAgree(cfg, ids, py, ts, rest, a.next);
        JoinsEqual(a.rows, PyEmit(cfg, ids, py, rest, a.next).rows, b.rows, Emit(cfg, ids, ts, rest, b.next).rows);
    }
  }

  /** On one and the same program, whatever it is, the two SDKs emit the same rows exactly if it is alike for both. */
  lemma SdksAgreeExactly(cfg: Config, ids: Uuids, p: Program)
    requires Unique(ids)
    ensures PyRowsOf(cfg, ids, p) == RowsOf(cfg, ids, p) <==> Alike(cfg, None, p)
  {
    RunsAgree(cfg, ids, None, None, p, 0);
  }

  function EraseNull(setting: Setting): Setting { if setting == Given(None) then Absent else setting }

  /** The program with every explicit null left out. */
  function Erase(st: Statement): Statement
    decreases st
  {
    match st
    case Trace(name, kind, prompt, customer, body) =>
        Trace(name, kind, EraseNull(prompt), EraseNull(customer), EraseAll(body))
    case Catch(guarded) => Catch(EraseAll(guarded))
    case Parallel(left, right) => Parallel(EraseAll(left), EraseAll(right))
    case _ => st
  }

  function EraseAll(p: Program): Program
    decreases p
  {
    match p
    case Done => Done
    case Then(first, rest) => Then(Erase(first), EraseAll(rest))
  }

  lemma {:induction false} NullStatementIsAbsent(cfg: Config, ids: Uuids, py: Option<Context>, st: Statement, n: nat)
    ensures PyEmitStatement(cfg, ids, py, Erase(st), n) == PyEmitStatement(cfg, ids, py, st, n)
    decreases st
  {
    match st {
      case Throw =>
      case Call(_) =>
      case Trace(_, _, _, _, body) => NullIsAbsent(cfg, ids, Some(PyEnter(cfg, ids, py, st, n)), body, n + Draws(py));
      case Catch(guarded) => NullIsAbsent(cfg, ids, py, guarded, n);
      case Parallel(left, right) =>
        NullIsAbsent(cfg, ids, py, left, n);
        NullIsAbsent(cfg, ids, py, right, PyEmit(cfg, ids, py, left, n).next);
    }
  }

  /** Python cannot tell a null from nothing. */
  lemma {:induction false} NullIsAbsent(cfg: Config, ids: Uuids, py: Option<Context>, p: Program, n: nat)
    ensures PyEmit(cfg, ids, py, EraseAll(p), n) == PyEmit(cfg, ids, py, p, n)
    decreases p
  {
    match p {
      case Done =>
      case Then(first, rest) =>
        NullStatementIsAbsent(cfg, ids, py, first, n);
        NullIsAbsent(cfg, ids, py, rest, PyEmitStatement(cfg, ids, py, first, n).next);
    }
  }

  /** So Python emits what TypeScript emits once the nulls are left out, exactly if that program is alike for both. */
  lemma SdksAgree(cfg: Config, ids: Uuids, p: Program)
    requires Unique(ids)
    ensures PyRowsOf(cfg, ids, p) == RowsOf(cfg, ids, EraseAll(p)) <==> Alike(cfg, None, EraseAll(p))
  {
    NullIsAbsent(cfg, ids, None, p, 0);
    SdksAgreeExactly(cfg, ids, EraseAll(p));
  }

  /**
   The two part where a null clears something: the outer customer stays in Python, in the inner block and its calls.
   */
  lemma NullClearsOnlyInTypeScript(cfg: Config, ids: Uuids)
    ensures var inner := Trace("step", Step, Absent, Given(None), Done);
            var p := Then(Trace("request", Workflow, Absent, Given(Some("acme")), Then(inner, Done)), Done);
            && RowsOf(cfg, ids, p)[0].customerId == None
            && PyRowsOf(cfg, ids, p)[0].customerId == Some("acme")
  {
    var inner := Trace("step", Step, Absent, Given(None), Done);
    var body := Then(inner, Done);
    var outer := Trace("request", Workflow, Absent, Given(Some("acme")), body);
    var p := Then(outer, Done);
    var tsc, pyc := Enter(ids, None, outer, 0), PyEnter(cfg, ids, None, outer, 0);
    assert Emit(cfg, ids, Some(tsc), body, 2).rows == [ContainerRow(cfg, Enter(ids, Some(tsc), inner, 2), false)];
    assert PyEmit(cfg, ids, Some(pyc), body, 2).rows
        == [PyContainerRow(cfg, PyEnter(cfg, ids, Some(pyc), inner, 2), false)];
    assert RowsOf(cfg, ids, p)[0] == Emit(cfg, ids, Some(tsc), body, 2).rows[0];
    assert PyRowsOf(cfg, ids, p)[0] == PyEmit(cfg, ids, Some(pyc), body, 2).rows[0];
  }
}
