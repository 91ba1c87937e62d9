/**
 Nested trace blocks and instrumented calls of the TypeScript SDK, the flat rows they emit, and what the trace gantt
 rebuilds from them.
 */
module TraceEmission {
  import opened Prelude

  datatype Kind = Workflow | Agent | Step | Llm

  type BlockKind = k: Kind | k != Llm witness Workflow

  /** An optional key of the options object: absent, or given a value that may be null. */
  datatype Setting = Absent | Given(value: Option<string>)

  /** What user code does, as far as tracing can tell. */
  datatype Statement =
    | Throw
    | Call(fails: bool)                                                  // an instrumented provider call
    | Trace(name: string, kind: BlockKind, prompt: Setting, customer: Setting, body: Program)
    | Catch(guarded: Program)                                            // swallows what its body throws
    | Parallel(left: Program, right: Program)                            // both run, under the same context

  datatype Program = Done | Then(first: Statement, rest: Program)

  datatype Context = Context(
    traceId: string, spanId: string, parentSpanId: Option<string>,
    name: string, promptVersion: Option<string>, kind: BlockKind, customerId: Option<string>)

  datatype Config = Config(defaultFeature: Option<string>, defaultPromptVersion: Option<string>)

  datatype Row = Row(
    spanId: string, traceId: string, parentSpanId: Option<string>, kind: Kind,
    featureName: Option<string>, promptVersion: Option<string>, customerId: Option<string>, failed: bool)

  /** The identifiers `randomUUID()` yields, in the order they are drawn. */
  type Uuids = nat -> string

  ghost predicate Unique(ids: Uuids) {
    (forall i, j :: ids(i) == ids(j) ==> i == j) && forall i :: ids(i) != ""
  }

  datatype Outcome = Outcome(rows: seq<Row>, next: nat, threw: bool)

  /** An explicit option wins, null included; otherwise the enclosing trace's value. */
  function Inherit(setting: Setting, inherited: Option<string>): Option<string> {
    match setting case Given(value) => value case Absent => inherited
  }

  /** The number of identifiers a trace draws: a root also draws a trace id. */
  function Draws(parent: Option<Context>): nat { if parent.Some? then 1 else 2 }

  /** `context.trace`: the context of a new block. */
  function Enter(ids: Uuids, parent: Option<Context>, t: Statement, n: nat): Context
    requires t.Trace?
  {
    match parent
    case Some(p) =>
      Context(p.traceId, ids(n), Some(p.spanId), t.name, Inherit(t.prompt, p.promptVersion), t.kind,
          Inherit(t.customer, p.customerId))
    case None =>
      Context(ids(n), ids(n + 1), None, t.name, Inherit(t.prompt, None), t.kind, Inherit(t.customer, None))
  }

  function OrDefault(a: Option<string>, b: Option<string>): Option<string> { if a.Some? then a else b }

  /** `buildWorkflowEvent`: the row of a block, emitted when it is left. */
  function ContainerRow(cfg: Config, c: Context, failed: bool): Row {
    Row(c.spanId, c.traceId, c.parentSpanId, c.kind, Some(c.name),
        OrDefault(c.promptVersion, cfg.defaultPromptVersion), c.customerId, failed)
  }

  /** `buildEvent`: the row of a provider call; outside any trace it is a trace of its own. */
  function CallRow(cfg: Config, ids: Uuids, ctx: Option<Context>, n: nat, failed: bool): Row {
    match ctx
    case Some(c) => Row(ids(n), c.traceId, Some(c.spanId), Llm, Some(c.name),
        OrDefault(c.promptVersion, cfg.defaultPromptVersion), c.customerId, failed)
    case None => Row(ids(n), ids(n), None, Llm, cfg.defaultFeature, cfg.defaultPromptVersion, None, failed)
  }

  /** The rows a statement emits under a context, drawing identifiers from `n` on. */
  function EmitStatement(cfg: Config, ids: Uuids, ctx: Option<Context>, st: Statement, n: nat): Outcome
    decreases st
  {
    match st
    case Throw => Outcome([], n, true)
    case Call(fails) => Outcome([CallRow(cfg, ids, ctx, n, fails)], n + 1, fails)
    case Trace(_, _, _, _, body) =>
      var c := Enter(ids, ctx, st, n);
      var inner := Emit(cfg, ids, Some(c), body, n + Draws(ctx));
      inner.(rows := inner.rows + [ContainerRow(cfg, c, inner.threw)])
    case Catch(guarded) => Emit(cfg, ids, ctx, guarded, n).(threw := false)
    case Parallel(left, right) =>
      var l := Emit(cfg, ids, ctx, left, n);
      var r := Emit(cfg, ids, ctx, right, l.next);
      Outcome(l.rows + r.rows, r.next, l.threw || r.threw)
  }

  function Emit(cfg: Config, ids: Uuids, ctx: Option<Context>, p: Program, n: nat): Outcome
    decreases p
  {
    match p
    case Done => Outcome([], n, false)
    case Then(first, rest) =>
      var here := EmitStatement(cfg, ids, ctx, first, n);
      if here.threw then here
      else
        var later := Emit(cfg, ids, ctx, rest, here.next);
        later.(rows := here.rows + later.rows)
  }

  /** The SDK at run time: the async-local current context, the exporter's queue, the identifiers drawn so far. */
  class Sdk {
    const cfg: Config
    const ids: Uuids
    var current: Option<Context>
    var queue: seq<Row>
    var drawn: nat

    constructor (cfg: Config, ids: Uuids)
      ensures this.cfg == cfg && this.ids == ids && current == None && queue == [] && drawn == 0
    {
      this.cfg, this.ids := cfg, ids;
      current, queue, drawn := None, [], 0;
    }

    method Execute(st: Statement) returns (threw: bool)
      modifies this
      ensures var out := EmitStatement(cfg, ids, old(current), st, old(drawn));
              queue == old(queue) + out.rows && drawn == out.next && threw == out.threw
      ensures current == old(current)
      decreases st
    {
      match st {
        case Throw => threw := true;
        case Call(fails) =>
          queue := queue + [CallRow(cfg, ids, current, drawn, fails)];
          drawn := drawn + 1;
          threw := fails;
        case Trace(_, _, _, _, body) =>
          var outer := current;
          var ctx := Enter(ids, outer, st, drawn);
          drawn := drawn + Draws(outer);
          current := Some(ctx);
          threw := Run(body);
          current := outer;
          queue := queue + [ContainerRow(cfg, ctx, threw)];  // whether or not the block threw
        case Catch(guarded) =>
          var _ := Run(guarded);
          threw := false;
        case Parallel(left, right) =>
          var l := Run(left);
          var r := Run(right);
          threw := l || r;
      }
    }

    method Run(p: Program) returns (threw: bool)
      modifies this
      ensures var out := Emit(cfg, ids, old(current), p, old(drawn));
              queue == old(queue) + out.rows && drawn == out.next && threw == out.threw
      ensures current == old(current)
      decreases p
    {
      match p {
        case Done => threw := false;
        case Then(first, rest) =>
          threw := Execute(first);
          if !threw {
            threw := Run(rest);
          }
      }
    }
  }
}
