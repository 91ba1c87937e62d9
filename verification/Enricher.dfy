/** Events on their way through the processor: redaction, repricing, and the stored row. */
module Enrichment {
  import opened Prelude
  import opened Pricing

  /**
   One span event.  `passThrough` stands for the fields the processor copies and never looks at
   (trace and parent ids, latency, status, feature, user, session, environment, ...).
   */
  datatype Event = Event(
    orgId: string, spanId: string, timestamp: real, kind: string,
    model: string, provider: string,
    inputTokens: nat, outputTokens: nat, cacheReadTokens: Option<nat>,
    costUsd: real, inputCostUsd: Option<real>, outputCostUsd: Option<real>, cacheReadCostUsd: Option<real>,
    costSource: Option<string>, pricingVersion: Option<string>,
    inputText: string, outputText: string, passThrough: seq<string>)

  /** The deduplication key of the raw table. */
  datatype Key = Key(orgId: string, timestampMs: int, spanId: string)

  datatype Row = Row(
    key: Key, kind: string, model: string, provider: string,
    inputTokens: nat, outputTokens: nat, cacheReadTokens: Option<nat>,
    costUsd: real, inputCostUsd: real, outputCostUsd: real, cacheReadCostUsd: real,
    costSource: string, pricingVersion: Option<string>,
    inputText: string, outputText: string, passThrough: seq<string>)

  /** Rust's `f64 as i64`: towards zero, saturating at the ends of the 64-bit range. */
  function ToI64(x: real): (n: int)
    ensures 0.0 <= x < 9223372036854775808.0 ==> n as real <= x < n as real + 1.0
    ensures -9223372036854775808.0 <= x <= 0.0 ==> n as real - 1.0 < x <= n as real
    ensures x >= 9223372036854775807.0 ==> n == 9223372036854775807
    ensures x <= -9223372036854775808.0 ==> n == -9223372036854775808
  {
    var n := if x >= 0.0 then x.Floor else -((-x).Floor);
    Max(-0x8000_0000_0000_0000, Min(n, 0x7FFF_FFFF_FFFF_FFFF))
  }

  function KeyOf(e: Event): Key { Key(e.orgId, ToI64(e.timestamp), e.spanId) }

  function OrElse<T>(o: Option<T>, default: T): T {
    match o case Some(v) => v case None => default
  }

  /** `LlmCallRow::from`. */
  function RowOf(e: Event): Row {
    Row(KeyOf(e), e.kind, e.model, e.provider, e.inputTokens, e.outputTokens, e.cacheReadTokens,
        e.costUsd, OrElse(e.inputCostUsd, 0.0), OrElse(e.outputCostUsd, 0.0), OrElse(e.cacheReadCostUsd, 0.0),
        OrElse(e.costSource, "unknown_model"), e.pricingVersion, e.inputText, e.outputText, e.passThrough)
  }

  /** The row says of the event what it should, field by field; a missing cost is zero. */
  predicate Holds(r: Row, e: Event) {
    && r.key.orgId == e.orgId && r.key.spanId == e.spanId && r.key.timestampMs == ToI64(e.timestamp)
    && r.kind == e.kind && r.model == e.model && r.provider == e.provider
    && r.inputTokens == e.inputTokens && r.outputTokens == e.outputTokens && r.cacheReadTokens == e.cacheReadTokens
    && r.costUsd == e.costUsd
    && r.inputCostUsd == (if e.inputCostUsd.Some? then e.inputCostUsd.value else 0.0)
    && r.outputCostUsd == (if e.outputCostUsd.Some? then e.outputCostUsd.value else 0.0)
    && r.cacheReadCostUsd == (if e.cacheReadCostUsd.Some? then e.cacheReadCostUsd.value else 0.0)
    && r.costSource == (if e.costSource.Some? then e.costSource.value else "unknown_model")
    && r.pricingVersion == e.pricingVersion
    && r.inputText == e.inputText && r.outputText == e.outputText && r.passThrough == e.passThrough
  }

  lemma RowHolds(e: Event)
    ensures Holds(RowOf(e), e)
  {}

  ghost predicate AllHold(rows: seq<Row>, events: seq<Event>) {
    |rows| == |events| && forall i :: 0 <= i < |rows| ==> Holds(rows[i], events[i])
  }

  predicate IsContainer(kind: string) { kind == "workflow" || kind == "agent" || kind == "step" }

  function Reprice(t: Table, e: Event): Event {
    if IsContainer(e.kind) then
      e.(model := "", provider := "", inputTokens := 0, outputTokens := 0, cacheReadTokens := None, costUsd := 0.0,
         inputCostUsd := Some(0.0), outputCostUsd := Some(0.0), cacheReadCostUsd := Some(0.0),
         costSource := Some("container"))
    else
      var priced := PriceOf(t, e.model, e.inputTokens, e.outputTokens, OrElse(e.cacheReadTokens, 0));
      var named := e.(model := priced.canonicalModel, pricingVersion := Some(t.version));
      match priced.costs
      case Some(c) =>
        named.(costUsd := c.total, inputCostUsd := Some(c.input), outputCostUsd := Some(c.output),
               cacheReadCostUsd := Some(c.cacheRead), costSource := Some("server_computed"))
      case None =>
        named.(costSource := Some(if e.costUsd > 0.0 then "sdk_fallback" else "unknown_model"))
  }

  /** Redaction is some fixed function of the text; empty bodies are left alone. */
  function Enrich(t: Table, redact: string -> string, e: Event): Event {
    Reprice(t, e.(inputText := if e.inputText != "" then redact(e.inputText) else "",
                  outputText := if e.outputText != "" then redact(e.outputText) else ""))
  }

  class Enricher {
    const redact: string -> string
    const pricer: Pricer

    constructor (redact: string -> string, pricer: Pricer)
      ensures this.redact == redact && this.pricer == pricer
    {
      this.redact := redact;
      this.pricer := pricer;
    }

    /** Whatever models were warned about before, the outcome is the same function of the event. */
    method RepriceInPlace(event: Event) returns (ev: Event)
      modifies pricer`warned
      ensures ev == Reprice(pricer.table, event)
    {
      ev := event;
      if ev.kind == "workflow" || ev.kind == "agent" || ev.kind == "step" {
        ev := ev.(model := "", provider := "", inputTokens := 0, outputTokens := 0);
        ev := ev.(costUsd := 0.0, inputCostUsd := Some(0.0), outputCostUsd := Some(0.0), cacheReadCostUsd := Some(0.0));
        ev := ev.(cacheReadTokens := None, costSource := Some("container"));
        return;
      }
      var priced, _ := pricer.Price(ev.model, ev.inputTokens, ev.outputTokens, OrElse(ev.cacheReadTokens, 0));
      ev := ev.(model := priced.canonicalModel);
      ev := ev.(pricingVersion := Some(pricer.table.version));
      match priced.costs {
        case Some(c) =>
          ev := ev.(costUsd := c.total, inputCostUsd := Some(c.input), outputCostUsd := Some(c.output));
          ev := ev.(cacheReadCostUsd := Some(c.cacheRead), costSource := Some("server_computed"));
        case None =>
          ev := ev.(costSource := Some(if ev.costUsd > 0.0 then "sdk_fallback" else "unknown_model"));
      }
    }

    method EnrichInPlace(event: Event) returns (ev: Event)
      modifies pricer`warned
      ensures ev == Enrich(pricer.table, redact, event)
    {
      ev := event;
      if ev.inputText != "" {
        ev := ev.(inputText := redact(ev.inputText));
      }
      if ev.outputText != "" {
        ev := ev.(outputText := redact(ev.outputText));
      }
      ev := RepriceInPlace(ev);
    }
  }

  // ---------------------------------------------------------------- properties

  /** Enrichment never moves an event to another deduplication key. */
  lemma EnrichKeepsKey(t: Table, redact: string -> string, e: Event)
    ensures RowOf(Enrich(t, redact, e)).key == KeyOf(e)
  {}

  /** Repricing twice is repricing once, for every event, exactly when no alias leads to a further alias. */
  lemma RepriceIdempotent(t: Table)
    ensures (forall e :: Reprice(t, Reprice(t, e)) == Reprice(t, e)) <==> ChainFree(t)
  {
    if ChainFree(t) {
      forall e ensures Reprice(t, Reprice(t, e)) == Reprice(t, e) {
        ResolveTwice(t, e.model);
      }
    } else {
      var m :| m in t.aliases && t.aliases[m] in t.aliases && t.aliases[t.aliases[m]] != t.aliases[m];
      var e := Event("", "", 0.0, "llm", m, "", 0, 0, None, 0.0, None, None, None, None, None, "", "", []);
      assert Reprice(t, e).model == t.aliases[m];
      assert Reprice(t, Reprice(t, e)).model == t.aliases[t.aliases[m]];
    }
  }

  /** The two events differ at most in what an SDK may claim about money. */
  predicate SameButMoney(e: Event, f: Event) {
    f.(costUsd := e.costUsd, inputCostUsd := e.inputCostUsd, outputCostUsd := e.outputCostUsd,
       cacheReadCostUsd := e.cacheReadCostUsd, costSource := e.costSource, pricingVersion := e.pricingVersion) == e
  }

  /**
   What the SDK claims about money has no influence on the repriced event exactly when the row is no container
   and its model is in the table.  (A container keeps the SDK's pricing version; an unknown model keeps the SDK's cost.)
   */
  lemma RepriceIgnoresSdkMoney(t: Table, e: Event)
    ensures (forall f | SameButMoney(e, f) :: Reprice(t, f) == Reprice(t, e))
       <==> (!IsContainer(e.kind) && Resolve(t, e.model) in t.models)
  {
    if IsContainer(e.kind) || Resolve(t, e.model) !in t.models {
      var f := e.(costUsd := e.costUsd + 1.0, pricingVersion := if e.pricingVersion.None? then Some("") else None);
      assert SameButMoney(e, f);
      assert Reprice(t, f) != Reprice(t, e) by {
        if IsContainer(e.kind) {
          assert Reprice(t, f).pricingVersion != Reprice(t, e).pricingVersion;
        } else {
          assert Reprice(t, f).costUsd == e.costUsd + 1.0;
        }
      }
    }
  }

  /** Key and untouched fields of every stored row are those of the event the SDK sent; its texts are redacted. */
  lemma StoredRowKeepsTheEvent(t: Table, redact: string -> string, e: Event, r: Row)
    requires Holds(r, Enrich(t, redact, e))
    ensures r.key.orgId == e.orgId && r.key.spanId == e.spanId && r.key.timestampMs == ToI64(e.timestamp)
    ensures r.kind == e.kind && r.passThrough == e.passThrough
    ensures r.inputText == if e.inputText == "" then "" else redact(e.inputText)
    ensures r.outputText == if e.outputText == "" then "" else redact(e.outputText)
  {}

  /** So are the tokens of every call; the model is what the table calls it. */
  lemma StoredRowKeepsTheCall(t: Table, redact: string -> string, e: Event, r: Row)
    requires Holds(r, Enrich(t, redact, e)) && e.kind !in {"workflow", "agent", "step"}
    ensures r.provider == e.provider && r.inputTokens == e.inputTokens && r.outputTokens == e.outputTokens
    ensures r.cacheReadTokens == e.cacheReadTokens && r.pricingVersion == Some(t.version)
    ensures r.model == if e.model in t.aliases then t.aliases[e.model] else e.model
  {}

  /** The event carries the server's price of its own tokens for this model. */
  predicate PricedAs(t: Table, model: string, v: Event) {
    var c := PriceOf(t, model, v.inputTokens, v.outputTokens, OrElse(v.cacheReadTokens, 0)).costs;
    && c.Some? && v.costUsd == c.value.total && v.inputCostUsd == Some(c.value.input)
    && v.outputCostUsd == Some(c.value.output) && v.cacheReadCostUsd == Some(c.value.cacheRead)
    && v.model == Resolve(t, model) && v.costSource == Some("server_computed")
  }

  lemma KnownCallIsPriced(t: Table, redact: string -> string, e: Event)
    requires e.kind !in {"workflow", "agent", "step"} && Resolve(t, e.model) in t.models
    ensures PricedAs(t, e.model, Enrich(t, redact, e))
  {}

  /** What the row of a call costs, against what its own tokens cost at the rates of its own model. */
  ghost predicate CostsWhatItOwes(t: Table, r: Row)
    requires r.model in t.models
  {
    var p := t.models[r.model];
    var cacheRead := if r.cacheReadTokens.Some? then r.cacheReadTokens.value else 0;
    var apart := if p.cacheReadPer1k.Some? then Cached(r.inputTokens, cacheRead) else 0;
    && r.costUsd == r.inputCostUsd + r.outputCostUsd + r.cacheReadCostUsd
    && Within(r.costUsd, Owed(p, r.inputTokens, r.outputTokens, cacheRead), 1.5)
    && Within(r.outputCostUsd, Due(r.outputTokens, p.outputPer1k), 0.5)
    && Within(r.inputCostUsd, Due(r.inputTokens - apart, p.inputPer1k), 0.5)
  }

  lemma PricedRowCostsWhatItOwes(t: Table, model: string, v: Event, r: Row)
    requires Resolve(t, model) in t.models && PricedAs(t, model, v) && Holds(r, v)
    ensures r.model in t.models && CostsWhatItOwes(t, r) && r.costSource == "server_computed"
  {
    var cacheRead := OrElse(v.cacheReadTokens, 0);
    StoredPartsAreAccurate(t, model, v.inputTokens, v.outputTokens, cacheRead);
    StoredPriceIsAccurate(t, model, v.inputTokens, v.outputTokens, cacheRead);
  }

  /** The stored row of a call with a known model costs what its own tokens cost at the table's rates for it. */
  lemma StoredRowIsPriced(t: Table, redact: string -> string, e: Event, r: Row)
    requires Holds(r, Enrich(t, redact, e))
    requires e.kind !in {"workflow", "agent", "step"} && Resolve(t, e.model) in t.models
    ensures r.model in t.models && CostsWhatItOwes(t, r) && r.costSource == "server_computed"
  {
    KnownCallIsPriced(t, redact, e);
    PricedRowCostsWhatItOwes(t, e.model, Enrich(t, redact, e), r);
  }

  /** With an unknown model the row keeps what the SDK said about money, and says whether it said anything. */
  lemma StoredRowIsFallback(t: Table, redact: string -> string, e: Event, r: Row)
    requires Holds(r, Enrich(t, redact, e))
    requires e.kind !in {"workflow", "agent", "step"} && Resolve(t, e.model) !in t.models
    ensures r.costUsd == e.costUsd && r.costSource == if e.costUsd > 0.0 then "sdk_fallback" else "unknown_model"
    ensures r.inputCostUsd == (if e.inputCostUsd.Some? then e.inputCostUsd.value else 0.0)
    ensures r.outputCostUsd == (if e.outputCostUsd.Some? then e.outputCostUsd.value else 0.0)
    ensures r.cacheReadCostUsd == (if e.cacheReadCostUsd.Some? then e.cacheReadCostUsd.value else 0.0)
  {}

  /**
   A container row carries no model, tokens or money of its own, whatever the SDK sent; its pricing version is the
   SDK's.
   */
  lemma ContainersAreNeutral(t: Table, redact: string -> string, e: Event, r: Row)
    requires e.kind in {"workflow", "agent", "step"} && Holds(r, Enrich(t, redact, e))
    ensures r.model == r.provider == "" && r.inputTokens == r.outputTokens == 0 && r.cacheReadTokens == None
    ensures r.costUsd == r.inputCostUsd == r.outputCostUsd == r.cacheReadCostUsd == 0.0
    ensures r.costSource == "container" && r.pricingVersion == e.pricingVersion
  {}
}
