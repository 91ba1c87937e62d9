/**
 Pricing of one LLM call: the server's `Pricer` and the SDK's `calculateCost`, over the same table.
 Money is `real`; floating-point rounding noise is not modelled, rounding to micro-dollars is.
 */
module Pricing {
  import opened Prelude

  datatype ModelPrice = ModelPrice(inputPer1k: real, outputPer1k: real, cacheReadPer1k: Option<real>)

  datatype Table = Table(models: map<string, ModelPrice>, aliases: map<string, string>, version: string)

  datatype Costs = Costs(input: real, output: real, total: real, cacheRead: real)

  datatype Priced = Priced(canonicalModel: string, costs: Option<Costs>)

  /** Whole micro-dollars nearest to `x` dollars, halves away from zero (Rust's `f64::round`). */
  function Micros(x: real): (m: int)
    ensures -0.5 <= x * 1000000.0 - m as real <= 0.5
  {
    var y := x * 1000000.0;
    if y >= 0.0 then (y + 0.5).Floor else -((0.5 - y).Floor)
  }

  function Round6(x: real): real { Micros(x) as real / 1000000.0 }

  /** JavaScript's `Math.round(x * 1e6) / 1e6`: halves towards plus infinity. */
  function JsMicros(x: real): (m: int)
    ensures -0.5 <= x * 1000000.0 - m as real <= 0.5
  {
    (x * 1000000.0 + 0.5).Floor
  }

  function JsRound6(x: real): real { JsMicros(x) as real / 1000000.0 }

  /** The price of `tokens` tokens at `rate` dollars per thousand. */
  function Charge(tokens: nat, rate: real): real { tokens as real / 1000.0 * rate }

  /** Single-hop alias resolution on the server. */
  function Resolve(t: Table, model: string): string {
    if model in t.aliases then t.aliases[model] else model
  }

  /** The SDK's resolution: an empty alias target is falsy and ignored. */
  function SdkResolve(t: Table, model: string): string {
    if model in t.aliases && t.aliases[model] != "" then t.aliases[model] else model
  }

  function CachedTokens(input: nat, cacheRead: nat): nat { Min(cacheRead, input) }

  function UncachedTokens(input: nat, cacheRead: nat): nat { Max(input - cacheRead, 0) }

  /** Cost of the three portions before any rounding. */
  function ExactCosts(p: ModelPrice, input: nat, output: nat, cacheRead: nat): (c: Costs)
    ensures c.total == c.input + c.output + c.cacheRead
  {
    var cacheCost := match p.cacheReadPer1k
      case Some(rate) => Charge(CachedTokens(input, cacheRead), rate)
      case None => 0.0;
    var inputCost := if p.cacheReadPer1k.Some?
                     then Charge(UncachedTokens(input, cacheRead), p.inputPer1k)
                     else Charge(input, p.inputPer1k);
    var outputCost := Charge(output, p.outputPer1k);
    Costs(inputCost, outputCost, inputCost + outputCost + cacheCost, cacheCost)
  }

  /** What gets stored: each portion rounded, then the sum of the rounded portions rounded again. */
  function RoundedCosts(c: Costs): Costs {
    Costs(Round6(c.input), Round6(c.output), Round6(Round6(c.input) + Round6(c.output) + Round6(c.cacheRead)),
        Round6(c.cacheRead))
  }

  /** The server price as a function of table and tokens; `Pricer.Price` computes exactly this. */
  function PriceOf(t: Table, model: string, input: nat, output: nat, cacheRead: nat): Priced {
    var canonical := Resolve(t, model);
    Priced(canonical,
           if canonical in t.models
           then Some(RoundedCosts(ExactCosts(t.models[canonical], input, output, cacheRead)))
           else None)
  }

  /** The SDK's price of a call. */
  function CalculateCost(t: Table, model: string, input: nat, output: nat): real {
    var canonical := SdkResolve(t, model);
    if canonical !in t.models then 0.0
    else
      var p := t.models[canonical];
      JsRound6(Charge(input, p.inputPer1k) + Charge(output, p.outputPer1k))
  }

  /** The server-side pricer.  Its only mutable state is the set of models it has already warned about. */
  class Pricer {
    const table: Table
    var warned: set<string>

    constructor (t: Table)
      ensures table == t && warned == {}
    {
      table := t;
      warned := {};
    }

    /** The price does not depend on `warned`; an unknown model is warned about at most once. */
    method Price(model: string, inputTokens: nat, outputTokens: nat, cacheReadTokens: nat)
        returns (priced: Priced, warning: bool)
      modifies this`warned
      ensures priced == PriceOf(table, model, inputTokens, outputTokens, cacheReadTokens)
      ensures warned == if priced.costs.None? then old(warned) + {priced.canonicalModel} else old(warned)
      ensures warning <==> warned != old(warned)
    {
      var canonical := Resolve(table, model);
      if canonical !in table.models {
        warning := canonical !in warned;
        warned := warned + {canonical};
        return Priced(canonical, None), warning;
      }
      var p := table.models[canonical];
      var cacheRead := Min(cacheReadTokens, inputTokens);
      var nonCacheInput := Max(inputTokens - cacheReadTokens, 0);
      var cacheReadCost := 0.0;
      if p.cacheReadPer1k.Some? {
        cacheReadCost := Charge(cacheRead, p.cacheReadPer1k.value);
      }
      var inputCost := if p.cacheReadPer1k.Some? then Charge(nonCacheInput, p.inputPer1k)
          else Charge(inputTokens, p.inputPer1k);
      var outputCost := Charge(outputTokens, p.outputPer1k);
      inputCost, outputCost, cacheReadCost := Round6(inputCost), Round6(outputCost), Round6(cacheReadCost);
      priced := Priced(canonical,
          Some(Costs(inputCost, outputCost, Round6(inputCost + outputCost + cacheReadCost), cacheReadCost)));
      warning := false;
    }
  }

  // ---------------------------------------------------------------- rounding

  lemma MicrosOfWhole(n: int)
    ensures Micros(n as real / 1000000.0) == n
  {
    var y := n as real / 1000000.0 * 1000000.0;
    assert y == n as real;
    if n < 0 {
      assert (0.5 - y).Floor == -n;
    }
  }

  /** Rounding an already-rounded sum changes nothing, so the stored total is the sum of its stored parts. */
  lemma TotalIsSumOfParts(c: Costs)
    ensures var r := RoundedCosts(c); r.total == r.input + r.output + r.cacheRead
  {
    var n := Micros(c.input) + Micros(c.output) + Micros(c.cacheRead);
    assert Round6(c.input) + Round6(c.output) + Round6(c.cacheRead) == n as real / 1000000.0;
    MicrosOfWhole(n);
  }

  /** Every token is billed exactly once: as cached or as uncached. */
  lemma TokensAreConserved(input: nat, cacheRead: nat)
    ensures CachedTokens(input, cacheRead) + UncachedTokens(input, cacheRead) == input
  {}

  /** Rounding moves each of the three portions by at most half a micro-dollar. */
  lemma RoundingError(c: Costs)
    requires c.total == c.input + c.output + c.cacheRead
    ensures -0.0000015 <= RoundedCosts(c).total - c.total <= 0.0000015
  {
    TotalIsSumOfParts(c);
  }

  lemma FullRateSplits(whole: nat, part: nat, rate: real)
    requires part <= whole
    ensures Charge(whole - part, rate) + Charge(part, rate) == Charge(whole, rate)
  {
    var a, b := (whole - part) as real / 1000.0, part as real / 1000.0;
    assert a + b == whole as real / 1000.0;
    assert (a + b) * rate == a * rate + b * rate;
  }

  /** What tokens cost at a rate in dollars per thousand. */
  function Due(tokens: nat, rate: real): real { tokens as real * rate / 1000.0 }

  lemma ChargeIsDue(tokens: nat, rate: real)
    ensures Charge(tokens, rate) == Due(tokens, rate)
  {}

  /** A thousand tokens cost the rate, and costs add up. */
  lemma DueIsPerThousand(a: nat, b: nat, rate: real)
    ensures Due(1000, rate) == rate && Due(a + b, rate) == Due(a, rate) + Due(b, rate)
  {
    assert (a + b) as real * rate == a as real * rate + b as real * rate;
  }

  /** Within so many millionths of a dollar. */
  predicate Within(x: real, y: real, micros: real) { -micros <= (x - y) * 1000000.0 <= micros }

  /** Exactly halfway, the server rounds away from zero and the SDK upwards. */
  lemma HalvesRound(n: int)
    requires n >= 0
    ensures var x := (n as real + 0.5) / 1000000.0;
            Micros(x) == JsMicros(x) == n + 1 && Micros(-x) == -(n + 1) && JsMicros(-x) == -n
  {
    var x := (n as real + 0.5) / 1000000.0;
    assert x * 1000000.0 == n as real + 0.5;
    assert -x * 1000000.0 == -(n as real + 0.5);
  }

  /** How many of the input tokens the provider read from its cache; it cannot have read more than there were. */
  function Cached(input: nat, cacheRead: nat): nat { if cacheRead < input then cacheRead else input }

  /**
   Each stored part is its own tokens at their own rate, to the nearest micro-dollar: cached tokens at the cache rate if
   there is one, and then not among the input; all input at the full rate otherwise.
   */
  lemma StoredPartsAreAccurate(t: Table, model: string, input: nat, output: nat, cacheRead: nat)
    requires Resolve(t, model) in t.models
    ensures PriceOf(t, model, input, output, cacheRead).costs.Some?
    ensures var c, p := PriceOf(t, model, input, output, cacheRead).costs.value, t.models[Resolve(t, model)];
            var cached := Cached(input, cacheRead);
            && c.total == c.input + c.output + c.cacheRead
            && Within(c.output, Due(output, p.outputPer1k), 0.5)
            && match p.cacheReadPer1k
               case Some(rate) =>
                 Within(c.input, Due(input - cached, p.inputPer1k), 0.5) && Within(c.cacheRead, Due(cached, rate), 0.5)
               case None => Within(c.input, Due(input, p.inputPer1k), 0.5) && c.cacheRead == 0.0
  {
    var p := t.models[Resolve(t, model)];
    var e := ExactCosts(p, input, output, cacheRead);
    assert PriceOf(t, model, input, output, cacheRead).costs == Some(RoundedCosts(e));
    TotalIsSumOfParts(e);
    ChargeIsDue(output, p.outputPer1k);
    ChargeIsDue(input, p.inputPer1k);
    ChargeIsDue(UncachedTokens(input, cacheRead), p.inputPer1k);
    if p.cacheReadPer1k.Some? {
      ChargeIsDue(CachedTokens(input, cacheRead), p.cacheReadPer1k.value);
    } else {
      MicrosOfWhole(0);
    }
    RoundedNear(e.input);
    RoundedNear(e.output);
    RoundedNear(e.cacheRead);
  }

  lemma RoundedNear(x: real)
    ensures Within(Round6(x), x, 0.5)
  {}

  /** What a call owes: cached tokens at the cache rate when there is one, every other token at the full rate. */
  function Owed(p: ModelPrice, input: nat, output: nat, cacheRead: nat): real {
    var cached := Cached(input, cacheRead);
    var cacheRate := if p.cacheReadPer1k.Some? then p.cacheReadPer1k.value else p.inputPer1k;
    Due(input - cached, p.inputPer1k) + Due(cached, cacheRate) + Due(output, p.outputPer1k)
  }

  /** A known model is always priced; the stored price is the sum of its stored parts and near what the tokens owe. */
  lemma StoredPriceIsAccurate(t: Table, model: string, input: nat, output: nat, cacheRead: nat)
    requires Resolve(t, model) in t.models
    ensures PriceOf(t, model, input, output, cacheRead).costs.Some?
    ensures var c, p := PriceOf(t, model, input, output, cacheRead).costs.value, t.models[Resolve(t, model)];
            c.total == c.input + c.output + c.cacheRead && Within(c.total, Owed(p, input, output, cacheRead), 1.5)
  {
    var p, cached := t.models[Resolve(t, model)], Cached(input, cacheRead);
    StoredPartsAreAccurate(t, model, input, output, cacheRead);
    DueIsPerThousand(input - cached, cached, p.inputPer1k);
  }

  /** The SDK's price of a known model is what its tokens cost at the full rates; an unknown model costs nothing. */
  lemma SdkPriceIsAccurate(t: Table, model: string, input: nat, output: nat)
    ensures var cost, name := CalculateCost(t, model, input, output), SdkResolve(t, model);
            if name in t.models
            then Within(cost, Due(input, t.models[name].inputPer1k) + Due(output, t.models[name].outputPer1k), 0.5)
            else cost == 0.0
  {
    var name := SdkResolve(t, model);
    if name in t.models {
      ChargeIsDue(input, t.models[name].inputPer1k);
      ChargeIsDue(output, t.models[name].outputPer1k);
    }
  }

  // ---------------------------------------------------------------- aliases

  /** No alias points at an alias of another name: resolving is done after one hop. */
  ghost predicate ChainFree(t: Table) {
    forall m :: m in t.aliases && t.aliases[m] in t.aliases ==> t.aliases[t.aliases[m]] == t.aliases[m]
  }

  /** An alias of the empty name, which the SDK ignores and the server follows. */
  predicate EmptyAlias(t: Table, model: string) { model in t.aliases && t.aliases[model] == "" && model != "" }

  /** The two sides look up the same entry exactly if the model is no alias of the empty name. */
  lemma SameEntryExactly(t: Table, model: string)
    ensures Resolve(t, model) == SdkResolve(t, model) <==> !EmptyAlias(t, model)
  {}

  lemma ResolveTwice(t: Table, model: string)
    requires ChainFree(t)
    ensures Resolve(t, Resolve(t, model)) == Resolve(t, model)
  {}

  /**
   An SDK prices the model name it ships; the server prices what it received.  Whatever the table, for a known model
   that is no alias of the empty name, with no cached tokens or no cache rate, the totals differ by at most one
   micro-dollar.
   */
  lemma ServerAgreesWithSdk(t: Table, shipped: string, input: nat, output: nat, cacheRead: nat)
    requires !EmptyAlias(t, shipped) && Resolve(t, shipped) in t.models
    requires cacheRead == 0 || t.models[Resolve(t, shipped)].cacheReadPer1k.None?
    ensures var priced := PriceOf(t, shipped, input, output, cacheRead);
            && priced.costs.Some?
            && -0.000001 <= priced.costs.value.total - CalculateCost(t, shipped, input, output) <= 0.000001
  {
    SameEntryExactly(t, shipped);
    var p := t.models[Resolve(t, shipped)];
    var e := ExactCosts(p, input, output, cacheRead);
    NothingCached(p, input, output, cacheRead);
    assert PriceOf(t, shipped, input, output, cacheRead).costs == Some(RoundedCosts(e));
    assert CalculateCost(t, shipped, input, output) == JsRound6(e.input + e.output);
    TwoRoundingsAgree(e);
  }

  lemma NothingCached(p: ModelPrice, input: nat, output: nat, cacheRead: nat)
    requires cacheRead == 0 || p.cacheReadPer1k.None?
    ensures var e := ExactCosts(p, input, output, cacheRead);
            e.cacheRead == 0.0 && e.input == Charge(input, p.inputPer1k) && e.output == Charge(output, p.outputPer1k)
  {}

  lemma TwoRoundingsAgree(c: Costs)
    requires c.cacheRead == 0.0
    ensures -0.000001 <= RoundedCosts(c).total - JsRound6(c.input + c.output) <= 0.000001
  {
    TotalIsSumOfParts(c);
    MicrosOfWhole(0);
    var server, sdk := Micros(c.input) + Micros(c.output), JsMicros(c.input + c.output);
    assert -1.5 <= server as real - sdk as real <= 1.5;
    assert -1 <= server - sdk <= 1;
  }
}
