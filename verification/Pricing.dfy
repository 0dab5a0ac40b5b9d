/** Provider costs and customer prices per million tokens, and which price row applies. */
module Pricing {
  import opened Wrappers

  /** One side of a price row, in millionths of a credit per million tokens (images per unit). */
  datatype Rates = Rates(input: int, output: int, cached: int, reasoning: int, embedding: int, image: int)

  datatype Scope = TenantScope(tenant: string) | PlanScope(tier: string) | Global

  datatype PriceRow = PriceRow(
    model: string, scope: Scope, enabled: bool, from: int, until: Option<int>, provider: Rates, customer: Rates)

  datatype Usage = Usage(prompt: nat, completion: nat, cached: nat, reasoning: nat, embedding: nat, images: nat)

  datatype Cost = Cost(provider: real, charge: real, margin: real)

  function PerMillion(tokens: nat, rate: int): real { tokens as real * rate as real / 1000000.0 }

  function Priced(r: Rates, u: Usage): real {
    PerMillion(u.prompt, r.input) + PerMillion(u.completion, r.output) + PerMillion(u.cached, r.cached)
    + PerMillion(u.reasoning, r.reasoning) + PerMillion(u.embedding, r.embedding)
    + u.images as real * r.image as real
  }

  /** `computeCost` */
  function ComputeCost(row: PriceRow, u: Usage): Cost {
    var provider, charge := Priced(row.provider, u), Priced(row.customer, u);
    Cost(provider, charge, charge - provider)
  }

  /** `estimateCharge`: the full prompt estimate and the whole completion budget. */
  function EstimateCharge(row: PriceRow, prompt: nat, maxCompletion: nat): real {
    ComputeCost(row, Usage(prompt, maxCompletion, 0, 0, 0, 0)).charge
  }

  predicate NonNegative(r: Rates) {
    r.input >= 0 && r.output >= 0 && r.cached >= 0 && r.reasoning >= 0 && r.embedding >= 0 && r.image >= 0
  }

  // ---- what a price is, on the rates

  /** Tokens are priced per million at the rate of their own kind, images each. */
  predicate Costs(r: Rates, u: Usage, amount: real) {
    1000000.0 * amount
      == u.prompt as real * r.input as real + u.completion as real * r.output as real
         + u.cached as real * r.cached as real + u.reasoning as real * r.reasoning as real
         + u.embedding as real * r.embedding as real + 1000000.0 * (u.images as real * r.image as real)
  }

  lemma MillionTimes(tokens: nat, rate: int)
    ensures 1000000.0 * PerMillion(tokens, rate) == tokens as real * rate as real
  {}

  lemma PricedExactly(r: Rates, u: Usage, amount: real)
    ensures Costs(r, u, amount) <==> amount == Priced(r, u)
  {
    MillionTimes(u.prompt, r.input);
    MillionTimes(u.completion, r.output);
    MillionTimes(u.cached, r.cached);
    MillionTimes(u.reasoning, r.reasoning);
    MillionTimes(u.embedding, r.embedding);
    hide PerMillion;
  }

  /** A call's provider cost and charge are each linear in its usage at the row's rates, and the
      margin is what the charge leaves. */
  lemma CostExactly(row: PriceRow, u: Usage, cost: Cost)
    ensures cost == ComputeCost(row, u) <==>
      && Costs(row.provider, u, cost.provider) && Costs(row.customer, u, cost.charge)
      && cost.margin == cost.charge - cost.provider
  {
    hide Costs, Priced;
    PricedExactly(row.provider, u, cost.provider);
    PricedExactly(row.customer, u, cost.charge);
  }

  /** The estimate prices the prompt at the input rate and the completion budget at the output rate. */
  predicate Estimates(r: Rates, prompt: nat, maxCompletion: nat, estimate: real) {
    1000000.0 * estimate == prompt as real * r.input as real + maxCompletion as real * r.output as real
  }

  lemma EstimateExactly(row: PriceRow, prompt: nat, maxCompletion: nat, estimate: real)
    ensures estimate == EstimateCharge(row, prompt, maxCompletion)
      <==> Estimates(row.customer, prompt, maxCompletion, estimate)
  {
    PricedExactly(row.customer, Usage(prompt, maxCompletion, 0, 0, 0, 0), estimate);
    hide Priced;
  }

  /** A request that stays within its prompt estimate and completion budget overruns the estimate
      by no more than its cached and reasoning tokens cost. */
  lemma OverrunIsCachedAndReasoning(r: Rates, u: Usage, prompt: nat, maxCompletion: nat, charge: real, estimate: real)
    requires NonNegative(r) && u.embedding == 0 && u.images == 0
    requires u.prompt <= prompt && u.completion <= maxCompletion
    requires Costs(r, u, charge) && Estimates(r, prompt, maxCompletion, estimate)
    ensures 1000000.0 * (charge - estimate)
         <= u.cached as real * r.cached as real + u.reasoning as real * r.reasoning as real
  {
    TokensGrow(u.prompt, prompt, r.input);
    TokensGrow(u.completion, maxCompletion, r.output);
  }

  lemma TokensGrow(m: nat, n: nat, rate: int)
    requires m <= n && rate >= 0
    ensures 0.0 <= m as real * rate as real <= n as real * rate as real
  {
    var d, r := (n - m) as real, rate as real;
    assert n as real * r == m as real * r + d * r;
    assert d * r >= 0.0 && m as real * r >= 0.0;
  }

  lemma PerMillionNonNegative(tokens: nat, rate: int)
    requires rate >= 0
    ensures PerMillion(tokens, rate) >= 0.0
  {
    assert tokens as real * rate as real >= 0.0;
  }

  lemma ChargeNonNegative(row: PriceRow, u: Usage)
    requires NonNegative(row.customer)
    ensures ComputeCost(row, u).charge >= 0.0
  {
    hide PerMillion;
    var r := row.customer;
    PerMillionNonNegative(u.prompt, r.input);
    PerMillionNonNegative(u.completion, r.output);
    PerMillionNonNegative(u.cached, r.cached);
    PerMillionNonNegative(u.reasoning, r.reasoning);
    PerMillionNonNegative(u.embedding, r.embedding);
    assert u.images as real * r.image as real >= 0.0;
  }

  // ---- resolvePricing

  predicate InForce(row: PriceRow, model: string, at: int) {
    row.model == model && row.enabled && row.from <= at && (row.until.None? || row.until.value > at)
  }

  /** The query's rows: those in force, latest effective date first. */
  ghost predicate Candidates(rows: seq<PriceRow>, table: set<PriceRow>, model: string, at: int) {
    && (forall row :: row in rows <==> row in table && InForce(row, model, at))
    && forall i, j :: 0 <= i < j < |rows| ==> rows[i].from >= rows[j].from
  }

  method FindScope(rows: seq<PriceRow>, scope: Scope) returns (found: Option<PriceRow>)
    ensures found.Some? ==> found.value in rows && found.value.scope == scope
    ensures found.None? ==> forall row :: row in rows ==> row.scope != scope
    ensures found.Some? && (forall i, j :: 0 <= i < j < |rows| ==> rows[i].from >= rows[j].from) ==>
      forall row :: row in rows && row.scope == scope ==> row.from <= found.value.from
  {
    for i := 0 to |rows|
      invariant forall j :: 0 <= j < i ==> rows[j].scope != scope
    {
      if rows[i].scope == scope {
        return Some(rows[i]);
      }
    }
    return None;
  }

  /** How specific a scope is for this caller; 0 when it does not concern the caller. */
  function Precedence(scope: Scope, tenant: Option<string>, tier: Option<string>): nat {
    match scope
    case TenantScope(t) => if tenant == Some(t) then 3 else 0
    case PlanScope(p) => if tier == Some(p) then 2 else 0
    case Global => 1
  }

  /** `resolvePricing`: of the rows in force that concern the caller, the most specific scope
      wins, and inside it the most recent; no row is returned only when none concerns the caller. */
  method ResolvePricing(rows: seq<PriceRow>, ghost table: set<PriceRow>, model: string, at: int,
                        tenant: Option<string>, tier: Option<string>) returns (best: Option<PriceRow>)
    requires Candidates(rows, table, model, at)
    ensures best.Some? ==>
      && best.value in table && best.value.model == model && best.value.enabled
      && best.value.from <= at && (best.value.until.Some? ==> at < best.value.until.value)
      && Precedence(best.value.scope, tenant, tier) > 0
    ensures forall row ::
      (&& row in table && row.model == model && row.enabled
       && row.from <= at && (row.until.Some? ==> at < row.until.value)) ==>
        var p := Precedence(row.scope, tenant, tier);
        match best
        case None => p == 0
        case Some(found) =>
          var q := Precedence(found.scope, tenant, tier);
          p < q || (p == q && row.from <= found.from)
  {
    if tenant.Some? {
      best := FindScope(rows, TenantScope(tenant.value));
      if best.Some? { return; }
    }
    if tier.Some? {
      best := FindScope(rows, PlanScope(tier.value));
      if best.Some? { return; }
    }
    best := FindScope(rows, Global);
  }
}
