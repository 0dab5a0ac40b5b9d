/** What preparing and settling an AI call does, on the rates of its price row and the columns of the
    wallet. */
module ChargeEffects {
  import opened Wrappers
  import opened Money
  import opened Bank
  import opened WalletEffects
  import opened Charging
  import opened Pricing

  // ---- prepare

  /** Unenforced, a ticket and nothing else. Otherwise a ticket exactly where the model has a price, the
      policy admits the call, and the wallet takes a reservation of its estimate, or of the smallest
      amount for a call that is estimated to cost nothing. */
  ghost predicate PrepareEffect(b: Bank, b': Bank, t: TenantId, price: Option<PriceRow>, enforced: bool, admitted: bool,
                                prompt: nat, maxCompletion: nat, expiresAt: int, ticket: Option<Ticket>)
  {
    if !enforced then b' == b && ticket == Some(Ticket(t, false, None, price, prompt, maxCompletion))
    else if price.None? || !admitted then b' == b && ticket == None
    else exists estimate, refusal ::
      && Estimates(price.value.customer, prompt, maxCompletion, estimate)
      && ReserveEffect(b, b', t, if estimate > 0.0 then estimate else 1.0, expiresAt, refusal)
      && ticket == if refusal.Some? then None
                   else Some(Ticket(t, true, Some(|b.holds|), price, prompt, maxCompletion))
  }

  lemma PrepareExactly(m: Meter, t: TenantId, price: Option<PriceRow>, enforced: bool, admitted: bool,
                       prompt: nat, maxCompletion: nat, expiresAt: int)
    ensures var m' := Prepare(m, t, price, enforced, admitted, prompt, maxCompletion, expiresAt);
      && m'.logs == m.logs && m'.tickets[..|m.tickets|] == m.tickets <= m'.tickets
      && |m'.tickets| <= |m.tickets| + 1
      && PrepareEffect(m.bank, m'.bank, t, price, enforced, admitted, prompt, maxCompletion, expiresAt,
                       if |m'.tickets| == |m.tickets| then None else Some(m'.tickets[|m.tickets|]))
  {
    if enforced && price.Some? && admitted {
      var estimate := EstimateCharge(price.value, prompt, maxCompletion);
      EstimateExactly(price.value, prompt, maxCompletion, estimate);
      ReserveExactly(m.bank, t, if estimate > 0.0 then estimate else 1.0, expiresAt);
      hide EstimateCharge, ReserveEffect, Reserve, Estimates;
      var m' := Prepare(m, t, price, enforced, admitted, prompt, maxCompletion, expiresAt);
      var refusal := match Reserve(m.bank, t, if estimate > 0.0 then estimate else 1.0, expiresAt)
        case Success(_) => None
        case Failure(e) => Some(e);
      assert ReserveEffect(m.bank, m'.bank, t, if estimate > 0.0 then estimate else 1.0, expiresAt, refusal);
    }
  }

  // ---- settle

  /** The wallet moves by the charge, if the call was a success and held something, and one log row
      with cost and charge is written unless the wallet refuses. */
  ghost predicate SettledAt(
      b: Bank, b': Bank, logs: seq<UsageLog>, logs': seq<UsageLog>, k: Ticket, success: bool,
      provider: real, charge: real, refusal: Option<Refusal>)
    requires WellFormed(b)
  {
    && (if k.hold.None? then b' == b && refusal == None
        else if success then FinalizeEffect(b, b', k.hold.value, charge, refusal)
        else ReleaseEffect(b, b', k.hold.value, Released, refusal))
    && logs' == if refusal.Some? then logs else logs + [UsageLog(
         k.tenant, Stored(provider),
         if success && k.billed then Stored(charge) else 0,
         if success && k.billed then Stored(charge - provider) else Stored(-provider),
         k.hold,
         if !success then FailedLog else if k.hold.Some? then ChargedLog else UnbilledLog)]
  }

  /** The cost and the charge are those of the usage at the ticket's prices. */
  predicate CostsAt(k: Ticket, u: Usage, provider: real, charge: real) {
    if k.price.Some? then Costs(k.price.value.provider, u, provider) && Costs(k.price.value.customer, u, charge)
    else provider == charge == 0.0
  }

  ghost predicate SettleEffect(
      b: Bank, b': Bank, logs: seq<UsageLog>, logs': seq<UsageLog>, k: Ticket, success: bool, u: Usage)
    requires WellFormed(b)
  {
    exists provider, charge, refusal ::
      CostsAt(k, u, provider, charge) && SettledAt(b, b', logs, logs', k, success, provider, charge, refusal)
  }

  lemma CostOfExactly(k: Ticket, u: Usage)
    ensures var c := CostOf(k, u); CostsAt(k, u, c.provider, c.charge) && c.margin == c.charge - c.provider
  {
    hide Costs, ComputeCost;
    if k.price.Some? { CostExactly(k.price.value, u, CostOf(k, u)); }
  }

  lemma SettleExactly(m: Meter, i: nat, success: bool, u: Usage)
    requires WellFormed(m.bank) && i < |m.tickets|
    ensures var m' := Settle(m, i, success, u);
      m'.tickets == m.tickets && SettleEffect(m.bank, m'.bank, m.logs, m'.logs, m.tickets[i], success, u)
  {
    var k := m.tickets[i];
    CostOfExactly(k, u);
    var c := CostOf(k, u);
    hide CostsAt, CostOf, FinalizeEffect, ReleaseEffect, Finalize, Release, Stored;
    var m', refusal: Option<Refusal> := Settle(m, i, success, u), None;
    if k.hold.Some? {
      FinalizeExactly(m.bank, k.hold.value, c.charge);
      ReleaseExactly(m.bank, k.hold.value, Released);
      refusal := match (if success then Finalize(m.bank, k.hold.value, c.charge)
                        else Release(m.bank, k.hold.value, Released))
        case Success(_) => None
        case Failure(e) => Some(e);
    }
    StoredWhole(0);
    assert SettledAt(m.bank, m'.bank, m.logs, m'.logs, k, success, c.provider, c.charge, refusal);
  }
}
