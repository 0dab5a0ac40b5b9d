/** The billing touchpoint of an AI call: prepare reserves an estimate, settle charges the actual
    cost or releases the hold, and writes the usage log. */
module Charging {
  import opened Wrappers
  import opened Money
  import opened Bank
  import opened LedgerTotals
  import opened BankInvariant
  import Pricing

  /** What `prepare` hands to `settle`. The row and estimate are kept to state how far a charge
      may exceed its hold. */
  datatype Ticket = Ticket(
    tenant: TenantId, billed: bool, hold: Option<nat>, price: Option<Pricing.PriceRow>,
    prompt: nat, maxCompletion: nat)

  datatype LogStatus = ChargedLog | FailedLog | UnbilledLog

  datatype UsageLog = UsageLog(
    tenant: TenantId, cost: int, charge: int, margin: int, hold: Option<nat>, status: LogStatus)

  datatype Meter = Meter(bank: Bank, tickets: seq<Ticket>, logs: seq<UsageLog>)

  /** `prepare`. `admitted` is the access policy's answer. A refusal leaves everything as it was. */
  function Prepare(m: Meter, t: TenantId, price: Option<Pricing.PriceRow>, enforced: bool, admitted: bool,
                   prompt: nat, maxCompletion: nat, expiresAt: int): Meter
  {
    if !enforced then m.(tickets := m.tickets + [Ticket(t, false, None, price, prompt, maxCompletion)])
    else if price.None? || !admitted then m
    else
      var estimate := Pricing.EstimateCharge(price.value, prompt, maxCompletion);
      match Reserve(m.bank, t, if estimate > 0.0 then estimate else 1.0, expiresAt)
      case Failure(_) => m
      case Success(bank) =>
        Meter(bank, m.tickets + [Ticket(t, true, Some(|m.bank.holds|), price, prompt, maxCompletion)], m.logs)
  }

  function CostOf(k: Ticket, u: Pricing.Usage): Pricing.Cost {
    if k.price.Some? then Pricing.ComputeCost(k.price.value, u) else Pricing.Cost(0.0, 0.0, 0.0)
  }

  function LogFor(k: Ticket, u: Pricing.Usage, success: bool, status: LogStatus): UsageLog {
    var cost := CostOf(k, u);
    UsageLog(k.tenant, Stored(cost.provider),
             if success && k.billed then Stored(cost.charge) else 0,
             if success && k.billed then Stored(cost.margin) else Stored(-cost.provider),
             k.hold, status)
  }

  /** `settle`: any refusal is caught and leaves neither a charge nor a log row. The log insert
      after a finalize is taken to succeed. */
  function Settle(m: Meter, i: nat, success: bool, u: Pricing.Usage): Meter
    requires WellFormed(m.bank)
  {
    if i >= |m.tickets| then m
    else
      var k := m.tickets[i];
      if k.hold.None? then
        m.(logs := m.logs + [LogFor(k, u, success, if success then UnbilledLog else FailedLog)])
      else
        match (if success then Finalize(m.bank, k.hold.value, CostOf(k, u).charge)
               else Release(m.bank, k.hold.value, Released))
        case Failure(_) => m
        case Success(bank) =>
          Meter(bank, m.tickets, m.logs + [LogFor(k, u, success, if success then ChargedLog else FailedLog)])
  }

  // ---- what every call keeps

  function LoggedCharges(logs: seq<UsageLog>, t: TenantId): int {
    if logs == [] then 0
    else
      var l := logs[|logs| - 1];
      LoggedCharges(logs[..|logs| - 1], t) + if l.tenant == t then l.charge else 0
  }

  ghost predicate TicketValid(k: Ticket, holds: seq<Hold>) {
    && (k.billed <==> k.hold.Some?)
    && (k.hold.Some? ==>
         && k.price.Some? && k.hold.value < |holds| && holds[k.hold.value].tenant == k.tenant
         && Pricing.EstimateCharge(k.price.value, k.prompt, k.maxCompletion)
            <= holds[k.hold.value].amount as real + 0.5)
  }

  /** Charged rows are for distinct finalized holds. */
  ghost predicate ChargedOnce(logs: seq<UsageLog>, holds: seq<Hold>) {
    && (forall i :: 0 <= i < |logs| && logs[i].status == ChargedLog ==>
          logs[i].hold.Some? && logs[i].hold.value < |holds| && holds[logs[i].hold.value].status == Finalized)
    && (forall i, j :: 0 <= i < j < |logs| && logs[i].status == ChargedLog && logs[j].status == ChargedLog ==>
          logs[i].hold != logs[j].hold)
  }

  /** The stored margin is the stored charge less the stored cost, up to the one unit by which
      rounding three columns separately can differ. */
  ghost predicate MarginAgrees(l: UsageLog) { -1 <= l.margin - (l.charge - l.cost) <= 1 }

  ghost predicate MeterInv(m: Meter) {
    && (forall k :: k in m.tickets ==> TicketValid(k, m.bank.holds))
    && ChargedOnce(m.logs, m.bank.holds)
    && (forall l :: l in m.logs ==> MarginAgrees(l))
    && (forall t :: LoggedCharges(m.logs, t) == HoldTotal(m.bank.holds, t, Settled))
  }

  lemma MarginWithinOne(k: Ticket, u: Pricing.Usage, success: bool, status: LogStatus)
    ensures MarginAgrees(LogFor(k, u, success, status))
  {
    var c := CostOf(k, u);
    StoredNearest(c.charge);
    StoredNearest(c.provider);
    StoredNearest(c.margin);
    StoredNegates(c.provider);
  }

  // ---- the margin column

  /** What of x is beyond its sixth decimal, counted upwards. */
  function Fraction(x: real): real { x - x.Floor as real }

  /** A fraction is rounded up: above half, or half of a positive amount. */
  predicate RoundsUp(fraction: real, positive: bool) { fraction > 0.5 || (fraction == 0.5 && positive) }

  function Bit(b: bool): int { if b then 1 else 0 }

  lemma StoredByFraction(x: real)
    ensures Stored(x) == x.Floor + Bit(RoundsUp(Fraction(x), x > 0.0))
  {
    var k := x.Floor + Bit(RoundsUp(Fraction(x), x > 0.0));
    StoredNearest(x);
    if Fraction(x) != 0.5 { StoredUnique(x, k); }
  }

  /** From the fractions of charge and cost beyond the sixth decimal: the margin's fraction, which is
      their difference with or without a unit borrowed, is rounded as theirs are. */
  predicate RoundingsAgree(charge: real, provider: real) {
    var f, g := Fraction(charge), Fraction(provider);
    var borrowed := Bit(f < g);
    Bit(RoundsUp(f - g + borrowed as real, charge > provider)) - borrowed
      == Bit(RoundsUp(f, charge > 0.0)) - Bit(RoundsUp(g, provider > 0.0))
  }

  lemma FractionOfDifference(x: real, y: real)
    ensures var borrowed := Bit(Fraction(x) < Fraction(y));
      && (x - y).Floor == x.Floor - y.Floor - borrowed
      && Fraction(x - y) == Fraction(x) - Fraction(y) + borrowed as real
  {
    var k := x.Floor - y.Floor - Bit(Fraction(x) < Fraction(y));
    assert k as real <= x - y < k as real + 1.0;
  }

  lemma MarginRounding(charge: real, provider: real)
    ensures Stored(charge - provider) == Stored(charge) - Stored(provider) <==> RoundingsAgree(charge, provider)
  {
    hide Fraction, Stored, RoundsUp;
    StoredByFraction(charge);
    StoredByFraction(provider);
    StoredByFraction(charge - provider);
    FractionOfDifference(charge, provider);
  }

  /** "margin = charge - cost" holds of a usage log row if and only if it is the row of an unbilled or
      failed call, or the fractions of its charge and cost round alike. */
  lemma MarginExactly(k: Ticket, u: Pricing.Usage, success: bool, status: LogStatus)
    ensures var l, c := LogFor(k, u, success, status), CostOf(k, u);
      l.margin == l.charge - l.cost <==> (success && k.billed ==> RoundingsAgree(c.charge, c.provider))
  {
    hide Stored, RoundingsAgree;
    var c := CostOf(k, u);
    MarginRounding(c.charge, c.provider);
    StoredNegates(c.provider);
  }

  /** Without negative amounts: the fractions are on the same side of half, or at least half apart
      with the difference of exactly half decided by the sign of the margin. */
  lemma RoundingsAgreeExactly(charge: real, provider: real)
    requires charge >= 0.0 && provider >= 0.0
    ensures var f, g := Fraction(charge), Fraction(provider);
      RoundingsAgree(charge, provider) <==>
        || (f >= 0.5 <==> g >= 0.5)
        || f - g > 0.5 || g - f > 0.5
        || (f - g == 0.5 && charge > provider) || (g - f == 0.5 && charge < provider)
  {}

  lemma LogAppended(logs: seq<UsageLog>, l: UsageLog, t: TenantId)
    ensures LoggedCharges(logs + [l], t) == LoggedCharges(logs, t) + if l.tenant == t then l.charge else 0
  {
    assert (logs + [l])[..|logs|] == logs;
  }

  lemma ReserveKeepsTickets(m: Meter, t: TenantId, amount: real, expiresAt: int)
    requires MeterInv(m) && Reserve(m.bank, t, amount, expiresAt).Success?
    ensures MeterInv(m.(bank := Reserve(m.bank, t, amount, expiresAt).value))
  {
    var hs, hold := m.bank.holds, Hold(t, Stored(amount), Held, expiresAt, 0);
    var bank := Reserve(m.bank, t, amount, expiresAt).value;
    assert bank.holds == hs + [hold];
    hide Reserve, Stored;
    OneMoreHoldKeeps(m, bank, hold);
  }

  lemma OneMoreHoldKeeps(m: Meter, bank: Bank, hold: Hold)
    requires MeterInv(m) && bank.holds == m.bank.holds + [hold] && hold.status == Held
    ensures MeterInv(m.(bank := bank))
  {
    var hs := m.bank.holds;
    forall u ensures HoldTotal(bank.holds, u, Settled) == HoldTotal(hs, u, Settled) {
      HoldTotalAppend(hs, hold, u, Settled);
    }
    forall k | k in m.tickets ensures TicketValid(k, bank.holds) {
      assert TicketValid(k, hs);
    }
  }

  lemma PrepareKeeps(m: Meter, t: TenantId, price: Option<Pricing.PriceRow>, enforced: bool, admitted: bool,
                     prompt: nat, maxCompletion: nat, expiresAt: int)
    requires Inv(m.bank) && MeterInv(m)
    ensures var m' := Prepare(m, t, price, enforced, admitted, prompt, maxCompletion, expiresAt);
      Inv(m'.bank) && MeterInv(m')
  {
    if enforced && price.Some? && admitted {
      var estimate := Pricing.EstimateCharge(price.value, prompt, maxCompletion);
      var amount := if estimate > 0.0 then estimate else 1.0;
      if Reserve(m.bank, t, amount, expiresAt).Success? {
        ReserveKeepsInv(m.bank, t, amount, expiresAt);
        ReserveKeepsTickets(m, t, amount, expiresAt);
        StoredNearest(amount);
      }
    }
  }

  /** A hold changes status without moving: its tenant and amount stay, and a finalized one
      stays finalized. */
  ghost predicate HoldsProgress(hs: seq<Hold>, hs': seq<Hold>) {
    |hs'| == |hs| && forall i :: 0 <= i < |hs| ==>
      hs'[i].tenant == hs[i].tenant && hs'[i].amount == hs[i].amount && (hs[i].status != Held ==> hs'[i] == hs[i])
  }

  lemma ReleaseKeepsMeter(m: Meter, i: nat, status: HoldStatus)
    requires MeterInv(m) && WellFormed(m.bank) && Release(m.bank, i, status).Success? && status != Finalized
    ensures MeterInv(m.(bank := Release(m.bank, i, status).value))
  {
    var hs, hs' := m.bank.holds, Release(m.bank, i, status).value.holds;
    if hs[i].status == Held {
      forall u ensures HoldTotal(hs', u, Settled) == HoldTotal(hs, u, Settled) {
        HoldTotalUpdate(hs, i, hs[i].(status := status), u, Settled);
      }
    }
    assert HoldsProgress(hs, hs');
  }

  lemma FinalizeHolds(b: Bank, i: nat, charge: real)
    requires WellFormed(b) && Finalize(b, i, charge).Success?
    ensures Finalize(b, i, charge).value.holds
         == b.holds[i := b.holds[i].(status := Finalized, charged := Stored(charge))]
  {}

  lemma ChargedRowKeeps(m: Meter, bank: Bank, i: nat, charge: real, row: UsageLog)
    requires MeterInv(m) && i < |m.bank.holds| && m.bank.holds[i].status == Held
    requires bank.holds == m.bank.holds[i := m.bank.holds[i].(status := Finalized, charged := Stored(charge))]
    requires row.tenant == m.bank.holds[i].tenant && row.charge == Stored(charge)
    requires row.hold == Some(i) && row.status == ChargedLog && MarginAgrees(row)
    ensures MeterInv(Meter(bank, m.tickets, m.logs + [row]))
  {
    var hs, h' := m.bank.holds, bank.holds[i];
    forall t ensures LoggedCharges(m.logs + [row], t) == HoldTotal(bank.holds, t, Settled) {
      HoldTotalUpdate(hs, i, h', t, Settled);
      LogAppended(m.logs, row, t);
    }
    assert HoldsProgress(hs, bank.holds) by {
      forall j | 0 <= j < |hs| ensures bank.holds[j].tenant == hs[j].tenant && bank.holds[j].amount == hs[j].amount
        && (hs[j].status != Held ==> bank.holds[j] == hs[j]) {}
    }
    TicketsSurvive(m.tickets, hs, bank.holds);
  }

  lemma TicketsSurvive(tickets: seq<Ticket>, hs: seq<Hold>, hs': seq<Hold>)
    requires HoldsProgress(hs, hs') && forall k :: k in tickets ==> TicketValid(k, hs)
    ensures forall k :: k in tickets ==> TicketValid(k, hs')
  {}

  lemma UnchargedRowKeeps(m: Meter, row: UsageLog)
    requires MeterInv(m) && row.charge == 0 && row.status != ChargedLog && MarginAgrees(row)
    ensures MeterInv(m.(logs := m.logs + [row]))
  {
    forall t ensures LoggedCharges(m.logs + [row], t) == LoggedCharges(m.logs, t) {
      LogAppended(m.logs, row, t);
    }
  }

  lemma SettleKeeps(m: Meter, i: nat, success: bool, u: Pricing.Usage)
    requires Inv(m.bank) && MeterInv(m)
    ensures Inv(Settle(m, i, success, u).bank) && MeterInv(Settle(m, i, success, u))
  {
    if i < |m.tickets| {
      var k := m.tickets[i];
      assert TicketValid(k, m.bank.holds);
      if k.hold.None? {
        var status := if success then UnbilledLog else FailedLog;
        MarginWithinOne(k, u, success, status);
        UnchargedRowKeeps(m, LogFor(k, u, success, status));
      } else if success {
        SettleChargeKeeps(m, i, u);
      } else if Release(m.bank, k.hold.value, Released).Success? {
        ReleaseKeepsInv(m.bank, k.hold.value, Released);
        ReleaseKeepsMeter(m, k.hold.value, Released);
        MarginWithinOne(k, u, false, FailedLog);
        UnchargedRowKeeps(m.(bank := Release(m.bank, k.hold.value, Released).value), LogFor(k, u, false, FailedLog));
      }
    }
  }

  lemma SettleChargeKeeps(m: Meter, i: nat, u: Pricing.Usage)
    requires Inv(m.bank) && MeterInv(m) && i < |m.tickets| && m.tickets[i].hold.Some?
    ensures Inv(Settle(m, i, true, u).bank) && MeterInv(Settle(m, i, true, u))
  {
    var k := m.tickets[i];
    var h, charge := k.hold.value, CostOf(k, u).charge;
    assert TicketValid(k, m.bank.holds);
    if Finalize(m.bank, h, charge).Success? {
      FinalizeKeepsInv(m.bank, h, charge);
      FinalizeHolds(m.bank, h, charge);
      MarginWithinOne(k, u, true, ChargedLog);
      ChargedRowKeeps(m, Finalize(m.bank, h, charge).value, h, charge, LogFor(k, u, true, ChargedLog));
    }
  }

  // ---- what follows

  /** The money trail: usage logs, the wallet's lifetime consumption and the ledger agree. */
  lemma MoneyTrailAgrees(m: Meter, t: TenantId)
    requires Inv(m.bank) && MeterInv(m)
    ensures LoggedCharges(m.logs, t) == WalletOf(m.bank, t).consumed == -Total(m.bank.ledger, t, OfKind(UsageCharge))
  {
    WalletOfBalances(m.bank, t);
    MagnitudeBySign(m.bank.ledger, t, UsageCharge);
  }

  /** A settle after the hold has left the active state moves no money: a successful one does nothing
      at all, a failed one adds a FAILED log row that charges nothing. */
  lemma LateSettleMovesNoMoney(m: Meter, i: nat, u: Pricing.Usage)
    requires WellFormed(m.bank) && i < |m.tickets| && m.tickets[i].hold.Some?
    requires m.tickets[i].hold.value < |m.bank.holds| && m.bank.holds[m.tickets[i].hold.value].status != Held
    ensures Settle(m, i, true, u) == m
    ensures var row := LogFor(m.tickets[i], u, false, FailedLog);
      Settle(m, i, false, u) == m.(logs := m.logs + [row]) && row.charge == 0
  {}

  /** At prices that are not negative, a successful call's settle charges its cost if and only if the
      hold is active and the wallet open, or the cost nothing; otherwise it leaves no trace. */
  lemma SettleChargesExactly(m: Meter, i: nat, u: Pricing.Usage)
    requires WellFormed(m.bank) && MeterInv(m) && i < |m.tickets| && m.tickets[i].hold.Some?
    requires m.tickets[i].price.Some? && Pricing.NonNegative(m.tickets[i].price.value.customer)
    ensures var k, charge := m.tickets[i], CostOf(m.tickets[i], u).charge;
      var h, m' := k.hold.value, Settle(m, i, true, u);
      && h < |m.bank.holds| && m.bank.holds[h].tenant in m.bank.wallets
      && if m.bank.holds[h].status == Held
            && (charge == 0.0 || m.bank.wallets[m.bank.holds[h].tenant].status != Closed)
         then m'.logs == m.logs + [LogFor(k, u, true, ChargedLog)]
              && m'.bank.holds == m.bank.holds[h := m.bank.holds[h].(status := Finalized, charged := Stored(charge))]
         else m' == m
  {
    hide Pricing.ComputeCost, Stored, MeterInv, Charged, EntryFor;
    var k := m.tickets[i];
    HoldOfTicket(m, i);
    Pricing.ChargeNonNegative(k.price.value, u);
  }

  lemma HoldOfTicket(m: Meter, i: nat)
    requires WellFormed(m.bank) && MeterInv(m) && i < |m.tickets| && m.tickets[i].hold.Some?
    ensures m.tickets[i].hold.value < |m.bank.holds|
    ensures m.bank.holds[m.tickets[i].hold.value].tenant in m.bank.wallets
  {
    assert TicketValid(m.tickets[i], m.bank.holds);
    assert m.bank.holds[m.tickets[i].hold.value] in m.bank.holds;
  }

  /** Settling within the estimate overruns the hold by at most the cached and reasoning tokens'
      price and one unit of rounding. */
  lemma OverrunBounded(m: Meter, i: nat, u: Pricing.Usage)
    requires MeterInv(m) && i < |m.tickets| && m.tickets[i].hold.Some? && m.tickets[i].price.Some?
    requires Pricing.NonNegative(m.tickets[i].price.value.customer) && u.embedding == 0 && u.images == 0
    requires u.prompt <= m.tickets[i].prompt && u.completion <= m.tickets[i].maxCompletion
    ensures var k := m.tickets[i];
      var rates := k.price.value.customer;
      && k.hold.value < |m.bank.holds|
      && 1000000.0 * (Stored(CostOf(k, u).charge) - m.bank.holds[k.hold.value].amount) as real
         <= u.cached as real * rates.cached as real + u.reasoning as real * rates.reasoning as real + 1000000.0
  {
    var k := m.tickets[i];
    assert TicketValid(k, m.bank.holds);
    var charge, estimate := CostOf(k, u).charge, Pricing.EstimateCharge(k.price.value, k.prompt, k.maxCompletion);
    Pricing.PricedExactly(k.price.value.customer, u, charge);
    Pricing.EstimateExactly(k.price.value, k.prompt, k.maxCompletion, estimate);
    hide Pricing.Costs, Pricing.Estimates, Pricing.EstimateCharge, Pricing.Priced;
    Pricing.OverrunIsCachedAndReasoning(k.price.value.customer, u, k.prompt, k.maxCompletion, charge, estimate);
    StoredNearest(charge);
  }
}
