/** Sums over the ledger and over the reservation table, per tenant. */
module LedgerTotals {
  import opened Wrappers
  import opened Money
  import opened Bank

  datatype Measure =
    | Amount                        // the signed amount
    | Drift                         // what rounding added to the balance beyond the amount
    | OfKind(kind: EntryKind)       // the signed amount of one kind
    | Magnitude(kind: EntryKind)    // its absolute value
    | Adjusting                     // kinds mirrored into totalAdjusted
    | NonUsageDebit                 // what left the wallet other than by usage

  predicate IsAdjusting(kind: EntryKind) { kind != Purchase && kind != UsageCharge && kind != Refund }

  function Weigh(m: Measure, e: Entry): int {
    match m
    case Amount => e.amount
    case Drift => e.after - e.before - e.amount
    case OfKind(k) => if e.kind == k then e.amount else 0
    case Magnitude(k) => if e.kind == k then Max(e.amount, -e.amount) else 0
    case Adjusting => if IsAdjusting(e.kind) then e.amount else 0
    case NonUsageDebit => if e.kind != UsageCharge then Max(0, -e.amount) else 0
  }

  function Total(l: seq<Entry>, t: TenantId, m: Measure): int {
    if l == [] then 0
    else
      var e := l[|l| - 1];
      Total(l[..|l| - 1], t, m) + if e.tenant == t then Weigh(m, e) else 0
  }

  lemma TotalAppend(l: seq<Entry>, e: Entry, t: TenantId, m: Measure)
    ensures Total(l + [e], t, m) == Total(l, t, m) + if e.tenant == t then Weigh(m, e) else 0
  {
    assert (l + [e])[..|l|] == l;
  }

  /** The balance the ledger ends on for a tenant. */
  function LastAfter(l: seq<Entry>, t: TenantId): int {
    if l == [] then 0
    else if l[|l| - 1].tenant == t then l[|l| - 1].after
    else LastAfter(l[..|l| - 1], t)
  }

  /** Each entry starts where the tenant's previous one ended. */
  ghost predicate Chained(l: seq<Entry>) {
    forall i :: 0 <= i < |l| ==> l[i].before == LastAfter(l[..i], l[i].tenant)
  }

  lemma ChainedAppend(l: seq<Entry>, e: Entry)
    requires Chained(l) && e.before == LastAfter(l, e.tenant)
    ensures Chained(l + [e])
  {
    forall i | 0 <= i < |l| + 1 ensures (l + [e])[i].before == LastAfter((l + [e])[..i], (l + [e])[i].tenant) {
      assert (l + [e])[..i] == l[..i];
      assert l[..|l|] == l;
    }
  }

  /** An unbroken chain telescopes: the last balance is every amount plus every drift. */
  lemma {:induction false} ChainTelescopes(l: seq<Entry>, t: TenantId)
    requires Chained(l)
    ensures LastAfter(l, t) == Total(l, t, Amount) + Total(l, t, Drift)
  {
    if l != [] {
      var n := |l| - 1;
      forall i | 0 <= i < n ensures l[..n][i].before == LastAfter(l[..n][..i], l[..n][i].tenant) {
        assert l[..n][..i] == l[..i];
      }
      ChainTelescopes(l[..n], t);
    }
  }

  /** The signed amounts split by the lifetime total they are mirrored into. */
  lemma {:induction false} AmountsSplitByKind(l: seq<Entry>, t: TenantId)
    ensures Total(l, t, Amount)
         == Total(l, t, OfKind(Purchase)) + Total(l, t, OfKind(UsageCharge))
            + Total(l, t, OfKind(Refund)) + Total(l, t, Adjusting)
  {
    if l != [] { AmountsSplitByKind(l[..|l| - 1], t); }
  }

  /** A kind whose entries never go below zero weighs the same signed and unsigned, and
      opposite when they never go above. */
  lemma {:induction false} MagnitudeBySign(l: seq<Entry>, t: TenantId, k: EntryKind)
    ensures (forall e :: e in l && e.kind == k ==> e.amount >= 0) ==>
      Total(l, t, Magnitude(k)) == Total(l, t, OfKind(k))
    ensures (forall e :: e in l && e.kind == k ==> e.amount <= 0) ==>
      Total(l, t, Magnitude(k)) == -Total(l, t, OfKind(k))
    ensures Total(l, t, Magnitude(k)) >= 0
  {
    if l != [] {
      MagnitudeBySign(l[..|l| - 1], t, k);
      assert forall e :: e in l[..|l| - 1] ==> e in l;
      assert l[|l| - 1] in l;
    }
  }

  // ---- reservations

  datatype HoldMeasure =
    | Reserved   // what an active hold keeps back
    | Settled    // what a finalized hold charged
    | Overrun    // what it charged beyond the hold

  function WeighHold(m: HoldMeasure, h: Hold): int {
    match m
    case Reserved => if h.status == Held then h.amount else 0
    case Settled => if h.status == Finalized then h.charged else 0
    case Overrun => if h.status == Finalized then Max(0, h.charged - h.amount) else 0
  }

  function HoldTotal(hs: seq<Hold>, t: TenantId, m: HoldMeasure): int {
    if hs == [] then 0
    else
      var h := hs[|hs| - 1];
      HoldTotal(hs[..|hs| - 1], t, m) + if h.tenant == t then WeighHold(m, h) else 0
  }

  lemma HoldTotalAppend(hs: seq<Hold>, h: Hold, t: TenantId, m: HoldMeasure)
    ensures HoldTotal(hs + [h], t, m) == HoldTotal(hs, t, m) + if h.tenant == t then WeighHold(m, h) else 0
  {
    assert (hs + [h])[..|hs|] == hs;
  }

  lemma {:induction false} HoldTotalUpdate(hs: seq<Hold>, i: nat, h: Hold, t: TenantId, m: HoldMeasure)
    requires i < |hs| && h.tenant == hs[i].tenant
    ensures HoldTotal(hs[i := h], t, m)
         == HoldTotal(hs, t, m) + if h.tenant == t then WeighHold(m, h) - WeighHold(m, hs[i]) else 0
  {
    var n := |hs| - 1;
    if i == n {
      assert hs[i := h][..n] == hs[..n];
    } else {
      assert hs[i := h][..n] == hs[..n][i := h];
      HoldTotalUpdate(hs[..n], i, h, t, m);
    }
  }

  /** A single hold never outweighs the total of non-negative ones. */
  lemma {:induction false} HoldWithinTotal(hs: seq<Hold>, i: nat, m: HoldMeasure)
    requires i < |hs| && forall h :: h in hs ==> h.amount >= 0 && h.charged >= 0
    ensures WeighHold(m, hs[i]) <= HoldTotal(hs, hs[i].tenant, m)
  {
    var n := |hs| - 1;
    assert forall h :: h in hs[..n] ==> h in hs;
    assert hs[n] in hs;
    if i == n {
      HoldTotalNonNegative(hs[..n], hs[i].tenant, m);
    } else {
      HoldWithinTotal(hs[..n], i, m);
    }
  }

  lemma {:induction false} HoldTotalNonNegative(hs: seq<Hold>, t: TenantId, m: HoldMeasure)
    requires forall h :: h in hs ==> h.amount >= 0 && h.charged >= 0
    ensures HoldTotal(hs, t, m) >= 0
  {
    if hs != [] {
      assert forall h :: h in hs[..|hs| - 1] ==> h in hs;
      assert hs[|hs| - 1] in hs;
      HoldTotalNonNegative(hs[..|hs| - 1], t, m);
    }
  }

  /** Overruns and non-usage debits only ever widen the overdraft allowance. */
  lemma {:induction false} OverrunNonNegative(hs: seq<Hold>, t: TenantId)
    ensures HoldTotal(hs, t, Overrun) >= 0
  {
    if hs != [] { OverrunNonNegative(hs[..|hs| - 1], t); }
  }

  lemma {:induction false} DebitNonNegative(l: seq<Entry>, t: TenantId)
    ensures Total(l, t, NonUsageDebit) >= 0
  {
    if l != [] { DebitNonNegative(l[..|l| - 1], t); }
  }
}
