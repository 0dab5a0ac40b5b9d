/** Money columns. Amounts are computed exactly and stored in numeric(18, 6) columns, which
    round half away from zero on every write. Everything is in millionths of a credit: an
    exact amount is a real, a stored one an int. */
module Money {

  /** What a column keeps of an exact amount. */
  function Stored(x: real): int {
    if x >= 0.0 then (x + 0.5).Floor else -(0.5 - x).Floor
  }

  /** Exactly half way between two storable amounts. */
  predicate Tie(x: real) { x - x.Floor as real == 0.5 }

  /** Adding x to the stored amount b and storing the result is the same as storing x and
      adding: the condition under which a running balance equals the sum of its entries. */
  predicate Additive(b: int, x: real) {
    Stored(b as real + x) == b + Stored(x)
  }

  lemma StoredWhole(k: int)
    ensures Stored(k as real) == k && !Tie(k as real)
  {
    assert (k as real).Floor == k;
    if k >= 0 {
      assert (k as real + 0.5).Floor == k;
    } else {
      assert (0.5 - k as real).Floor == -k;
    }
  }

  /** The characterisation by distance that every other fact about Stored follows from. */
  lemma StoredNearest(x: real)
    ensures -0.5 <= Stored(x) as real - x <= 0.5
    ensures Stored(x) as real - x == 0.5 ==> x > 0.0
    ensures Stored(x) as real - x == -0.5 ==> x < 0.0
  {}

  lemma StoredUnique(x: real, k: int)
    requires -0.5 < k as real - x < 0.5
    ensures Stored(x) == k
  {
    StoredNearest(x);
  }

  lemma StoredNegates(x: real)
    ensures Stored(-x) == -Stored(x)
  {}

  lemma StoredMonotone(x: real, y: real)
    requires x <= y
    ensures Stored(x) <= Stored(y)
  {
    StoredNearest(x);
    StoredNearest(y);
  }

  /** Storing never crosses a whole amount. */
  lemma StoredBounded(x: real, k: int)
    ensures x <= k as real ==> Stored(x) <= k
    ensures x >= k as real ==> Stored(x) >= k
  {
    StoredWhole(k);
    if x <= k as real { StoredMonotone(x, k as real); }
    if x >= k as real { StoredMonotone(k as real, x); }
  }

  /** Rounding separates a balance from its entries exactly when the amount is half way between
      two storable ones and the resulting balance is on the other side of zero from it. */
  lemma AdditiveExactly(b: int, x: real)
    ensures Additive(b, x) <==> !(Tie(x) && ((x > 0.0) != (b as real + x > 0.0)))
  {
    var s, k := b as real + x, Stored(x);
    StoredNearest(x);
    StoredNearest(s);
    if -0.5 < k as real - x < 0.5 {
      StoredUnique(s, b + k);
      assert !Tie(x) by { HalfDistanceIsTie(x); }
    } else {
      assert Tie(x) by { HalfDistanceIsTie(x); }
      assert s != 0.0 by { if s == 0.0 { StoredWhole(-b); } }
    }
  }

  lemma HalfDistanceIsTie(x: real)
    ensures Tie(x) <==> !(-0.5 < Stored(x) as real - x < 0.5)
  {
    var f := x.Floor;
    if Tie(x) {
      StoredNearest(x);
      assert Stored(x) as real - x == (Stored(x) - f) as real - 0.5;
    } else if x - f as real < 0.5 {
      StoredUnique(x, f);
    } else {
      StoredUnique(x, f + 1);
    }
  }

  /** The separation is never more than one unit, and a debit only ever loses weight by it. */
  lemma AdditiveWithinOne(b: int, x: real)
    ensures -1 <= Stored(b as real + x) - (b + Stored(x)) <= 1
    ensures x <= 0.0 ==> Stored(b as real + x) >= b + Stored(x)
    ensures x >= 0.0 ==> Stored(b as real + x) <= b + Stored(x)
    ensures b >= 0 && x >= 0.0 ==> Additive(b, x)
    ensures b <= 0 && x <= 0.0 ==> Additive(b, x)
  {
    StoredNearest(x);
    StoredNearest(b as real + x);
  }
}
