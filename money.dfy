/**
 * Exact money arithmetic for the ledger.
 *
 * The store keeps balances and prices as floats and rounds shares with
 * `round(x, 2)`. Here money is a whole number of cents and a commission or a
 * reward rate is a whole number of basis points (10000 basis points are 1).
 * `round(x, 2)` becomes rounding the exact rational `n / d` to the nearest
 * cent, ties to the even neighbour: the rule Python's `round` applies to an
 * exactly representable value.
 */
module Money {

  /** An amount of money in cents: 1.00 is 100. */
  type Cents = int

  /** A fraction in basis points: 0.25 is 2500, 1 is 10000. */
  type BasisPoints = int

  const WHOLE: BasisPoints := 10000

  function Abs(x: int): (r: nat)
    ensures r == x || r == -x
  {
    if x < 0 then -x else x
  }

  /** The integer nearest to `n / d`; a tie goes to the even integer. */
  function RoundHalfEven(n: int, d: int): (r: int)
    requires d > 0
    ensures 2 * Abs(n - r * d) <= d
    ensures 2 * Abs(n - r * d) == d ==> r % 2 == 0
  {
    var q, rem := n / d, n % d;
    assert n == q * d + rem;
    assert (q + 1) * d == q * d + d;
    if 2 * rem < d then q
    else if 2 * rem > d then q + 1
    else if q % 2 == 0 then q
    else q + 1
  }

  /** Rounding a value that is already a whole number of cents is exact. */
  lemma RoundExact(k: int)
    ensures RoundHalfEven(k * WHOLE, WHOLE) == k
  {
  }

  /**
   * `round(commission * amount, 2)`: the part of `amount` cents that a
   * commission of `commission` basis points is worth, to the nearest cent.
   */
  function Share(commission: BasisPoints, amount: Cents): (r: Cents)
    ensures 2 * Abs(commission * amount - r * WHOLE) <= WHOLE
  {
    RoundHalfEven(commission * amount, WHOLE)
  }

  /**
   * Two shares whose commissions add up to 1, each rounded on its own,
   * add up to the amount give or take one cent.
   */
  lemma SharesWithinOneCent(storeCommission: BasisPoints, appCommission: BasisPoints, amount: Cents)
    requires storeCommission + appCommission == WHOLE
    ensures Abs(Share(storeCommission, amount) + Share(appCommission, amount) - amount) <= 1
  {
  }

  /** The one-cent residue does occur: half a cent each way rounds to zero twice. */
  lemma SharesMayLoseOneCent()
    ensures Share(5000, 1) + Share(5000, 1) == 0
  {
  }
}
