/** Order sizing: from wallet equity, leverage and price to an order quantity
    that is a whole number of minimum increments (0.001 of the coin). Quantities
    are kept as integer thousandths, prices and balances as exact reals. */
module Sizing {
  import opened Gateway

  /** Smallest tradable quantity and the quantity step, 0.001. */
  const MinOrderQty: real := 0.001
  /** Below this balance no order is attempted. */
  const MinBalance: real := 10.0

  datatype AbortReason = BalanceOrPriceUnavailable | BelowMinimumQty

  datatype SizeResult = Abort(reason: AbortReason) | Qty(thousandths: nat)

  /** A JavaScript-truthy price: present and non-zero. */
  predicate PricePresent(price: Fetched<real>) {
    price.Got? && price.value != 0.0
  }

  /** The safety check on balance and price: missing (zero) balance, missing or
      zero price, or a balance under the minimum. */
  predicate BalanceOrPriceMissing(balance: real, price: Fetched<real>) {
    balance == 0.0 || !PricePresent(price) || balance < MinBalance
  }

  /** The quantity the equity buys at this leverage and price, before rounding. */
  function RawQty(balance: real, leverage: nat, price: real): real
    requires price != 0.0
  {
    balance * leverage as real / price
  }

  /** The quantity of `q` increments, in coin units. */
  function QtyOf(q: int): real {
    q as real * MinOrderQty
  }

  /** Number of whole increments in `x`, rounded down: the largest multiple of
      the increment that does not exceed `x`. */
  function IncrementsIn(x: real): (q: int)
    ensures QtyOf(q) <= x < QtyOf(q + 1)
  {
    (x / MinOrderQty).Floor
  }

  /** Sizes the opening order, or says why the order is abandoned. */
  function SizeOrder(balance: real, leverage: nat, price: Fetched<real>): (r: SizeResult)
    // the balance/price safety check comes first and aborts exactly on its condition
    ensures r == Abort(BalanceOrPriceUnavailable) <==> BalanceOrPriceMissing(balance, price)
    // otherwise the order goes ahead exactly when at least one increment is affordable
    ensures r.Qty? <==>
              !BalanceOrPriceMissing(balance, price) &&
              RawQty(balance, leverage, price.value) >= MinOrderQty
    // the quantity is at least the minimum, never above the raw quantity and
    // less than one increment below it
    ensures r.Qty? ==>
              r.thousandths >= 1 &&
              QtyOf(r.thousandths) <= RawQty(balance, leverage, price.value) &&
              RawQty(balance, leverage, price.value) - MinOrderQty < QtyOf(r.thousandths)
  {
    if BalanceOrPriceMissing(balance, price) then Abort(BalanceOrPriceUnavailable)
    else
      var q := IncrementsIn(RawQty(balance, leverage, price.value));
      if q < 1 then Abort(BelowMinimumQty) else Qty(q)
  }

  /** More equity never buys a smaller order: sizing is monotone in the balance. */
  lemma SizeMonotoneInBalance(b1: real, b2: real, leverage: nat, price: Fetched<real>)
    requires SizeOrder(b1, leverage, price).Qty?
    requires b1 <= b2
    requires price.Got? && price.value > 0.0
    ensures SizeOrder(b2, leverage, price).Qty?
    ensures SizeOrder(b1, leverage, price).thousandths <= SizeOrder(b2, leverage, price).thousandths
  {
    var p := price.value;
    var q1 := SizeOrder(b1, leverage, price).thousandths;
    assert b1 * leverage as real <= b2 * leverage as real;
    assert RawQty(b1, leverage, p) <= RawQty(b2, leverage, p) by {
      DivMonotone(b1 * leverage as real, b2 * leverage as real, p);
    }
    var q2 := SizeOrder(b2, leverage, price).thousandths;
    assert QtyOf(q1) < QtyOf(q2 + 1);
  }

  lemma DivMonotone(x: real, y: real, p: real)
    requires x <= y && p > 0.0
    ensures x / p <= y / p
  {
  }

  /** A position value of 1000 at a price of 33333.33 is an order of 0.030. */
  lemma ThirtyThousandthsScenario()
    ensures SizeOrder(100.0, 10, Got(33333.33)) == Qty(30)
  {
  }
}
