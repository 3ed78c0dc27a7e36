/** The signal side of the controller: the configured constants, the EMA bands
    and the reversal decision taken on every tick. */
module Strategy {

  /** The side the bot believes it holds ('None' until the first confirmed open). */
  datatype Side = None | Long | Short

  /** What a tick decides: keep the current position, or reverse into `target`
      at the given leverage. */
  datatype Action = Hold | Reverse(target: Side, leverage: nat)

  const LeverageLong: nat := 10
  const LeverageShort: nat := 5
  const EmaPeriod: nat := 3
  /** Half-width of the band around the EMA: 0.3 %. */
  const BandPercent: real := 0.003

  /** Upper band, ema * (1 + 0.3 %). For a positive EMA it lies strictly above it. */
  function UpperBand(ema: real): (u: real)
    ensures ema > 0.0 ==> u > ema
    ensures ema > 0.0 ==> u - ema == ema * BandPercent
  {
    ema * (1.0 + BandPercent)
  }

  /** Lower band, ema * (1 - 0.3 %). For a positive EMA it lies strictly below it
      and stays positive. */
  function LowerBand(ema: real): (l: real)
    ensures ema > 0.0 ==> 0.0 < l < ema
    ensures ema > 0.0 ==> ema - l == ema * BandPercent
  {
    ema * (1.0 - BandPercent)
  }

  /** Price at or above the upper band (the "short" signal). */
  predicate AboveUpper(price: real, ema: real) { price >= UpperBand(ema) }

  /** Price at or below the lower band (the "long" signal). */
  predicate BelowLower(price: real, ema: real) { price <= LowerBand(ema) }

  /** The reversal rule: a short signal reverses into Short at 5x unless already
      Short; failing that, a long signal reverses into Long at 10x unless already
      Long; otherwise the position is kept. */
  function Decide(side: Side, price: real, ema: real): (a: Action)
    // a reversal always changes the side, and never to None
    ensures a.Reverse? ==> a.target != side && a.target != None
    // each target comes with its own leverage
    ensures a.Reverse? ==> a.leverage == (if a.target == Short then LeverageShort else LeverageLong)
    // reversing into Short happens exactly on a short signal while not Short
    ensures a == Reverse(Short, LeverageShort) <==> side != Short && AboveUpper(price, ema)
    // reversing into Long happens exactly on a long signal while not Long, when
    // the short rule has not already fired
    ensures a == Reverse(Long, LeverageLong) <==>
              side != Long && BelowLower(price, ema) && !(side != Short && AboveUpper(price, ema))
    // re-signalling the side already held is a no-op
    ensures side == Short && !BelowLower(price, ema) ==> a == Hold
    ensures side == Long && !AboveUpper(price, ema) ==> a == Hold
  {
    if side != Short && AboveUpper(price, ema) then Reverse(Short, LeverageShort)
    else if side != Long && BelowLower(price, ema) then Reverse(Long, LeverageLong)
    else Hold
  }

  /** With a positive EMA the two signals exclude each other, so the order in
      which the rule tests them only matters for a non-positive EMA. */
  lemma SignalsExclusive(price: real, ema: real)
    requires ema > 0.0
    ensures !(AboveUpper(price, ema) && BelowLower(price, ema))
  {
  }

  /** Under a short signal, a bot already Short holds; under a long signal, a bot
      already Long holds: the signal of the held side never triggers an order. */
  lemma HeldSideSuppressed(price: real, ema: real)
    requires ema > 0.0
    ensures AboveUpper(price, ema) ==> Decide(Short, price, ema) == Hold
    ensures BelowLower(price, ema) ==> Decide(Long, price, ema) == Hold
  {
  }
}
