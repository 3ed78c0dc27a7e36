/** Consecutive ticks, each run to completion before the next one starts (the
    scheduler fires one tick a minute): what a series of signals does to the
    believed side and to the trace of calls. */
module Runs {
  import opened Gateway
  import opened Strategy
  import opened Sizing
  import opened Controller

  /** The outcome of running `ticks` in order from `side`. */
  function Run(side: Side, ticks: seq<TickInputs>): (o: Outcome)
    // once a side is held the bot is never flat again
    ensures o.side == side || o.side != None
    decreases |ticks|
  {
    if ticks == [] then Outcome([], side)
    else
      var first := Tick(side, ticks[0]);
      var rest := Run(first.side, ticks[1..]);
      Outcome(first.calls + rest.calls, rest.side)
  }

  /** The tick carries enough data, a positive EMA, and the signal of `side`:
      the short signal for Short, the long signal for Long. */
  predicate SignalFor(side: Side, t: TickInputs) {
    !InsufficientData(t) && t.ema > 0.0 &&
    match side
    case Short => AboveUpper(t.price.value, t.ema)
    case Long => BelowLower(t.price.value, t.ema)
    case None => false
  }

  /** Every call of the reversal a tick starts goes through and the open order
      is acknowledged. */
  predicate Acknowledged(t: TickInputs, leverage: nat) {
    SizeOrder(t.balance, leverage, t.orderPrice).Qty? &&
    !t.replies.setLeverage.Threw? && !t.replies.close.Threw? &&
    t.replies.open == Returned(0)
  }

  /** Repeating the signal of the side already held never issues an order. */
  lemma {:induction false} HeldSideIgnoresItsSignal(side: Side, ticks: seq<TickInputs>)
    requires side != None
    requires forall i :: 0 <= i < |ticks| ==> SignalFor(side, ticks[i])
    ensures Run(side, ticks).side == side
    ensures NoMutation(Run(side, ticks).calls)
  {
    if ticks != [] {
      var t := ticks[0];
      HeldSideSuppressed(t.price.value, t.ema);
      assert Tick(side, t) == Outcome([FetchKlines, FetchTicker], side);
      HeldSideIgnoresItsSignal(side, ticks[1..]);
      NoMutationAppend(Tick(side, t).calls, Run(side, ticks[1..]).calls);
    }
  }

  /** A run of short signals from a side other than Short, whose first reversal
      is acknowledged, executes exactly one reversal (the first) and ends Short. */
  lemma RepeatedShortSignalReversesOnce(side: Side, ticks: seq<TickInputs>)
    requires side != Short
    requires |ticks| >= 1
    requires forall i :: 0 <= i < |ticks| ==> SignalFor(Short, ticks[i])
    requires Acknowledged(ticks[0], LeverageShort)
    ensures Run(side, ticks).side == Short
    ensures OpenCount(Run(side, ticks).calls) == 1
  {
    var t := ticks[0];
    var first := Tick(side, t);
    assert Decide(side, t.price.value, t.ema) == Reverse(Short, LeverageShort);
    TickTrace(side, t);
    assert first.side == Short;
    HeldSideIgnoresItsSignal(Short, ticks[1..]);
    NoMutationNoOpen(Run(Short, ticks[1..]).calls);
    OpenCountAppend(first.calls, Run(Short, ticks[1..]).calls);
  }

  /** With the balance under the minimum on every tick, no order call is ever
      made and the side never changes, whatever the signals. */
  lemma {:induction false} LowBalanceNeverTrades(side: Side, ticks: seq<TickInputs>)
    requires forall i :: 0 <= i < |ticks| ==> ticks[i].balance < MinBalance
    ensures Run(side, ticks).side == side
    ensures NoMutation(Run(side, ticks).calls)
  {
    if ticks != [] {
      TickTrace(side, ticks[0]);
      LowBalanceNeverTrades(side, ticks[1..]);
      NoMutationAppend(Tick(side, ticks[0]).calls, Run(side, ticks[1..]).calls);
    }
  }

  /** Each tick opens at most one position, so a run of n ticks opens at most n. */
  lemma {:induction false} AtMostOneOpenPerTick(side: Side, ticks: seq<TickInputs>)
    ensures OpenCount(Run(side, ticks).calls) <= |ticks|
    decreases |ticks|
  {
    if ticks != [] {
      var first := Tick(side, ticks[0]);
      TickTrace(side, ticks[0]);
      AtMostOneOpenPerTick(first.side, ticks[1..]);
      OpenCountAppend(first.calls, Run(first.side, ticks[1..]).calls);
    }
  }
}
