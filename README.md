# EMA reversal bot — Dafny model of the reversal controller

The bot trades one perpetual contract (BTCUSDC). Once a minute it reads the
recent hourly closes and the last price. It compares the price with a band of
±0.3 % around an EMA value of the closes (period 3). When the price breaks out, it
flips its whole exposure:

- at or above the upper band it turns Short at 5x leverage;
- at or below the lower band it turns Long at 10x leverage;
- a signal for the side already held does nothing.

A flip fetches balance and price again and sizes the order from the whole
balance, floored to a multiple of 0.001. It then makes four steps in a fixed
order: set leverage, send a reduce-only close, wait 5 seconds, open the new
side. The believed side changes only when the venue acknowledges the open
order with status 0. A module-level flag keeps a second tick from running
while one is still in flight.

The model has five modules:

- `Gateway` (gateway.dfy): what fetches return, how mutating calls reply, and
  the calls themselves as events of a trace.
- `Strategy` (strategy.dfy): the constants, the bands and the decision rule.
- `Sizing` (sizing.dfy): the balance/price safety check and the sizing of the
  quantity. Prices and balances are exact reals. Quantities are integer
  thousandths of a coin.
- `Controller` (controller.dfy): `Reversal` and `Tick`, pure specifications
  of one reversal and of one guarded tick. The class `ReversalBot` holds the
  two state variables (`currentSide`, `isChecking`) and the call trace. Its
  methods `PlaceReverseOrder` and `CheckStrategy` change that state step by
  step and are proved against `Reversal` and `Tick`. Every gateway result a
  tick consumes is a parameter (`TickInputs`, `Replies`).
- `Runs` (runs.dfy): `Run`, a series of ticks run one after another, and what
  a series of signals does to the side and to the trace.

Facts about bot.js that the model keeps as they are:

- bot.js has no cancel-all step before the close order;
- it sizes from the whole balance, with no usage fraction;
- it sets leverage before the close order and the wait;
- the side is a local variable that is never resynchronised with the exchange;
- it ignores the retCode of `setLeverage` and of the close order; only a
  thrown error stops the sequence.

## Model

| member | source | states |
|---|---|---|
| `Strategy.UpperBand` | bot.js:146 | for a positive EMA the upper band lies above the EMA, by exactly 0.3 % of it |
| `Strategy.LowerBand` | bot.js:147 | for a positive EMA the lower band is positive and below the EMA, by exactly 0.3 % of it |
| `Strategy.Decide` | bot.js:153-159 | reverse to Short at 5x exactly on a short signal while not Short; reverse to Long at 10x exactly on a long signal while not Long when the short rule did not fire; a reversal always changes the side and never targets None; the signal of the held side gives Hold |
| `Strategy.SignalsExclusive` | bot.js:146-147 | with a positive EMA, price cannot be at or above the upper band and at or below the lower band at once |
| `Strategy.HeldSideSuppressed` | bot.js:153-156 | a bot already Short holds on a short signal; a bot already Long holds on a long signal |
| `Sizing.IncrementsIn` | bot.js:78 | the number of whole 0.001 increments q satisfies q·0.001 ≤ x < (q+1)·0.001 |
| `Sizing.SizeOrder` | bot.js:70-84 | aborts on a missing (zero) balance, a missing or zero price, or a balance under 10, exactly then; otherwise yields a quantity exactly when the raw quantity balance·leverage/price reaches 0.001; the quantity is ≥ 1 increment, ≤ the raw quantity and within one increment of it |
| `Sizing.SizeMonotoneInBalance` | bot.js:76-78 | at a positive price, a larger balance never yields an abandoned order or a smaller quantity where a smaller balance sized one |
| `Sizing.ThirtyThousandthsScenario` | bot.js:76-81 | a position value of 1000 at price 33333.33 sizes to 0.030 |
| `Controller.CloseDirection` | bot.js:99-109 | the close order always trades against the direction of the open order (Long: Sell then Buy; Short: Buy then Sell) |
| `Controller.OpenCountSteps` | bot.js:92-112 | stopping after the leverage call or after the close leaves no open order; the full sequence holds exactly one |
| `Controller.Reversal` | bot.js:67-124 | fetches balance, then price; makes no call after them exactly when sizing abandons the order; the later calls are a prefix of set-leverage(l, l), close, 5 s wait, open(qty), cut right after a call that threw (3 calls after a thrown leverage call, 4 after a thrown close, 6 otherwise); the open order is sent exactly when sizing passes and neither earlier call threw; the side changes only to the target, and only when the open order is acknowledged with retCode 0 |
| `Controller.ReversalTrace` | bot.js:70-112 | a reversal changes nothing at the venue exactly when sizing abandons it, and submits exactly one open order when the whole sequence runs, none otherwise |
| `Controller.Tick` | bot.js:136-159 | fetches closes, then price; with fewer than 3 closes or a missing price it stops after those fetches with the side unchanged; otherwise it follows `Decide`: on Hold only the two fetches and the side unchanged, on a reversal exactly the calls and the resulting side of `Reversal` for that target and leverage; the side changes only to the side the signal calls for, never to None; with a balance under 10 the side never changes |
| `Controller.TickTrace` | bot.js:139-159 | a tick submits at most one open order, and exactly one when it changes the side; with too little data or a balance under 10 it makes no mutating call |
| `Controller.ReversalBot.constructor` | bot.js:22-23 | the bot starts with side None, the guard released and no calls made |
| `Controller.ReversalBot.PlaceReverseOrder` | bot.js:67-124 | may only be called while the single-flight guard is held; appends exactly the calls `Reversal` gives to the trace, sets the side to `Reversal`'s side and leaves the guard alone |
| `Controller.ReversalBot.CheckStrategy` | bot.js:127-162 | a re-entrant tick (guard set) changes nothing and calls nothing; any other tick takes the guard before any order is placed, appends the calls of `Tick`, takes `Tick`'s side and releases the guard on every return path |
| `Runs.Run` | bot.js:114-116 | over any series of ticks, once a side is held the bot never returns to None |
| `Runs.HeldSideIgnoresItsSignal` | bot.js:153-156 | repeating the signal of the held side, tick after tick, makes no mutating call and keeps the side |
| `Runs.RepeatedShortSignalReversesOnce` | bot.js:114-156 | a series of short signals from a side other than Short, whose first reversal is acknowledged, opens exactly one position and ends Short |
| `Runs.LowBalanceNeverTrades` | bot.js:70-73 | with the balance under 10 on every tick, no mutating call is ever made and the side never changes |
| `Runs.AtMostOneOpenPerTick` | bot.js:106-112 | a series of n ticks submits at most n open orders |

## Left out

- The exchange client (`getKline`, `getTickers`, `getWalletBalance`, `setLeverage`, `submitOrder`, bot.js:25-65): network I/O through a library that is not part of this model. Their results are parameters; their invocations are trace events.
- The EMA computation (bot.js:145) calls the `technicalindicators` library, which is not part of this model. The EMA is an opaque input; which element of the library's output it is is not modelled.
- Floating point: `parseFloat`, the floating-point rounding of `Math.floor(x / 0.001) * 0.001` and `toFixed(3)`, and NaN truthiness are not modelled. Prices and balances are exact reals and quantities are integer thousandths.
- The quantity `'0'` of the reduce-only close order is a venue convention for "close everything"; the close is an abstract event carrying its direction only.
- Timing: the length of the settlement delay is recorded as a `Wait(5000)` event, but time does not pass. `setInterval` scheduling (bot.js:171-172) is modelled only as ticks run one after another (`Runs.Run`). The interleaving of a tick with one still awaiting a call is not modelled; the guard is modelled by its entry test and by its release on every exit.
- Console logging, the startup banner and credential loading (bot.js:10-11, 134, 149-150, 158, 165-168).
