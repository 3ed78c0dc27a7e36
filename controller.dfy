/** The reversal controller: the state kept between ticks (the believed side
    and the single-flight flag), one tick of the strategy, and the reversal it
    may execute. Each gateway result a tick consumes is a parameter; each call
    it makes is appended to a trace. */
module Controller {
  import opened Gateway
  import opened Strategy
  import opened Sizing

  /** The pause between the close and the open order, in milliseconds. */
  const SettlementDelayMillis: nat := 5000

  /** What the gateway answers during one tick: the recent closes and the price
      read by the strategy, the EMA of those closes (computed by a library that
      is not part of this model), and, should a reversal run, the balance and
      price it fetches again and the replies of its mutating calls. */
  datatype TickInputs = TickInputs(
    closes: seq<real>,
    price: Fetched<real>,
    ema: real,
    balance: real,
    orderPrice: Fetched<real>,
    replies: Replies)

  /** The calls made and the believed side afterwards. */
  datatype Outcome = Outcome(calls: seq<Call>, side: Side)

  /** Opening a Long buys, opening a Short sells. */
  function OpenDirection(target: Side): Direction {
    if target == Long then Buy else Sell
  }

  /** The reduce-only close trades against the target side. */
  function CloseDirection(target: Side): (d: Direction)
    ensures d != OpenDirection(target)
  {
    if target == Long then Sell else Buy
  }

  /** The mutating calls of a reversal that is not abandoned, in their fixed order. */
  function ExecutionSteps(target: Side, leverage: nat, q: nat): seq<Call> {
    [SetLeverage(leverage, leverage), SubmitClose(CloseDirection(target)),
     Wait(SettlementDelayMillis), SubmitOpen(OpenDirection(target), q)]
  }

  /** Cutting the fixed order after the leverage call, after the close or not
      at all leaves no open order, no open order, or exactly one. */
  lemma OpenCountSteps(target: Side, leverage: nat, q: nat, n: nat)
    requires n == 1 || n == 2 || n == 4
    ensures OpenCount(ExecutionSteps(target, leverage, q)[..n]) == (if n == 4 then 1 else 0)
  {
    var steps := ExecutionSteps(target, leverage, q);
    if n == 4 {
      assert steps[..n] == steps;
      assert steps[1..][1..][1..][1..] == [];
      assert OpenCount(steps[1..][1..][1..]) == 1;
      assert OpenCount(steps[1..][1..]) == 1;
      assert OpenCount(steps[1..]) == 1;
    } else {
      assert steps[..n][1..] == steps[1..n];
      if n == 2 {
        assert steps[1..n][1..] == [];
        assert OpenCount(steps[1..n]) == 0;
      }
    }
  }

  /** Specification of one reversal into `target`, starting from `side`. The
      two fetches come first; every later call changes something at the venue. */
  function Reversal(side: Side, target: Side, leverage: nat, balance: real,
                    price: Fetched<real>, replies: Replies): (o: Outcome)
    // balance first, then price, are always fetched
    ensures 2 <= |o.calls| <= 6 && o.calls[0] == FetchBalance && o.calls[1] == FetchTicker
    // no mutating call is made exactly when sizing abandons the order
    ensures |o.calls| == 2 <==> SizeOrder(balance, leverage, price).Abort?
    // the mutating calls are a prefix of the fixed order
    ensures SizeOrder(balance, leverage, price).Qty? ==>
              o.calls[2..] <= ExecutionSteps(target, leverage, SizeOrder(balance, leverage, price).thousandths)
    // the open order (the last step) is submitted exactly when sizing passes and
    // neither earlier mutating call threw
    ensures |o.calls| == 6 <==>
              SizeOrder(balance, leverage, price).Qty? && !replies.setLeverage.Threw? && !replies.close.Threw?
    // a thrown call ends the sequence: a thrown leverage call leaves it at that
    // call, a thrown close leaves it at the close, with no wait and no open
    ensures SizeOrder(balance, leverage, price).Qty? ==>
              |o.calls| == (if replies.setLeverage.Threw? then 3 else if replies.close.Threw? then 4 else 6)
    // the side changes only to the target, and only on an acknowledged open
    ensures o.side == side || o.side == target
    ensures o.side == target <==> side == target || (|o.calls| == 6 && replies.open == Returned(0))
  {
    var fetches := [FetchBalance, FetchTicker];
    match SizeOrder(balance, leverage, price)
    case Abort(_) => Outcome(fetches, side)
    case Qty(q) =>
      var steps := ExecutionSteps(target, leverage, q);
      var n := if replies.setLeverage.Threw? then 1 else if replies.close.Threw? then 2 else 4;
      var calls := fetches + steps[..n];
      assert calls[2..] == steps[..n];
      Outcome(calls, if n == 4 && replies.open == Returned(0) then target else side)
  }

  /** Read as counts: a reversal changes nothing at the venue exactly when
      sizing abandons it, and submits at most one open order, exactly when the
      whole sequence runs. */
  lemma ReversalTrace(side: Side, target: Side, leverage: nat, balance: real,
                      price: Fetched<real>, replies: Replies)
    ensures var o := Reversal(side, target, leverage, balance, price, replies);
            (NoMutation(o.calls) <==> SizeOrder(balance, leverage, price).Abort?) &&
            OpenCount(o.calls) == (if |o.calls| == 6 then 1 else 0)
  {
    var o := Reversal(side, target, leverage, balance, price, replies);
    var fetches := [FetchBalance, FetchTicker];
    FetchPair(FetchBalance, FetchTicker);
    assert o.calls == fetches + o.calls[2..];
    OpenCountAppend(fetches, o.calls[2..]);
    NoMutationAppend(fetches, o.calls[2..]);
    if SizeOrder(balance, leverage, price).Qty? {
      var q := SizeOrder(balance, leverage, price).thousandths;
      var n := |o.calls| - 2;
      assert n == 1 || n == 2 || n == 4;
      assert o.calls[2..] == ExecutionSteps(target, leverage, q)[..n];
      OpenCountSteps(target, leverage, q, n);
      assert IsMutating(o.calls[2..][0]);
    }
  }

  /** Too few closes, or a missing or zero price: the tick stops after its fetches. */
  predicate InsufficientData(t: TickInputs) {
    |t.closes| < EmaPeriod || !PricePresent(t.price)
  }

  /** Specification of one tick that holds the single-flight guard. */
  function Tick(side: Side, t: TickInputs): (o: Outcome)
    // closes first, then price, are always fetched
    ensures |o.calls| >= 2 && o.calls[0] == FetchKlines && o.calls[1] == FetchTicker
    // without enough data the tick ends after its fetches, side unchanged
    ensures InsufficientData(t) ==> |o.calls| == 2 && o.side == side
    // the side moves only to the side the signal calls for, never back to None
    ensures o.side != side ==> !InsufficientData(t) && o.side != None
    ensures o.side == Short && side != Short ==> AboveUpper(t.price.value, t.ema)
    ensures o.side == Long && side != Long ==> BelowLower(t.price.value, t.ema)
    // under a balance below the minimum the side never changes
    ensures t.balance < MinBalance ==> o.side == side
    // with enough data the tick does what the decision rule says: on Hold only
    // the two fetches, on Reverse exactly the calls and the side of that reversal
    ensures !InsufficientData(t) ==>
              match Decide(side, t.price.value, t.ema)
              case Hold => |o.calls| == 2 && o.side == side
              case Reverse(target, leverage) =>
                var r := Reversal(side, target, leverage, t.balance, t.orderPrice, t.replies);
                o.calls[2..] == r.calls && o.side == r.side
  {
    var fetches := [FetchKlines, FetchTicker];
    if InsufficientData(t) then Outcome(fetches, side)
    else
      match Decide(side, t.price.value, t.ema)
      case Hold => Outcome(fetches, side)
      case Reverse(target, leverage) =>
        var r := Reversal(side, target, leverage, t.balance, t.orderPrice, t.replies);
        Outcome(fetches + r.calls, r.side)
  }

  /** Read as counts: a tick submits at most one open order, and exactly one
      when it changes the side; without enough
      data, or with a balance under the minimum, it changes nothing at the venue. */
  lemma TickTrace(side: Side, t: TickInputs)
    ensures OpenCount(Tick(side, t).calls) <= 1
    ensures Tick(side, t).side != side ==> OpenCount(Tick(side, t).calls) == 1
    ensures InsufficientData(t) || t.balance < MinBalance ==> NoMutation(Tick(side, t).calls)
  {
    var fetches := [FetchKlines, FetchTicker];
    FetchPair(FetchKlines, FetchTicker);
    if !InsufficientData(t) && Decide(side, t.price.value, t.ema).Reverse? {
      var a := Decide(side, t.price.value, t.ema);
      var r := Reversal(side, a.target, a.leverage, t.balance, t.orderPrice, t.replies);
      ReversalTrace(side, a.target, a.leverage, t.balance, t.orderPrice, t.replies);
      OpenCountAppend(fetches, r.calls);
      NoMutationAppend(fetches, r.calls);
    }
  }

  /** The bot's module-level state and the trace of calls it has made. */
  class ReversalBot {
    var currentSide: Side
    /** Set while a tick is running: a tick that finds it set returns at once. */
    var isChecking: bool
    var calls: seq<Call>

    constructor ()
      ensures currentSide == None && !isChecking && calls == []
    {
      currentSide := None;
      isChecking := false;
      calls := [];
    }

    /** Sizes and executes a reversal into `target`: set leverage, close the
        opposite exposure, wait, open the new side; the side is updated only
        when the open order is acknowledged with status 0. */
    method PlaceReverseOrder(target: Side, leverage: nat, balance: real,
                             price: Fetched<real>, replies: Replies)
      // orders are only ever sent by a tick that holds the single-flight guard
      requires isChecking
      modifies this
      ensures isChecking == old(isChecking)
      ensures calls == old(calls) + Reversal(old(currentSide), target, leverage, balance, price, replies).calls
      ensures currentSide == Reversal(old(currentSide), target, leverage, balance, price, replies).side
    {
      ghost var side0, calls0 := currentSide, calls;
      ghost var spec := Reversal(side0, target, leverage, balance, price, replies);
      calls := calls + [FetchBalance];
      calls := calls + [FetchTicker];
      ghost var fetches := [FetchBalance, FetchTicker];
      assert calls == calls0 + fetches;
      var sized := SizeOrder(balance, leverage, price);
      if sized.Abort? {
        assert spec == Outcome(fetches, side0);
        return;
      }
      ghost var steps := ExecutionSteps(target, leverage, sized.thousandths);
      calls := calls + [SetLeverage(leverage, leverage)];
      if replies.setLeverage.Threw? {
        assert spec == Outcome(fetches + steps[..1], side0);
        assert fetches + steps[..1] == fetches + [SetLeverage(leverage, leverage)];
        return;
      }
      calls := calls + [SubmitClose(CloseDirection(target))];
      if replies.close.Threw? {
        assert spec == Outcome(fetches + steps[..2], side0);
        assert fetches + steps[..2] == fetches + [SetLeverage(leverage, leverage), SubmitClose(CloseDirection(target))];
        return;
      }
      calls := calls + [Wait(SettlementDelayMillis)];
      calls := calls + [SubmitOpen(OpenDirection(target), sized.thousandths)];
      assert steps[..4] == steps;
      assert calls == calls0 + (fetches + steps);
      assert spec.calls == fetches + steps;
      if replies.open == Returned(0) {
        currentSide := target;
      }
      assert currentSide == spec.side;
    }

    /** One tick of the strategy under the single-flight guard. */
    method CheckStrategy(t: TickInputs)
      modifies this
      // a re-entrant tick changes nothing and calls nothing
      ensures old(isChecking) ==>
                isChecking && calls == old(calls) && currentSide == old(currentSide)
      // otherwise the tick runs to completion and always releases the guard
      ensures !old(isChecking) ==>
                !isChecking &&
                calls == old(calls) + Tick(old(currentSide), t).calls &&
                currentSide == Tick(old(currentSide), t).side
    {
      if isChecking {
        return;
      }
      ghost var side0, calls0 := currentSide, calls;
      ghost var fetches := [FetchKlines, FetchTicker];
      isChecking := true;
      calls := calls + [FetchKlines];
      calls := calls + [FetchTicker];
      assert calls == calls0 + fetches;
      if |t.closes| < EmaPeriod || !PricePresent(t.price) {
        isChecking := false;
        return;
      }
      var action := Decide(currentSide, t.price.value, t.ema);
      if action.Reverse? {
        ghost var r := Reversal(side0, action.target, action.leverage, t.balance, t.orderPrice, t.replies);
        PlaceReverseOrder(action.target, action.leverage, t.balance, t.orderPrice, t.replies);
        assert calls == calls0 + (fetches + r.calls);
      }
      isChecking := false;
    }
  }
}
