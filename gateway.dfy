/** The exchange gateway as the controller sees it: what a fetch returns, how a
    mutating call replies, and the calls themselves, recorded as events. The
    REST client is not part of this model; its results are inputs and its
    invocations are entries of a call trace. */
module Gateway {

  /** A market-data fetch: the price fetch yields `null` when the request fails. */
  datatype Fetched<T> = Unavailable | Got(value: T)

  /** The reply of a mutating call: either it returned a response carrying a
      venue status code (0 is success), or it threw. */
  datatype Reply = Returned(retCode: int) | Threw

  /** Replies of the three mutating calls of one reversal, in call order. */
  datatype Replies = Replies(setLeverage: Reply, close: Reply, open: Reply)

  datatype Direction = Buy | Sell

  /** One call made to the exchange, or the settlement pause between calls. */
  datatype Call =
    | FetchKlines                                // recent closes of the instrument
    | FetchTicker                                // last trade price
    | FetchBalance                               // wallet equity in the settlement coin
    | SetLeverage(buyLeverage: nat, sellLeverage: nat)
    | SubmitClose(closeSide: Direction)          // reduce-only, close-on-trigger market order
    | Wait(millis: nat)                          // settlement pause
    | SubmitOpen(openSide: Direction, thousandths: nat)  // market order opening the new side

  /** Calls that change something at the venue (the pause counts, since it only
      ever sits between two of them). */
  predicate IsMutating(c: Call) {
    !(c.FetchKlines? || c.FetchTicker? || c.FetchBalance?)
  }

  /** The trace holds fetches only. */
  predicate NoMutation(calls: seq<Call>) {
    calls == [] || (!IsMutating(calls[0]) && NoMutation(calls[1..]))
  }

  /** Two fetches in a row change nothing and open nothing. */
  lemma FetchPair(a: Call, b: Call)
    requires !IsMutating(a) && !IsMutating(b)
    ensures NoMutation([a, b]) && OpenCount([a, b]) == 0
  {
    assert [a, b][1..] == [b];
    assert [b][1..] == [];
    assert NoMutation([b]) && OpenCount([b]) == 0;
  }

  /** Number of opening orders in a trace. */
  function OpenCount(calls: seq<Call>): nat {
    if calls == [] then 0
    else (if calls[0].SubmitOpen? then 1 else 0) + OpenCount(calls[1..])
  }

  lemma {:induction false} OpenCountAppend(a: seq<Call>, b: seq<Call>)
    ensures OpenCount(a + b) == OpenCount(a) + OpenCount(b)
  {
    if a == [] {
      assert a + b == b;
    } else {
      assert (a + b)[1..] == a[1..] + b;
      OpenCountAppend(a[1..], b);
    }
  }

  lemma {:induction false} NoMutationNoOpen(calls: seq<Call>)
    requires NoMutation(calls)
    ensures OpenCount(calls) == 0
  {
    if calls != [] {
      NoMutationNoOpen(calls[1..]);
    }
  }

  lemma {:induction false} NoMutationAppend(a: seq<Call>, b: seq<Call>)
    ensures NoMutation(a + b) <==> NoMutation(a) && NoMutation(b)
  {
    if a == [] {
      assert a + b == b;
    } else {
      assert (a + b)[1..] == a[1..] + b;
      NoMutationAppend(a[1..], b);
    }
  }
}
