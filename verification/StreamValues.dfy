/** What readable and writable streams share: JavaScript values, strategies and queues with sizes. */
module StreamValues {
  type Chunk = int

  /** A JavaScript value used as an error or as the reason of an abort or cancel. */
  datatype Reason = Undefined | User(id: int) | TypeError | RangeError

  datatype Outcome = Fulfilled | Rejected(reason: Reason)

  /** What the strategy's size function does: a usable size, a number that is not finite and
      non-negative, or an exception. */
  datatype SizeResult = Size(size: real) | InvalidSize | SizeThrows(error: Reason)

  datatype HighWaterMark = Finite(mark: real) | Infinite

  datatype Entry<T> = Entry(value: T, size: real)

  function SumSizes<T>(queue: seq<Entry<T>>): real {
    if queue == [] then 0.0 else queue[0].size + SumSizes(queue[1..])
  }

  lemma SumEmpty<T>()
    ensures SumSizes<T>([]) == 0.0
  {
  }

  lemma SumHead<T>(queue: seq<Entry<T>>)
    requires queue != []
    ensures SumSizes(queue) == queue[0].size + SumSizes(queue[1..])
  {
  }

  lemma {:induction false} SumSnoc<T>(queue: seq<Entry<T>>, e: Entry<T>)
    ensures SumSizes(queue + [e]) == SumSizes(queue) + e.size
  {
    if queue == [] {
      assert queue + [e] == [e];
    } else {
      SumSnoc(queue[1..], e);
      assert (queue + [e])[1..] == queue[1..] + [e];
    }
  }

  lemma {:induction false} SumNonNegative<T>(queue: seq<Entry<T>>)
    requires forall i :: 0 <= i < |queue| ==> queue[i].size >= 0.0
    ensures SumSizes(queue) >= 0.0
  {
    if queue != [] {
      SumNonNegative(queue[1..]);
    }
  }
}
