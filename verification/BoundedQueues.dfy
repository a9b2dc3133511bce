/** Queues of bounded length, which keep their newest items. */
module BoundedQueues {
  function Bounded<T>(queue: seq<T>, max: nat): seq<T> {
    if |queue| > max then queue[|queue| - max..] else queue
  }

  /** Append; the oldest item falls out of a full queue. */
  function Push<T>(queue: seq<T>, item: T, max: nat): seq<T> {
    Bounded(queue + [item], max)
  }
}
