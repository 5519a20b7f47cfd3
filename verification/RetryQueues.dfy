/**
 The retry queues: which are declared, how long each delays, and which one a
 replacement with a given retry count is routed to.
 */
module RetryQueues {

  const BACKOFF_STEPS: nat := 3

  function Clamp(x: int, low: int, high: int): int {
    if x < low then low else if high < x then high else x
  }

  /** `backoff` holds the three configured delays in seconds. */
  function RetryDelayMs(backoff: seq<int>, retry: int): int
    requires |backoff| == BACKOFF_STEPS
  {
    backoff[Clamp(retry - 1, 0, BACKOFF_STEPS - 1)] * 1000
  }

  /** The number that ends the routed queue's name. */
  function QueueIndex(retry: int): int {
    Clamp(retry, 1, BACKOFF_STEPS)
  }

  function DeclaredQueueCount(maxRetries: int): int {
    var bounded := if maxRetries < BACKOFF_STEPS then maxRetries else BACKOFF_STEPS;
    if 1 < bounded then bounded else 1
  }

  /** The queues declared at start-up with their delays. */
  function Declared(backoff: seq<int>, maxRetries: int): map<int, int>
    requires |backoff| == BACKOFF_STEPS
  {
    map q | 1 <= q <= DeclaredQueueCount(maxRetries) :: RetryDelayMs(backoff, q)
  }

  /** Whatever may be published lands in a declared queue that delays it as its retry count says. */
  lemma ReplacementsAreRouted(backoff: seq<int>, maxRetries: int, retry: int)
    requires |backoff| == BACKOFF_STEPS
    requires 0 <= retry <= maxRetries
    ensures QueueIndex(retry) in Declared(backoff, maxRetries)
    ensures forall q :: q in Declared(backoff, maxRetries) <==> q == 1 || (2 <= q <= 3 && q <= maxRetries)
    ensures Declared(backoff, maxRetries)[QueueIndex(retry)] == RetryDelayMs(backoff, retry)
    ensures Declared(backoff, maxRetries)[QueueIndex(retry)] == 1000 * backoff[if retry <= 1 then 0 else if retry == 2 then 1 else 2]
  {
    assert 1 <= QueueIndex(retry) <= DeclaredQueueCount(maxRetries);
    assert Clamp(QueueIndex(retry) - 1, 0, 2) == Clamp(retry - 1, 0, 2);
  }

  /** Configured delays that never shrink give every further retry at least the delay of the one before. */
  lemma DelaysNeverShrink(backoff: seq<int>, earlier: int, later: int)
    requires |backoff| == BACKOFF_STEPS && backoff[0] <= backoff[1] <= backoff[2]
    requires earlier <= later
    ensures RetryDelayMs(backoff, earlier) <= RetryDelayMs(backoff, later)
    ensures earlier <= 1 ==> RetryDelayMs(backoff, earlier) == 1000 * backoff[0]
    ensures later >= 3 ==> RetryDelayMs(backoff, later) == 1000 * backoff[2]
  {
  }
}
