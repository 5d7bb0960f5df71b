/** Acquiring with patience: internal/cli/cli.go retries while the lock is busy and the budget lasts. */
module WaitLoop {
  import opened Leases
  import opened Wire

  /** One try: its result, and what the clock says right after it. */
  datatype Attempt = Attempt(result: ClientResult, at: Time)

  /** The next try comes at least `poll` after this one. */
  predicate Sleeps(tries: nat -> Attempt, poll: Duration, i: nat) {
    tries(i).at + poll <= tries(i + 1).at
  }

  ghost predicate Paced(tries: nat -> Attempt, start: Time, poll: Duration) {
    start <= tries(0).at && forall i: nat :: Sleeps(tries, poll, i)
  }

  function CeilDiv(a: nat, b: nat): nat
    requires b > 0
  {
    (a + b - 1) / b
  }

  lemma BelowCeil(n: nat, a: nat, b: nat)
    requires b > 0 && n * b < a
    ensures n + 1 <= CeilDiv(a, b)
  {}

  /**
   `tries` tells what each successive try would bring. The loop makes at most ceil(wait/poll) + 1 of
   them, one when there is no budget; it stops at the first that is not busy, or at the first whose
   clock reading is past the deadline, and never earlier.
   */
  method WaitLoop(wait: Duration, poll: Duration, start: Time, tries: nat -> Attempt)
    returns (result: ClientResult, attempts: nat)
    requires poll > 0 && Paced(tries, start, poll)
    ensures 1 <= attempts <= CeilDiv(if wait <= 0 then 0 else wait, poll) + 1
    ensures result == tries(attempts - 1).result
    ensures forall i: nat | i < attempts - 1 :: tries(i).result.Busy? && wait > 0 && tries(i).at < start + wait
    ensures result.Busy? ==> wait <= 0 || start + wait <= tries(attempts - 1).at
  {
    var deadline := start + wait;
    attempts := 0;
    while true
      invariant attempts <= CeilDiv(if wait <= 0 then 0 else wait, poll)
      invariant start + attempts * poll <= tries(attempts).at
      invariant forall i: nat | i < attempts :: tries(i).result.Busy? && wait > 0 && tries(i).at < deadline
      decreases CeilDiv(if wait <= 0 then 0 else wait, poll) - attempts
    {
      result := tries(attempts).result;
      var now := tries(attempts).at;
      attempts := attempts + 1;
      if !result.Busy? {
        return;
      }
      if wait <= 0 || !(now < deadline) {
        return;
      }
      BelowCeil(attempts - 1, wait, poll);
      assert Sleeps(tries, poll, attempts - 1);
      assert attempts * poll == (attempts - 1) * poll + poll;
    }
  }
}
