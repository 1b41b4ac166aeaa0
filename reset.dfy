/** The status poll of softReset (source/bme280.cpp:77-88) as a function of the answers the
    status register gives: after the reset command the driver reads STATUS until it reads 0,
    at most TIMEOUT_FOR_SOFT_RESET times. */
module Reset {
  import opened Machine
  import opened Defs

  /** The k-th answer of the status register: the scripted answers first, then the value the
      register rests at. */
  function StatusAnswer(script: seq<Byte>, idle: Byte, k: nat): Byte {
    if k < |script| then script[k] else idle
  }

  /** The STATUS read number j of a poll starting at log index `at` does not fail. */
  predicate Clean(faults: set<nat>, at: nat, j: nat) {
    at + j !in faults
  }

  /** How the poll ends, with the number of STATUS reads it made. */
  datatype PollResult = Ready(polls: nat) | BusError(polls: nat) | TimedOut

  /** The poll from read k on, the first read being the transfer with log index `at`; a read
      fails when its index is in `faults`. Each non-zero answer decrements the timeout, and the
      read that brings it to zero ends the poll. */
  function Poll(script: seq<Byte>, idle: Byte, faults: set<nat>, at: nat, k: nat): PollResult
    requires k < TIMEOUT_FOR_SOFT_RESET
    decreases TIMEOUT_FOR_SOFT_RESET - k
  {
    if !Clean(faults, at, k) then BusError(k + 1)
    else if StatusAnswer(script, idle, k) == STATUS_OK then Ready(k + 1)
    else if k + 1 == TIMEOUT_FOR_SOFT_RESET then TimedOut
    else Poll(script, idle, faults, at, k + 1)
  }

  /** What each ending of the poll from read k means about the answers and the faults. */
  lemma {:induction false} PollEndings(script: seq<Byte>, idle: Byte, faults: set<nat>, at: nat, k: nat)
    requires k < TIMEOUT_FOR_SOFT_RESET
    ensures Poll(script, idle, faults, at, k) == TimedOut <==>
      forall j :: k <= j < TIMEOUT_FOR_SOFT_RESET ==> Clean(faults, at, j) && StatusAnswer(script, idle, j) != STATUS_OK
    ensures Poll(script, idle, faults, at, k).Ready? ==>
      var n := Poll(script, idle, faults, at, k).polls;
      k < n <= TIMEOUT_FOR_SOFT_RESET && StatusAnswer(script, idle, n - 1) == STATUS_OK &&
      (forall j :: k <= j < n ==> Clean(faults, at, j)) &&
      (forall j :: k <= j < n - 1 ==> StatusAnswer(script, idle, j) != STATUS_OK)
    ensures Poll(script, idle, faults, at, k).BusError? ==>
      var n := Poll(script, idle, faults, at, k).polls;
      k < n <= TIMEOUT_FOR_SOFT_RESET && !Clean(faults, at, n - 1) &&
      (forall j :: k <= j < n - 1 ==> Clean(faults, at, j) && StatusAnswer(script, idle, j) != STATUS_OK)
    decreases TIMEOUT_FOR_SOFT_RESET - k
  {
    if !Clean(faults, at, k) || StatusAnswer(script, idle, k) == STATUS_OK || k + 1 == TIMEOUT_FOR_SOFT_RESET {
    } else {
      PollEndings(script, idle, faults, at, k + 1);
      var rest := Poll(script, idle, faults, at, k + 1);
      assert Poll(script, idle, faults, at, k) == rest;
      if rest == TimedOut {
        assert forall j :: k <= j < TIMEOUT_FOR_SOFT_RESET ==> Clean(faults, at, j) && StatusAnswer(script, idle, j) != STATUS_OK by {
          forall j | k <= j < TIMEOUT_FOR_SOFT_RESET
            ensures Clean(faults, at, j) && StatusAnswer(script, idle, j) != STATUS_OK
          {
            if j > k {
              assert k + 1 <= j < TIMEOUT_FOR_SOFT_RESET;
            }
          }
        }
      }
    }
  }

  /** Without bus faults the reset succeeds exactly when one of the first 1000 STATUS answers
      is 0, and otherwise it has read 1000 non-zero answers. */
  lemma PollSucceedsIffIdleSeen(script: seq<Byte>, idle: Byte, faults: set<nat>, at: nat)
    requires forall j :: 0 <= j < TIMEOUT_FOR_SOFT_RESET ==> Clean(faults, at, j)
    ensures Poll(script, idle, faults, at, 0).Ready? <==>
      exists j :: 0 <= j < TIMEOUT_FOR_SOFT_RESET && StatusAnswer(script, idle, j) == STATUS_OK
    ensures !Poll(script, idle, faults, at, 0).BusError?
  {
    PollEndings(script, idle, faults, at, 0);
  }
}
