/** The wait for the enhanced file: poll every five seconds while the service
    answers 412 and the timeout has not elapsed, then classify the last answer.
    The service's answers and the clock are inputs: `codes[j]` is the status
    of the `j`-th poll, `clock[k]` the elapsed seconds when the loop condition
    is tested for the `k`-th time. */
module Polling {

  /** The status meaning "still processing, ask again". */
  const NotReady: int := 412
  /** The status meaning "here is the enhanced file". */
  const Ready: int := 200
  /** Seconds slept before every poll. */
  const PollingIntervalS: real := 5.0

  /** A clock read at successive loop tests: it starts at or after zero and,
      because every iteration sleeps first, advances at least one polling
      interval between two tests. */
  predicate ClockSteps(clock: seq<real>) {
    && |clock| > 0
    && clock[0] >= 0.0
    && forall k :: 0 < k < |clock| ==> clock[k - 1] + PollingIntervalS <= clock[k]
  }

  /** `ceil(timeout / 5)`: the most polls a timeout leaves room for. */
  function PollBound(timeout: nat): nat {
    (timeout + 4) / 5
  }

  /** The answers and clock readings reach as far as the loop can run. */
  predicate Covers(timeout: nat, codes: seq<int>, clock: seq<real>) {
    ClockSteps(clock) && |codes| >= PollBound(timeout) && |clock| > PollBound(timeout)
  }

  /** By the `k`-th test at least `k` intervals have elapsed. */
  lemma {:induction false} ClockLowerBound(clock: seq<real>, k: nat)
    requires ClockSteps(clock) && k < |clock|
    ensures clock[k] >= PollingIntervalS * k as real
  {
    if k > 0 {
      ClockLowerBound(clock, k - 1);
    }
  }

  /** A run of the loop that made `polls` polls and ended holding `code`:
      every poll followed a test that found time left, every poll but the
      last answered 412, the held code is the last answer (412 before any
      poll), and the final test failed, because the code is not 412 or
      because time ran out. */
  predicate PollRun(timeout: nat, codes: seq<int>, clock: seq<real>, polls: nat, code: int) {
    && polls <= |codes|
    && polls < |clock|
    && (forall j :: 0 <= j < polls ==> clock[j] < timeout as real)
    && (forall j :: 0 <= j < polls - 1 ==> codes[j] == NotReady)
    && code == (if polls == 0 then NotReady else codes[polls - 1])
    && (code != NotReady || clock[polls] >= timeout as real)
  }

  /** The loop from its `k`-th test on, holding `code`. */
  function PollFrom(timeout: nat, codes: seq<int>, clock: seq<real>, k: nat, code: int): (r: (nat, int))
    requires Covers(timeout, codes, clock)
    requires k <= PollBound(timeout)
    ensures k <= r.0 <= PollBound(timeout)
    ensures forall j :: k <= j < r.0 ==> clock[j] < timeout as real
    ensures forall j :: k <= j < r.0 - 1 ==> codes[j] == NotReady
    ensures r.0 > k ==> code == NotReady
    ensures r.1 == (if r.0 == k then code else codes[r.0 - 1])
    ensures r.1 != NotReady || clock[r.0] >= timeout as real
    decreases PollBound(timeout) - k
  {
    if code == NotReady && clock[k] < timeout as real then
      ClockLowerBound(clock, k);
      PollFrom(timeout, codes, clock, k + 1, codes[k])
    else
      (k, code)
  }

  /** The whole loop: the polls it makes and the code it ends with. */
  function Poll(timeout: nat, codes: seq<int>, clock: seq<real>): (r: (nat, int))
    requires Covers(timeout, codes, clock)
    ensures PollRun(timeout, codes, clock, r.0, r.1)
    ensures r.0 <= PollBound(timeout)
  {
    PollFrom(timeout, codes, clock, 0, NotReady)
  }

  /** The loop as written: test, sleep, poll, until the answer is not 412
      or the time is up. */
  method PollLoop(timeout: nat, codes: seq<int>, clock: seq<real>) returns (polls: nat, code: int)
    requires Covers(timeout, codes, clock)
    ensures PollRun(timeout, codes, clock, polls, code)
    ensures polls <= PollBound(timeout)
  {
    code := NotReady;
    polls := 0;
    while code == NotReady && clock[polls] < timeout as real
      invariant polls <= PollBound(timeout)
      invariant forall j :: 0 <= j < polls ==> clock[j] < timeout as real
      invariant forall j :: 0 <= j < polls - 1 ==> codes[j] == NotReady
      invariant code == (if polls == 0 then NotReady else codes[polls - 1])
      decreases PollBound(timeout) - polls
    {
      ClockLowerBound(clock, polls);
      code := codes[polls];
      polls := polls + 1;
    }
  }

  /** A run is determined by its inputs: the loop stops at the first answer
      other than 412, or at the first test past the timeout. */
  lemma PollRunUnique(timeout: nat, codes: seq<int>, clock: seq<real>,
                      n1: nat, c1: int, n2: nat, c2: int)
    requires PollRun(timeout, codes, clock, n1, c1)
    requires PollRun(timeout, codes, clock, n2, c2)
    ensures n1 == n2 && c1 == c2
  {
  }

  /** With a zero timeout the first test fails: no poll is made and the held
      code is still 412. */
  lemma ZeroTimeoutNoPolls(codes: seq<int>, clock: seq<real>, polls: nat, code: int)
    requires PollRun(0, codes, clock, polls, code) && ClockSteps(clock)
    ensures polls == 0 && code == NotReady
  {
  }

  /** How a file's processing ends. */
  datatype Outcome =
    | Success
    | Timeout(seconds: nat, sizeBytes: nat)
    | RemoteFailure(code: int)
    | Unsupported

  /** The verdict after the loop: 412 still held is a timeout naming the
      timeout and the size, 200 is success, anything else a remote failure. */
  function Classify(code: int, timeout: nat, sizeBytes: nat): (o: Outcome)
    ensures o.Success? <==> code == Ready
    ensures o.Timeout? <==> code == NotReady
    ensures o.RemoteFailure? <==> code != Ready && code != NotReady
    ensures o.Timeout? ==> o.seconds == timeout && o.sizeBytes == sizeBytes
    ensures o.RemoteFailure? ==> o.code == code
  {
    if code == NotReady then Timeout(timeout, sizeBytes)
    else if code != Ready then RemoteFailure(code)
    else Success
  }
}
