/** The health check of a started program. */
module Health {
  /** One poll: when it was due, counted from the start of the check, and whether the program answered with the expected
      version and everything in order. */
  datatype Poll = Poll(at: int, passed: bool)

  datatype Verdict = Healthy | Unhealthy | NoAddress | BadParameters

  /** `needed` polls in a row, from `start` on, found the program healthy. */
  ghost predicate Streak(polls: seq<Poll>, start: nat, needed: nat) {
    start + needed <= |polls| && forall k | start <= k < start + needed :: polls[k].passed
  }

  /** Neither the last poll of the streak nor one before it came after the deadline. */
  ghost predicate InTime(polls: seq<Poll>, end: nat, timeout: int) {
    end <= |polls| && forall k | 0 <= k < end :: polls[k].at <= timeout
  }

  /** `polls` are the polls that would be made before a cancellation. The check succeeds exactly when its parameters are
      in order and enough polls in a row, all within the deadline, find the program healthy. */
  method WaitForHealth(address: string, timeout: int, interval: int, needed: int, polls: seq<Poll>)
    returns (verdict: Verdict)
    ensures verdict == NoAddress <==> address == ""
    ensures verdict == BadParameters <==> address != "" && (needed < 1 || timeout <= 0 || interval <= 0)
    ensures verdict == Healthy <==>
      address != "" && needed >= 1 && timeout > 0 && interval > 0
      && exists start: nat :: Streak(polls, start, needed) && InTime(polls, start + needed, timeout)
  {
    if address == "" {
      return NoAddress;
    }
    if needed < 1 || timeout <= 0 || interval <= 0 {
      return BadParameters;
    }
    verdict := Unhealthy;
    var consecutive := 0;
    for i := 0 to |polls|
      invariant 0 <= consecutive < needed && consecutive <= i
      invariant forall k | i - consecutive <= k < i :: polls[k].passed
      invariant i > consecutive ==> !polls[i - consecutive - 1].passed
      invariant InTime(polls, i, timeout)
      invariant forall start: nat | start + needed <= i :: !Streak(polls, start, needed)
    {
      if polls[i].at > timeout {
        return;
      }
      if polls[i].passed {
        consecutive := consecutive + 1;
        if consecutive >= needed {
          assert Streak(polls, i + 1 - needed, needed) && InTime(polls, i + 1 - needed + needed, timeout);
          return Healthy;
        }
        assert i + 1 > consecutive ==> !polls[i - consecutive].passed;
      } else {
        consecutive := 0;
      }
    }
  }
}
