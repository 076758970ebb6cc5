/** poll with a timeout: the hooks turn it into polls that do not wait, replay it once per
    millisecond asked for with a preemption each time, and then let the time pass on the logical
    clock (src/dettraceSystemCall.cpp, include/state.hpp). */
module BoundedPoll {

  const LONG_MAX: int := 0x7fff_ffff_ffff_ffff

  /** The conversion (int) of a 64-bit register. */
  function AsInt(x: int): (v: int)
    ensures -0x8000_0000 <= v < 0x8000_0000
    ensures -0x8000_0000 <= x < 0x8000_0000 ==> v == x
    ensures (v - x) % 0x1_0000_0000 == 0
  {
    var low := x % 0x1_0000_0000;
    if low < 0x8000_0000 then low else low - 0x1_0000_0000
  }

  /** originalArg3, poll_retry_count, poll_retry_maximum, and the logical clock in microseconds. */
  datatype State = State(original3: int, retries: int, maximum: int, clock: int)

  function AdvanceTime(s: State, waited: int): State {
    if waited > 0 then s.(clock := s.clock + waited) else s
  }

  /** The pre-hook: the state, and the timeout the kernel is given. */
  function Pre(s: State, arg3: int): (State, int) {
    var s1 := if s.retries == 0 then s.(original3 := arg3) else s;
    var timeout := AsInt(s1.original3);
    if timeout == 0 then (s1, arg3)
    else (s1.(maximum := if timeout > 0 then timeout else LONG_MAX), 0)
  }

  datatype Verdict = Replay(arg3: int) | Final

  /** The post-hook. `watched` says that there are descriptors to poll: a non-null array, not empty. */
  function Post(s: State, watched: bool, retval: int): (State, Verdict) {
    var timeout := AsInt(s.original3);
    if retval != 0 || !watched || timeout == 0 || s.retries >= s.maximum then
      var s1 := if retval == 0 && timeout > 0 then AdvanceTime(s, timeout * 1000) else s;
      (s1.(original3 := 0, retries := 0, maximum := LONG_MAX), Final)
    else (s.(retries := s.retries + 1), Replay(s.original3))
  }

  class Hook {
    var originalArg3: int
    var pollRetryCount: int
    var pollRetryMaximum: int
    var clock: int
    var arg3: int
    var preemptions: nat

    function View(): State
      reads this
    {
      State(originalArg3, pollRetryCount, pollRetryMaximum, clock)
    }

    method HandleDetPre()
      modifies this`originalArg3, this`pollRetryMaximum, this`arg3
      ensures (View(), arg3) == Pre(old(View()), old(arg3))
    {
      if pollRetryCount == 0 {
        originalArg3 := arg3;
      }
      var timeout := AsInt(originalArg3);
      if timeout != 0 {
        arg3 := 0;
        pollRetryMaximum := if timeout > 0 then timeout else LONG_MAX;
      }
    }

    method HandleDetPost(watched: bool, retval: int) returns (replay: bool)
      modifies this
      ensures var (s, v) := Post(old(View()), watched, retval);
              && View() == s && replay == v.Replay?
              && arg3 == (if v.Replay? then v.arg3 else old(arg3))
              && preemptions == old(preemptions) + (if v.Replay? then 1 else 0)
    {
      var timeout := AsInt(originalArg3);
      if retval != 0 || !watched || timeout == 0 || pollRetryCount >= pollRetryMaximum {
        if retval == 0 && timeout > 0 && timeout * 1000 > 0 {
          clock := clock + timeout * 1000;
        }
        originalArg3 := 0;
        pollRetryCount := 0;
        pollRetryMaximum := LONG_MAX;
        return false;
      }
      pollRetryCount := pollRetryCount + 1;
      preemptions := preemptions + 1;
      arg3 := originalArg3;
      return true;
    }
  }

  // ---- one poll of the guest ----

  datatype Result = Pending(state: State, replays: nat) | Returned(state: State, arg3: int, retval: int, replays: nat)

  /** The kernel answers `rets` to the polls made for one poll of the guest. */
  function Attempts(s: State, arg3: int, watched: bool, rets: seq<int>): Result
    decreases |rets|
  {
    if rets == [] then Pending(s, 0)
    else
      var (s1, kernelArg3) := Pre(s, arg3);
      var (s2, v) := Post(s1, watched, rets[0]);
      match v
      case Final => Returned(s2, kernelArg3, rets[0], 0)
      case Replay(next3) =>
        match Attempts(s2, next3, watched, rets[1..])
        case Pending(s3, n) => Pending(s3, n + 1)
        case Returned(s3, last3, retval, n) => Returned(s3, last3, retval, n + 1)
  }

  /** Between two attempts of a poll with timeout register `arg3`. */
  ghost predicate Retrying(s: State, arg3: int) {
    0 <= s.retries && (s.retries > 0 ==> s.original3 == arg3)
  }

  /** How many answers in a row, from the first, find nothing ready. */
  function Quiet(rets: seq<int>): nat {
    if rets == [] || rets[0] != 0 then 0 else 1 + Quiet(rets[1..])
  }

  /** What a poll of the guest comes to, from any attempt on. With a positive timeout `t`, at most
      `t` replays are made in all; the answer is the first attempt that finds something ready, or
      the one after the last replay; the clock moves by exactly `t` milliseconds in the latter
      case and not at all otherwise; and the retry state is reset. */
  lemma {:induction false} PollOutcome(s: State, arg3: int, watched: bool, rets: seq<int>)
    requires Retrying(s, arg3)
    requires AsInt(arg3) > 0 ==> s.retries <= AsInt(arg3)
    ensures var t, r := AsInt(arg3), Attempts(s, arg3, watched, rets);
            && (t == 0 || !watched ==> r.replays == 0)
            && (t > 0 ==> s.retries + r.replays <= t)
            && (r.Pending? ==> r.replays == |rets| <= Quiet(rets))
            && (r.Returned? ==>
                  && r.replays < |rets| && r.retval == rets[r.replays] && r.replays <= Quiet(rets)
                  && r.state.retries == 0 && r.state.original3 == 0 && r.state.maximum == LONG_MAX
                  && r.state.clock == s.clock + (if r.retval == 0 && t > 0 then t * 1000 else 0)
                  && r.arg3 == (if t == 0 then arg3 else 0)
                  && (r.retval == 0 && watched && t > 0 ==> s.retries + r.replays == t)
                  && (r.retval == 0 && watched && t < 0 ==> s.retries + r.replays >= LONG_MAX))
    decreases |rets|
  {
    if rets != [] {
      var (s1, _) := Pre(s, arg3);
      var (s2, v) := Post(s1, watched, rets[0]);
      if v.Replay? {
        PollOutcome(s2, v.arg3, watched, rets[1..]);
      }
    }
  }

  /** The kernel never waits, and every replay is entered with the guest's own timeout. */
  lemma ReplaysKeepTheTimeout(s: State, arg3: int, watched: bool, ret: int)
    requires Retrying(s, arg3)
    ensures var (s1, kernelArg3) := Pre(s, arg3);
            var (s2, v) := Post(s1, watched, ret);
            && (kernelArg3 == 0 || AsInt(kernelArg3) == 0)
            && (v.Replay? ==> v.arg3 == arg3 && Retrying(s2, arg3) && s2.retries == s.retries + 1)
            && (v.Replay? <==> ret == 0 && watched && AsInt(arg3) != 0 && s.retries < (if AsInt(arg3) > 0 then AsInt(arg3) else LONG_MAX))
  {
  }

  /** The timeout register the guest gets back is its own exactly when it did not ask to wait. */
  lemma TimeoutRegisterRestoredIff(s: State, arg3: int, watched: bool, rets: seq<int>)
    requires s.retries == 0 && Attempts(s, arg3, watched, rets).Returned?
    ensures Attempts(s, arg3, watched, rets).arg3 == arg3 <==> AsInt(arg3) == 0
  {
    PollOutcome(s, arg3, watched, rets);
  }
}
