/** read and write on a blocking descriptor: the post-hooks replay a call that would have blocked
    and one that moved fewer bytes than asked for, so that the guest sees one full transfer
    (src/dettraceSystemCall.cpp, src/utilSystemCalls.cpp, src/state.cpp). */
module ShortTransfer {

  const EAGAIN := 11

  /** totalBytes, firstTrySystemcall and the argument registers of `beforeRetry`. */
  datatype Retry = Retry(first: bool, total: int, before2: int, before3: int)

  /** The buffer and count arguments, and the return register. */
  datatype Regs = Regs(arg2: int, arg3: int, ret: int)

  datatype Verdict = Again(blocked: bool) | Final

  /** The post-hook: its new state, the registers it leaves, and whether the call is replayed. */
  function Post(s: Retry, r: Regs): (Retry, Regs, Verdict) {
    if r.ret == -EAGAIN then (s, r, Again(true))
    else if r.ret < 0 then (s, r, Final)
    else
      var total := s.total + r.ret;
      var s1 := if s.first then Retry(false, total, r.arg2, r.arg3) else s.(total := total);
      if r.ret == 0 || total == s1.before3
      then (s1.(first := true, total := 0), Regs(s1.before2, s1.before3, total), Final)
      else (s1, r.(arg2 := r.arg2 + r.ret, arg3 := r.arg3 - r.ret), Again(false))
  }

  class Hook {
    var firstTrySystemcall: bool
    var totalBytes: int
    var beforeRetry2: int
    var beforeRetry3: int
    var arg2: int
    var arg3: int
    var returnRegister: int
    var preemptions: nat

    function State(): Retry
      reads this
    {
      Retry(firstTrySystemcall, totalBytes, beforeRetry2, beforeRetry3)
    }

    function Registers(): Regs
      reads this
    {
      Regs(arg2, arg3, returnRegister)
    }

    /** readSystemCall::handleDetPost and writeSystemCall::handleDetPost on a blocking descriptor. */
    method HandleDetPost() returns (replay: bool)
      modifies this
      ensures var (s, r, v) := Post(old(State()), old(Registers()));
              && State() == s && Registers() == r && replay == v.Again?
              && preemptions == old(preemptions) + (if v == Again(true) then 1 else 0)
    {
      if returnRegister == -EAGAIN {
        preemptions := preemptions + 1;
        return true;
      }
      if returnRegister < 0 {
        return false;
      }
      var bytes := returnRegister;
      totalBytes := totalBytes + bytes;
      if firstTrySystemcall {
        firstTrySystemcall := false;
        beforeRetry2, beforeRetry3 := arg2, arg3;
      }
      if bytes == 0 || totalBytes == beforeRetry3 {
        returnRegister := totalBytes;
        arg2, arg3 := beforeRetry2, beforeRetry3;
        firstTrySystemcall := true;
        totalBytes := 0;
        return false;
      }
      arg2 := arg2 + bytes;
      arg3 := arg3 - bytes;
      return true;
    }
  }

  // ---- the kernel's side ----

  type Byte = bv8

  /** The tracee's memory, and the stream: what is still to be read, or what has been written. */
  datatype Io = Io(mem: map<int, Byte>, stream: seq<Byte>)

  datatype Direction = Reading | Writing

  predicate InMemory(io: Io, addr: int, n: nat) {
    forall i | addr <= i < addr + n :: i in io.mem
  }

  /** One call that moves `n` bytes: into memory from the stream, or onto the stream from memory. */
  function Move(d: Direction, io: Io, addr: int, n: nat): Io
    requires InMemory(io, addr, n) && (d.Reading? ==> n <= |io.stream|)
  {
    match d
    case Reading => Io(map i | i in io.mem :: if addr <= i < addr + n then io.stream[i - addr] else io.mem[i], io.stream[n..])
    case Writing => io.(stream := io.stream + seq(n, i requires 0 <= i < n => io.mem[addr + i]))
  }

  /** A call that answers `ret`: it moves as many bytes, or none. */
  function Moving(d: Direction, io: Io, addr: int, ret: int): Io
    requires ret > 0 ==> InMemory(io, addr, ret) && (d.Reading? ==> ret <= |io.stream|)
  {
    if ret > 0 then Move(d, io, addr, ret) else io
  }

  /** Whether the kernel can answer a call with `ret`. */
  predicate CanReturn(d: Direction, io: Io, r: Regs, ret: int) {
    || ret == -EAGAIN
    || (0 <= ret <= r.arg3 && (ret > 0 ==> InMemory(io, r.arg2, ret) && (d.Reading? ==> ret <= |io.stream|)))
  }

  /** `moved` counts the bytes the kernel has moved. */
  datatype Result = Pending(io: Io, moved: int) | Returned(state: Retry, regs: Regs, io: Io, moved: int)

  function Positive(ret: int): nat {
    if ret > 0 then ret else 0
  }

  /** The calls the kernel makes for one read or write of the guest, `done` bytes of which have been
      moved: `rets` is what it answers, each answered call being replayed as the post-hook says. */
  function Calls(d: Direction, s: Retry, r: Regs, io: Io, rets: seq<int>, done: int): Result
    requires Allowed(d, s, r, io, rets)
    decreases |rets|
  {
    if rets == [] then Pending(io, done)
    else
      var io' := Moving(d, io, r.arg2, rets[0]);
      var (s', r', v) := Post(s, r.(ret := rets[0]));
      if v.Final? then Returned(s', r', io', done + Positive(rets[0]))
      else Calls(d, s', r', io', rets[1..], done + Positive(rets[0]))
  }

  /** The kernel answers each call within its bounds. */
  ghost predicate Allowed(d: Direction, s: Retry, r: Regs, io: Io, rets: seq<int>)
    decreases |rets|
  {
    rets != [] ==>
      && CanReturn(d, io, r, rets[0])
      && var (s', r', v) := Post(s, r.(ret := rets[0]));
         v.Again? ==> Allowed(d, s', r', Moving(d, io, r.arg2, rets[0]), rets[1..])
  }

  // ---- the transfer is transparent ----

  lemma MoveTwice(d: Direction, io: Io, addr: int, m: nat, n: nat)
    requires InMemory(io, addr, m + n) && (d.Reading? ==> m + n <= |io.stream|)
    ensures InMemory(io, addr, m) && InMemory(Move(d, io, addr, m), addr + m, n)
    ensures d.Reading? ==> n <= |Move(d, io, addr, m).stream|
    ensures Move(d, Move(d, io, addr, m), addr + m, n) == Move(d, io, addr, m + n)
  {
    if d.Reading? {
      var once, twice := Move(d, io, addr, m), Move(d, Move(d, io, addr, m), addr + m, n);
      assert io.stream[m..][n..] == io.stream[m + n..];
      assert twice.mem == Move(d, io, addr, m + n).mem;
    } else {
      assert Move(d, io, addr, m + n).stream == Move(d, Move(d, io, addr, m), addr + m, n).stream;
    }
  }

  /** `total` bytes of the call `(buf, count)` have been moved and the call is to be replayed. */
  ghost predicate Midway(s: Retry, r: Regs, buf: int, count: int) {
    && 0 <= s.total && r.arg2 == buf + s.total && r.arg3 == count - s.total && 0 <= r.arg3
    && (s.first ==> s.total == 0)
    && (!s.first ==> s.before2 == buf && s.before3 == count)
  }

  lemma MoveNothing(d: Direction, io: Io, addr: int)
    ensures InMemory(io, addr, 0) && Move(d, io, addr, 0) == io
  {
    assert Move(Writing, io, addr, 0).stream == io.stream;
  }

  lemma MoveKeepsDomain(d: Direction, io: Io, addr: int, n: nat)
    requires InMemory(io, addr, n) && (d.Reading? ==> n <= |io.stream|)
    ensures Move(d, io, addr, n).mem.Keys == io.mem.Keys
    ensures d.Reading? ==> |Move(d, io, addr, n).stream| == |io.stream| - n
  {
  }

  lemma MoveOn(d: Direction, io0: Io, buf: int, total: nat, n: nat)
    requires InMemory(io0, buf, total) && (d.Reading? ==> total <= |io0.stream|)
    requires var io := Move(d, io0, buf, total);
             InMemory(io, buf + total, n) && (d.Reading? ==> n <= |io.stream|)
    ensures InMemory(io0, buf, total + n) && (d.Reading? ==> total + n <= |io0.stream|)
    ensures Move(d, Move(d, io0, buf, total), buf + total, n) == Move(d, io0, buf, total + n)
  {
    MoveKeepsDomain(d, io0, buf, total);
    var io := Move(d, io0, buf, total);
    assert InMemory(io0, buf, total + n) by {
      assert forall i | buf + total <= i < buf + total + n :: i in io.mem.Keys;
    }
    MoveTwice(d, io0, buf, total, n);
  }

  /** One answer of the kernel: either the loop goes on from further along, or the guest gets the
      total and its own arguments back and the state is reset. */
  lemma OneAnswer(s: Retry, r: Regs, ret: int, buf: int, count: int)
    requires Midway(s, r, buf, count) && ret <= r.arg3
    requires ret < 0 ==> ret == -EAGAIN
    ensures var (s', r', v) := Post(s, r.(ret := ret));
            var total := s.total + Positive(ret);
            if v.Again? then Midway(s', r', buf, count) && s'.total == total
            else r' == Regs(buf, count, total) && s'.first && s'.total == 0 && (total < count ==> ret == 0)
  {
  }

  /** From any point of the loop on: the guest gets the sum of what the kernel's calls moved, no more
      than it asked for, and its own arguments back, and the state is reset. Fewer bytes than asked
      for come only from an end of file. */
  lemma {:induction false} FinishesTheCount(
      d: Direction, s: Retry, r: Regs, io: Io, rets: seq<int>, buf: int, count: int, res: Result)
    requires Midway(s, r, buf, count) && Allowed(d, s, r, io, rets) && res == Calls(d, s, r, io, rets, s.total)
    ensures s.total <= res.moved <= count
    ensures res.Returned? ==>
              && res.regs == Regs(buf, count, res.moved)
              && res.state.first && res.state.total == 0
              && (res.moved < count ==> 0 in rets)
    decreases |rets|
  {
    if rets != [] {
      var (s', r', v) := Post(s, r.(ret := rets[0]));
      OneAnswer(s, r, rets[0], buf, count);
      if v.Again? {
        FinishesTheCount(d, s', r', Moving(d, io, r.arg2, rets[0]), rets[1..], buf, count, res);
      }
    }
  }

  /** An error ends the transfer and goes to the guest as it is. The guest has its own arguments back
      exactly if no byte had been moved; otherwise no later transfer starts from a reset state. */
  lemma ErrorAfterPartIff(s: Retry, r: Regs, ret: int, buf: int, count: int)
    requires Midway(s, r, buf, count) && ret < 0 && ret != -EAGAIN
    ensures var (s', r', v) := Post(s, r.(ret := ret));
            && v.Final? && r'.ret == ret
            && (r'.arg2 == buf && r'.arg3 == count <==> s.total == 0)
            && (s.total > 0 ==> forall b, c :: !IsReset(s', b, c))
            && (s.first ==> forall b, c :: IsReset(s', b, c))
  {
  }

  /** What one call of `total` bytes would have made of `io0`. */
  ghost predicate Reached(d: Direction, io0: Io, buf: int, total: int, io: Io) {
    && 0 <= total && InMemory(io0, buf, total) && (d.Reading? ==> total <= |io0.stream|)
    && io == Move(d, io0, buf, total)
  }

  lemma ReachesFurther(d: Direction, io0: Io, buf: int, total: int, io: Io, n: nat)
    requires Reached(d, io0, buf, total, io)
    requires InMemory(io, buf + total, n) && (d.Reading? ==> n <= |io.stream|)
    ensures Reached(d, io0, buf, total + n, Move(d, io, buf + total, n))
  {
    MoveOn(d, io0, buf, total, n);
  }

  lemma AnswerReaches(d: Direction, io0: Io, buf: int, total: int, io: Io, addr: int, ret: int)
    requires Reached(d, io0, buf, total, io) && addr == buf + total
    requires ret > 0 ==> InMemory(io, addr, ret) && (d.Reading? ==> ret <= |io.stream|)
    ensures Reached(d, io0, buf, total + Positive(ret), Moving(d, io, addr, ret))
  {
    if ret > 0 {
      ReachesFurther(d, io0, buf, total, io, ret);
    }
  }

  lemma AnswerKeeps(d: Direction, s: Retry, r: Regs, io: Io, ret: int, buf: int, count: int, io0: Io)
    requires Midway(s, r, buf, count) && CanReturn(d, io, r, ret) && Reached(d, io0, buf, s.total, io)
    ensures var (s', r', v) := Post(s, r.(ret := ret));
            && Reached(d, io0, buf, s.total + Positive(ret), Moving(d, io, r.arg2, ret))
            && (v.Again? ==> Midway(s', r', buf, count) && s'.total == s.total + Positive(ret))
  {
    AnswerReaches(d, io0, buf, s.total, io, r.arg2, ret);
    OneAnswer(s, r, ret, buf, count);
  }

  /** From any point of the loop on: the kernel's calls together move what one call would have, in
      place and in order. */
  lemma {:induction false} FinishesTheTransfer(
      d: Direction, s: Retry, r: Regs, io: Io, rets: seq<int>, buf: int, count: int, io0: Io, res: Result)
    requires Midway(s, r, buf, count) && Allowed(d, s, r, io, rets) && res == Calls(d, s, r, io, rets, s.total)
    requires Reached(d, io0, buf, s.total, io)
    ensures Reached(d, io0, buf, res.moved, res.io)
    decreases |rets|
  {
    if rets != [] {
      AnswerKeeps(d, s, r, io, rets[0], buf, count, io0);
      var (s', r', v) := Post(s, r.(ret := rets[0]));
      if v.Again? {
        FinishesTheTransfer(d, s', r', Moving(d, io, r.arg2, rets[0]), rets[1..], buf, count, io0, res);
      }
    }
  }

  // ---- preemptions ----

  /** How often the post-hook preempts the tracee in a transfer. */
  function Preemptions(s: Retry, r: Regs, rets: seq<int>): nat
    decreases |rets|
  {
    if rets == [] then 0
    else
      var (s', r', v) := Post(s, r.(ret := rets[0]));
      match v
      case Again(blocked) => (if blocked then 1 else 0) + Preemptions(s', r', rets[1..])
      case Final => 0
  }

  /** How many answers a transfer takes. */
  function Answered(s: Retry, r: Regs, rets: seq<int>): nat
    decreases |rets|
  {
    if rets == [] then 0
    else
      var (s', r', v) := Post(s, r.(ret := rets[0]));
      1 + if v.Again? then Answered(s', r', rets[1..]) else 0
  }

  function Blocks(rets: seq<int>): nat {
    if rets == [] then 0 else (if rets[0] == -EAGAIN then 1 else 0) + Blocks(rets[1..])
  }

  /** A transfer is preempted exactly as often as the kernel answers that it would block. */
  lemma {:induction false} PreemptedPerBlock(s: Retry, r: Regs, rets: seq<int>)
    ensures Answered(s, r, rets) <= |rets| && Preemptions(s, r, rets) == Blocks(rets[..Answered(s, r, rets)])
    decreases |rets|
  {
    if rets != [] {
      var (s', r', v) := Post(s, r.(ret := rets[0]));
      var n := 0;
      if v.Again? {
        PreemptedPerBlock(s', r', rets[1..]);
        n := Answered(s', r', rets[1..]);
      }
      assert rets[..n + 1][0] == rets[0] && rets[..n + 1][1..] == rets[1..][..n];
    }
  }

  // ---- transparency ----

  /** A guest's read or write is transparent when it looks like one call that moved as many bytes
      as the kernel's calls together. */
  ghost predicate LooksLikeOneCall(d: Direction, s: Retry, buf: int, count: int, io: Io, rets: seq<int>)
  {
    var r := Regs(buf, count, 0);
    Allowed(d, s, r, io, rets) && Calls(d, s, r, io, rets, 0).Returned? ==>
      var res := Calls(d, s, r, io, rets, 0);
      && 0 <= res.moved <= count && res.regs == Regs(buf, count, res.moved)
      && Reached(d, io, buf, res.moved, res.io)
  }

  /** The retry state left by a finished transfer, or one that happens to match the call. */
  predicate IsReset(s: Retry, buf: int, count: int) {
    s.total == 0 && (s.first || (s.before2 == buf && s.before3 == count))
  }

  lemma TransparentWhenReset(d: Direction, s: Retry, buf: int, count: int, io: Io, rets: seq<int>)
    requires 0 <= count && IsReset(s, buf, count)
    ensures LooksLikeOneCall(d, s, buf, count, io, rets)
  {
    var r := Regs(buf, count, 0);
    if Allowed(d, s, r, io, rets) {
      MoveNothing(d, io, buf);
      var res := Calls(d, s, r, io, rets, 0);
      FinishesTheCount(d, s, r, io, rets, buf, count, res);
      FinishesTheTransfer(d, s, r, io, rets, buf, count, io, res);
    }
  }

  /** A call is transparent whatever the kernel answers exactly when the retry state is reset. */
  lemma TransparentIff(d: Direction, s: Retry, buf: int, count: int)
    requires 0 <= count
    ensures IsReset(s, buf, count) <==> forall io, rets :: LooksLikeOneCall(d, s, buf, count, io, rets)
  {
    if IsReset(s, buf, count) {
      forall io, rets
        ensures LooksLikeOneCall(d, s, buf, count, io, rets)
      {
        TransparentWhenReset(d, s, buf, count, io, rets);
      }
    } else {
      var io := Io(map[], []);
      assert [0][1..] == [];
      assert !LooksLikeOneCall(d, s, buf, count, io, [0]);
    }
  }

  /** What state::forked gives the child: not the first try of anything, and no registers saved. */
  function ForkedRetry(parent: Retry): Retry {
    Retry(false, parent.total, 0, 0)
  }

  /** Some answers end the first transfer of a forked child in a way the guest can tell. */
  lemma FirstCallAfterForkIsNot(d: Direction, parent: Retry, buf: int, count: int)
    requires 0 <= count && (buf != 0 || count != 0)
    ensures exists io, rets :: !LooksLikeOneCall(d, ForkedRetry(parent), buf, count, io, rets)
  {
    TransparentIff(d, ForkedRetry(parent), buf, count);
  }

  /** A transfer that is taken for a retry returns the registers that were saved before it, and
      counts from the total that was left behind. */
  lemma {:induction false} ReturnsWhatWasSaved(d: Direction, s: Retry, r: Regs, io: Io, rets: seq<int>, done: int, res: Result)
    requires !s.first && Allowed(d, s, r, io, rets) && res == Calls(d, s, r, io, rets, done)
    ensures res.Returned? ==> res.regs == Regs(s.before2, s.before3, s.total + res.moved - done)
    decreases |rets|
  {
    if rets != [] {
      var (s', r', v) := Post(s, r.(ret := rets[0]));
      if v.Again? {
        var n := Positive(rets[0]);
        assert !s'.first && s'.before2 == s.before2 && s'.before3 == s.before3 && s'.total == s.total + n;
        ReturnsWhatWasSaved(d, s', r', Moving(d, io, r.arg2, rets[0]), rets[1..], done + n, res);
      }
    }
  }

  /** Whatever the kernel answers, the first transfer of a forked child gets zeroes back for its
      buffer and its count, and the parent's total on top of its own. So it is transparent exactly
      if it names no bytes at address 0 and the parent's total is zero. */
  lemma FirstCallAfterFork(d: Direction, parent: Retry, buf: int, count: int, io: Io, rets: seq<int>)
    requires Allowed(d, ForkedRetry(parent), Regs(buf, count, 0), io, rets)
    requires Calls(d, ForkedRetry(parent), Regs(buf, count, 0), io, rets, 0).Returned?
    ensures var res := Calls(d, ForkedRetry(parent), Regs(buf, count, 0), io, rets, 0);
            && res.regs == Regs(0, 0, parent.total + res.moved)
            && (LooksLikeOneCall(d, ForkedRetry(parent), buf, count, io, rets) <==> buf == 0 && count == 0 && parent.total == 0)
  {
    var r, s := Regs(buf, count, 0), ForkedRetry(parent);
    ReturnsWhatWasSaved(d, s, r, io, rets, 0, Calls(d, s, r, io, rets, 0));
    if buf == 0 && count == 0 && parent.total == 0 {
      TransparentWhenReset(d, s, buf, count, io, rets);
    }
  }
}
