/** Which time a file shows: that of the process that last made or truncated it, and how the processes'
    clocks get there (src/utilSystemCalls.cpp, include/state.hpp). */
module FileTimes {
  import opened LogicalClock
  import opened HostFiles

  // ---- clocks ----

  /** What one operation does to a process's clock: making or truncating a file and a system call that
      counts take one step, a wait takes what it asked for, and a new process takes its parent's
      time. No other clock moves. */
  lemma ClockMoves(w: World, op: Op, pick: DevIno, q: Pid)
    requires Enabled(w, op, pick) && q in w.g.clocks
    ensures var g := Play(w, op, pick).0.g;
            && q in g.clocks && g.step == w.g.step && g.epoch == w.g.epoch
            && g.clocks[q] - w.g.clocks[q] ==
               match op
               case Make(p, _) => if p == q then w.g.step else 0
               case Truncate(p, _) => if p == q then w.g.step else 0
               case Tick(p) => if p == q then w.g.step else 0
               case Wait(p, d) => if p == q && d > 0 then d else 0
               case WaitUntil(p, t) => if p == q && t > w.g.clocks[q] then t - w.g.clocks[q] else 0
               case _ => 0
    ensures op.Spawn? ==> op.c in Play(w, op, pick).0.g.clocks && Play(w, op, pick).0.g.clocks[op.c] == w.g.clocks[op.p]
  {
  }

  // ---- the time of a file ----

  /** The file exists, and this is the time the tracer has for it. */
  ghost predicate HasTime(w: World, f: File, t: int) {
    f in w.live && Mtime(w.g, w.live[f]) == t
  }

  /** Right after it is made or truncated, a file shows the second of the clock of the process that did
      it, as it was before. */
  lemma ShowsTheMakersTime(w: World, op: Op, pick: DevIno, f: File)
    requires Enabled(w, op, pick) && Times(op, f)
    ensures var w' := Play(w, op, pick).0;
            && HasTime(w', f, w.g.clocks[op.p])
            && Play(w', Stat(f), pick).1[0].seconds == ToTimeT(w.g.clocks[op.p])
  {
  }

  lemma PlayKeepsTimeOf(w: World, op: Op, pick: DevIno, f: File, t: int)
    requires Enabled(w, op, pick) && Injective(w.live) && HasTime(w, f, t) && !Times(op, f) && !Deletes(op, f)
    ensures Injective(Play(w, op, pick).0.live) && HasTime(Play(w, op, pick).0, f, t)
  {
  }

  /** A file's time stays until it is made again, truncated or deleted, whatever identities others
      recycle. */
  lemma {:induction false} RunKeepsTimeOf(w: World, ops: seq<Op>, picks: seq<DevIno>, f: File, t: int)
    requires |picks| == |ops| && Allowed(w, ops, picks) && Injective(w.live) && HasTime(w, f, t)
    requires forall i | 0 <= i < |ops| :: !Times(ops[i], f) && !Deletes(ops[i], f)
    ensures HasTime(Run(w, ops, picks).0, f, t)
    decreases |ops|
  {
    if ops != [] {
      PlayKeepsTimeOf(w, ops[0], picks[0], f, t);
      RunKeepsTimeOf(Play(w, ops[0], picks[0]).0, ops[1..], picks[1..], f, t);
    }
  }

  lemma {:induction false} PrefixAllowed(w: World, ops: seq<Op>, picks: seq<DevIno>, k: nat)
    requires |picks| == |ops| && Allowed(w, ops, picks) && k <= |ops|
    ensures Allowed(w, ops[..k], picks[..k])
    ensures k < |ops| ==> Enabled(Run(w, ops[..k], picks[..k]).0, ops[k], picks[k])
    ensures k > 0 ==>
              var w1 := Play(w, ops[0], picks[0]).0;
              && Allowed(w1, ops[1..][..k - 1], picks[1..][..k - 1])
              && Run(w, ops[..k], picks[..k]).0 == Run(w1, ops[1..][..k - 1], picks[1..][..k - 1]).0
    decreases |ops|
  {
    if k > 0 {
      assert ops[..k][1..] == ops[1..][..k - 1] && picks[..k][1..] == picks[1..][..k - 1];
      PrefixAllowed(Play(w, ops[0], picks[0]).0, ops[1..], picks[1..], k - 1);
    }
  }

  /** The clock of a process when the run comes to operation `k`. */
  function ClockBefore(w: World, ops: seq<Op>, picks: seq<DevIno>, k: nat, p: Pid): int
    requires |picks| == |ops| && k <= |ops| && Allowed(w, ops[..k], picks[..k])
    requires p in Run(w, ops[..k], picks[..k]).0.g.clocks
  {
    Run(w, ops[..k], picks[..k]).0.g.clocks[p]
  }

  lemma PlayKeepsInjective(w: World, op: Op, pick: DevIno)
    requires Enabled(w, op, pick) && Injective(w.live)
    ensures Injective(Play(w, op, pick).0.live)
  {
  }

  /** At the end of any run, a file has the time at which it was last made or truncated. */
  lemma {:induction false} LastTimeStays(w: World, ops: seq<Op>, picks: seq<DevIno>, f: File, k: nat)
    requires |picks| == |ops| && Allowed(w, ops, picks) && Injective(w.live)
    requires k < |ops| && Times(ops[k], f) && forall i | k < i < |ops| :: !Times(ops[i], f) && !Deletes(ops[i], f)
    ensures Allowed(w, ops[..k], picks[..k]) && ops[k].p in Run(w, ops[..k], picks[..k]).0.g.clocks
    ensures HasTime(Run(w, ops, picks).0, f, ClockBefore(w, ops, picks, k, ops[k].p))
    decreases |ops|
  {
    PrefixAllowed(w, ops, picks, k);
    var w1 := Play(w, ops[0], picks[0]).0;
    assert forall i | 1 <= i < |ops| :: ops[i] == ops[1..][i - 1];
    PlayKeepsInjective(w, ops[0], picks[0]);
    if k == 0 {
      assert ops[..0] == [] && picks[..0] == [];
      ShowsTheMakersTime(w, ops[0], picks[0], f);
      RunKeepsTimeOf(w1, ops[1..], picks[1..], f, w.g.clocks[ops[0].p]);
    } else {
      LastTimeStays(w1, ops[1..], picks[1..], f, k - 1);
    }
  }

  /** And that is what stat shows of it, in whole seconds. */
  lemma ShowsItsLastTime(w: World, ops: seq<Op>, picks: seq<DevIno>, f: File, k: nat, pick: DevIno)
    requires |picks| == |ops| && Allowed(w, ops, picks) && Injective(w.live)
    requires k < |ops| && Times(ops[k], f) && forall i | k < i < |ops| :: !Times(ops[i], f) && !Deletes(ops[i], f)
    ensures Allowed(w, ops[..k], picks[..k]) && ops[k].p in Run(w, ops[..k], picks[..k]).0.g.clocks
    ensures var w' := Run(w, ops, picks).0;
            f in w'.live && Play(w', Stat(f), pick).1[0].seconds == ToTimeT(ClockBefore(w, ops, picks, k, ops[k].p))
  {
    LastTimeStays(w, ops, picks, f, k);
  }

  // ---- nothing is forgotten ----

  /** The tables of numbers and times only grow: deleting a file takes nothing out of them. */
  lemma {:induction false} NothingIsForgotten(w: World, ops: seq<Op>, picks: seq<DevIno>)
    requires |picks| == |ops| && Allowed(w, ops, picks)
    ensures var g := Run(w, ops, picks).0.g;
            && (forall r | r in w.g.inodes.table :: r in g.inodes.table)
            && (forall r | r in w.g.mtimes :: r in g.mtimes)
    decreases |ops|
  {
    if ops != [] {
      NothingIsForgotten(Play(w, ops[0], picks[0]).0, ops[1..], picks[1..]);
    }
  }

  /** So a file that appears without a hook under the identity of a deleted one shows that one's number
      and time. */
  lemma DeletedFileShowsThrough(w: World, f: File, h: File, pick: DevIno)
    requires f in w.live && h !in w.live && Injective(w.live)
    ensures var r := w.live[f];
            var (w1, before) := Play(w, Stat(f), pick);
            var w2 := Play(w1, Delete(f), pick).0;
            && Enabled(w2, Appear(h), r)
            && Play(Play(w2, Appear(h), r).0, Stat(h), pick).1 == before
  {
    var w2 := Play(Play(w, Stat(f), pick).0, Delete(f), pick).0;
    assert forall k | k in w2.live :: w2.live[k] == w.live[k] && w2.live[k] != w.live[f];
  }

  // ---- the order of files ----

  /** From one making to a later one by the same process, its clock gains a step at least. */
  lemma {:induction false} ClockGains(w: World, ops: seq<Op>, picks: seq<DevIno>, i: nat, j: nat, p: Pid)
    requires |picks| == |ops| && Allowed(w, ops, picks) && TimeOk(w.g)
    requires i < j < |ops| && (ops[i].Make? || ops[i].Truncate?) && ops[i].p == p
    ensures Allowed(w, ops[..i], picks[..i]) && p in Run(w, ops[..i], picks[..i]).0.g.clocks
    ensures Allowed(w, ops[..j], picks[..j]) && p in Run(w, ops[..j], picks[..j]).0.g.clocks
    ensures ClockBefore(w, ops, picks, i, p) + w.g.step <= ClockBefore(w, ops, picks, j, p)
    decreases |ops|
  {
    PrefixAllowed(w, ops, picks, i);
    PrefixAllowed(w, ops, picks, j);
    var w1 := Play(w, ops[0], picks[0]).0;
    PlayKeepsTime(w, ops[0], picks[0]);
    if i == 0 {
      assert ops[..0] == [] && picks[..0] == [];
      ClockMoves(w, ops[0], picks[0], p);
      PrefixAllowed(w1, ops[1..], picks[1..], j - 1);
      RunKeepsTime(w1, ops[1..][..j - 1], picks[1..][..j - 1]);
    } else {
      StepIsConstant(w, ops[0], picks[0]);
      ClockGains(w1, ops[1..], picks[1..], i - 1, j - 1, p);
    }
  }

  lemma StepIsConstant(w: World, op: Op, pick: DevIno)
    requires Enabled(w, op, pick)
    ensures Play(w, op, pick).0.g.step == w.g.step
  {
  }

  /** Of two files that one process makes or truncates one after the other, and that are left alone
      then, the later has a time a step later at least, and shows no earlier second. */
  lemma LaterFilesLookNoOlder(w: World, ops: seq<Op>, picks: seq<DevIno>, f: File, i: nat, h: File, j: nat, pick: DevIno)
    requires |picks| == |ops| && Allowed(w, ops, picks) && TimeOk(w.g) && Injective(w.live)
    requires i < j < |ops| && Times(ops[i], f) && Times(ops[j], h) && ops[i].p == ops[j].p
    requires forall k | i < k < |ops| :: !Times(ops[k], f) && !Deletes(ops[k], f)
    requires forall k | j < k < |ops| :: !Times(ops[k], h) && !Deletes(ops[k], h)
    ensures var w' := Run(w, ops, picks).0;
            && f in w'.live && h in w'.live
            && Mtime(w'.g, w'.live[f]) + w.g.step <= Mtime(w'.g, w'.live[h])
            && Play(w', Stat(f), pick).1[0].seconds <= Play(w', Stat(h), pick).1[0].seconds
  {
    LastTimeStays(w, ops, picks, f, i);
    LastTimeStays(w, ops, picks, h, j);
    ClockGains(w, ops, picks, i, j, ops[i].p);
    var w' := Run(w, ops, picks).0;
    SecondsAreMonotone(Mtime(w'.g, w'.live[f]), Mtime(w'.g, w'.live[h]));
  }

  /** A file from before the run that is left alone shows the second before the epoch. */
  lemma OldFilesShowTheSecondBefore(w: World, ops: seq<Op>, picks: seq<DevIno>, h: File, pick: DevIno)
    requires |picks| == |ops| && Allowed(w, ops, picks) && Injective(w.live)
    requires h in w.live && !Recorded(w, h) && forall i | 0 <= i < |ops| :: !Times(ops[i], h) && !Deletes(ops[i], h)
    ensures var w' := Run(w, ops, picks).0;
            h in w'.live && Play(w', Stat(h), pick).1[0].seconds == ToTimeT(w.g.epoch - MICROS)
  {
    RunKeepsTimeOf(w, ops, picks, h, w.g.epoch - MICROS);
  }
}
