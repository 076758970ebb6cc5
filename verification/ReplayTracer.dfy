/** The tracer object behind the `Replay` model: the register copy, the argument cache and the
    per-tracee state, updated in place as src/ptracer.cpp and the event loop's two stops do. */
module ReplayTracer {
  import opened Replay

  class Ptracer {
    const layout: Layout
    const syscallArgs: array<int>
    var tracees: map<Pid, Tracee>
    var traceePid: Pid
    var regs: Regs
    var arg1RewrittenAtEntry: bool
    var atSyscallEntry: bool

    ghost predicate Valid()
      reads this
    {
      WellFormed(layout) && syscallArgs.Length == 6
    }

    ghost predicate Attached()
      reads this
    {
      Valid() && traceePid in tracees && |regs| == layout.size
    }

    ghost function Cache(): Args
      requires Valid()
      reads this, syscallArgs
    {
      syscallArgs[..]
    }

    ghost function OnDesk(): Desk
      requires Valid()
      reads this, syscallArgs
    {
      Desk(regs, Cache(), arg1RewrittenAtEntry)
    }

    ghost function View(): Machine
      requires Valid()
      reads this, syscallArgs
    {
      Machine(tracees, Cache(), arg1RewrittenAtEntry)
    }

    constructor (l: Layout, ts: map<Pid, Tracee>)
      requires WellFormed(l)
      ensures Valid() && fresh(syscallArgs) && layout == l
      ensures View() == Machine(ts, [0, 0, 0, 0, 0, 0], false)
    {
      layout := l;
      syscallArgs := new int[6](_ => 0);
      tracees := ts;
      traceePid := 0;
      regs := [];
      arg1RewrittenAtEntry := false;
      atSyscallEntry := false;
      new;
      assert syscallArgs[..] == [0, 0, 0, 0, 0, 0];
    }

    method WriteRegisters()
      requires Attached()
      modifies this`tracees
      ensures tracees == old(tracees)[traceePid := old(tracees)[traceePid].(regs := regs)]
    {
      tracees := tracees[traceePid := tracees[traceePid].(regs := regs)];
    }

    method UpdateState(newPid: Pid, entry: bool)
      requires Valid() && newPid in tracees && |tracees[newPid].regs| == layout.size
      modifies this`traceePid, this`regs, this`atSyscallEntry
      ensures Attached() && traceePid == newPid && regs == tracees[newPid].regs && atSyscallEntry == entry
    {
      traceePid := newPid;
      regs := tracees[newPid].regs;
      atSyscallEntry := entry;
    }

    method CaptureSyscallArgs()
      requires Attached()
      modifies syscallArgs
      ensures Cache() == Captured(layout, regs)
    {
      syscallArgs[0] := regs[layout.orig];
      for i := 1 to 6
        invariant syscallArgs[0] == regs[layout.orig]
        invariant forall j | 1 <= j < i :: syscallArgs[j] == regs[layout.args[j]]
      {
        syscallArgs[i] := regs[layout.args[i]];
      }
      assert forall j | 0 <= j < 6 :: syscallArgs[..][j] == Captured(layout, regs)[j];
    }

    method SaveSyscallArgs() returns (out: Args)
      requires Valid()
      ensures out == Cache()
    {
      var o := [];
      for i := 0 to 6
        invariant o == syscallArgs[..i]
      {
        o := o + [syscallArgs[i]];
      }
      assert o == syscallArgs[..];
      out := o;
    }

    method RestoreSyscallArgs(saved: Args)
      requires Valid()
      modifies syscallArgs
      ensures Cache() == saved
    {
      for i := 0 to 6
        invariant forall j | 0 <= j < i :: syscallArgs[j] == saved[j]
      {
        syscallArgs[i] := saved[i];
      }
      assert forall j | 0 <= j < 6 :: syscallArgs[..][j] == saved[j];
    }

    method WriteSyscallArgsToRegs()
      requires Attached()
      modifies this`regs, this`tracees
      ensures Attached() && regs == WithArgs(layout, old(regs), Cache())
      ensures tracees == old(tracees)[traceePid := old(tracees)[traceePid].(regs := regs)]
    {
      regs := regs[layout.orig := syscallArgs[0]][layout.args[0] := syscallArgs[0]][layout.args[1] := syscallArgs[1]]
                  [layout.args[2] := syscallArgs[2]][layout.args[3] := syscallArgs[3]]
                  [layout.args[4] := syscallArgs[4]][layout.args[5] := syscallArgs[5]];
      WriteRegisters();
    }

    method ChangeSystemCall(nr: int)
      requires Attached()
      modifies this`regs, this`tracees
      ensures Attached() && regs == WithNumber(layout, old(regs), nr)
      ensures tracees == old(tracees)[traceePid := old(tracees)[traceePid].(regs := regs)]
    {
      regs := regs[layout.num := nr];
      if layout.numInRet {
        regs := regs[layout.ret := nr];
      }
      WriteRegisters();
    }

    /** writeArg1 to writeArg6, changeSystemCall and setReturnRegister, as hooks call them. */
    method Perform(a: Action)
      requires Attached() && ValidAction(a)
      modifies this`regs, this`tracees, this`arg1RewrittenAtEntry, syscallArgs
      ensures Attached() && OnDesk() == Act(layout, atSyscallEntry, old(OnDesk()), a)
      ensures tracees == old(tracees)[traceePid := old(tracees)[traceePid].(regs := regs)]
    {
      match a
      case WriteArg(i, v) =>
        if i == 0 {
          if layout.latched && atSyscallEntry && v != syscallArgs[0] {
            arg1RewrittenAtEntry := true;
          }
          regs := regs[layout.orig := v][layout.args[0] := v];
        } else {
          regs := regs[layout.args[i] := v];
        }
        syscallArgs[i] := v;
        assert Cache() == old(Cache())[i := v];
        WriteRegisters();
      case ChangeNumber(nr) => ChangeSystemCall(nr);
      case SetReturn(v) =>
        regs := regs[layout.ret := v];
        WriteRegisters();
    }

    method PerformAll(acts: seq<Action>)
      requires Attached() && ValidActions(acts)
      requires tracees[traceePid].regs == regs
      modifies this`regs, this`tracees, this`arg1RewrittenAtEntry, syscallArgs
      ensures Attached() && OnDesk() == ActAll(layout, atSyscallEntry, old(OnDesk()), acts)
      ensures tracees == old(tracees)[traceePid := old(tracees)[traceePid].(regs := regs)]
    {
      ghost var start := OnDesk();
      for i := 0 to |acts|
        invariant Attached() && ValidActions(acts[i..])
        invariant ActAll(layout, atSyscallEntry, start, acts) == ActAll(layout, atSyscallEntry, OnDesk(), acts[i..])
        invariant tracees == old(tracees)[traceePid := old(tracees)[traceePid].(regs := regs)]
      {
        assert acts[i..][0] == acts[i] && acts[i..][1..] == acts[i + 1..];
        assert acts[i] in acts;
        Perform(acts[i]);
      }
    }

    /** rewindToSyscall leaves the tracee in front of the trap; the program counter is not modelled. */
    method ReplaySystemCall(nr: int)
      requires Attached()
      modifies this`regs, this`tracees
      ensures Attached() && regs == Rewind(layout, old(regs), nr, Cache())
      ensures tracees == old(tracees)[traceePid := old(tracees)[traceePid].(regs := regs)]
    {
      ChangeSystemCall(nr);
      WriteSyscallArgsToRegs();
    }

    method Update(t: Tracee)
      requires Valid()
      modifies this`tracees
      ensures tracees == old(tracees)[traceePid := t]
    {
      tracees := tracees[traceePid := t];
    }

    /** The pre-hook, and the skip of a call whose first argument it rewrote too late. */
    method CallPreHook(pre: PreHook) returns (callPostHook: bool)
      requires Attached() && tracees[traceePid].regs == regs && atSyscallEntry && ValidActions(pre.acts)
      modifies this`regs, this`tracees, this`arg1RewrittenAtEntry, syscallArgs
      ensures Attached() && !arg1RewrittenAtEntry
      ensures var d' := ActAll(layout, true, old(OnDesk()), pre.acts);
              var t := old(tracees)[traceePid];
              && Cache() == d'.args
              && callPostHook == (pre.wantsPost || d'.rewritten)
              && tracees == old(tracees)[traceePid :=
                   if d'.rewritten
                   then t.(replayNr := d'.regs[layout.num], replayPost := pre.wantsPost, stage := Skipped,
                           regs := WithNumber(layout, d'.regs, -1))
                   else t.(regs := d'.regs)]
    {
      PerformAll(pre.acts);
      callPostHook := pre.wantsPost;
      var rewritten := arg1RewrittenAtEntry;
      arg1RewrittenAtEntry := false;
      if rewritten {
        Update(tracees[traceePid].(replayNr := regs[layout.num], replayPost := callPostHook, stage := Skipped));
        ChangeSystemCall(-1);
        callPostHook := true;
      }
    }

    /** Up to the hooks: the tracee is at its entry stop and the cache holds its arguments. */
    method ArriveAtEntry(p: Pid, trapRegs: Regs)
      requires Valid() && p in tracees && |trapRegs| == layout.size
      modifies this`tracees, this`traceePid, this`regs, this`atSyscallEntry, syscallArgs
      ensures Attached() && traceePid == p && atSyscallEntry
      ensures var r := AtEntry(layout, trapRegs);
              && OnDesk() == Desk(r, Captured(layout, r), arg1RewrittenAtEntry)
              && tracees == old(tracees)[p := old(tracees)[p].(regs := r, latch := trapRegs[layout.args[0]], phase := InKernel)]
    {
      tracees := tracees[p := tracees[p].(regs := AtEntry(layout, trapRegs), latch := trapRegs[layout.args[0]], phase := InKernel)];
      UpdateState(p, true);
      CaptureSyscallArgs();
    }

    /** The entry stop of a trap taken with `trapRegs`. */
    method SeccompStop(p: Pid, trapRegs: Regs, pre: PreHook)
      requires Valid() && p in tracees && |trapRegs| == layout.size && ValidActions(pre.acts)
      modifies this, syscallArgs
      ensures Valid() && View() == HandleSeccomp(layout, old(View()), p, trapRegs, pre).0
    {
      if tracees[p].stage.Replayed? {
        EnterReplayed(p, trapRegs, pre);
      } else {
        EnterHooked(p, trapRegs, pre);
      }
    }

    /** The call executed again: its pre-hook has run, and only the post-hook is owed. */
    method EnterReplayed(p: Pid, trapRegs: Regs, ghost pre: PreHook)
      requires Valid() && p in tracees && |trapRegs| == layout.size && ValidActions(pre.acts)
      requires tracees[p].stage.Replayed?
      modifies this, syscallArgs
      ensures Valid() && View() == HandleSeccomp(layout, old(View()), p, trapRegs, pre).0
    {
      ArriveAtEntry(p, trapRegs);
      var callPostHook := tracees[p].replayPost;
      Update(tracees[p].(stage := NoStage));
      KeepForPostHook(callPostHook);
      assert tracees == old(tracees)[p := tracees[p]];
    }

    method EnterHooked(p: Pid, trapRegs: Regs, pre: PreHook)
      requires Valid() && p in tracees && |trapRegs| == layout.size && ValidActions(pre.acts)
      requires !tracees[p].stage.Replayed?
      modifies this, syscallArgs
      ensures Valid() && View() == HandleSeccomp(layout, old(View()), p, trapRegs, pre).0
    {
      ArriveAtEntry(p, trapRegs);
      var callPostHook := CallPreHook(pre);
      KeepForPostHook(callPostHook);
      assert tracees == old(tracees)[p := tracees[p]];
    }

    /** The arguments are kept for the post-hook once the pre-hook has had its way with them. */
    method KeepForPostHook(callPostHook: bool)
      requires Attached()
      modifies this`tracees
      ensures tracees == old(tracees)[traceePid := old(tracees)[traceePid].(saved := Cache(), callPost := callPostHook)]
    {
      var saved := SaveSyscallArgs();
      Update(tracees[traceePid].(saved := saved, callPost := callPostHook));
    }

    /** The stop of a fork or clone: the flags are read through the cache, and the child joins. */
    method CloneStop(p: Pid, stopRegs: Regs, child: Pid, childRegs: Regs)
      requires Valid() && p in tracees && |stopRegs| == layout.size
      modifies this, syscallArgs
      ensures Valid() && View() == HandleSpawn(layout, old(View()), p, stopRegs, child, childRegs)
    {
      tracees := tracees[p := tracees[p].(regs := stopRegs)];
      UpdateState(p, false);
      CaptureSyscallArgs();
      Update(tracees[p].(callPost := false));
      assert tracees == old(tracees)[p := old(tracees)[p].(regs := stopRegs, callPost := false)];
      tracees := tracees[child := NewTracee(childRegs)];
    }

    /** The post-hook and the replay it may ask for. */
    method CallPostHook(post: PostHook)
      requires Attached() && tracees[traceePid].regs == regs && !atSyscallEntry
      requires ValidActions(post.before) && ValidActions(post.after)
      modifies this`regs, this`tracees, this`arg1RewrittenAtEntry, syscallArgs
      ensures Attached()
      ensures var d1 := ActAll(layout, false, old(OnDesk()), post.before);
              var d2 := if post.replay then d1.(regs := Rewind(layout, d1.regs, d1.regs[layout.num], d1.args)) else d1;
              OnDesk() == ActAll(layout, false, d2, post.after)
      ensures tracees == old(tracees)[traceePid := old(tracees)[traceePid].(regs := regs)]
    {
      PerformAll(post.before);
      if post.replay {
        ReplaySystemCall(regs[layout.num]);
      }
      PerformAll(post.after);
    }

    /** Up to the hooks: the tracee is at its exit stop and the cache holds its own arguments again. */
    method ArriveAtExit(p: Pid, value: int)
      requires Valid() && p in tracees && |tracees[p].regs| == layout.size
      modifies this`tracees, this`traceePid, this`regs, this`atSyscallEntry, syscallArgs
      ensures Attached() && traceePid == p && !atSyscallEntry
      ensures var t := old(tracees)[p];
              && OnDesk() == Desk(t.regs[layout.ret := value], t.saved, arg1RewrittenAtEntry)
              && tracees == old(tracees)[p := t.(regs := t.regs[layout.ret := value])]
    {
      tracees := tracees[p := tracees[p].(regs := tracees[p].regs[layout.ret := value])];
      UpdateState(p, false);
      RestoreSyscallArgs(tracees[p].saved);
    }

    /** The exit stop, after the kernel has put `value` in the return register. */
    method SyscallStop(p: Pid, value: int, post: PostHook)
      requires Valid() && p in tracees && |tracees[p].regs| == layout.size
      requires ValidActions(post.before) && ValidActions(post.after)
      modifies this, syscallArgs
      ensures Valid()
      ensures View() == HandleExitStop(layout, old(View()), p, old(tracees)[p].regs[layout.ret := value], post).0
    {
      ArriveAtExit(p, value);
      ghost var t0 := tracees[p];
      if tracees[p].stage.Skipped? {
        Update(tracees[p].(stage := Replayed));
        ReplaySystemCall(tracees[p].replayNr);
        Update(tracees[p].(phase := Rewound, callPost := false));
        assert tracees == old(tracees)[p := t0.(stage := Replayed, regs := regs, phase := Rewound, callPost := false)];
        return;
      }
      CallPostHook(post);
      Update(tracees[p].(phase := if post.replay then Rewound else User, callPost := false));
      assert tracees == old(tracees)[p := t0.(regs := regs, phase := if post.replay then Rewound else User, callPost := false)];
    }
  }
}
