/** What a guest finds in its registers when it goes on after a system call: of each register, the last
    thing a hook wrote there, or else what the kernel or the guest itself left (src/ptracer.cpp,
    src/execution.cpp). */
module GuestRegisters {
  import opened Replay

  /** Whether a hook's action is meant for register `j`. */
  predicate Targets(l: Layout, a: Action, j: nat)
    requires WellFormed(l) && ValidAction(a)
  {
    match a
    case WriteArg(i, _) => j == l.args[i] || (i == 0 && j == l.orig)
    case ChangeNumber(_) => j == l.num || j == l.trapNum
    case SetReturn(_) => j == l.ret
  }

  function Value(a: Action): int {
    match a
    case WriteArg(_, v) => v
    case ChangeNumber(nr) => nr
    case SetReturn(v) => v
  }

  /** Action `k` has the last word on register `j`. */
  ghost predicate LastOn(l: Layout, acts: seq<Action>, j: nat, k: int)
    requires WellFormed(l) && ValidActions(acts)
  {
    0 <= k < |acts| && Targets(l, acts[k], j) && forall i | k < i < |acts| :: !Targets(l, acts[i], j)
  }

  ghost predicate NoneOn(l: Layout, acts: seq<Action>, j: nat)
    requires WellFormed(l) && ValidActions(acts)
  {
    forall i | 0 <= i < |acts| :: !Targets(l, acts[i], j)
  }

  /** `after` holds in register `j` what the actions leave there, starting from `before`. */
  ghost predicate LeftIn(l: Layout, acts: seq<Action>, before: Regs, after: Regs, j: nat)
    requires WellFormed(l) && ValidActions(acts) && j < |before| && j < |after|
  {
    && (NoneOn(l, acts, j) ==> after[j] == before[j])
    && (forall k | LastOn(l, acts, j, k) :: after[j] == Value(acts[k]))
  }

  lemma ActRegister(l: Layout, entry: bool, d: Desk, a: Action, j: nat)
    requires WellFormed(l) && |d.regs| == l.size && ValidAction(a) && j < l.size
    ensures Act(l, entry, d, a).regs[j] == if Targets(l, a, j) then Value(a) else d.regs[j]
  {
  }

  /** The value a register is left with that starts with `v`. */
  function Left(l: Layout, acts: seq<Action>, j: nat, v: int): int
    requires WellFormed(l) && ValidActions(acts)
    decreases |acts|
  {
    if acts == [] then v
    else
      assert acts[0] in acts;
      Left(l, acts[1..], j, if Targets(l, acts[0], j) then Value(acts[0]) else v)
  }

  lemma {:induction false} ActAllLeaves(l: Layout, entry: bool, d: Desk, acts: seq<Action>, j: nat)
    requires WellFormed(l) && |d.regs| == l.size && ValidActions(acts) && j < l.size
    ensures ActAll(l, entry, d, acts).regs[j] == Left(l, acts, j, d.regs[j])
    decreases |acts|
  {
    if acts != [] {
      ActRegister(l, entry, d, acts[0], j);
      ActAllLeaves(l, entry, Act(l, entry, d, acts[0]), acts[1..], j);
    }
  }

  lemma {:induction false} LeftConcat(l: Layout, a: seq<Action>, b: seq<Action>, j: nat, v: int)
    requires WellFormed(l) && ValidActions(a) && ValidActions(b) && ValidActions(a + b)
    ensures Left(l, a + b, j, v) == Left(l, b, j, Left(l, a, j, v))
    decreases |a|
  {
    if a == [] {
      assert a + b == b;
    } else {
      assert (a + b)[1..] == a[1..] + b && (a + b)[0] == a[0];
      LeftConcat(l, a[1..], b, j, if Targets(l, a[0], j) then Value(a[0]) else v);
    }
  }

  lemma {:induction false} NothingLeft(l: Layout, acts: seq<Action>, j: nat, v: int)
    requires WellFormed(l) && ValidActions(acts) && NoneOn(l, acts, j)
    ensures Left(l, acts, j, v) == v
    decreases |acts|
  {
    if acts != [] {
      assert forall i | 1 <= i < |acts| :: acts[i] == acts[1..][i - 1];
      NothingLeft(l, acts[1..], j, v);
    }
  }

  lemma {:induction false} LastIsLeft(l: Layout, acts: seq<Action>, j: nat, v: int, k: int)
    requires WellFormed(l) && ValidActions(acts) && LastOn(l, acts, j, k)
    ensures Left(l, acts, j, v) == Value(acts[k])
    decreases |acts|
  {
    var rest := acts[1..];
    assert forall i | 1 <= i < |acts| :: acts[i] == rest[i - 1];
    if k == 0 {
      NothingLeft(l, rest, j, Value(acts[0]));
    } else {
      LastIsLeft(l, rest, j, if Targets(l, acts[0], j) then Value(acts[0]) else v, k - 1);
    }
  }

  lemma LeftMeaning(l: Layout, acts: seq<Action>, before: Regs, after: Regs, j: nat)
    requires WellFormed(l) && ValidActions(acts) && j < |before| && j < |after|
    requires after[j] == Left(l, acts, j, before[j])
    ensures LeftIn(l, acts, before, after, j)
  {
    if NoneOn(l, acts, j) {
      NothingLeft(l, acts, j, before[j]);
    }
    forall k | LastOn(l, acts, j, k)
      ensures after[j] == Value(acts[k])
    {
      LastIsLeft(l, acts, j, before[j], k);
    }
  }

  /** Every register ends as the actions leave it. */
  lemma ActAllRegister(l: Layout, entry: bool, d: Desk, acts: seq<Action>, j: nat)
    requires WellFormed(l) && |d.regs| == l.size && ValidActions(acts) && j < l.size
    ensures LeftIn(l, acts, d.regs, ActAll(l, entry, d, acts).regs, j)
  {
    ActAllLeaves(l, entry, d, acts, j);
    LeftMeaning(l, acts, d.regs, ActAll(l, entry, d, acts).regs, j);
  }

  // ---- the guest goes on ----

  lemma HookActions(l: Layout, regs: Regs, saved: Args, rewritten: bool, post: PostHook, j: nat)
    requires WellFormed(l) && |regs| == l.size && j < l.size
    requires ValidActions(post.before) && ValidActions(post.after)
    ensures ValidActions(post.before + post.after)
    ensures var d1 := ActAll(l, false, Desk(regs, saved, rewritten), post.before);
            LeftIn(l, post.before + post.after, regs, ActAll(l, false, d1, post.after).regs, j)
  {
    var d := Desk(regs, saved, rewritten);
    var d1 := ActAll(l, false, d, post.before);
    ActAllLeaves(l, false, d, post.before, j);
    ActAllLeaves(l, false, d1, post.after, j);
    LeftConcat(l, post.before, post.after, j, regs[j]);
    LeftMeaning(l, post.before + post.after, regs, ActAll(l, false, d1, post.after).regs, j);
  }

  /** When the post-hook of a call has run and asked for no replay, the guest goes on, and every
      register holds the last thing the hook wrote there; else the kernel's value if it is the return
      register; else what it held in the call. */
  lemma GuestResumes(l: Layout, m: Machine, p: Pid, value: int, post: PostHook, j: nat)
    requires WellFormed(l) && Enabled(l, m, p, Return(value, post)) && j < l.size
    requires m.tracees[p].callPost && m.tracees[p].stage.NoStage? && !post.replay
    ensures ValidActions(post.before + post.after)
    ensures var t := Step(l, m, p, Return(value, post)).0.tracees[p];
            && t.phase.User? && !t.callPost && |t.regs| == l.size
            && LeftIn(l, post.before + post.after, m.tracees[p].regs[l.ret := value], t.regs, j)
  {
    HookActions(l, m.tracees[p].regs[l.ret := value], m.tracees[p].saved, m.rewritten, post, j);
  }

  /** Besides SetReturn, what reaches the return register: an argument kept in the same register, and the
      number where a trap loads it from there. */
  predicate SharesReturn(l: Layout, a: Action)
    requires WellFormed(l) && ValidAction(a)
  {
    || (a.WriteArg? && (l.args[a.i] == l.ret || (a.i == 0 && l.orig == l.ret)))
    || (a.ChangeNumber? && l.numInRet)
  }

  /** The result the guest sees is the hook's last SetReturn, unless something else has reached the
      register since, or else the kernel's value if the hook has not touched it. */
  lemma ResultOfHook(l: Layout, m: Machine, p: Pid, value: int, post: PostHook)
    requires WellFormed(l) && Enabled(l, m, p, Return(value, post))
    requires m.tracees[p].callPost && m.tracees[p].stage.NoStage? && !post.replay
    ensures var acts, got := post.before + post.after, Step(l, m, p, Return(value, post)).0.tracees[p].regs;
            && |got| == l.size && ValidActions(acts)
            && ((forall i | 0 <= i < |acts| :: !acts[i].SetReturn? && !SharesReturn(l, acts[i])) ==> got[l.ret] == value)
            && (forall k | 0 <= k < |acts| && acts[k].SetReturn?
                           && (forall i | k < i < |acts| :: !acts[i].SetReturn? && !SharesReturn(l, acts[i])) ::
                  got[l.ret] == acts[k].v)
  {
    GuestResumes(l, m, p, value, post, l.ret);
    var acts := post.before + post.after;
    forall i | 0 <= i < |acts|
      ensures Targets(l, acts[i], l.ret) <==> acts[i].SetReturn? || SharesReturn(l, acts[i])
    {
      assert acts[i] in acts && ValidAction(acts[i]);
    }
    forall k | 0 <= k < |acts| && acts[k].SetReturn?
               && (forall i | k < i < |acts| :: !acts[i].SetReturn? && !SharesReturn(l, acts[i]))
      ensures Step(l, m, p, Return(value, post)).0.tracees[p].regs[l.ret] == acts[k].v
    {
      assert LastOn(l, acts, l.ret, k);
    }
  }

  /** Without a post-hook the guest gets the kernel's value and its other registers as they were in
      the call. */
  lemma ResumesUnhooked(l: Layout, m: Machine, p: Pid, value: int, post: PostHook, j: nat)
    requires WellFormed(l) && Enabled(l, m, p, Return(value, post)) && j < l.size && !m.tracees[p].callPost
    ensures var t := Step(l, m, p, Return(value, post)).0.tracees[p];
            && t.phase.User? && |t.regs| == l.size
            && t.regs[j] == if j == l.ret then value else m.tracees[p].regs[j]
  {
  }

  /** In the call, a register holds the last thing the pre-hook wrote there, or else what the trap left;
      a call that is to be skipped has the number -1 instead of its own. */
  lemma InTheCall(l: Layout, m: Machine, p: Pid, regs: Regs, pre: PreHook, j: nat)
    requires WellFormed(l) && Enabled(l, m, p, Enter(regs, pre)) && j < l.size
    ensures var t := Step(l, m, p, Enter(regs, pre)).0.tracees[p];
            && t.phase.InKernel? && |t.regs| == l.size
            && (m.tracees[p].stage.Replayed? ==> t.regs[j] == AtEntry(l, regs)[j])
            && (!m.tracees[p].stage.Replayed? && !t.stage.Skipped? ==> LeftIn(l, pre.acts, AtEntry(l, regs), t.regs, j))
            && (t.stage.Skipped? && !m.tracees[p].stage.Replayed? && j != l.num && j != l.trapNum && !m.tracees[p].stage.Skipped? ==>
                  LeftIn(l, pre.acts, AtEntry(l, regs), t.regs, j))
  {
    var r := AtEntry(l, regs);
    ActAllRegister(l, true, Desk(r, Captured(l, r), m.rewritten), pre.acts, j);
  }

  /** A call that no hook has a say in gives the guest the kernel's value in the return register, the
      kernel's copies of the number and the first argument, and nothing else. */
  lemma CallIsTransparent(l: Layout, m: Machine, p: Pid, regs: Regs, value: int, post: PostHook, j: nat)
    requires WellFormed(l) && Enabled(l, m, p, Enter(regs, PreHook([], false))) && j < l.size
    requires ValidActions(post.before) && ValidActions(post.after) && NoReturn(post.after)
    requires m.tracees[p].stage.NoStage? && !m.rewritten
    ensures var m1 := Step(l, m, p, Enter(regs, PreHook([], false))).0;
            && Enabled(l, m1, p, Return(value, post))
            && var t := Step(l, m1, p, Return(value, post)).0.tracees[p];
               && t.phase.User? && |t.regs| == l.size
               && t.regs[j] == if j == l.ret then value
                               else if j == l.orig then regs[l.args[0]]
                               else if j == l.num then regs[l.trapNum]
                               else regs[j]
  {
    var pre := PreHook([], false);
    var m1 := Step(l, m, p, Enter(regs, pre)).0;
    InTheCall(l, m, p, regs, pre, j);
    assert NoneOn(l, [], j);
    assert m1.tracees[p].regs[j] == AtEntry(l, regs)[j];
    ResumesUnhooked(l, m1, p, value, post, j);
  }

  /** A register that has no part in system calls keeps its value through every stop, replays and
      skipped calls included. */
  lemma OthersUntouched(l: Layout, m: Machine, p: Pid, ev: Event, j: nat)
    requires WellFormed(l) && Enabled(l, m, p, ev) && j < l.size && !ev.Spawn?
    requires j != l.num && j != l.trapNum && j != l.ret && j != l.orig && j !in l.args
    ensures var t := Step(l, m, p, ev).0.tracees[p];
            && |t.regs| == l.size
            && t.regs[j] == if ev.Enter? then ev.regs[j] else m.tracees[p].regs[j]
  {
    match ev
    case Enter(regs, pre) =>
      var r := AtEntry(l, regs);
      ActsMiss(l, true, Desk(r, Captured(l, r), m.rewritten), pre.acts, j);
    case Return(value, post) => ReturnMisses(l, m, p, value, post, j);
  }

  lemma ReturnMisses(l: Layout, m: Machine, p: Pid, value: int, post: PostHook, j: nat)
    requires WellFormed(l) && Enabled(l, m, p, Return(value, post)) && j < l.size
    requires j != l.num && j != l.trapNum && j != l.ret && j != l.orig && j !in l.args
    ensures var t := Step(l, m, p, Return(value, post)).0.tracees[p];
            |t.regs| == l.size && t.regs[j] == m.tracees[p].regs[j]
  {
    var t := m.tracees[p];
    var d0 := Desk(t.regs[l.ret := value], t.saved, m.rewritten);
    var d1 := ActAll(l, false, d0, post.before);
    ActsMiss(l, false, d0, post.before, j);
    RewindMisses(l, d1.regs, d1.regs[l.num], d1.args, j);
    RewindMisses(l, d0.regs, t.replayNr, t.saved, j);
    var d2 := if post.replay then d1.(regs := Rewind(l, d1.regs, d1.regs[l.num], d1.args)) else d1;
    ActsMiss(l, false, d2, post.after, j);
  }

  lemma RewindMisses(l: Layout, r: Regs, nr: int, a: Args, j: nat)
    requires WellFormed(l) && |r| == l.size && j < l.size
    requires j != l.num && j != l.ret && j != l.orig && j !in l.args
    ensures |Rewind(l, r, nr, a)| == l.size && Rewind(l, r, nr, a)[j] == r[j]
  {
    assert l.args[0] in l.args && l.args[1] in l.args && l.args[2] in l.args;
    assert l.args[3] in l.args && l.args[4] in l.args && l.args[5] in l.args;
    assert WithNumber(l, r, nr)[j] == r[j];
  }

  lemma ActsMiss(l: Layout, entry: bool, d: Desk, acts: seq<Action>, j: nat)
    requires WellFormed(l) && |d.regs| == l.size && ValidActions(acts) && j < l.size
    requires j != l.num && j != l.trapNum && j != l.ret && j != l.orig && j !in l.args
    ensures ActAll(l, entry, d, acts).regs[j] == d.regs[j]
  {
    ActAllRegister(l, entry, d, acts, j);
    forall i | 0 <= i < |acts|
      ensures !Targets(l, acts[i], j)
    {
      assert acts[i] in acts && ValidAction(acts[i]);
      assert acts[i].WriteArg? ==> l.args[acts[i].i] in l.args;
    }
  }

  /** At a fork or clone the tracer reads the arguments the guest passed, the child joins with no call
      on its hands, and the parent goes on as it is. */
  lemma SpawnReadsFlags(l: Layout, m: Machine, p: Pid, regs: Regs, child: Pid, childRegs: Regs)
    requires WellFormed(l) && Enabled(l, m, p, Spawn(regs, child, childRegs))
    ensures var m' := Step(l, m, p, Spawn(regs, child, childRegs)).0;
            && m'.cache[0] == regs[l.orig] && (forall i | 1 <= i < 6 :: m'.cache[i] == regs[l.args[i]])
            && m'.tracees.Keys == m.tracees.Keys + {child}
            && m'.tracees[p].regs == regs && m'.tracees[p].phase.User? && !m'.tracees[p].callPost
            && m'.tracees[child].regs == childRegs && m'.tracees[child].phase.User? && m'.tracees[child].stage.NoStage?
  {
  }

  /** The shared cache holds what the last hook left of its tracee's arguments. */
  lemma LogTellsTheCache(l: Layout, m: Machine, p: Pid, ev: Event)
    requires WellFormed(l) && Enabled(l, m, p, ev)
    ensures var (m', log) := Step(l, m, p, ev);
            forall e | e in log :: (e.Pre? ==> m'.cache == e.args' == m'.tracees[p].saved) && (e.Post? ==> m'.cache == e.args')
  {
  }

  // ---- which calls are executed again ----

  lemma {:induction false} RewriteNoted(l: Layout, d: Desk, acts: seq<Action>)
    requires WellFormed(l) && |d.regs| == l.size && ValidActions(acts)
    ensures var d' := ActAll(l, true, d, acts);
            && (d.rewritten ==> d'.rewritten)
            && (l.latched && d'.args[0] != d.args[0] ==> d'.rewritten)
            && (!l.latched && !d.rewritten ==> !d'.rewritten)
            && (!d.rewritten && (forall i | 0 <= i < |acts| && acts[i].WriteArg? && acts[i].i == 0 :: acts[i].v == d.args[0]) ==>
                  !d'.rewritten && d'.args[0] == d.args[0])
    decreases |acts|
  {
    if acts != [] {
      assert acts[0] in acts;
      assert forall i | 1 <= i < |acts| :: acts[i] == acts[1..][i - 1];
      RewriteNoted(l, Act(l, true, d, acts[0]), acts[1..]);
    }
  }

  /** A call is skipped to be executed again only where the kernel has latched its first argument; always
      if the pre-hook leaves another one, and never if it writes no other one. */
  lemma SkippedWhen(l: Layout, m: Machine, p: Pid, regs: Regs, pre: PreHook)
    requires WellFormed(l) && Enabled(l, m, p, Enter(regs, pre)) && !m.rewritten && m.tracees[p].stage.NoStage?
    ensures var m' := Step(l, m, p, Enter(regs, pre)).0;
            var skipped := m'.tracees[p].stage.Skipped?;
            && (!l.latched ==> !skipped)
            && (l.latched && m'.cache[0] != regs[l.args[0]] ==> skipped)
            && ((forall i | 0 <= i < |pre.acts| && pre.acts[i].WriteArg? && pre.acts[i].i == 0 :: pre.acts[i].v == regs[l.args[0]]) ==>
                  !skipped && m'.cache[0] == regs[l.args[0]])
  {
    EntryDesk(l, regs);
    var r := AtEntry(l, regs);
    RewriteNoted(l, Desk(r, Captured(l, r), false), pre.acts);
  }
}
