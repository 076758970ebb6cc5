/** The system-call arguments the tracer keeps across a call: the cache shared by all tracees, its
    per-tracee copies, replays, and the skip-and-re-execute stages for a first argument the kernel
    has already latched (src/ptracer.cpp, src/execution.cpp, src/utilSystemCalls.cpp). */
module Replay {
  type Pid = int
  type Regs = seq<int>
  type Args = s: seq<int> | |s| == 6 witness [0, 0, 0, 0, 0, 0]

  /** Where an architecture keeps things. `num` is the register the kernel takes the number of the
      call from, `trapNum` the one a trap taken afresh loads it from; `orig` is the saved copy of the
      first argument, which may be the argument register itself; `ret` may be an argument register.
      On a `latched` architecture (riscv) the kernel keeps the first argument of a trap to itself. */
  datatype Layout = Layout(size: nat, num: nat, trapNum: nat, ret: nat, orig: nat, args: seq<nat>, numInRet: bool, latched: bool)

  ghost predicate WellFormed(l: Layout) {
    && |l.args| == 6
    && (forall i | 0 <= i < 6 :: l.args[i] < l.size)
    && (forall i, j | 0 <= i < j < 6 :: l.args[i] != l.args[j])
    && l.num < l.size && l.trapNum < l.size && l.ret < l.size && l.orig < l.size
    && (forall i | 0 <= i < 6 :: l.args[i] != l.num && l.args[i] != l.trapNum)
    && (forall i | 1 <= i < 6 :: l.args[i] != l.orig)
    && l.orig != l.num && l.orig != l.trapNum && l.ret != l.num
    && (if l.numInRet then l.trapNum == l.ret else l.trapNum == l.num)
    && (l.latched ==> l.orig == l.args[0])
  }

  // ---- what the kernel does ----

  const ENOSYS := 38

  /** The registers at the entry stop of a trap taken with `r`. The return register is preset where
      no argument is read back from it. */
  function AtEntry(l: Layout, r: Regs): (r': Regs)
    requires WellFormed(l) && |r| == l.size
    ensures |r'| == l.size
  {
    var r1 := r[l.num := r[l.trapNum]][l.orig := r[l.args[0]]];
    if l.ret == l.orig || l.ret in l.args[1..] then r1 else r1[l.ret := -ENOSYS]
  }

  /** The arguments the kernel passes to the call. */
  function KernelArgs(l: Layout, r: Regs, latch: int): Args
    requires WellFormed(l) && |r| == l.size
  {
    [if l.latched then latch else r[l.orig],
     r[l.args[1]], r[l.args[2]], r[l.args[3]], r[l.args[4]], r[l.args[5]]]
  }

  // ---- what the tracer does to registers and cache ----

  function Captured(l: Layout, r: Regs): Args
    requires WellFormed(l) && |r| == l.size
  {
    [r[l.orig], r[l.args[1]], r[l.args[2]], r[l.args[3]], r[l.args[4]], r[l.args[5]]]
  }

  function WithNumber(l: Layout, r: Regs, nr: int): (r': Regs)
    requires WellFormed(l) && |r| == l.size
    ensures |r'| == l.size
  {
    if l.numInRet then r[l.num := nr][l.ret := nr] else r[l.num := nr]
  }

  function WithArgs(l: Layout, r: Regs, a: Args): (r': Regs)
    requires WellFormed(l) && |r| == l.size
    ensures |r'| == l.size
  {
    r[l.orig := a[0]][l.args[0] := a[0]][l.args[1] := a[1]][l.args[2] := a[2]]
     [l.args[3] := a[3]][l.args[4] := a[4]][l.args[5] := a[5]]
  }

  /** What a hook can do through the tracer. */
  datatype Action = WriteArg(i: nat, v: int) | ChangeNumber(nr: int) | SetReturn(v: int)

  predicate ValidAction(a: Action) {
    (a.WriteArg? ==> a.i < 6) && (a.ChangeNumber? ==> a.nr != -1)
  }

  predicate ValidActions(acts: seq<Action>) {
    forall a | a in acts :: ValidAction(a)
  }

  predicate NoReturn(acts: seq<Action>) {
    forall a | a in acts :: !a.SetReturn?
  }

  /** The tracer's view of the stopped tracee: its registers, the shared argument cache, and the
      note that the first argument was rewritten where the kernel has latched it. */
  datatype Desk = Desk(regs: Regs, args: Args, rewritten: bool)

  function Act(l: Layout, entry: bool, d: Desk, a: Action): (d': Desk)
    requires WellFormed(l) && |d.regs| == l.size && ValidAction(a)
    ensures |d'.regs| == l.size
  {
    match a
    case WriteArg(i, v) =>
      if i == 0 then
        Desk(d.regs[l.orig := v][l.args[0] := v], d.args[0 := v],
             d.rewritten || (l.latched && entry && v != d.args[0]))
      else d.(regs := d.regs[l.args[i] := v], args := d.args[i := v])
    case ChangeNumber(nr) => d.(regs := WithNumber(l, d.regs, nr))
    case SetReturn(v) => d.(regs := d.regs[l.ret := v])
  }

  function ActAll(l: Layout, entry: bool, d: Desk, acts: seq<Action>): (d': Desk)
    requires WellFormed(l) && |d.regs| == l.size && ValidActions(acts)
    ensures |d'.regs| == l.size
    decreases |acts|
  {
    if acts == [] then d else ActAll(l, entry, Act(l, entry, d, acts[0]), acts[1..])
  }

  // ---- the tracees and the tracer ----

  datatype Stage = NoStage | Skipped | Replayed
  datatype Phase = User | InKernel | Rewound

  /** A tracee's registers and latched first argument, and what `state` keeps for it. */
  datatype Tracee = Tracee(regs: Regs, latch: int, phase: Phase, saved: Args, stage: Stage, replayNr: int, replayPost: bool, callPost: bool)

  datatype Machine = Machine(tracees: map<Pid, Tracee>, cache: Args, rewritten: bool)

  datatype PreHook = PreHook(acts: seq<Action>, wantsPost: bool)

  /** A post-hook may replay the call, and write arguments before and after it does. */
  datatype PostHook = PostHook(before: seq<Action>, replay: bool, after: seq<Action>)

  /** A tracee traps, from registers its own code loaded unless it was rewound to the trap; or its
      call returns; or it is stopped in a fork or clone, which has no hooks, with these registers. The
      hooks' choices are the environment's. A tracee that has died makes no more events. */
  datatype Event =
    | Enter(regs: Regs, pre: PreHook)
    | Return(value: int, post: PostHook)
    | Spawn(regs: Regs, child: Pid, childRegs: Regs)

  /** What can be observed of a tracee: a pre-hook run and what it left, a call that takes effect,
      a post-hook run and what it left. */
  datatype Entry =
    | Pre(nr: int, args: Args, nr': int, args': Args, wantsPost: bool)
    | Effect(nr: int, args: Args)
    | Post(nr: int, args: Args, nr': int, args': Args, replay: bool)

  ghost predicate Enabled(l: Layout, m: Machine, p: Pid, ev: Event)
    requires WellFormed(l)
  {
    && p in m.tracees && |m.tracees[p].regs| == l.size
    && match ev
       case Enter(regs, pre) =>
         && |regs| == l.size && ValidActions(pre.acts) && NoReturn(pre.acts)
         && (m.tracees[p].phase.User? || (m.tracees[p].phase.Rewound? && regs == m.tracees[p].regs))
         && regs[l.trapNum] != -1
       case Return(_, post) =>
         && m.tracees[p].phase.InKernel?
         && ValidActions(post.before) && ValidActions(post.after) && NoReturn(post.after)
       case Spawn(regs, child, childRegs) =>
         && m.tracees[p].phase.User? && |regs| == l.size
         && child !in m.tracees && |childRegs| == l.size
  }

  /** What a new tracee starts with. */
  function NewTracee(regs: Regs): Tracee {
    Tracee(regs, 0, User, [0, 0, 0, 0, 0, 0], NoStage, 0, false, false)
  }

  /** The fork arm of the event loop, which reads the clone flags through the shared cache. */
  function HandleSpawn(l: Layout, m: Machine, p: Pid, regs: Regs, child: Pid, childRegs: Regs): Machine
    requires WellFormed(l) && p in m.tracees && |regs| == l.size
  {
    m.(cache := Captured(l, regs),
       tracees := m.tracees[p := m.tracees[p].(regs := regs, callPost := false)][child := NewTracee(childRegs)])
  }

  /** handleSeccomp at an entry stop. */
  function HandleSeccomp(l: Layout, m: Machine, p: Pid, regs: Regs, pre: PreHook): (Machine, seq<Entry>)
    requires WellFormed(l) && p in m.tracees && |regs| == l.size && ValidActions(pre.acts)
  {
    var t := m.tracees[p];
    var r := AtEntry(l, regs);
    var d := Desk(r, Captured(l, r), m.rewritten);
    var t0 := t.(regs := r, latch := regs[l.args[0]], phase := InKernel);
    if t.stage.Replayed? then
      (m.(cache := d.args,
          tracees := m.tracees[p := t0.(stage := NoStage, callPost := t.replayPost, saved := d.args)]), [])
    else
      var d' := ActAll(l, true, d, pre.acts);
      var log := [Pre(d.regs[l.num], d.args, d'.regs[l.num], d'.args, pre.wantsPost)];
      var t1 := t0.(regs := d'.regs, saved := d'.args, callPost := pre.wantsPost);
      if d'.rewritten then
        (m.(cache := d'.args, rewritten := false,
            tracees := m.tracees[p := t1.(replayNr := d'.regs[l.num], replayPost := pre.wantsPost, stage := Skipped,
                                         regs := WithNumber(l, d'.regs, -1), callPost := true)]), log)
      else
        (m.(cache := d'.args, rewritten := false, tracees := m.tracees[p := t1]), log)
  }

  /** replaySystemCall: the next trap is to load `nr` and the cached arguments. */
  function Rewind(l: Layout, r: Regs, nr: int, a: Args): Regs
    requires WellFormed(l) && |r| == l.size
  {
    WithArgs(l, WithNumber(l, r, nr), a)
  }

  /** The syscall arm of the event loop at an exit stop. */
  function HandleExitStop(l: Layout, m: Machine, p: Pid, regs: Regs, post: PostHook): (Machine, seq<Entry>)
    requires WellFormed(l) && p in m.tracees && |regs| == l.size
    requires ValidActions(post.before) && ValidActions(post.after)
  {
    var t := m.tracees[p];
    if t.stage.Skipped? then
      (m.(cache := t.saved,
          tracees := m.tracees[p := t.(stage := Replayed, regs := Rewind(l, regs, t.replayNr, t.saved),
                                       phase := Rewound, callPost := false)]), [])
    else
      var d0 := Desk(regs, t.saved, m.rewritten);
      var d1 := ActAll(l, false, d0, post.before);
      var d2 := if post.replay then d1.(regs := Rewind(l, d1.regs, d1.regs[l.num], d1.args)) else d1;
      var d3 := ActAll(l, false, d2, post.after);
      (m.(cache := d3.args, rewritten := d3.rewritten,
          tracees := m.tracees[p := t.(regs := d3.regs, phase := if post.replay then Rewound else User, callPost := false)]),
       [Post(regs[l.num], t.saved, d3.regs[l.num], d3.args, post.replay)])
  }

  /** The kernel runs the call, unless its number is -1, and the exit stop is handled if the tracer
      asked for it. */
  function HandleReturn(l: Layout, m: Machine, p: Pid, value: int, post: PostHook): (Machine, seq<Entry>)
    requires WellFormed(l) && p in m.tracees && |m.tracees[p].regs| == l.size
    requires ValidActions(post.before) && ValidActions(post.after)
  {
    var t := m.tracees[p];
    var nr := t.regs[l.num];
    var log := if nr == -1 then [] else [Effect(nr, KernelArgs(l, t.regs, t.latch))];
    var regs := t.regs[l.ret := value];
    if t.callPost then
      var (m', log') := HandleExitStop(l, m, p, regs, post);
      (m', log + log')
    else (m.(tracees := m.tracees[p := t.(regs := regs, phase := User)]), log)
  }

  function Step(l: Layout, m: Machine, p: Pid, ev: Event): (Machine, seq<Entry>)
    requires WellFormed(l) && Enabled(l, m, p, ev)
  {
    match ev
    case Enter(regs, pre) => HandleSeccomp(l, m, p, regs, pre)
    case Return(value, post) => HandleReturn(l, m, p, value, post)
    case Spawn(regs, child, childRegs) => (HandleSpawn(l, m, p, regs, child, childRegs), [])
  }

  // ---- the protocol a tracee is promised ----

  /** Where a tracee is between its hooks. `Again` is a replay: the next call must be this one. */
  datatype Protocol =
    | Idle
    | Called(nr: int, args: Args, wantsPost: bool)
    | Owed(nr: int, args: Args)
    | Again(nr: int, args: Args)
    | Broken

  /** A call is hooked once, takes effect once and with what the pre-hook left, and its post-hook
      runs exactly if it was asked for, seeing that too; a replayed call is the one the post-hook left. */
  function Follow(s: Protocol, e: Entry): Protocol {
    match e
    case Pre(nr, a, nr', a', w) =>
      if s.Idle? || (s.Again? && s.nr == nr && s.args == a) then Called(nr', a', w) else Broken
    case Effect(nr, a) =>
      if s.Called? && s.nr == nr && s.args == a then (if s.wantsPost then Owed(nr, a) else Idle) else Broken
    case Post(nr, a, nr', a', replay) =>
      if s.Owed? && s.nr == nr && s.args == a then (if replay then Again(nr', a') else Idle) else Broken
  }

  function FollowAll(s: Protocol, es: seq<Entry>): Protocol
    decreases |es|
  {
    if es == [] then s else FollowAll(Follow(s, es[0]), es[1..])
  }

  // ---- the registers agree with the cache ----

  /** A trap taken with these registers makes call `nr` with arguments `a`. */
  ghost predicate Ready(l: Layout, r: Regs, nr: int, a: Args)
    requires WellFormed(l) && |r| == l.size
  {
    r[l.trapNum] == nr && forall i | 0 <= i < 6 :: r[l.args[i]] == a[i]
  }

  /** The saved first argument and the other argument registers hold what the cache holds. */
  ghost predicate Synced(l: Layout, d: Desk)
    requires WellFormed(l) && |d.regs| == l.size
  {
    d.regs[l.orig] == d.args[0] && forall i | 1 <= i < 6 :: d.regs[l.args[i]] == d.args[i]
  }

  /** The kernel's copy of the first argument is right, unless the tracer has noted otherwise. */
  ghost predicate LatchOk(l: Layout, d: Desk, latch: int) {
    l.latched && !d.rewritten ==> d.args[0] == latch
  }

  lemma SixArgs(a: Args, b: Args)
    requires forall i | 0 <= i < 6 :: a[i] == b[i]
    ensures a == b
  {
  }

  lemma EntryKeepsArg(l: Layout, r: Regs, i: nat)
    requires WellFormed(l) && |r| == l.size && 1 <= i < 6
    ensures AtEntry(l, r)[l.args[i]] == r[l.args[i]]
  {
    assert l.args[i] == l.args[1..][i - 1];
  }

  /** Entry after a trap: number and arguments come back as loaded, even where the return register
      is an argument register. */
  lemma EntryCaptures(l: Layout, r: Regs, nr: int, a: Args)
    requires WellFormed(l) && |r| == l.size && Ready(l, r, nr, a)
    ensures AtEntry(l, r)[l.num] == nr && Captured(l, AtEntry(l, r)) == a
  {
    var c := Captured(l, AtEntry(l, r));
    forall i | 1 <= i < 6
      ensures AtEntry(l, r)[l.args[i]] == r[l.args[i]]
    {
      EntryKeepsArg(l, r, i);
    }
    assert forall i | 0 <= i < 6 :: c[i] == a[i];
    SixArgs(c, a);
  }

  /** replaySystemCall leaves registers from which the next trap makes the same call again. */
  lemma RewindIsReady(l: Layout, r: Regs, nr: int, a: Args)
    requires WellFormed(l) && |r| == l.size
    ensures |Rewind(l, r, nr, a)| == l.size && Ready(l, Rewind(l, r, nr, a), nr, a)
    ensures Rewind(l, r, nr, a)[l.num] == nr
  {
  }

  /** Entry, exit, replay, entry: from the exit stop of any call, whatever was returned, the replay's
      entry captures the cached number and arguments. */
  lemma ReplayRoundTrip(l: Layout, r: Regs, value: int, nr: int, a: Args)
    requires WellFormed(l) && |r| == l.size
    ensures var again := AtEntry(l, Rewind(l, r[l.ret := value], nr, a));
            again[l.num] == nr && Captured(l, again) == a
  {
    RewindIsReady(l, r[l.ret := value], nr, a);
    EntryCaptures(l, Rewind(l, r[l.ret := value], nr, a), nr, a);
  }

  lemma ActAtEntry(l: Layout, d: Desk, a: Action, latch: int)
    requires WellFormed(l) && |d.regs| == l.size && ValidAction(a) && !a.SetReturn?
    requires Synced(l, d) && LatchOk(l, d, latch) && d.regs[l.num] != -1
    ensures var d' := Act(l, true, d, a);
            Synced(l, d') && LatchOk(l, d', latch) && d'.regs[l.num] != -1
  {
  }

  lemma {:induction false} ActAllAtEntry(l: Layout, d: Desk, acts: seq<Action>, latch: int)
    requires WellFormed(l) && |d.regs| == l.size && ValidActions(acts) && NoReturn(acts)
    requires Synced(l, d) && LatchOk(l, d, latch) && d.regs[l.num] != -1
    ensures var d' := ActAll(l, true, d, acts);
            Synced(l, d') && LatchOk(l, d', latch) && d'.regs[l.num] != -1
    decreases |acts|
  {
    if acts != [] {
      ActAtEntry(l, d, acts[0], latch);
      ActAllAtEntry(l, Act(l, true, d, acts[0]), acts[1..], latch);
    }
  }

  lemma {:induction false} ActAllAtExit(l: Layout, d: Desk, acts: seq<Action>)
    requires WellFormed(l) && |d.regs| == l.size && ValidActions(acts) && d.regs[l.num] != -1
    ensures var d' := ActAll(l, false, d, acts);
            d'.rewritten == d.rewritten && d'.regs[l.num] != -1
    decreases |acts|
  {
    if acts != [] {
      ActAllAtExit(l, Act(l, false, d, acts[0]), acts[1..]);
    }
  }

  lemma ActKeepsReady(l: Layout, d: Desk, a: Action)
    requires WellFormed(l) && |d.regs| == l.size && ValidAction(a) && !a.SetReturn?
    requires Ready(l, d.regs, d.regs[l.num], d.args)
    ensures var d' := Act(l, false, d, a);
            Ready(l, d'.regs, d'.regs[l.num], d'.args)
  {
  }

  lemma {:induction false} ActAllKeepsReady(l: Layout, d: Desk, acts: seq<Action>)
    requires WellFormed(l) && |d.regs| == l.size && ValidActions(acts) && NoReturn(acts)
    requires Ready(l, d.regs, d.regs[l.num], d.args)
    ensures var d' := ActAll(l, false, d, acts);
            Ready(l, d'.regs, d'.regs[l.num], d'.args)
    decreases |acts|
  {
    if acts != [] {
      ActKeepsReady(l, d, acts[0]);
      ActAllKeepsReady(l, Act(l, false, d, acts[0]), acts[1..]);
    }
  }

  // ---- every tracee gets the protocol, however the others are interleaved ----

  ghost predicate TraceeOk(l: Layout, t: Tracee, s: Protocol)
    requires WellFormed(l)
  {
    && |t.regs| == l.size
    && match t.phase
       case User => s.Idle? && t.stage.NoStage?
       case Rewound =>
         if t.stage.Replayed? then
           s.Called? && s.nr != -1 && Ready(l, t.regs, s.nr, s.args) && t.replayPost == s.wantsPost
         else
           t.stage.NoStage? && s.Again? && s.nr != -1 && Ready(l, t.regs, s.nr, s.args)
       case InKernel =>
         && s.Called? && s.nr != -1 && t.saved == s.args
         && if t.stage.Skipped? then
              t.callPost && t.regs[l.num] == -1 && t.replayNr == s.nr && t.replayPost == s.wantsPost
            else
              && t.stage.NoStage? && t.callPost == s.wantsPost && t.regs[l.num] == s.nr
              && KernelArgs(l, t.regs, t.latch) == s.args
  }

  lemma FollowTwo(s: Protocol, e1: Entry, e2: Entry)
    ensures FollowAll(s, [e1]) == Follow(s, e1)
    ensures FollowAll(s, [e1] + [e2]) == Follow(Follow(s, e1), e2)
  {
    assert [e1][1..] == [];
    assert ([e1] + [e2])[1..] == [e2];
    assert [e2][1..] == [];
    assert FollowAll(Follow(s, e1), [e2]) == FollowAll(Follow(Follow(s, e1), e2), []);
  }

  lemma SyncedKernelArgs(l: Layout, d: Desk, latch: int)
    requires WellFormed(l) && |d.regs| == l.size && Synced(l, d) && LatchOk(l, d, latch) && !d.rewritten
    ensures KernelArgs(l, d.regs, latch) == d.args
  {
    SixArgs(KernelArgs(l, d.regs, latch), d.args);
  }

  function Loaded(l: Layout, r: Regs): Args
    requires WellFormed(l) && |r| == l.size
  {
    [r[l.args[0]], r[l.args[1]], r[l.args[2]], r[l.args[3]], r[l.args[4]], r[l.args[5]]]
  }

  lemma ReadyMeansLoaded(l: Layout, r: Regs, nr: int, a: Args)
    requires WellFormed(l) && |r| == l.size && Ready(l, r, nr, a)
    ensures Loaded(l, r) == a && nr == r[l.trapNum]
  {
    SixArgs(Loaded(l, r), a);
  }

  /** The desk an entry stop starts with. */
  lemma EntryDesk(l: Layout, regs: Regs)
    requires WellFormed(l) && |regs| == l.size
    ensures var r := AtEntry(l, regs);
            var d := Desk(r, Captured(l, r), false);
            d.regs[l.num] == regs[l.trapNum] && d.args == Loaded(l, regs) && Synced(l, d) && LatchOk(l, d, regs[l.args[0]])
  {
    EntryCaptures(l, regs, regs[l.trapNum], Loaded(l, regs));
  }

  lemma EnterReplayed(l: Layout, m: Machine, p: Pid, regs: Regs, pre: PreHook, s: Protocol)
    requires WellFormed(l) && Enabled(l, m, p, Enter(regs, pre)) && !m.rewritten
    requires TraceeOk(l, m.tracees[p], s) && m.tracees[p].stage.Replayed?
    ensures var (m', log) := Step(l, m, p, Enter(regs, pre));
            log == [] && TraceeOk(l, m'.tracees[p], s)
  {
    ReadyMeansLoaded(l, regs, s.nr, s.args);
    EntryDesk(l, regs);
    var r := AtEntry(l, regs);
    SyncedKernelArgs(l, Desk(r, Captured(l, r), false), regs[l.args[0]]);
  }

  lemma EnterHooked(l: Layout, m: Machine, p: Pid, regs: Regs, pre: PreHook, s: Protocol)
    requires WellFormed(l) && Enabled(l, m, p, Enter(regs, pre)) && !m.rewritten
    requires TraceeOk(l, m.tracees[p], s) && !m.tracees[p].stage.Replayed?
    ensures var (m', log) := Step(l, m, p, Enter(regs, pre));
            |log| == 1 && TraceeOk(l, m'.tracees[p], Follow(s, log[0]))
  {
    if m.tracees[p].phase.Rewound? {
      ReadyMeansLoaded(l, regs, s.nr, s.args);
    }
    EntryDesk(l, regs);
    var r := AtEntry(l, regs);
    var d := Desk(r, Captured(l, r), false);
    ActAllAtEntry(l, d, pre.acts, regs[l.args[0]]);
    var d' := ActAll(l, true, d, pre.acts);
    if !d'.rewritten {
      SyncedKernelArgs(l, d', regs[l.args[0]]);
    }
  }

  lemma EnterFrame(l: Layout, m: Machine, p: Pid, regs: Regs, pre: PreHook)
    requires WellFormed(l) && p in m.tracees && |regs| == l.size && ValidActions(pre.acts) && !m.rewritten
    ensures var m' := HandleSeccomp(l, m, p, regs, pre).0;
            && m'.tracees.Keys == m.tracees.Keys && !m'.rewritten
            && (forall q | q in m.tracees && q != p :: m'.tracees[q] == m.tracees[q])
  {
    var m' := HandleSeccomp(l, m, p, regs, pre).0;
    assert m'.tracees == m.tracees[p := m'.tracees[p]];
  }

  lemma EnterFollows(l: Layout, m: Machine, p: Pid, regs: Regs, pre: PreHook, s: Protocol)
    requires WellFormed(l) && Enabled(l, m, p, Enter(regs, pre)) && !m.rewritten
    requires TraceeOk(l, m.tracees[p], s)
    ensures var (m', log) := Step(l, m, p, Enter(regs, pre));
            && m'.tracees.Keys == m.tracees.Keys && !m'.rewritten
            && (forall q | q in m.tracees && q != p :: m'.tracees[q] == m.tracees[q])
            && TraceeOk(l, m'.tracees[p], FollowAll(s, log))
  {
    var log := Step(l, m, p, Enter(regs, pre)).1;
    EnterFrame(l, m, p, regs, pre);
    if m.tracees[p].stage.Replayed? {
      EnterReplayed(l, m, p, regs, pre, s);
    } else {
      EnterHooked(l, m, p, regs, pre, s);
      assert log == [log[0]];
      FollowTwo(s, log[0], log[0]);
    }
  }

  lemma ReturnFollows(l: Layout, m: Machine, p: Pid, value: int, post: PostHook, s: Protocol)
    requires WellFormed(l) && Enabled(l, m, p, Return(value, post)) && !m.rewritten
    requires TraceeOk(l, m.tracees[p], s)
    ensures var (m', log) := Step(l, m, p, Return(value, post));
            && m'.tracees.Keys == m.tracees.Keys && !m'.rewritten
            && (forall q | q in m.tracees && q != p :: m'.tracees[q] == m.tracees[q])
            && TraceeOk(l, m'.tracees[p], FollowAll(s, log))
  {
    var t := m.tracees[p];
    var regs := t.regs[l.ret := value];
    if t.stage.Skipped? {
      RewindIsReady(l, regs, t.replayNr, t.saved);
      assert Step(l, m, p, Return(value, post)).1 == [];
    } else {
      var effect := Effect(t.regs[l.num], KernelArgs(l, t.regs, t.latch));
      if t.callPost {
        var d1 := ActAll(l, false, Desk(regs, t.saved, false), post.before);
        ActAllAtExit(l, Desk(regs, t.saved, false), post.before);
        RewindIsReady(l, d1.regs, d1.regs[l.num], d1.args);
        var d2 := if post.replay then d1.(regs := Rewind(l, d1.regs, d1.regs[l.num], d1.args)) else d1;
        ActAllAtExit(l, d2, post.after);
        if post.replay {
          ActAllKeepsReady(l, d2, post.after);
        }
        var d3 := ActAll(l, false, d2, post.after);
        FollowTwo(s, effect, Post(regs[l.num], t.saved, d3.regs[l.num], d3.args, post.replay));
      } else {
        FollowTwo(s, effect, effect);
      }
    }
  }

  ghost predicate AllOk(l: Layout, m: Machine, ss: map<Pid, Protocol>)
    requires WellFormed(l)
  {
    && !m.rewritten
    && m.tracees.Keys == ss.Keys
    && forall p | p in m.tracees :: TraceeOk(l, m.tracees[p], ss[p])
  }

  ghost predicate Allowed(l: Layout, m: Machine, evs: seq<(Pid, Event)>)
    requires WellFormed(l)
    decreases |evs|
  {
    evs != [] ==> Enabled(l, m, evs[0].0, evs[0].1) && Allowed(l, Step(l, m, evs[0].0, evs[0].1).0, evs[1..])
  }

  /** What is observed of one tracee along a run in which others are interleaved. */
  function Observed(l: Layout, m: Machine, evs: seq<(Pid, Event)>, p: Pid): seq<Entry>
    requires WellFormed(l) && Allowed(l, m, evs)
    decreases |evs|
  {
    if evs == [] then []
    else
      var (m', log) := Step(l, m, evs[0].0, evs[0].1);
      (if evs[0].0 == p then log else []) + Observed(l, m', evs[1..], p)
  }

  lemma {:induction false} FollowConcat(s: Protocol, a: seq<Entry>, b: seq<Entry>)
    ensures FollowAll(s, a + b) == FollowAll(FollowAll(s, a), b)
    decreases |a|
  {
    if a == [] {
      assert a + b == b;
    } else {
      assert (a + b)[1..] == a[1..] + b;
      FollowConcat(Follow(s, a[0]), a[1..], b);
    }
  }

  lemma {:induction false} StaysBroken(es: seq<Entry>)
    ensures FollowAll(Broken, es) == Broken
    decreases |es|
  {
    if es != [] {
      StaysBroken(es[1..]);
    }
  }

  /** Breaking the protocol is for good, so what ends unbroken was never broken on the way. */
  lemma NeverBroken(s: Protocol, es: seq<Entry>, k: nat)
    requires k <= |es| && FollowAll(s, es) != Broken
    ensures FollowAll(s, es[..k]) != Broken
  {
    assert es[..k] + es[k..] == es;
    FollowConcat(s, es[..k], es[k..]);
    StaysBroken(es[k..]);
  }

  /** Where a tracee's protocol stands; one that is still to come is idle. */
  function At(ss: map<Pid, Protocol>, p: Pid): Protocol {
    if p in ss then ss[p] else Idle
  }

  /** One event keeps every tracee in its protocol: its own by what is observed, and others where
      they are. */
  lemma StepFollows(l: Layout, m: Machine, ss: map<Pid, Protocol>, q: Pid, ev: Event) returns (ss': map<Pid, Protocol>)
    requires WellFormed(l) && AllOk(l, m, ss) && Enabled(l, m, q, ev)
    ensures var (m', log) := Step(l, m, q, ev);
            AllOk(l, m', ss') && forall p :: At(ss', p) == FollowAll(At(ss, p), if p == q then log else [])
  {
    var log := Step(l, m, q, ev).1;
    ss' := ss[q := FollowAll(ss[q], log)];
    match ev {
      case Enter(regs, pre) => EnterFollows(l, m, q, regs, pre, ss[q]);
      case Return(value, post) => ReturnFollows(l, m, q, value, post, ss[q]);
      case Spawn(regs, child, childRegs) => ss' := ss[child := Idle];
    }
  }

  lemma {:induction false} EndsUnbroken(l: Layout, m: Machine, ss: map<Pid, Protocol>, evs: seq<(Pid, Event)>, p: Pid)
    requires WellFormed(l) && AllOk(l, m, ss) && Allowed(l, m, evs) && At(ss, p) != Broken
    ensures FollowAll(At(ss, p), Observed(l, m, evs, p)) != Broken
    decreases |evs|
  {
    if evs != [] {
      var (q, ev) := evs[0];
      var (m', log) := Step(l, m, q, ev);
      var ss' := StepFollows(l, m, ss, q, ev);
      var seen := if q == p then log else [];
      assert At(ss', p) != Broken by {
        assert p in ss' ==> TraceeOk(l, m'.tracees[p], ss'[p]);
      }
      EndsUnbroken(l, m', ss', evs[1..], p);
      FollowConcat(At(ss, p), seen, Observed(l, m', evs[1..], p));
    }
  }

  /** For every register layout and every interleaving, with tracees joining on the way, all that is
      observed of each tracee, at every point, follows the protocol: hooked once, effective once with
      what the pre-hook left, the post-hook exactly if asked for and seeing the same, replays included. */
  lemma EveryTraceeFollows(l: Layout, m: Machine, ss: map<Pid, Protocol>, evs: seq<(Pid, Event)>, p: Pid)
    requires WellFormed(l) && AllOk(l, m, ss) && Allowed(l, m, evs)
    ensures var seen := Observed(l, m, evs, p);
            forall k | 0 <= k <= |seen| :: FollowAll(At(ss, p), seen[..k]) != Broken
  {
    var seen := Observed(l, m, evs, p);
    assert p in ss ==> TraceeOk(l, m.tracees[p], ss[p]);
    EndsUnbroken(l, m, ss, evs, p);
    forall k | 0 <= k <= |seen|
      ensures FollowAll(At(ss, p), seen[..k]) != Broken
    {
      NeverBroken(At(ss, p), seen, k);
    }
  }

  /** The machine when the first process is attached, before it has made a call. */
  function Start(first: Pid, regs: Regs): Machine {
    Machine(map[first := NewTracee(regs)], [0, 0, 0, 0, 0, 0], false)
  }

  /** From the first process on, every tracee of every run follows the protocol from idle. */
  lemma FollowsFromTheStart(l: Layout, first: Pid, regs: Regs, evs: seq<(Pid, Event)>, p: Pid)
    requires WellFormed(l) && |regs| == l.size && Allowed(l, Start(first, regs), evs)
    ensures var seen := Observed(l, Start(first, regs), evs, p);
            forall k | 0 <= k <= |seen| :: FollowAll(Idle, seen[..k]) != Broken
  {
    EveryTraceeFollows(l, Start(first, regs), map[first := Idle], evs, p);
  }
}
