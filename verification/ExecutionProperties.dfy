/** Consequences of the event loop's invariant: the scheduler blocks the tracee that runs,
    descriptor tables are shared exactly within a thread group, and the runs that fail. */
module ExecutionProperties {
  import opened Outcomes
  import opened Scheduling
  import opened Execution
  import opened ExecutionInvariants

  /** preemptAndScheduleNext blocks whatever tops the heap; that is the tracee that runs. */
  lemma PreemptBlocksTheRunning(w: World)
    requires Inv(w) && w.sched.next !in w.sched.finished
    ensures w.sched.runnable != multiset{} && Top(w.sched.runnable) == w.sched.next
    ensures var s := PreemptAndScheduleNext(w.sched).value;
            if w.sched.runnable == multiset{w.sched.next}
            then s.runnable == w.sched.blocked + multiset{w.sched.next} && s.blocked == multiset{}
            else s.runnable == w.sched.runnable - multiset{w.sched.next} && s.blocked == w.sched.blocked + multiset{w.sched.next}
  {
    assert Top(w.sched.runnable) == w.sched.next;
    var rest := w.sched.runnable - multiset{w.sched.next};
    assert w.sched.runnable == rest + multiset{w.sched.next};
  }

  // ---- which runs fail ----

  /** The run gets as far as event `k`, and `Fails` holds of the state it has reached. */
  ghost predicate FailsAt(w: World, evs: seq<Event>, k: nat)
    requires k < |evs|
  {
    Run(w, evs[..k]).Ok? && !Run(w, evs[..k]).value.1 &&
    var w' := Run(w, evs[..k]).value.0;
    w'.sched.next in w'.states && w'.sched.next in w'.groupOf && Fails(w', evs[k])
  }

  lemma FailsAtFirst(w: World, evs: seq<Event>)
    requires evs != []
    ensures FailsAt(w, evs, 0) <==> w.sched.next in w.states && w.sched.next in w.groupOf && Fails(w, evs[0])
  {
    assert evs[..0] == [];
  }

  lemma FailsAtLater(w: World, evs: seq<Event>, k: nat)
    requires 0 < k < |evs|
    ensures FailsAt(w, evs, k) <==>
            Step(w, evs[0]).Ok? && !Step(w, evs[0]).value.1 && FailsAt(Step(w, evs[0]).value.0, evs[1..], k - 1)
  {
    assert evs[..k][0] == evs[0] && evs[..k][1..] == evs[1..][..k - 1] && evs[1..][k - 1] == evs[k];
  }

  lemma {:induction false} FailureFound(w: World, evs: seq<Event>) returns (k: nat)
    requires Inv(w) && Allowed(w, evs) && Run(w, evs).Error?
    ensures k < |evs| && FailsAt(w, evs, k)
    decreases |evs|
  {
    StepOutcome(w, evs[0]);
    if Step(w, evs[0]).Error? {
      k := 0;
      FailsAtFirst(w, evs);
    } else {
      k := FailureFound(Step(w, evs[0]).value.0, evs[1..]);
      k := k + 1;
      FailsAtLater(w, evs, k);
    }
  }

  lemma {:induction false} FailureStops(w: World, evs: seq<Event>, k: nat)
    requires Inv(w) && Allowed(w, evs) && k < |evs| && FailsAt(w, evs, k)
    ensures Run(w, evs).Error?
    decreases |evs|
  {
    StepOutcome(w, evs[0]);
    if k == 0 {
      FailsAtFirst(w, evs);
    } else {
      FailsAtLater(w, evs, k);
      FailureStops(Step(w, evs[0]).value.0, evs[1..], k - 1);
    }
  }

  /** A run from the first process on ends in an internal error exactly if it comes to one of the
      turns that `Fails` names. */
  lemma RunFailsIff(start: Pid, evs: seq<Event>)
    requires start > 0 && Allowed(InitWorld(start), evs)
    ensures Run(InitWorld(start), evs).Error? <==>
            exists k | 0 <= k < |evs| :: FailsAt(InitWorld(start), evs, k)
  {
    InitKeepsInv(start);
    if Run(InitWorld(start), evs).Error? {
      var k := FailureFound(InitWorld(start), evs);
    }
    if k :| 0 <= k < |evs| && FailsAt(InitWorld(start), evs, k) {
      FailureStops(InitWorld(start), evs, k);
    }
  }

  // ---- descriptor tables ----

  /** At any point of a run, two tracees hold the same descriptor table exactly if they are in the
      same thread group. */
  lemma TablesSharedWithinGroups(start: Pid, evs: seq<Event>, p: Pid, q: Pid)
    requires start > 0 && Allowed(InitWorld(start), evs) && Run(InitWorld(start), evs).Ok?
    ensures var w := Run(InitWorld(start), evs).value.0;
            p in w.states && q in w.states ==>
              p in w.groupOf && q in w.groupOf && (w.states[p].fds == w.states[q].fds <==> w.groupOf[p] == w.groupOf[q])
  {
    CleanEnd(start, evs);
  }

  function FdsOf(w: World, q: Pid): FdTable
    requires q in w.states && w.states[q].fds < |w.tables|
  {
    w.tables[w.states[q].fds]
  }

  lemma {:induction false} ExitThreadsKeepsTables(w: World, leader: Pid, order: seq<Pid>)
    ensures var r := ExitThreads(w, leader, order);
            r.Ok? ==>
              && r.value.tables == w.tables
              && (forall q | q in r.value.states :: q in w.states && r.value.states[q] == w.states[q])
    decreases |order|
  {
    if order != [] {
      var r := HandleNonEventExit(w, order[0]);
      if order[0] == leader {
        ExitThreadsKeepsTables(w, leader, order[1..]);
      } else if r.Ok? {
        ExitThreadsKeepsTables(r.value.0, leader, order[1..]);
      }
    }
  }

  lemma ExitTables(w: World, order: seq<Pid>)
    requires w.sched.next in w.states
    ensures var r := HandleEventExit(w, w.sched.next, order);
            r.Ok? ==>
              && r.value.tables == w.tables
              && (forall q | q in r.value.states :: q in w.states && r.value.states[q].fds == w.states[q].fds)
  {
    var p := w.sched.next;
    if p in w.groupOf {
      var w1 := w.(states := w.states[p := w.states[p].(exitGroup := false)]);
      var s := MarkFinishedAndScheduleNext(w.sched, w.groupOf[p]);
      if s.Ok? {
        ExitThreadsKeepsTables(w1.(sched := s.value), w.groupOf[p], order);
      }
    }
  }

  lemma DeathTables(w: World, p: Pid)
    ensures var r := HandleNonEventExit(w, p);
            r.Ok? ==>
              && r.value.0.tables == w.tables
              && (forall q | q in r.value.0.states :: q in w.states && r.value.0.states[q] == w.states[q])
  {
  }

  lemma ForkTables(w: World, c: Pid, isThread: bool)
    ensures var r := HandleFork(w, w.sched.next, c, isThread);
            r.Ok? ==>
              && |w.tables| <= |r.value.tables|
              && (forall i | 0 <= i < |w.tables| :: r.value.tables[i] == w.tables[i])
              && (forall q | q in w.states :: q in r.value.states && r.value.states[q] == w.states[q])
  {
  }

  /** No turn touches another table than the one it names, or moves a tracee to another table. */
  lemma TablesFrame(w: World, ev: Event)
    requires w.sched.next in w.states
    ensures var r, p := Step(w, ev), w.sched.next;
            r.Ok? ==>
              && |w.tables| <= |r.value.0.tables|
              && (forall i | 0 <= i < |w.tables| && !(ev.SetFd? && i == w.states[p].fds) ::
                    r.value.0.tables[i] == w.tables[i])
              && (forall q | q in w.states && q in r.value.0.states && !(ev.Exec? && q == p) ::
                    r.value.0.states[q].fds == w.states[q].fds)
  {
    match ev
    case EventExit(order) => ExitTables(w, order);
    case NonEventExit => DeathTables(w, w.sched.next);
    case TerminatedBySignal => DeathTables(w, w.sched.next);
    case Fork(c) => ForkTables(w, c, false);
    case Clone(c) => ForkTables(w, c, true);
    case _ =>
  }

  /** Over one turn, a surviving tracee's descriptor table changes only by a change made in its
      own thread group, or by its own exec, which empties it. */
  lemma DescriptorTablesAreIsolated(w: World, ev: Event, q: Pid)
    requires Inv(w) && Enabled(w, ev) && Step(w, ev).Ok?
    requires q in w.states && q in Step(w, ev).value.0.states
    ensures w.sched.next in w.states
    ensures var w' := Step(w, ev).value.0;
            && w'.states[q].fds < |w'.tables|
            && FdsOf(w', q) ==
               if ev.SetFd? && w.groupOf[q] == w.groupOf[w.sched.next] then FdsOf(w, q)[ev.fd := ev.kind]
               else if ev.Exec? && q == w.sched.next then map[]
               else FdsOf(w, q)
  {
    NextIsLive(w.sched, w.states.Keys);
    TablesFrame(w, ev);
    if ev.SetFd? || ev.Exec? {
      assert w.states[w.sched.next].fds < |w.tables|;
    }
  }

  /** A child starts out with its parent's descriptors, in the parent's own table if it is a
      thread and in a table no one else holds if it is a process. */
  lemma ChildDescriptors(w: World, c: Pid, isThread: bool)
    requires Inv(w) && Fresh(w, c) && w.sched.next !in w.sched.finished
    ensures w.sched.next in w.states
    ensures var r := HandleFork(w, w.sched.next, c, isThread);
            && r.Ok? && Inv(r.value) && c in r.value.states && w.sched.next in r.value.states
            && FdsOf(r.value, c) == FdsOf(w, w.sched.next)
            && (forall q | q in r.value.states && q != c ::
                  r.value.states[q].fds == r.value.states[c].fds <==> isThread && w.groupOf[q] == w.groupOf[w.sched.next])
  {
    NextIsLive(w.sched, w.states.Keys);
    ForkOutcome(w, c, isThread);
  }

  // ---- runs that fail ----

  lemma RunUnfolds(w: World, ev: Event, rest: seq<Event>)
    ensures Run(w, [ev] + rest) ==
            if Step(w, ev).Error? then Error(Step(w, ev).fault)
            else if Step(w, ev).value.1 then Ok((Step(w, ev).value.0, true))
            else Run(Step(w, ev).value.0, rest)
  {
    assert ([ev] + rest)[1..] == rest;
  }

  lemma AllowedUnfolds(w: World, ev: Event, rest: seq<Event>)
    requires Enabled(w, ev)
    requires Step(w, ev).Ok? && !Step(w, ev).value.1 ==> Allowed(Step(w, ev).value.0, rest)
    ensures Allowed(w, [ev] + rest)
  {
    assert ([ev] + rest)[1..] == rest;
  }

  /** Process `a` has forked `b`, `b` has forked `c`, and the scheduler has come to `s`. */
  function Grandchild(a: Pid, b: Pid, c: Pid, s: Sched): World {
    World(s, map[a := Tracee(false, 0), b := Tracee(false, 1), c := Tracee(false, 2)],
          [Edge(a, b), Edge(b, c)], map[a := multiset{a}, b := multiset{b}, c := multiset{c}],
          map[a := a, b := b, c := c], {}, [map[], map[], map[]])
  }

  /** Process `a` has forked `b`, which runs. */
  function Forked(a: Pid, b: Pid): World {
    World(Sched(multiset{a, b}, multiset{}, {}, b), map[a := Tracee(false, 0), b := Tracee(false, 1)],
          [Edge(a, b)], map[a := multiset{a}, b := multiset{b}], map[a := a, b := b], {}, [map[], map[]])
  }

  lemma FirstForkEnabled(a: Pid, b: Pid)
    requires 0 < a < b
    ensures Enabled(InitWorld(a), Fork(b))
  {
  }

  lemma ChildForked(a: Pid, b: Pid)
    requires 0 < a < b
    ensures Step(InitWorld(a), Fork(b)) == Ok((Forked(a, b), false))
  {
    var w := InitWorld(a);
    assert Child(w, a, false) == (w.(tables := [map[], map[]]), Tracee(false, 1)) by {
      assert w.tables + [map[]] == [map[], map[]];
    }
    assert multiset{} + multiset{b} == multiset{b};
    assert AddEntry(w.groups, b, b) == map[a := multiset{a}, b := multiset{b}];
    assert InsertChild([], a, b) == [Edge(a, b)];
    assert multiset{a} + multiset{b} == multiset{a, b};
  }

  lemma GrandchildForked(a: Pid, b: Pid, c: Pid)
    requires 0 < a < b < c
    ensures Enabled(Forked(a, b), Fork(c))
    ensures Step(Forked(a, b), Fork(c)) == Ok((Grandchild(a, b, c, Sched(multiset{a, b, c}, multiset{}, {}, c)), false))
  {
    var w1 := Forked(a, b);
    assert multiset{} + multiset{c} == multiset{c};
    assert UpperBound([Edge(a, b)], b) == 1 + UpperBound([], b);
    assert InsertChild([Edge(a, b)], b, c) == [Edge(a, b), Edge(b, c)];
    var w2 := Step(w1, Fork(c)).value.0;
    assert w2.groups == map[a := multiset{a}, b := multiset{b}, c := multiset{c}];
    assert w2.states == map[a := Tracee(false, 0), b := Tracee(false, 1), c := Tracee(false, 2)];
    assert w2.tables == [map[], map[], map[]];
    assert w2.groupOf == map[a := a, b := b, c := c];
    assert w2.sched == Sched(multiset{a, b, c}, multiset{}, {}, c);
  }

  lemma GrandchildPreempted(a: Pid, b: Pid, c: Pid)
    requires 0 < a < b < c
    ensures Step(Grandchild(a, b, c, Sched(multiset{a, b, c}, multiset{}, {}, c)), Preempt) ==
            Ok((Grandchild(a, b, c, Sched(multiset{a, b}, multiset{c}, {}, b)), false))
  {
    assert Top(multiset{a, b, c}) == c;
    assert multiset{a, b, c} - multiset{c} == multiset{a, b};
    assert multiset{} + multiset{c} == multiset{c};
    assert Top(multiset{a, b}) == b;
  }

  lemma ChildLeaves(a: Pid, b: Pid, c: Pid)
    requires 0 < a < b < c
    ensures Step(Grandchild(a, b, c, Sched(multiset{a, b}, multiset{c}, {}, b)), EventExit([b])) ==
            Ok((Grandchild(a, b, c, Sched(multiset{a}, multiset{c}, {b}, a)), false))
  {
    var w := Grandchild(a, b, c, Sched(multiset{a, b}, multiset{c}, {}, b));
    assert w.tree[1] in w.tree && HasChild(w.tree, b);
    assert multiset{a, b}[b := 0] == multiset{a};
    assert {} + {b} == {b};
    assert w.states[b := w.states[b].(exitGroup := false)] == w.states;
  }

  lemma ParentLeaves(a: Pid, b: Pid, c: Pid)
    requires 0 < a < b < c
    ensures Step(Grandchild(a, b, c, Sched(multiset{a}, multiset{c}, {b}, a)), EventExit([a])) ==
            Ok((Grandchild(a, b, c, Sched(multiset{c}, multiset{}, {a, b}, c)), false))
  {
    var w := Grandchild(a, b, c, Sched(multiset{a}, multiset{c}, {b}, a));
    assert w.tree[0] in w.tree && HasChild(w.tree, a);
    assert multiset{a}[a := 0] == multiset{};
    assert {b} + {a} == {a, b};
    assert w.states[a := w.states[a].(exitGroup := false)] == w.states;
  }

  lemma GrandchildDies(a: Pid, b: Pid, c: Pid)
    requires 0 < a < b < c
    ensures var w := Grandchild(a, b, c, Sched(multiset{c}, multiset{}, {a, b}, c));
            && Step(w, NonEventExit).Ok? && !Step(w, NonEventExit).value.1
            && Step(Step(w, NonEventExit).value.0, NonEventExit) == Error(NotInHeaps)
  {
    var w := Grandchild(a, b, c, Sched(multiset{c}, multiset{}, {a, b}, c));
    assert FindChild(w.tree, c) == 1 + FindChild(w.tree[1..], c);
    assert w.tree[..1] + w.tree[2..] == [Edge(a, b)];
    assert EraseChild(w.tree, c) == ([Edge(a, b)], b);
    assert multiset{c}[c := 0] == multiset{};
    var w1 := Step(w, NonEventExit).value.0;
    assert w1.tree == [Edge(a, b)] && w1.sched == Sched(multiset{}, multiset{}, {a, b}, b);
    assert w1.tree[..0] + w1.tree[1..] == [];
    assert EraseChild(w1.tree, b) == ([], a);
  }

  lemma GrandchildExits(a: Pid, b: Pid, c: Pid)
    requires 0 < a < b < c
    ensures var w := Grandchild(a, b, c, Sched(multiset{c}, multiset{}, {a, b}, c));
            var evs := [NonEventExit] + ([NonEventExit] + []);
            Allowed(w, evs) && Run(w, evs) == Error(NotInHeaps)
  {
    GrandchildDies(a, b, c);
    var w := Grandchild(a, b, c, Sched(multiset{c}, multiset{}, {a, b}, c));
    var w1 := Step(w, NonEventExit).value.0;
    RunUnfolds(w1, NonEventExit, []); AllowedUnfolds(w1, NonEventExit, []);
    RunUnfolds(w, NonEventExit, [NonEventExit] + []); AllowedUnfolds(w, NonEventExit, [NonEventExit] + []);
  }

  lemma AncestorsExit(a: Pid, b: Pid, c: Pid)
    requires 0 < a < b < c
    ensures var w := Grandchild(a, b, c, Sched(multiset{a, b}, multiset{c}, {}, b));
            var evs := [EventExit([b])] + ([EventExit([a])] + ([NonEventExit] + ([NonEventExit] + [])));
            Allowed(w, evs) && Run(w, evs) == Error(NotInHeaps)
  {
    ChildLeaves(a, b, c);
    ParentLeaves(a, b, c);
    GrandchildExits(a, b, c);
    var w1 := Grandchild(a, b, c, Sched(multiset{a, b}, multiset{c}, {}, b));
    var w2 := Grandchild(a, b, c, Sched(multiset{a}, multiset{c}, {b}, a));
    var r2 := [NonEventExit] + ([NonEventExit] + []);
    var r1 := [EventExit([a])] + r2;
    RunUnfolds(w2, EventExit([a]), r2); AllowedUnfolds(w2, EventExit([a]), r2);
    RunUnfolds(w1, EventExit([b]), r1); AllowedUnfolds(w1, EventExit([b]), r1);
  }

  /** A process leaves a child behind whose own child outlives it: the usual way to start a
      daemon. With any three pids, the run ends in an internal error although nothing is wrong. */
  lemma OrphanedGrandchildFails(a: Pid, b: Pid, c: Pid)
    requires 0 < a < b < c
    ensures var evs := [Fork(b)] + ([Fork(c)] + ([Preempt] + ([EventExit([b])] + ([EventExit([a])] + ([NonEventExit] + ([NonEventExit] + []))))));
            Allowed(InitWorld(a), evs) && Run(InitWorld(a), evs) == Error(NotInHeaps)
  {
    FirstForkEnabled(a, b);
    ChildForked(a, b);
    GrandchildForked(a, b, c);
    GrandchildPreempted(a, b, c);
    AncestorsExit(a, b, c);
    var w0, w1 := InitWorld(a), Forked(a, b);
    var w2 := Grandchild(a, b, c, Sched(multiset{a, b, c}, multiset{}, {}, c));
    var r3 := [EventExit([b])] + ([EventExit([a])] + ([NonEventExit] + ([NonEventExit] + [])));
    var r2 := [Preempt] + r3;
    var r1 := [Fork(c)] + r2;
    RunUnfolds(w2, Preempt, r3); AllowedUnfolds(w2, Preempt, r3);
    RunUnfolds(w1, Fork(c), r2); AllowedUnfolds(w1, Fork(c), r2);
    RunUnfolds(w0, Fork(b), r1); AllowedUnfolds(w0, Fork(b), r1);
  }

  /** Process `a` has a thread `b`, and the scheduler has come to `s`. */
  function Threaded(a: Pid, b: Pid, s: Sched, exiting: bool): World {
    World(s, map[a := Tracee(false, 0), b := Tracee(exiting, 0)], [Edge(a, b)], map[a := multiset{a, b}],
          map[a := a, b := a], {b}, [map[]])
  }

  lemma ThreadStarts(a: Pid, b: Pid)
    requires 0 < a < b
    ensures Enabled(InitWorld(a), Clone(b))
    ensures Step(InitWorld(a), Clone(b)) == Ok((Threaded(a, b, Sched(multiset{a, b}, multiset{}, {}, b), false), false))
  {
    var w1 := Step(InitWorld(a), Clone(b)).value.0;
    assert multiset{a} + multiset{b} == multiset{a, b} && {} + {b} == {b};
    assert w1.tree == [Edge(a, b)] && w1.groups == map[a := multiset{a, b}] && w1.groupOf == map[a := a, b := a];
    assert w1.states == map[a := Tracee(false, 0), b := Tracee(false, 0)] && w1.threads == {b};
    assert w1.sched == Sched(multiset{a, b}, multiset{}, {}, b);
  }

  lemma ThreadPreempted(a: Pid, b: Pid)
    requires 0 < a < b
    ensures Step(Threaded(a, b, Sched(multiset{a, b}, multiset{}, {}, b), false), Preempt) ==
            Ok((Threaded(a, b, Sched(multiset{a}, multiset{b}, {}, a), false), false))
  {
    assert Top(multiset{a, b}) == b && multiset{a, b} - multiset{b} == multiset{a};
    assert multiset{} + multiset{b} == multiset{b} && Top(multiset{a}) == a;
  }

  lemma LeaderLeaves(a: Pid, b: Pid)
    requires 0 < a < b
    ensures Step(Threaded(a, b, Sched(multiset{a}, multiset{b}, {}, a), false), EventExit([a, b])) ==
            Ok((Threaded(a, b, Sched(multiset{b}, multiset{}, {a}, b), false), false))
  {
    var w := Threaded(a, b, Sched(multiset{a}, multiset{b}, {}, a), false);
    assert w.tree[0] in w.tree && HasChild(w.tree, a);
    assert multiset{a}[a := 0] == multiset{} && {} + {a} == {a};
    assert w.states[a := w.states[a].(exitGroup := false)] == w.states;
  }

  lemma ThreadFails(a: Pid, b: Pid)
    requires 0 < a < b
    ensures var s := Sched(multiset{b}, multiset{}, {a}, b);
            && Step(Threaded(a, b, s, false), CallExitGroup) == Ok((Threaded(a, b, s, true), false))
            && Step(Threaded(a, b, s, true), EventExit([a, b])) == Error(NotInHeaps)
  {
    var w := Threaded(a, b, Sched(multiset{b}, multiset{}, {a}, b), false);
    assert w.states[b := w.states[b].(exitGroup := true)] == map[a := Tracee(false, 0), b := Tracee(true, 0)];
  }

  lemma ThreadedEnabled(a: Pid, b: Pid, s: Sched, exiting: bool)
    requires 0 < a < b && (s.next == a || s.next == b)
    ensures Enabled(Threaded(a, b, s, exiting), EventExit([a, b]))
  {
    assert Bag(Threaded(a, b, s, exiting).groups, a) == multiset([a, b]);
  }

  lemma ThreadExits(a: Pid, b: Pid)
    requires 0 < a < b
    ensures var w := Threaded(a, b, Sched(multiset{b}, multiset{}, {a}, b), false);
            var evs := [CallExitGroup] + ([EventExit([a, b])] + []);
            Allowed(w, evs) && Run(w, evs) == Error(NotInHeaps)
  {
    var s := Sched(multiset{b}, multiset{}, {a}, b);
    ThreadFails(a, b);
    ThreadedEnabled(a, b, s, true);
    var w, w1 := Threaded(a, b, s, false), Threaded(a, b, s, true);
    RunUnfolds(w1, EventExit([a, b]), []); AllowedUnfolds(w1, EventExit([a, b]), []);
    RunUnfolds(w, CallExitGroup, [EventExit([a, b])] + []); AllowedUnfolds(w, CallExitGroup, [EventExit([a, b])] + []);
  }

  /** A thread that outlives its leader and then calls exit_group: with any two pids, the run ends in
      an internal error, since the leader is marked finished twice. */
  lemma ExitGroupAfterLeaderFails(a: Pid, b: Pid)
    requires 0 < a < b
    ensures var evs := [Clone(b)] + ([Preempt] + ([EventExit([a, b])] + ([CallExitGroup] + ([EventExit([a, b])] + []))));
            Allowed(InitWorld(a), evs) && Run(InitWorld(a), evs) == Error(NotInHeaps)
  {
    ThreadStarts(a, b);
    ThreadPreempted(a, b);
    LeaderLeaves(a, b);
    ThreadedEnabled(a, b, Sched(multiset{a}, multiset{b}, {}, a), false);
    ThreadExits(a, b);
    var w0 := InitWorld(a);
    var w1 := Threaded(a, b, Sched(multiset{a, b}, multiset{}, {}, b), false);
    var w2 := Threaded(a, b, Sched(multiset{a}, multiset{b}, {}, a), false);
    var exit := EventExit([a, b]);
    var r3 := [CallExitGroup] + ([exit] + []);
    var r2 := [exit] + r3;
    var r1 := [Preempt] + r2;
    RunUnfolds(w2, exit, r3); AllowedUnfolds(w2, exit, r3);
    RunUnfolds(w1, Preempt, r2); AllowedUnfolds(w1, Preempt, r2);
    RunUnfolds(w0, Clone(b), r1); AllowedUnfolds(w0, Clone(b), r1);
  }
}
