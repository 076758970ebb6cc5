/** What one turn of the event loop does to each tracee: its exit_group flag, whether it lives, whether
    it waits for its children, its place in the process tree; and what follows of the flag and of
    stale entries over runs. */
module TurnEffects {
  import opened Outcomes
  import opened Scheduling
  import opened Execution
  import opened ExecutionInvariants
  import opened ExecutionProperties

  /** Whether the turn is an exit stop that takes a whole thread group along. */
  ghost predicate EndsGroup(w: World, ev: Event)
    requires w.sched.next in w.states && w.sched.next in w.groupOf
  {
    ev.EventExit? && w.states[w.sched.next].exitGroup && HasPeer(w, w.sched.next)
  }

  // ---- the exit_group flag ----

  lemma ExitFlags(w: World, order: seq<Pid>, q: Pid)
    requires w.sched.next in w.states
    ensures var r := HandleEventExit(w, w.sched.next, order);
            r.Ok? && q in r.value.states ==>
              q in w.states && r.value.states[q].exitGroup == (q != w.sched.next && w.states[q].exitGroup)
  {
    var p := w.sched.next;
    if p in w.groupOf {
      var w1 := w.(states := w.states[p := w.states[p].(exitGroup := false)]);
      var s := MarkFinishedAndScheduleNext(w.sched, w.groupOf[p]);
      if s.Ok? {
        ExitThreadsKeepsTables(w1.(sched := s.value), w.groupOf[p], order);
      }
    }
  }

  /** The flag is set by the tracee's own call of exit_group, cleared by its own exit stop, clear in a
      new tracee, and untouched by everything else. */
  lemma FlagAfterTurn(w: World, ev: Event, q: Pid)
    requires w.sched.next in w.states && Step(w, ev).Ok? && q in Step(w, ev).value.0.states
    ensures Step(w, ev).value.0.states[q].exitGroup ==
            if q !in w.states then false
            else if q == w.sched.next && ev.CallExitGroup? then true
            else if q == w.sched.next && ev.EventExit? then false
            else w.states[q].exitGroup
  {
    match ev
    case EventExit(order) => ExitFlags(w, order, q);
    case NonEventExit => DeathTables(w, w.sched.next);
    case TerminatedBySignal => DeathTables(w, w.sched.next);
    case _ =>
  }

  /** How the kernel ends a tracee that is not killed: its death comes after its exit stop, with no
      exit_group call in between. `stopped` are the tracees that have had their exit stop. */
  ghost predicate StopsFirst(w: World, evs: seq<Event>, stopped: set<Pid>)
    decreases |evs|
  {
    evs != [] ==>
      && (evs[0].NonEventExit? ==> w.sched.next in stopped)
      && (Step(w, evs[0]).Ok? && !Step(w, evs[0]).value.1 ==>
            StopsFirst(Step(w, evs[0]).value.0, evs[1..], StoppedAfter(stopped, w.sched.next, evs[0])))
  }

  function StoppedAfter(stopped: set<Pid>, p: Pid, ev: Event): set<Pid> {
    match ev
    case EventExit(_) => stopped + {p}
    case CallExitGroup => stopped - {p}
    case _ => stopped
  }

  ghost predicate StoppedAreClear(w: World, stopped: set<Pid>) {
    forall q | q in stopped && q in w.states :: !w.states[q].exitGroup
  }

  lemma StoppedStayClear(w: World, ev: Event, stopped: set<Pid>)
    requires w.sched.next in w.states && Step(w, ev).Ok? && StoppedAreClear(w, stopped)
    ensures StoppedAreClear(Step(w, ev).value.0, StoppedAfter(stopped, w.sched.next, ev))
  {
    var w' := Step(w, ev).value.0;
    forall q | q in StoppedAfter(stopped, w.sched.next, ev) && q in w'.states
      ensures !w'.states[q].exitGroup
    {
      FlagAfterTurn(w, ev, q);
    }
  }

  /** No run in which deaths come after exit stops fails by the flag. */
  lemma {:induction false} NeverFailsByTheFlag(w: World, evs: seq<Event>, stopped: set<Pid>)
    requires Inv(w) && Allowed(w, evs) && StopsFirst(w, evs, stopped) && StoppedAreClear(w, stopped)
    ensures Run(w, evs) != Error(ExitGroupDeath)
    decreases |evs|
  {
    if evs != [] {
      StepOutcome(w, evs[0]);
      OtherFaults(w, evs[0]);
      if Step(w, evs[0]).Ok? && !Step(w, evs[0]).value.1 {
        StoppedStayClear(w, evs[0], stopped);
        NeverFailsByTheFlag(Step(w, evs[0]).value.0, evs[1..], StoppedAfter(stopped, w.sched.next, evs[0]));
      }
    }
  }

  lemma {:induction false} ExitThreadsFault(w: World, leader: Pid, order: seq<Pid>)
    ensures ExitThreads(w, leader, order) != Error(ExitGroupDeath)
    decreases |order|
  {
    if order != [] {
      if order[0] == leader {
        ExitThreadsFault(w, leader, order[1..]);
      } else if HandleNonEventExit(w, order[0]).Ok? {
        ExitThreadsFault(HandleNonEventExit(w, order[0]).value.0, leader, order[1..]);
      }
    }
  }

  /** Only a death finds fault with the flag, and only with the flag of the one that dies. */
  lemma OtherFaults(w: World, ev: Event)
    requires w.sched.next in w.states
    ensures Step(w, ev) == Error(ExitGroupDeath) <==> ev.NonEventExit? && w.states[w.sched.next].exitGroup
  {
    var p := w.sched.next;
    if ev.EventExit? && p in w.groupOf {
      var w1 := w.(states := w.states[p := w.states[p].(exitGroup := false)]);
      var s := MarkFinishedAndScheduleNext(w.sched, w.groupOf[p]);
      if s.Ok? {
        ExitThreadsFault(w1.(sched := s.value), w.groupOf[p], ev.order);
      }
    }
  }

  /** A process without threads or children that calls exit_group, stops and dies is gone, from any
      state a run can be in: the way a single-threaded program ends. */
  lemma LoneExitGroupSucceeds(w: World)
    requires Inv(w) && w.sched.next in w.states && w.sched.next !in w.sched.finished
    requires w.sched.next in w.groupOf && !HasPeer(w, w.sched.next) && !HasChild(w.tree, w.sched.next)
    ensures var p := w.sched.next;
            var evs := [CallExitGroup] + ([EventExit([p])] + ([NonEventExit] + []));
            && Allowed(w, evs) && Run(w, evs).Ok?
            && Run(w, evs).value.0.states == w.states - {p}
  {
    var p := w.sched.next;
    var w1 := w.(states := w.states[p := w.states[p].(exitGroup := true)]);
    var w2 := w.(states := w.states[p := w.states[p].(exitGroup := false)]);
    LoneStop(w, w1, w2, p);
    LoneDeath(w, w2, p);
    var last := [NonEventExit] + [];
    RunUnfolds(w1, EventExit([p]), last); AllowedUnfolds(w1, EventExit([p]), last);
    RunUnfolds(w, CallExitGroup, [EventExit([p])] + last); AllowedUnfolds(w, CallExitGroup, [EventExit([p])] + last);
  }

  lemma LoneDeath(w: World, w2: World, p: Pid)
    requires Inv(w) && p == w.sched.next && p in w.states && p !in w.sched.finished && !HasChild(w.tree, p)
    requires w2 == w.(states := w.states[p := w.states[p].(exitGroup := false)])
    ensures var evs := [NonEventExit] + [];
            Allowed(w2, evs) && Run(w2, evs).Ok? && Run(w2, evs).value.0.states == w.states - {p}
  {
    FlagKeepsInv(w, p, false);
    DeathOutcome(w2, p);
    RunUnfolds(w2, NonEventExit, []);
    AllowedUnfolds(w2, NonEventExit, []);
    assert w2.states - {p} == w.states - {p};
  }

  lemma LoneStop(w: World, w1: World, w2: World, p: Pid)
    requires Inv(w) && p == w.sched.next && p in w.states && p in w.groupOf && !HasPeer(w, p) && !HasChild(w.tree, p)
    requires w1 == w.(states := w.states[p := w.states[p].(exitGroup := true)])
    requires w2 == w.(states := w.states[p := w.states[p].(exitGroup := false)])
    ensures Enabled(w1, EventExit([p])) && Step(w1, EventExit([p])) == Ok((w2, false))
  {
    CountTellsPeers(w, p);
    ChildlessLeadsNoOne(w.states.Keys, w.groupOf, w.tree, p);
    assert w.groupOf[p] == p;
    LoneMember(Bag(w.groups, p), p);
    assert multiset([p]) == multiset{p};
    assert w1.states[p := w1.states[p].(exitGroup := false)] == w2.states;
  }

  // ---- who lives, who waits, and whose child is whose ----

  /** An exit stop that does not end a group only sets a process with children aside. */
  lemma PlainExitEffect(w: World, order: seq<Pid>)
    requires Inv(w) && w.sched.next in w.states && HandleEventExit(w, w.sched.next, order).Ok?
    requires !(w.states[w.sched.next].exitGroup && HasPeer(w, w.sched.next))
    ensures var w', p := HandleEventExit(w, w.sched.next, order).value, w.sched.next;
            && w'.states.Keys == w.states.Keys && w'.tree == w.tree
            && w'.sched.finished == w.sched.finished + if HasChild(w.tree, p) then {p} else {}
  {
    CountTellsPeers(w, w.sched.next);
  }

  lemma DeathEffect(w: World, ev: Event)
    requires Inv(w) && Enabled(w, ev) && Step(w, ev).Ok? && (ev.NonEventExit? || ev.TerminatedBySignal?)
    ensures w.sched.next in w.states && Survivors(w, w.sched.next, Step(w, ev).value.0)
  {
    NextIsLive(w.sched, w.states.Keys);
    DeathOutcome(w, w.sched.next);
  }

  lemma BirthEffect(w: World, p: Pid, c: Pid, isThread: bool)
    requires HandleFork(w, p, c, isThread).Ok? && p in w.groupOf
    ensures var w' := HandleFork(w, p, c, isThread).value;
            && w'.states.Keys == w.states.Keys + {c} && w'.sched.finished == w.sched.finished
            && w'.tree == InsertChild(w.tree, w.groupOf[p], c)
  {
  }

  /** A turn takes exactly the tracee that dies, or the other threads of a group that ends, and adds
      exactly the one that is born. */
  lemma LiveAfterTurn(w: World, ev: Event, q: Pid)
    requires Inv(w) && Enabled(w, ev) && Step(w, ev).Ok?
    ensures w.sched.next in w.states && w.sched.next in w.groupOf
    ensures q in Step(w, ev).value.0.states <==>
            if EndsGroup(w, ev) then q in w.states && !ThreadIn(w, w.groupOf[w.sched.next], q)
            else if ev.NonEventExit? || ev.TerminatedBySignal? then q in w.states && q != w.sched.next
            else q in w.states || ((ev.Fork? || ev.Clone?) && q == ev.child)
  {
    NextIsLive(w.sched, w.states.Keys);
    var p := w.sched.next;
    if EndsGroup(w, ev) {
      GroupExitStates(w, ev.order);
    } else if ev.EventExit? {
      PlainExitEffect(w, ev.order);
    } else if ev.NonEventExit? || ev.TerminatedBySignal? {
      DeathEffect(w, ev);
    } else if ev.Fork? || ev.Clone? {
      BirthEffect(w, p, ev.child, ev.Clone?);
    }
  }

  /** A process waits for its children from its exit stop, or its group's, until it dies. */
  lemma WaitingAfterTurn(w: World, ev: Event, q: Pid)
    requires Inv(w) && Enabled(w, ev) && Step(w, ev).Ok?
    ensures w.sched.next in w.states && w.sched.next in w.groupOf
    ensures q in Step(w, ev).value.0.sched.finished <==>
            || (q in w.sched.finished && !(q == w.sched.next && (ev.NonEventExit? || ev.TerminatedBySignal?)))
            || (EndsGroup(w, ev) && q == w.groupOf[w.sched.next])
            || (ev.EventExit? && !EndsGroup(w, ev) && q == w.sched.next && HasChild(w.tree, q))
  {
    NextIsLive(w.sched, w.states.Keys);
    var p := w.sched.next;
    if EndsGroup(w, ev) {
      GroupExitTree(w, ev.order);
    } else if ev.EventExit? {
      PlainExitEffect(w, ev.order);
    } else if ev.NonEventExit? || ev.TerminatedBySignal? {
      DeathEffect(w, ev);
    } else {
      QuietKeepsWaiting(w, ev);
    }
  }

  lemma QuietKeepsWaiting(w: World, ev: Event)
    requires !ev.EventExit? && !ev.NonEventExit? && !ev.TerminatedBySignal? && Step(w, ev).Ok?
    ensures Step(w, ev).value.0.sched.finished == w.sched.finished
  {
  }

  lemma {:induction false} ExitThreadsTree(w: World, leader: Pid, order: seq<Pid>, r: Outcome<World>)
    requires AtExit(w, leader, order) && r == ExitThreads(w, leader, order)
    ensures r.Ok? && r.value.sched.finished == w.sched.finished
    ensures forall e :: e in r.value.tree <==> e in w.tree && !ThreadIn(w, leader, e.child)
    decreases |order|
  {
    if order == [] {
      NoneListed(w, leader);
    } else if order[0] == leader {
      ListsTail(w, w, leader, order);
      ExitThreadsTree(w, leader, order[1..], r);
    } else {
      ExitThreadsHead(w, leader, order);
      ExitThreadsTree(HandleNonEventExit(w, order[0]).value.0, leader, order[1..], r);
    }
  }

  lemma GroupExitTree(w: World, order: seq<Pid>)
    requires Inv(w) && w.sched.next in w.states && multiset(order) == Bag(w.groups, w.groupOf[w.sched.next])
    requires HandleEventExit(w, w.sched.next, order).Ok?
    requires w.states[w.sched.next].exitGroup && HasPeer(w, w.sched.next)
    ensures var w', g := HandleEventExit(w, w.sched.next, order).value, w.groupOf[w.sched.next];
            && w'.sched.finished == w.sched.finished + {g}
            && (forall e :: e in w'.tree <==> e in w.tree && !ThreadIn(w, g, e.child))
  {
    var p := w.sched.next;
    var g := w.groupOf[p];
    GroupExitOutcome(w, order);
    CountTellsPeers(w, p);
    var w1 := w.(states := w.states[p := w.states[p].(exitGroup := false)]);
    FlagKeepsInv(w, p, false);
    var t := PeerThread(w, p);
    ThreadsNeverFinish(w, g, t);
    InHeapsUnlessFinished(w.sched, w.states.Keys, t);
    MarkFinishedSplit(w.sched, w.states.Keys, g);
    var s := MarkFinishedAndScheduleNext(w.sched, g).value;
    assert w1.states.Keys == w.states.Keys;
    MarkedKeepsInv(w1, g, s);
    var w2 := w1.(sched := s);
    ListsMembers(w2, g, order);
    ExitThreadsTree(w2, g, order, ExitThreads(w2, g, order));
    assert forall q :: ThreadIn(w2, g, q) <==> ThreadIn(w, g, q);
  }

  /** A birth makes the new tracee a child of its parent's group leader; otherwise a turn only takes
      the entries of those that die. */
  lemma ChildrenAfterTurn(w: World, ev: Event, e: Edge)
    requires Inv(w) && Enabled(w, ev) && Step(w, ev).Ok?
    ensures w.sched.next in w.states && w.sched.next in w.groupOf
    ensures e in Step(w, ev).value.0.tree <==>
            || (e in w.tree && e.child in Step(w, ev).value.0.states)
            || ((ev.Fork? || ev.Clone?) && e == Edge(w.groupOf[w.sched.next], ev.child))
  {
    NextIsLive(w.sched, w.states.Keys);
    var p := w.sched.next;
    LiveAfterTurn(w, ev, e.child);
    if EndsGroup(w, ev) {
      GroupExitTree(w, ev.order);
    } else if ev.EventExit? {
      PlainExitEffect(w, ev.order);
    } else if ev.NonEventExit? || ev.TerminatedBySignal? {
      DeathEffect(w, ev);
    } else if ev.Fork? || ev.Clone? {
      BirthEffect(w, p, ev.child, ev.Clone?);
      InsertChildMembers(w.tree, w.groupOf[p], ev.child);
    }
  }

  /** A process joins no group but its own, and a thread its parent's; nobody changes groups. */
  lemma GroupAfterTurn(w: World, ev: Event, q: Pid)
    requires Inv(w) && Enabled(w, ev) && Step(w, ev).Ok? && q in Step(w, ev).value.0.states
    ensures w.sched.next in w.states && w.sched.next in w.groupOf && q in Step(w, ev).value.0.groupOf
    ensures Step(w, ev).value.0.groupOf[q] ==
            if q in w.states && q in w.groupOf then w.groupOf[q]
            else if ev.Clone? then w.groupOf[w.sched.next] else q
  {
    NextIsLive(w.sched, w.states.Keys);
    var p := w.sched.next;
    LiveAfterTurn(w, ev, q);
    if ev.EventExit? {
      ExitGroupOf(w, ev.order);
    } else if ev.NonEventExit? || ev.TerminatedBySignal? {
      DeathEffect(w, ev);
    }
  }

  // ---- stale entries ----

  /** threadGroupNumber keeps the entries of dead processes, and of no dead thread. */
  ghost predicate OnlyProcessesStale(w: World) {
    forall q | q in w.groupOf && q !in w.states :: w.groupOf[q] == q
  }

  lemma DeathGroupOf(w: World, p: Pid)
    ensures var r := HandleNonEventExit(w, p);
            r.Ok? ==>
              && p in w.groupOf && r.value.0.states == w.states - {p} && r.value.0.threads == w.threads - {p}
              && r.value.0.groupOf == if p in w.threads then w.groupOf - {p} else w.groupOf
  {
  }

  lemma {:induction false} ExitThreadsGroupOf(w: World, leader: Pid, order: seq<Pid>, r: Outcome<World>)
    requires r == ExitThreads(w, leader, order) && r.Ok?
    ensures forall q | q in r.value.states :: q in w.states
    ensures forall q | q in w.groupOf :: q in r.value.groupOf || (q in w.threads && q !in r.value.states)
    ensures forall q | q in r.value.groupOf :: q in w.groupOf && r.value.groupOf[q] == w.groupOf[q]
    ensures forall q | q in w.threads && q in w.states && q !in r.value.states :: q !in r.value.groupOf
    decreases |order|
  {
    if order != [] {
      if order[0] == leader {
        ExitThreadsGroupOf(w, leader, order[1..], r);
      } else {
        DeathGroupOf(w, order[0]);
        ExitThreadsGroupOf(HandleNonEventExit(w, order[0]).value.0, leader, order[1..], r);
      }
    }
  }

  lemma ExitGroupOf(w: World, order: seq<Pid>)
    requires w.sched.next in w.states && HandleEventExit(w, w.sched.next, order).Ok?
    ensures var w' := HandleEventExit(w, w.sched.next, order).value;
            && (forall q | q in w'.states :: q in w.states)
            && (forall q | q in w.groupOf :: q in w'.groupOf || (q in w.threads && q !in w'.states))
            && (forall q | q in w'.groupOf :: q in w.groupOf && w'.groupOf[q] == w.groupOf[q])
            && (forall q | q in w.threads && q in w.states && q !in w'.states :: q !in w'.groupOf)
  {
    var p := w.sched.next;
    if p in w.groupOf {
      var w1 := w.(states := w.states[p := w.states[p].(exitGroup := false)]);
      var s := MarkFinishedAndScheduleNext(w.sched, w.groupOf[p]);
      if s.Ok? {
        var w2 := w1.(sched := s.value);
        if ExitThreads(w2, w.groupOf[p], order).Ok? {
          ExitThreadsGroupOf(w2, w.groupOf[p], order, ExitThreads(w2, w.groupOf[p], order));
        }
      }
    }
  }

  /** Dead processes keep their entries, and dead threads do not. */
  ghost predicate StaleKept(w: World, w': World) {
    && OnlyProcessesStale(w')
    && (forall q | q in w.groupOf && w.groupOf[q] == q :: q in w'.groupOf && w'.groupOf[q] == q)
  }

  ghost predicate ThreadsKnown(w: World) {
    && (forall q | q in w.states :: q in w.groupOf && (q in w.threads <==> w.groupOf[q] != q))
    && (forall q | q in w.threads :: q in w.states)
  }

  lemma InvKnowsThreads(w: World)
    requires Inv(w)
    ensures ThreadsKnown(w)
  {
  }

  lemma StaleAfterBirth(w: World, p: Pid, c: Pid, isThread: bool)
    requires OnlyProcessesStale(w) && c !in w.groupOf && HandleFork(w, p, c, isThread).Ok?
    ensures StaleKept(w, HandleFork(w, p, c, isThread).value)
  {
  }

  lemma StaleAfterExit(w: World, order: seq<Pid>)
    requires OnlyProcessesStale(w) && ThreadsKnown(w)
    requires w.sched.next in w.states && HandleEventExit(w, w.sched.next, order).Ok?
    ensures StaleKept(w, HandleEventExit(w, w.sched.next, order).value)
  {
    ExitGroupOf(w, order);
  }

  lemma StaleAfterDeath(w: World, p: Pid)
    requires OnlyProcessesStale(w) && ThreadsKnown(w) && HandleNonEventExit(w, p).Ok?
    ensures StaleKept(w, HandleNonEventExit(w, p).value.0)
  {
    DeathGroupOf(w, p);
  }

  /** A turn leaves the entry of a process that dies and takes that of a thread that dies. */
  lemma StaleAfterTurn(w: World, ev: Event)
    requires Inv(w) && Enabled(w, ev) && Step(w, ev).Ok? && OnlyProcessesStale(w)
    ensures StaleKept(w, Step(w, ev).value.0)
  {
    NextIsLive(w.sched, w.states.Keys);
    InvKnowsThreads(w);
    match ev
    case Fork(c) => StaleAfterBirth(w, w.sched.next, c, false);
    case Clone(c) => StaleAfterBirth(w, w.sched.next, c, true);
    case EventExit(order) => StaleAfterExit(w, order);
    case NonEventExit => StaleAfterDeath(w, w.sched.next);
    case TerminatedBySignal => StaleAfterDeath(w, w.sched.next);
    case _ =>
  }

  /** Over every run, the stale entries are those of dead processes. */
  lemma {:induction false} StaleOverRuns(w: World, evs: seq<Event>)
    requires Inv(w) && Allowed(w, evs) && OnlyProcessesStale(w)
    ensures Run(w, evs).Ok? ==> OnlyProcessesStale(Run(w, evs).value.0)
    decreases |evs|
  {
    if evs != [] {
      StepOutcome(w, evs[0]);
      if Step(w, evs[0]).Ok? {
        StaleAfterTurn(w, evs[0]);
        if !Step(w, evs[0]).value.1 {
          StaleOverRuns(Step(w, evs[0]).value.0, evs[1..]);
        }
      }
    }
  }
}
