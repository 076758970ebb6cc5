/** The process bookkeeping of src/execution.cpp: the event loop's fork, clone, exec, exit and
    exit_group arms over the scheduler, the process tree, the thread groups and the per-tracee
    state. `World` and `Step` are the event loop as a step machine on values; the class
    `Tracer` is the object the source updates in place, proved equal to them. */
module Execution {
  import opened Outcomes
  import opened Scheduling

  datatype Descriptor = Blocking | NonBlocking

  type FdTable = map<int, Descriptor>

  /** `fds` names the shared_ptr<unordered_map> a tracee holds: an index into the tables
      allocated so far. */
  datatype Tracee = Tracee(exitGroup: bool, fds: nat)

  datatype Edge = Edge(parent: Pid, child: Pid)

  /** processTree is a std::multimap, kept in iteration order; threadGroups is an
      unordered_multimap, kept as one bag of members per key. */
  datatype World = World(
    sched: Sched,
    states: map<Pid, Tracee>,
    tree: seq<Edge>,
    groups: map<Pid, multiset<Pid>>,
    groupOf: map<Pid, Pid>,
    threads: set<Pid>,
    tables: seq<FdTable>)

  /** What the kernel can report of the tracee that runs, the scheduler's next pid. For an exit
      stop, `order` is the order in which the unordered_multimap yields the group's members. */
  datatype Event =
    | Fork(child: Pid)
    | Clone(child: Pid)
    | Exec
    | Preempt
    | CallExitGroup
    | SetFd(fd: int, kind: Descriptor)
    | EventExit(order: seq<Pid>)
    | NonEventExit
    | TerminatedBySignal

  // ---- the process tree ----

  predicate HasChild(tree: seq<Edge>, p: Pid) {
    exists e | e in tree :: e.parent == p
  }

  /** Index of the first entry whose child is `p`, or |tree|. */
  function FindChild(tree: seq<Edge>, p: Pid): (i: nat)
    ensures i <= |tree|
    ensures i < |tree| ==> tree[i].child == p
    ensures forall j | 0 <= j < i :: tree[j].child != p
  {
    if tree == [] || tree[0].child == p then 0
    else
      assert forall j | 1 <= j < |tree| :: tree[j] == tree[1..][j - 1];
      1 + FindChild(tree[1..], p)
  }

  /** The tree without its first entry for `p`, and that entry's parent, -1 if there is none. */
  function EraseChild(tree: seq<Edge>, p: Pid): (seq<Edge>, Pid) {
    var i := FindChild(tree, p);
    if i == |tree| then (tree, -1) else (tree[..i] + tree[i + 1..], tree[i].parent)
  }

  /** Index of the first key above `k`: where a std::multimap inserts an entry for `k`. */
  function UpperBound(tree: seq<Edge>, k: Pid): (i: nat)
    ensures i <= |tree|
  {
    if tree == [] || tree[0].parent > k then 0 else 1 + UpperBound(tree[1..], k)
  }

  function InsertChild(tree: seq<Edge>, parent: Pid, child: Pid): seq<Edge> {
    var i := UpperBound(tree, parent);
    tree[..i] + [Edge(parent, child)] + tree[i..]
  }

  // ---- the thread groups ----

  function Bag(groups: map<Pid, multiset<Pid>>, k: Pid): multiset<Pid> {
    if k in groups then groups[k] else multiset{}
  }

  function AddEntry(groups: map<Pid, multiset<Pid>>, k: Pid, v: Pid): map<Pid, multiset<Pid>> {
    groups[k := Bag(groups, k) + multiset{v}]
  }

  function DeleteEntry(groups: map<Pid, multiset<Pid>>, k: Pid, v: Pid): Outcome<map<Pid, multiset<Pid>>> {
    var bag := Bag(groups, k);
    if v !in bag then Error(NoGroupEntry)
    else if bag - multiset{v} == multiset{} then Ok(groups - {k})
    else Ok(groups[k := bag - multiset{v}])
  }

  // ---- the event handlers ----

  function InitWorld(p: Pid): World {
    World(Scheduling.Init(p), map[p := Tracee(false, 0)], [], map[p := multiset{p}], map[p := p], {}, [map[]])
  }

  /** The child's state: a thread shares the descriptor table, a process gets a copy of it. */
  function Child(w: World, p: Pid, isThread: bool): (World, Tracee)
    requires p in w.states
  {
    var fds := w.states[p].fds;
    if isThread || fds >= |w.tables| then (w, Tracee(false, fds))
    else (w.(tables := w.tables + [w.tables[fds]]), Tracee(false, |w.tables|))
  }

  function HandleFork(w: World, p: Pid, child: Pid, isThread: bool): Outcome<World> {
    if p !in w.groupOf then Error(NoSuchTracee)
    else if !isThread && |Bag(w.groups, child)| != 0 then Error(GroupExists)
    else if p !in w.states then Error(NoSuchTracee)
    else
      var leader := w.groupOf[p];
      var group := if isThread then leader else child;
      var (w1, tracee) := Child(w, p, isThread);
      Ok(w1.(
         threads := if isThread then w.threads + {child} else w.threads,
         groups := AddEntry(w.groups, group, child),
         groupOf := if child in w.groupOf then w.groupOf else w.groupOf[child := group],
         tree := InsertChild(w.tree, leader, child),
         states := if child in w.states then w.states else w.states[child := tracee],
         sched := AddAndScheduleNext(w.sched, child)))
  }

  /** Everything handleNonEventExit drops before it turns to the scheduler. */
  function Forget(w: World, p: Pid): Outcome<World> {
    if p !in w.groupOf || p !in w.states then Error(NoSuchTracee)
    else
      var groups :- DeleteEntry(w.groups, w.groupOf[p], p);
      Ok(w.(
         tree := EraseChild(w.tree, p).0,
         states := w.states - {p},
         threads := w.threads - {p},
         groupOf := if p in w.threads then w.groupOf - {p} else w.groupOf,
         groups := groups))
  }

  /** handleNonEventExit; the second component is true when no process is left. */
  function HandleNonEventExit(w: World, p: Pid): Outcome<(World, bool)> {
    var parent := EraseChild(w.tree, p).1;
    var w1 :- Forget(w, p);
    if parent != -1 && parent in w.sched.finished && !HasChild(w1.tree, parent) then
      var s :- RemoveAndScheduleParent(w.sched, p, parent);
      Ok((w1.(sched := s), false))
    else
      var (s, empty) :- RemoveAndScheduleNext(w.sched, p);
      Ok((w1.(sched := s), empty))
  }

  /** The exit_group loop: every member but the leader is taken through its nonEventExit. The
      source drops what handleNonEventExit returns here. */
  function ExitThreads(w: World, leader: Pid, order: seq<Pid>): Outcome<World>
    decreases |order|
  {
    if order == [] then Ok(w)
    else if order[0] == leader then ExitThreads(w, leader, order[1..])
    else
      var (w1, _) :- HandleNonEventExit(w, order[0]);
      ExitThreads(w1, leader, order[1..])
  }

  function HandleEventExit(w: World, p: Pid, order: seq<Pid>): Outcome<World> {
    if p !in w.states || p !in w.groupOf then Error(NoSuchTracee)
    else
      var leader := w.groupOf[p];
      var w1 := w.(states := w.states[p := w.states[p].(exitGroup := false)]);
      if w.states[p].exitGroup && |Bag(w.groups, leader)| != 1 then
        var s :- MarkFinishedAndScheduleNext(w.sched, leader);
        ExitThreads(w1.(sched := s), leader, order)
      else if HasChild(w.tree, p) then
        var s :- MarkFinishedAndScheduleNext(w.sched, p);
        Ok(w1.(sched := s))
      else Ok(w1)
  }

  function HandleExec(w: World, p: Pid): Outcome<World> {
    if p !in w.groupOf || p !in w.states then Error(NoSuchTracee)
    else if |Bag(w.groups, w.groupOf[p])| != 1 then Error(ThreadedExec)
    else Ok(w.(
            tables := w.tables + [map[]],
            states := w.states[p := w.states[p].(fds := |w.tables|)]))
  }

  function SetFdStatus(w: World, p: Pid, fd: int, kind: Descriptor): Outcome<World> {
    if p !in w.states || w.states[p].fds >= |w.tables| then Error(NoSuchTracee)
    else
      var t := w.states[p].fds;
      Ok(w.(tables := w.tables[t := w.tables[t][fd := kind]]))
  }

  function Running(r: Outcome<World>): Outcome<(World, bool)> {
    var w :- r;
    Ok((w, false))
  }

  /** One turn of the event loop for the tracee the scheduler chose; true when it ends. */
  function Step(w: World, ev: Event): Outcome<(World, bool)> {
    var p := w.sched.next;
    if p !in w.states then Error(NoSuchTracee)
    else
      match ev
      case Fork(c) => Running(HandleFork(w, p, c, false))
      case Clone(c) => Running(HandleFork(w, p, c, true))
      case Exec => Running(HandleExec(w, p))
      case Preempt =>
        var s :- PreemptAndScheduleNext(w.sched);
        Ok((w.(sched := s), false))
      case CallExitGroup => Ok((w.(states := w.states[p := w.states[p].(exitGroup := true)]), false))
      case SetFd(fd, kind) => Running(SetFdStatus(w, p, fd, kind))
      case EventExit(order) => Running(HandleEventExit(w, p, order))
      case NonEventExit =>
        if w.states[p].exitGroup then Error(ExitGroupDeath)
        else if HasChild(w.tree, p) then Error(ChildrenLeft)
        else HandleNonEventExit(w, p)
      case TerminatedBySignal => HandleNonEventExit(w, p)
  }

  /** A whole run: events until one ends the loop or fails. */
  function Run(w: World, evs: seq<Event>): Outcome<(World, bool)>
    decreases |evs|
  {
    if evs == [] then Ok((w, false))
    else
      var (w1, done) :- Step(w, evs[0]);
      if done then Ok((w1, true)) else Run(w1, evs[1..])
  }

  // ---- the same, in place ----

  method EraseChildEntry(tree: seq<Edge>, process: Pid) returns (rest: seq<Edge>, parent: Pid)
    ensures (rest, parent) == EraseChild(tree, process)
  {
    for i := 0 to |tree|
      invariant forall j | 0 <= j < i :: tree[j].child != process
    {
      if tree[i].child == process {
        assert FindChild(tree, process) == i;
        return tree[..i] + tree[i + 1..], tree[i].parent;
      }
    }
    return tree, -1;
  }

  class Tracer {
    const scheduler: Scheduler
    var states: map<Pid, Tracee>
    var processTree: seq<Edge>
    var threadGroups: map<Pid, multiset<Pid>>
    var threadGroupNumber: map<Pid, Pid>
    var liveThreads: set<Pid>
    var tables: seq<FdTable>

    function View(): World
      reads this, scheduler
    {
      World(scheduler.View(), states, processTree, threadGroups, threadGroupNumber, liveThreads, tables)
    }

    constructor (startingPid: Pid)
      ensures fresh(scheduler)
      ensures View() == InitWorld(startingPid)
    {
      scheduler := new Scheduler(startingPid);
      states := map[startingPid := Tracee(false, 0)];
      processTree := [];
      threadGroups := map[startingPid := multiset{startingPid}];
      threadGroupNumber := map[startingPid := startingPid];
      liveThreads := {};
      tables := [map[]];
    }

    /** The thread-group half of handleForkEvent. */
    method JoinGroup(threadGroup: Pid, newChildPid: Pid, isThread: bool) returns (ok: bool)
      modifies this`liveThreads, this`threadGroups, this`threadGroupNumber
      ensures ok == (isThread || |Bag(old(threadGroups), newChildPid)| == 0)
      ensures ok ==> liveThreads == if isThread then old(liveThreads) + {newChildPid} else old(liveThreads)
      ensures ok ==> threadGroups == AddEntry(old(threadGroups), if isThread then threadGroup else newChildPid, newChildPid)
      ensures ok ==> threadGroupNumber ==
                     if newChildPid in old(threadGroupNumber) then old(threadGroupNumber)
                     else old(threadGroupNumber)[newChildPid := if isThread then threadGroup else newChildPid]
    {
      var group := newChildPid;
      if isThread {
        liveThreads := liveThreads + {newChildPid};
        group := threadGroup;
      } else if |Bag(threadGroups, newChildPid)| != 0 {
        return false;
      }
      threadGroups := AddEntry(threadGroups, group, newChildPid);
      if newChildPid !in threadGroupNumber {
        threadGroupNumber := threadGroupNumber[newChildPid := group];
      }
      return true;
    }

    method ForkEvent(traceesPid: Pid, newChildPid: Pid, isThread: bool) returns (ok: bool)
      modifies this, scheduler
      ensures ok == HandleFork(old(View()), traceesPid, newChildPid, isThread).Ok?
      ensures ok ==> View() == HandleFork(old(View()), traceesPid, newChildPid, isThread).value
    {
      if traceesPid !in threadGroupNumber {
        return false;
      }
      var threadGroup := threadGroupNumber[traceesPid];
      ok := JoinGroup(threadGroup, newChildPid, isThread);
      if !ok || traceesPid !in states {
        return false;
      }
      processTree := InsertChild(processTree, threadGroup, newChildPid);
      var fds := states[traceesPid].fds;
      if !isThread && fds < |tables| {
        tables := tables + [tables[fds]];
        fds := |tables| - 1;
      }
      if newChildPid !in states {
        states := states[newChildPid := Tracee(false, fds)];
      }
      scheduler.Add(newChildPid);
    }

    method NonEventExitOf(traceesPid: Pid) returns (ok: bool, empty: bool)
      modifies this, scheduler
      ensures ok == HandleNonEventExit(old(View()), traceesPid).Ok?
      ensures ok ==> (View(), empty) == HandleNonEventExit(old(View()), traceesPid).value
    {
      empty := false;
      var parent;
      processTree, parent := EraseChildEntry(processTree, traceesPid);
      if traceesPid !in threadGroupNumber || traceesPid !in states {
        return false, false;
      }
      var tgNumber := threadGroupNumber[traceesPid];
      states := states - {traceesPid};
      if traceesPid in liveThreads {
        liveThreads := liveThreads - {traceesPid};
        threadGroupNumber := threadGroupNumber - {traceesPid};
      }
      var groups := DeleteEntry(threadGroups, tgNumber, traceesPid);
      if groups.Error? {
        return false, false;
      }
      threadGroups := groups.value;
      assert old(liveThreads) - {traceesPid} == liveThreads;
      if parent != -1 && parent in scheduler.finishedProcesses && !HasChild(processTree, parent) {
        ok := scheduler.RemoveAndScheduleParentOf(traceesPid, parent);
      } else {
        ok, empty := scheduler.RemoveAndSchedule(traceesPid);
      }
    }

    /** The eventExit arm of the event loop. */
    method EventExitOf(traceesPid: Pid, order: seq<Pid>) returns (ok: bool)
      modifies this, scheduler
      ensures ok == HandleEventExit(old(View()), traceesPid, order).Ok?
      ensures ok ==> View() == HandleEventExit(old(View()), traceesPid, order).value
    {
      if traceesPid !in states || traceesPid !in threadGroupNumber {
        return false;
      }
      var isExitGroup := states[traceesPid].exitGroup;
      var threadGroup := threadGroupNumber[traceesPid];
      states := states[traceesPid := states[traceesPid].(exitGroup := false)];
      if isExitGroup && |Bag(threadGroups, threadGroup)| != 1 {
        ok := scheduler.MarkFinished(threadGroup);
        if !ok {
          return;
        }
        ghost var start := View();
        for i := 0 to |order|
          invariant ok
          invariant ExitThreads(start, threadGroup, order) == ExitThreads(View(), threadGroup, order[i..])
        {
          assert order[i..][0] == order[i] && order[i..][1..] == order[i + 1..];
          if order[i] != threadGroup {
            var empty;
            ok, empty := NonEventExitOf(order[i]);
            if !ok {
              return;
            }
          }
        }
        return;
      }
      if HasChild(processTree, traceesPid) {
        ok := scheduler.MarkFinished(traceesPid);
      } else {
        ok := true;
      }
    }

    /** One turn of the event loop for the tracee the scheduler chose. */
    method Turn(ev: Event) returns (ok: bool, exitLoop: bool)
      modifies this, scheduler
      ensures ok == Step(old(View()), ev).Ok?
      ensures ok ==> (View(), exitLoop) == Step(old(View()), ev).value
    {
      exitLoop := false;
      var traceesPid := scheduler.nextPid;
      if traceesPid !in states {
        return false, false;
      }
      match ev
      case Fork(c) => ok := ForkEvent(traceesPid, c, false);
      case Clone(c) => ok := ForkEvent(traceesPid, c, true);
      case Exec => ok := ExecEvent(traceesPid);
      case Preempt => ok := scheduler.Preempt();
      case CallExitGroup =>
        states := states[traceesPid := states[traceesPid].(exitGroup := true)];
        ok := true;
      case SetFd(fd, kind) =>
        var t := states[traceesPid].fds;
        ok := t < |tables|;
        if ok {
          tables := tables[t := tables[t][fd := kind]];
        }
      case EventExit(order) => ok := EventExitOf(traceesPid, order);
      case NonEventExit =>
        if states[traceesPid].exitGroup || HasChild(processTree, traceesPid) {
          return false, false;
        }
        ok, exitLoop := NonEventExitOf(traceesPid);
      case TerminatedBySignal =>
        ok, exitLoop := NonEventExitOf(traceesPid);
    }

    method ExecEvent(traceesPid: Pid) returns (ok: bool)
      modifies this
      ensures ok == HandleExec(old(View()), traceesPid).Ok?
      ensures ok ==> View() == HandleExec(old(View()), traceesPid).value
    {
      if traceesPid !in threadGroupNumber || traceesPid !in states
         || |Bag(threadGroups, threadGroupNumber[traceesPid])| != 1 {
        return false;
      }
      states := states[traceesPid := states[traceesPid].(fds := |tables|)];
      tables := tables + [map[]];
      return true;
    }

    /** The event loop itself, fed with what the kernel reports. */
    method RunProgram(events: seq<Event>) returns (ok: bool, exitLoop: bool)
      modifies this, scheduler
      ensures ok == Run(old(View()), events).Ok?
      ensures ok ==> (View(), exitLoop) == Run(old(View()), events).value
    {
      ok, exitLoop := true, false;
      ghost var start := View();
      var i := 0;
      while !exitLoop && i < |events|
        invariant 0 <= i <= |events| && ok
        invariant Run(start, events) == if exitLoop then Ok((View(), true)) else Run(View(), events[i..])
      {
        assert events[i..][0] == events[i] && events[i..][1..] == events[i + 1..];
        ok, exitLoop := Turn(events[i]);
        if !ok {
          return;
        }
        i := i + 1;
      }
    }
  }
}
