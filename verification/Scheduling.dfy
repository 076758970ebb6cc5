/** The two-heap scheduler of src/scheduler.cpp.
    `Sched` is its state as a value; the functions say what each operation does to it, and the
    class `Scheduler` is the object the source updates in place, proved equal to them. */
module Scheduling {
  import opened Outcomes

  type Pid = int

  /** What a priority_queue<pid_t> holds; only its greatest element can be seen. */
  type Heap = multiset<Pid>

  datatype Sched = Sched(runnable: Heap, blocked: Heap, finished: set<Pid>, next: Pid)

  ghost predicate IsTop(h: Heap, m: Pid) {
    m in h && forall x | x in h :: x <= m
  }

  lemma TopExists(h: Heap)
    requires h != multiset{}
    ensures exists m :: IsTop(h, m)
    decreases |h|
  {
    assert (forall x :: x !in h) ==> h == multiset{};
    var x :| x in h;
    var rest := h - multiset{x};
    if rest == multiset{} {
      assert h == multiset{x};
      assert IsTop(h, x);
    } else {
      TopExists(rest);
      var m :| IsTop(rest, m);
      assert forall y | y in h :: y == x || y in rest;
      assert IsTop(h, if m < x then x else m);
    }
  }

  function Top(h: Heap): (m: Pid)
    requires h != multiset{}
    ensures IsTop(h, m)
  {
    TopExists(h);
    assert exists m :: m in h && forall x | x in h :: x <= m by {
      var m :| IsTop(h, m);
      assert m in h;
    }
    var m :| m in h && forall x | x in h :: x <= m;
    m
  }

  /** How often `p` is held by the heaps and the finished set together. */
  function Held(s: Sched, p: Pid): nat {
    s.runnable[p] + s.blocked[p] + if p in s.finished then 1 else 0
  }

  predicate HeapsEmpty(s: Sched) {
    s.runnable == multiset{} && s.blocked == multiset{}
  }

  predicate InHeaps(s: Sched, p: Pid) {
    p in s.runnable || p in s.blocked
  }

  // ---- the operations, on values ----

  function Init(p: Pid): Sched {
    Sched(multiset{p}, multiset{}, {}, p)
  }

  /** Run the greatest runnable pid, after swapping the heaps if none is runnable. */
  function ScheduleNext(s: Sched): (r: Outcome<Sched>)
    ensures r.Ok? <==> !HeapsEmpty(s)
    ensures r.Ok? ==> forall p :: Held(r.value, p) == Held(s, p)
    ensures r.Ok? ==> r.value.finished == s.finished
    ensures r.Ok? ==> IsTop(r.value.runnable, r.value.next)
  {
    if s.runnable != multiset{} then Ok(s.(next := Top(s.runnable)))
    else if s.blocked == multiset{} then Error(NothingToRun)
    else Ok(s.(runnable := s.blocked, blocked := s.runnable, next := Top(s.blocked)))
  }

  function Remove(s: Sched, p: Pid): (r: Outcome<Sched>)
    ensures r.Ok? <==> InHeaps(s, p)
    ensures r.Ok? ==> r.value.finished == s.finished && r.value.next == s.next
    ensures r.Ok? ==> forall q | q != p :: Held(r.value, q) == Held(s, q)
    ensures r.Ok? && Held(s, p) == 1 ==> Held(r.value, p) == 0
  {
    if HeapsEmpty(s) then Error(NotInHeaps)
    else if p in s.runnable then Ok(s.(runnable := s.runnable[p := 0]))
    else if p in s.blocked then Ok(s.(blocked := s.blocked[p := 0]))
    else Error(NotInHeaps)
  }

  function RemoveAndScheduleParent(s: Sched, child: Pid, parent: Pid): Outcome<Sched> {
    if parent !in s.finished then Error(ParentNotFinished)
    else
      var s1 :- Remove(s, child);
      Ok(s1.(next := parent))
  }

  function MarkFinishedAndScheduleNext(s: Sched, p: Pid): Outcome<Sched> {
    var s1 :- Remove(s, p);
    ScheduleNext(s1.(finished := s1.finished + {p}))
  }

  function PreemptAndScheduleNext(s: Sched): Outcome<Sched> {
    if s.runnable == multiset{} then Error(EmptyHeap)
    else
      var curr := Top(s.runnable);
      ScheduleNext(s.(runnable := s.runnable - multiset{curr}, blocked := s.blocked + multiset{curr}))
  }

  function AddAndScheduleNext(s: Sched, p: Pid): Sched {
    s.(runnable := s.runnable + multiset{p}, next := p)
  }

  /** The second component is true when the run is over. */
  function RemoveAndScheduleNext(s: Sched, p: Pid): Outcome<(Sched, bool)> {
    var s1 :- if p in s.finished then Ok(s.(finished := s.finished - {p})) else Remove(s, p);
    if HeapsEmpty(s1) then Ok((s1, true))
    else
      var s2 :- ScheduleNext(s1);
      Ok((s2, false))
  }

  // ---- what the operations do to the split of the live pids ----

  /** Runnable, blocked and finished split the live pids: each is held exactly once. */
  ghost predicate Partition(s: Sched, live: set<Pid>) {
    forall p :: Held(s, p) == if p in live then 1 else 0
  }

  lemma RemoveAndScheduleParentSplit(s: Sched, live: set<Pid>, child: Pid, parent: Pid)
    requires Partition(s, live) && child in live && parent in s.finished
    ensures var r := RemoveAndScheduleParent(s, child, parent);
            && (r.Ok? <==> child !in s.finished)
            && (r.Ok? ==>
                  && Partition(r.value, live - {child})
                  && r.value.finished == s.finished && r.value.next == parent)
  {
    assert Held(s, child) == 1;
  }

  lemma RemoveAndScheduleNextSplit(s: Sched, live: set<Pid>, p: Pid)
    requires Partition(s, live) && p in live
    ensures var r := RemoveAndScheduleNext(s, p);
            && r.Ok?
            && Partition(r.value.0, live - {p})
            && r.value.0.finished == s.finished - {p}
            && (r.value.1 <==> HeapsEmpty(r.value.0))
            && (!r.value.1 ==> IsTop(r.value.0.runnable, r.value.0.next))
  {
    assert Held(s, p) == 1;
    if p in s.finished {
      var s1 := s.(finished := s.finished - {p});
      assert forall q | q != p :: Held(s1, q) == Held(s, q);
    }
  }

  lemma MarkFinishedSplit(s: Sched, live: set<Pid>, p: Pid)
    requires Partition(s, live) && p in live
    ensures var r := MarkFinishedAndScheduleNext(s, p);
            && (r.Ok? <==> p !in s.finished && exists q :: q != p && InHeaps(s, q))
            && (r.Ok? ==>
                  && Partition(r.value, live)
                  && r.value.finished == s.finished + {p}
                  && IsTop(r.value.runnable, r.value.next))
  {
    assert Held(s, p) == 1;
    if p !in s.finished {
      var s1 := Remove(s, p).value;
      var s2 := s1.(finished := s1.finished + {p});
      assert forall q :: Held(s2, q) == Held(s, q);
      assert forall q | q != p :: InHeaps(s2, q) <==> InHeaps(s, q);
      assert !InHeaps(s2, p);
      if !HeapsEmpty(s2) {
        var q := if s2.runnable != multiset{} then Top(s2.runnable) else Top(s2.blocked);
        assert InHeaps(s2, q);
      }
    }
  }

  lemma PreemptSplit(s: Sched, live: set<Pid>)
    requires Partition(s, live) && s.next !in s.finished && IsTop(s.runnable, s.next)
    ensures var r := PreemptAndScheduleNext(s);
            && r.Ok?
            && Partition(r.value, live)
            && r.value.finished == s.finished
            && IsTop(r.value.runnable, r.value.next)
  {
    var curr := Top(s.runnable);
    var s1 := s.(runnable := s.runnable - multiset{curr}, blocked := s.blocked + multiset{curr});
    assert forall p :: Held(s1, p) == Held(s, p);
    assert curr in s1.blocked;
  }

  /** A pid held by the heaps or the finished set is live. */
  lemma NextIsLive(s: Sched, live: set<Pid>)
    requires Partition(s, live)
    requires s.next in s.finished || s.next in s.runnable
    ensures s.next in live
  {
    assert Held(s, s.next) >= 1;
  }

  // ---- the operations, in place ----

  /** Pops everything off the heap and pushes back all that is not `element`. */
  method RemoveElementFromHeap(heap: Heap, element: Pid) returns (rest: Heap, found: bool)
    ensures rest == heap[element := 0]
    ensures found == (element in heap)
  {
    var h, elements := heap, [];
    found := false;
    while h != multiset{}
      invariant forall q | q != element :: multiset(elements)[q] + h[q] == heap[q]
      invariant element !in elements && h[element] <= heap[element]
      invariant found == (h[element] < heap[element])
      decreases |h|
    {
      var p := Top(h);
      h := h - multiset{p};
      if element == p {
        found := true;
      } else {
        elements := elements + [p];
      }
    }
    rest := multiset{};
    for i := 0 to |elements|
      invariant rest == multiset(elements[..i])
    {
      assert elements[..i + 1] == elements[..i] + [elements[i]];
      rest := rest + multiset{elements[i]};
    }
    assert elements[..|elements|] == elements;
    assert forall q :: rest[q] == heap[element := 0][q];
  }

  class Scheduler {
    var runnableHeap: Heap
    var blockedHeap: Heap
    var finishedProcesses: set<Pid>
    var nextPid: Pid

    function View(): Sched
      reads this
    {
      Sched(runnableHeap, blockedHeap, finishedProcesses, nextPid)
    }

    constructor (startingPid: Pid)
      ensures View() == Init(startingPid)
    {
      runnableHeap := multiset{startingPid};
      blockedHeap := multiset{};
      finishedProcesses := {};
      nextPid := startingPid;
    }

    /** Chooses the pid to run; the caller stores it in `nextPid`. */
    method ScheduleNextProcess() returns (ok: bool, nextProcess: Pid)
      modifies this`runnableHeap, this`blockedHeap
      ensures ok == ScheduleNext(old(View())).Ok?
      ensures ok ==> View().(next := nextProcess) == ScheduleNext(old(View())).value
    {
      if runnableHeap != multiset{} {
        return true, Top(runnableHeap);
      }
      if blockedHeap == multiset{} {
        return false, nextPid;
      }
      var temp := runnableHeap;
      runnableHeap := blockedHeap;
      blockedHeap := temp;
      return true, Top(runnableHeap);
    }

    method RemovePid(process: Pid) returns (ok: bool)
      modifies this`runnableHeap, this`blockedHeap
      ensures ok == Remove(old(View()), process).Ok?
      ensures ok ==> View() == Remove(old(View()), process).value
    {
      if runnableHeap == multiset{} && blockedHeap == multiset{} {
        return false;
      }
      var found;
      runnableHeap, found := RemoveElementFromHeap(runnableHeap, process);
      if !found {
        assert runnableHeap == old(runnableHeap);
        blockedHeap, found := RemoveElementFromHeap(blockedHeap, process);
        return found;
      }
      return true;
    }

    method RemoveAndScheduleParentOf(child: Pid, parent: Pid) returns (ok: bool)
      modifies this
      ensures ok == RemoveAndScheduleParent(old(View()), child, parent).Ok?
      ensures ok ==> View() == RemoveAndScheduleParent(old(View()), child, parent).value
    {
      if parent !in finishedProcesses {
        return false;
      }
      ok := RemovePid(child);
      if ok {
        nextPid := parent;
      }
    }

    method MarkFinished(process: Pid) returns (ok: bool)
      modifies this
      ensures ok == MarkFinishedAndScheduleNext(old(View()), process).Ok?
      ensures ok ==> View() == MarkFinishedAndScheduleNext(old(View()), process).value
    {
      ok := RemovePid(process);
      if ok {
        finishedProcesses := finishedProcesses + {process};
        var chosen;
        ok, chosen := ScheduleNextProcess();
        if ok {
          nextPid := chosen;
        }
      }
    }

    method Preempt() returns (ok: bool)
      modifies this
      ensures ok == PreemptAndScheduleNext(old(View())).Ok?
      ensures ok ==> View() == PreemptAndScheduleNext(old(View())).value
    {
      if runnableHeap == multiset{} {
        return false;
      }
      var curr := Top(runnableHeap);
      runnableHeap := runnableHeap - multiset{curr};
      blockedHeap := blockedHeap + multiset{curr};
      var chosen;
      ok, chosen := ScheduleNextProcess();
      if ok {
        nextPid := chosen;
      }
    }

    method Add(newProcess: Pid)
      modifies this
      ensures View() == AddAndScheduleNext(old(View()), newProcess)
    {
      runnableHeap := runnableHeap + multiset{newProcess};
      nextPid := newProcess;
    }

    method RemoveAndSchedule(process: Pid) returns (ok: bool, empty: bool)
      modifies this
      ensures ok == RemoveAndScheduleNext(old(View()), process).Ok?
      ensures ok ==> (View(), empty) == RemoveAndScheduleNext(old(View()), process).value
    {
      empty := false;
      if process in finishedProcesses {
        finishedProcesses := finishedProcesses - {process};
      } else {
        ok := RemovePid(process);
        if !ok {
          return;
        }
      }
      if runnableHeap == multiset{} && blockedHeap == multiset{} {
        return true, true;
      }
      var chosen;
      ok, chosen := ScheduleNextProcess();
      nextPid := chosen;
    }
  }
}
