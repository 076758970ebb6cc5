/** Bounded bypass: between two schedulings of a process that stays in the heaps, every other
    process is preempted at most twice. */
module Bypass {
  import opened Outcomes
  import opened Scheduling
  import opened Execution
  import opened ExecutionInvariants
  import opened TurnEffects

  /** How often the events give birth to `q`. */
  function Births(evs: seq<Event>, q: Pid): nat {
    if evs == [] then 0
    else (if (evs[0].Fork? || evs[0].Clone?) && evs[0].child == q then 1 else 0) + Births(evs[1..], q)
  }

  /** How often `q` is preempted along the run. */
  function Preempts(w: World, evs: seq<Event>, q: Pid): nat
    decreases |evs|
  {
    if evs == [] then 0
    else
      var r := Step(w, evs[0]);
      (if evs[0].Preempt? && w.sched.next == q then 1 else 0)
      + if r.Ok? && !r.value.1 then Preempts(r.value.0, evs[1..], q) else 0
  }

  /** The run neither fails nor ends, `p` stays in the heaps, and is not chosen before its end. */
  ghost predicate PassedOver(w: World, evs: seq<Event>, p: Pid)
    decreases |evs|
  {
    evs != [] ==>
      var r := Step(w, evs[0]);
      && r.Ok? && !r.value.1
      && InHeaps(r.value.0.sched, p)
      && (|evs| > 1 ==> r.value.0.sched.next != p)
      && PassedOver(r.value.0, evs[1..], p)
  }

  /** How often `q` can still be preempted before `p` is chosen. A greater `q` goes first among the
      runnable, a lesser one only while `p` is blocked; a swap of the heaps gives a greater `q`
      one more turn. A pid that is still to be born is greater. */
  function Budget(s: Sched, p: Pid, q: Pid, births: nat): nat {
    var comesUp := births > 0 || (q > p && q in s.runnable);
    if p in s.runnable then (if comesUp then 1 else 0)
    else if comesUp then 2
    else if (q > p && q in s.blocked) || (q < p && q in s.runnable) then 1
    else 0
  }

  // ---- no scheduler operation that leaves `p` in place raises the budget ----

  lemma ScheduleNextBudget(s: Sched, p: Pid, q: Pid, births: nat)
    requires InHeaps(s, p)
    ensures ScheduleNext(s).Ok? && InHeaps(ScheduleNext(s).value, p)
    ensures Budget(ScheduleNext(s).value, p, q, births) <= Budget(s, p, q, births)
  {
  }

  lemma RemoveBudget(s: Sched, x: Pid, p: Pid, q: Pid, births: nat)
    requires InHeaps(s, p) && x != p && Remove(s, x).Ok?
    ensures InHeaps(Remove(s, x).value, p)
    ensures Budget(Remove(s, x).value, p, q, births) <= Budget(s, p, q, births)
  {
  }

  lemma MarkFinishedBudget(s: Sched, x: Pid, p: Pid, q: Pid, births: nat)
    requires InHeaps(s, p) && x != p && MarkFinishedAndScheduleNext(s, x).Ok?
    ensures var s' := MarkFinishedAndScheduleNext(s, x).value;
            InHeaps(s', p) && Budget(s', p, q, births) <= Budget(s, p, q, births)
  {
    RemoveBudget(s, x, p, q, births);
    var s1 := Remove(s, x).value;
    ScheduleNextBudget(s1.(finished := s1.finished + {x}), p, q, births);
  }

  lemma RemoveAndScheduleNextBudget(s: Sched, x: Pid, p: Pid, q: Pid, births: nat)
    requires InHeaps(s, p) && x != p && RemoveAndScheduleNext(s, x).Ok?
    ensures var s' := RemoveAndScheduleNext(s, x).value.0;
            InHeaps(s', p) && Budget(s', p, q, births) <= Budget(s, p, q, births)
  {
    if x in s.finished {
      ScheduleNextBudget(s.(finished := s.finished - {x}), p, q, births);
    } else {
      RemoveBudget(s, x, p, q, births);
      ScheduleNextBudget(Remove(s, x).value, p, q, births);
    }
  }

  lemma DeathBudget(w: World, x: Pid, p: Pid, q: Pid, births: nat)
    requires InHeaps(w.sched, p) && x != p && HandleNonEventExit(w, x).Ok?
    ensures var s' := HandleNonEventExit(w, x).value.0.sched;
            InHeaps(s', p) && Budget(s', p, q, births) <= Budget(w.sched, p, q, births)
  {
    var parent := EraseChild(w.tree, x).1;
    if parent != -1 && parent in w.sched.finished && !HasChild(Forget(w, x).value.tree, parent) {
      RemoveBudget(w.sched, x, p, q, births);
    } else {
      RemoveAndScheduleNextBudget(w.sched, x, p, q, births);
    }
  }

  lemma {:induction false} ExitThreadsBudget(w: World, leader: Pid, order: seq<Pid>, p: Pid, q: Pid, births: nat)
    requires InHeaps(w.sched, p) && p !in order && ExitThreads(w, leader, order).Ok?
    ensures var s' := ExitThreads(w, leader, order).value.sched;
            InHeaps(s', p) && Budget(s', p, q, births) <= Budget(w.sched, p, q, births)
    decreases |order|
  {
    if order != [] {
      if order[0] == leader {
        ExitThreadsBudget(w, leader, order[1..], p, q, births);
      } else {
        DeathBudget(w, order[0], p, q, births);
        ExitThreadsBudget(HandleNonEventExit(w, order[0]).value.0, leader, order[1..], p, q, births);
      }
    }
  }

  lemma PreemptBudget(s: Sched, live: set<Pid>, p: Pid, q: Pid, births: nat)
    requires Partition(s, live) && s.next !in s.finished && IsTop(s.runnable, s.next)
    requires InHeaps(s, p) && s.next != p && p != q && (births > 0 ==> q !in live)
    ensures var s' := PreemptAndScheduleNext(s).value;
            PreemptAndScheduleNext(s).Ok? &&
            (if s.next == q then 1 else 0) + Budget(s', p, q, births) <= Budget(s, p, q, births)
  {
    PreemptSplit(s, live);
    assert Held(s, p) >= 1 && Held(s, s.next) >= 1 && (s.next == q ==> q in live);
    assert Held(s, p) == 1 && Held(s, s.next) == 1;
    assert Held(s, q) <= 1;
  }

  // ---- one turn ----

  lemma GroupSurvivor(w: World, order: seq<Pid>, p: Pid)
    requires Inv(w) && Enabled(w, EventExit(order)) && w.sched.next in w.states
    requires HandleEventExit(w, w.sched.next, order).Ok?
    requires InHeaps(HandleEventExit(w, w.sched.next, order).value.sched, p)
    requires w.states[w.sched.next].exitGroup && HasPeer(w, w.sched.next)
    ensures p !in order && p != w.groupOf[w.sched.next]
  {
    var g := w.groupOf[w.sched.next];
    GroupExitOutcome(w, order);
    GroupExitStates(w, order);
    var w' := HandleEventExit(w, w.sched.next, order).value;
    assert Held(w'.sched, p) >= 1;
    assert p in w'.states;
    assert p !in w'.sched.finished by {
      assert Held(w'.sched, p) == 1;
    }
    assert multiset(order)[p] == Bag(w.groups, g)[p];
  }

  lemma EventExitBudget(w: World, order: seq<Pid>, p: Pid, q: Pid, births: nat)
    requires Inv(w) && Enabled(w, EventExit(order)) && w.sched.next in w.states
    requires HandleEventExit(w, w.sched.next, order).Ok?
    requires InHeaps(w.sched, p) && w.sched.next != p
    requires InHeaps(HandleEventExit(w, w.sched.next, order).value.sched, p)
    ensures Budget(HandleEventExit(w, w.sched.next, order).value.sched, p, q, births) <= Budget(w.sched, p, q, births)
  {
    var x := w.sched.next;
    var w1 := w.(states := w.states[x := w.states[x].(exitGroup := false)]);
    CountTellsPeers(w, x);
    if w.states[x].exitGroup && HasPeer(w, x) {
      var g := w.groupOf[x];
      GroupSurvivor(w, order, p);
      MarkFinishedBudget(w.sched, g, p, q, births);
      var s := MarkFinishedAndScheduleNext(w.sched, g).value;
      ExitThreadsBudget(w1.(sched := s), g, order, p, q, births);
    } else if HasChild(w.tree, x) {
      MarkFinishedBudget(w.sched, x, p, q, births);
    }
  }

  lemma BirthBudget(w: World, c: Pid, isThread: bool, p: Pid, q: Pid, births: nat)
    requires InHeaps(w.sched, p) && p < c && HandleFork(w, w.sched.next, c, isThread).Ok?
    ensures Budget(HandleFork(w, w.sched.next, c, isThread).value.sched, p, q, births)
            <= Budget(w.sched, p, q, births + if c == q then 1 else 0)
  {
  }

  lemma HeldIsLive(s: Sched, live: set<Pid>, p: Pid)
    requires Partition(s, live) && InHeaps(s, p)
    ensures p in live
  {
    assert Held(s, p) >= 1;
  }

  /** What a turn of another process than `p` costs is paid out of the budget. */
  ghost predicate Paid(w: World, ev: Event, p: Pid, q: Pid, births: nat)
    requires Step(w, ev).Ok?
  {
    (if ev.Preempt? && w.sched.next == q then 1 else 0) + Budget(Step(w, ev).value.0.sched, p, q, births)
    <= Budget(w.sched, p, q, Births([ev], q) + births)
  }

  lemma ExitBudget(w: World, ev: Event, p: Pid, q: Pid, births: nat)
    requires Inv(w) && Enabled(w, ev) && (ev.EventExit? || ev.NonEventExit? || ev.TerminatedBySignal?)
    requires InHeaps(w.sched, p) && w.sched.next != p
    requires Step(w, ev).Ok? && !Step(w, ev).value.1 && InHeaps(Step(w, ev).value.0.sched, p)
    ensures Paid(w, ev, p, q, births)
  {
    NextIsLive(w.sched, w.states.Keys);
    if ev.EventExit? {
      EventExitBudget(w, ev.order, p, q, births);
    } else {
      DeathBudget(w, w.sched.next, p, q, births);
    }
  }

  lemma ForkBudget(w: World, ev: Event, p: Pid, q: Pid, births: nat)
    requires (ev.Fork? || ev.Clone?) && p < ev.child && InHeaps(w.sched, p) && Step(w, ev).Ok?
    ensures Paid(w, ev, p, q, births)
  {
    BirthBudget(w, ev.child, ev.Clone?, p, q, births);
  }

  lemma QuietBudget(w: World, ev: Event, p: Pid, q: Pid, births: nat)
    requires (ev.Exec? || ev.CallExitGroup? || ev.SetFd?) && Step(w, ev).Ok?
    ensures Paid(w, ev, p, q, births)
  {
    assert Step(w, ev).value.0.sched == w.sched && Births([ev], q) == 0;
  }

  lemma StepBudget(w: World, ev: Event, p: Pid, q: Pid, births: nat)
    requires Inv(w) && Enabled(w, ev) && p != q
    requires InHeaps(w.sched, p) && w.sched.next != p
    requires Step(w, ev).Ok? && !Step(w, ev).value.1 && InHeaps(Step(w, ev).value.0.sched, p)
    requires births > 0 ==> q !in w.states
    ensures Paid(w, ev, p, q, births)
  {
    HeldIsLive(w.sched, w.states.Keys, p);
    if ev.EventExit? || ev.NonEventExit? || ev.TerminatedBySignal? {
      ExitBudget(w, ev, p, q, births);
    } else if ev.Preempt? {
      PreemptBudget(w.sched, w.states.Keys, p, q, births);
    } else if ev.Fork? || ev.Clone? {
      ForkBudget(w, ev, p, q, births);
    } else {
      QuietBudget(w, ev, p, q, births);
    }
  }

  // ---- whole runs ----

  lemma OneBirth(w: World, ev: Event, q: Pid)
    requires Inv(w) && Enabled(w, ev) && Step(w, ev).Ok?
    requires Births([ev], q) == 0 && q !in w.states
    ensures q !in Step(w, ev).value.0.states
  {
    LiveAfterTurn(w, ev, q);
  }

  lemma {:induction false} WithinBudget(w: World, evs: seq<Event>, p: Pid, q: Pid)
    requires Inv(w) && Allowed(w, evs) && p != q
    requires InHeaps(w.sched, p) && PassedOver(w, evs, p) && (evs != [] ==> w.sched.next != p)
    requires Births(evs, q) + (if q in w.states then 1 else 0) <= 1
    ensures Preempts(w, evs, q) <= Budget(w.sched, p, q, Births(evs, q))
    decreases |evs|
  {
    if evs != [] {
      var ev, rest := evs[0], evs[1..];
      var w' := Step(w, ev).value.0;
      assert Births(evs, q) == Births([ev], q) + Births(rest, q) by {
        assert [ev][1..] == [];
      }
      StepBudget(w, ev, p, q, Births(rest, q));
      StepOutcome(w, ev);
      if Births([ev], q) == 0 && q !in w.states {
        OneBirth(w, ev, q);
      }
      WithinBudget(w', rest, p, q);
    }
  }

  lemma PreemptFirst(s: Sched, live: set<Pid>, p: Pid, q: Pid)
    requires Partition(s, live) && s.next == p && p !in s.finished && IsTop(s.runnable, p)
    requires q in live && q != p
    ensures PreemptAndScheduleNext(s).Ok? && Budget(PreemptAndScheduleNext(s).value, p, q, 0) <= 1
  {
    PreemptSplit(s, live);
    assert Held(s, p) == 1 && Held(s, q) == 1;
  }

  /** An exit stop that leaves the tracee in the heaps leaves the scheduler alone. */
  lemma OwnExit(w: World, order: seq<Pid>)
    requires Inv(w) && Enabled(w, EventExit(order)) && w.sched.next in w.states
    requires HandleEventExit(w, w.sched.next, order).Ok?
    requires InHeaps(HandleEventExit(w, w.sched.next, order).value.sched, w.sched.next)
    ensures HandleEventExit(w, w.sched.next, order).value.sched == w.sched
  {
    var p := w.sched.next;
    CountTellsPeers(w, p);
    assert multiset(order)[p] == Bag(w.groups, w.groupOf[p])[p] == 1;
    if w.states[p].exitGroup && HasPeer(w, p) {
      GroupSurvivor(w, order, p);
      assert false;
    } else if HasChild(w.tree, p) {
      MarkingSucceeds(w, p);
      MarkFinishedSplit(w.sched, w.states.Keys, p);
      InHeapsUnlessFinished(MarkFinishedAndScheduleNext(w.sched, p).value, w.states.Keys, p);
      assert false;
    }
  }

  /** After the turn of `p` itself, any other live tracee is left with one turn before `p`'s next. */
  lemma FirstTurn(w: World, ev: Event, p: Pid, q: Pid)
    requires Inv(w) && Enabled(w, ev) && p != q && w.sched.next == p && InHeaps(w.sched, p)
    requires Step(w, ev).Ok? && !Step(w, ev).value.1 && InHeaps(Step(w, ev).value.0.sched, p)
    requires q in w.states
    ensures Budget(Step(w, ev).value.0.sched, p, q, 0) <= 1
  {
    HeldIsLive(w.sched, w.states.Keys, p);
    InHeapsUnlessFinished(w.sched, w.states.Keys, p);
    assert Held(w.sched, p) == 1 && Held(w.sched, q) == 1;
    if ev.Preempt? {
      PreemptFirst(w.sched, w.states.Keys, p, q);
    } else if ev.EventExit? {
      OwnExit(w, ev.order);
      assert p in w.sched.runnable;
    } else if ev.NonEventExit? || ev.TerminatedBySignal? {
      DeathOutcome(w, p);
      HeldIsLive(Step(w, ev).value.0.sched, Step(w, ev).value.0.states.Keys, p);
      assert false;
    }
  }

  lemma AfterOwnTurn(w: World, evs: seq<Event>, p: Pid, q: Pid)
    requires Inv(w) && Allowed(w, evs) && p != q && evs != []
    requires InHeaps(w.sched, p) && PassedOver(w, evs, p) && w.sched.next == p
    requires Births(evs, q) + (if q in w.states then 1 else 0) <= 1
    ensures Preempts(w, evs, q) <= Budget(Step(w, evs[0]).value.0.sched, p, q, Births(evs[1..], q))
  {
    var ev, rest := evs[0], evs[1..];
    assert Births(evs, q) == Births([ev], q) + Births(rest, q) by {
      assert [ev][1..] == [];
    }
    StepOutcome(w, ev);
    if Births([ev], q) == 0 && q !in w.states {
      OneBirth(w, ev, q);
    }
    WithinBudget(Step(w, ev).value.0, rest, p, q);
  }

  /** Bounded bypass. From where `p` is chosen until it is chosen again, if each pid names one
      tracee along the way, a tracee alive at the start is preempted at most once, and one born on
      the way at most twice; from anywhere else, at most twice. */
  lemma BypassedAtMostTwice(w: World, evs: seq<Event>, p: Pid, q: Pid)
    requires Inv(w) && Allowed(w, evs) && p != q
    requires InHeaps(w.sched, p) && PassedOver(w, evs, p)
    requires Births(evs, q) + (if q in w.states then 1 else 0) <= 1
    ensures Preempts(w, evs, q) <= if w.sched.next == p && q in w.states then 1 else 2
  {
    if evs == [] || w.sched.next != p {
      WithinBudget(w, evs, p, q);
    } else {
      AfterOwnTurn(w, evs, p, q);
      if q in w.states {
        FirstTurn(w, evs[0], p, q);
      }
    }
  }
}
