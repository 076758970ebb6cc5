/** exit_group walks an unordered_multimap, so the order in which it takes the threads is the
    container's own. That order cannot be seen: two runs that differ in nothing else schedule the
    same pids throughout and end alike. */
module ExitOrder {
  import opened Outcomes
  import opened Scheduling
  import opened Execution
  import opened ExecutionInvariants

  /** The scheduler with a swap of the heaps that is due carried out. */
  function Settle(s: Sched): Sched {
    if s.runnable == multiset{} then s.(runnable := s.blocked, blocked := multiset{}) else s
  }

  /** Equal but for a swap of the heaps that one has made and the other still has to make. */
  ghost predicate Alike(a: World, b: World) {
    b == a.(sched := b.sched) && Settle(a.sched) == Settle(b.sched)
  }

  // ---- what the loop leaves, whatever the order ----

  function Without(tree: seq<Edge>, gone: set<Pid>): seq<Edge> {
    if tree == [] then []
    else if tree[0].child in gone then Without(tree[1..], gone)
    else [tree[0]] + Without(tree[1..], gone)
  }

  lemma {:induction false} WithoutNone(tree: seq<Edge>, gone: set<Pid>)
    requires forall e | e in tree :: e.child !in gone
    ensures Without(tree, gone) == tree
  {
    if tree != [] {
      assert tree[0] in tree;
      WithoutNone(tree[1..], gone);
    }
  }

  lemma {:induction false} WithoutTwice(tree: seq<Edge>, a: set<Pid>, b: set<Pid>)
    ensures Without(Without(tree, a), b) == Without(tree, a + b)
  {
    if tree != [] {
      WithoutTwice(tree[1..], a, b);
      if tree[0].child !in a {
        assert ([tree[0]] + Without(tree[1..], a))[1..] == Without(tree[1..], a);
      }
    }
  }

  lemma {:induction false} EraseIsWithout(tree: seq<Edge>, p: Pid)
    requires DistinctChildren(tree)
    ensures EraseChild(tree, p).0 == Without(tree, {p})
  {
    if tree != [] {
      assert DistinctChildren(tree[1..]);
      if tree[0].child == p {
        assert forall e | e in tree[1..] :: e.child != p;
        WithoutNone(tree[1..], {p});
        assert tree[..0] + tree[1..] == tree[1..];
      } else {
        EraseIsWithout(tree[1..], p);
        var i := FindChild(tree[1..], p);
        assert FindChild(tree, p) == 1 + i;
        if i < |tree[1..]| {
          assert tree[..1 + i] + tree[2 + i..] == [tree[0]] + (tree[1..][..i] + tree[1..][i + 1..]);
        } else {
          assert tree == [tree[0]] + tree[1..];
        }
      }
    }
  }

  /** The world once the leader's threads in `gone` have been taken, apart from the scheduler. */
  function Taken(w: World, leader: Pid, gone: set<Pid>): World {
    w.(states := w.states - gone,
       threads := w.threads - gone,
       groupOf := w.groupOf - gone,
       groups := w.groups[leader := Bag(w.groups, leader) - multiset(gone)],
       tree := Without(w.tree, gone))
  }

  lemma ForgetThread(w: World, leader: Pid, t: Pid)
    requires Inv(w) && ThreadIn(w, leader, t)
    ensures Forget(w, t) == Ok(Taken(w, leader, {t}))
  {
    EraseIsWithout(w.tree, t);
    var bag := Bag(w.groups, leader);
    assert bag[t] == 1 && bag[leader] == 1;
    assert (bag - multiset{t})[leader] == 1;
    assert multiset({t}) == multiset{t};
    assert t in w.threads;
  }

  lemma DropTwice(h: Heap, t: Pid, gone: set<Pid>)
    requires t !in gone
    ensures h - multiset({t}) - multiset(gone) == h - multiset({t} + gone)
  {
    assert multiset({t} + gone) == multiset({t}) + multiset(gone);
  }

  lemma MinusTwice<V>(m: map<Pid, V>, a: set<Pid>, b: set<Pid>)
    ensures m - a - b == m - (a + b)
  {
  }

  lemma TakenTwice(w: World, leader: Pid, t: Pid, gone: set<Pid>)
    requires t !in gone
    ensures Taken(Taken(w, leader, {t}), leader, gone) == Taken(w, leader, {t} + gone)
  {
    WithoutTwice(w.tree, {t}, gone);
    DropTwice(Bag(w.groups, leader), t, gone);
    MinusTwice(w.states, {t}, gone);
    MinusTwice(w.groupOf, {t}, gone);
    var once := Taken(w, leader, {t});
    assert once.threads - gone == w.threads - ({t} + gone);
    assert Bag(once.groups, leader) == Bag(w.groups, leader) - multiset({t});
    assert once.groups[leader := Bag(w.groups, leader) - multiset({t} + gone)] ==
           w.groups[leader := Bag(w.groups, leader) - multiset({t} + gone)];
  }

  /** The scheduler once the pids in `gone` are off the heaps and a due swap has been made. */
  function Cleared(s: Sched, gone: set<Pid>): Sched {
    Settle(s.(runnable := s.runnable - multiset(gone), blocked := s.blocked - multiset(gone)))
  }

  lemma ClearedTwice(s: Sched, s1: Sched, t: Pid, gone: set<Pid>)
    requires t !in gone && Settle(s1) == Cleared(s, {t}).(next := s1.next)
    ensures Cleared(s1, gone) == Cleared(s, {t} + gone).(next := s1.next)
  {
    DropTwice(s.runnable, t, gone);
    DropTwice(s.blocked, t, gone);
    assert multiset{} - multiset(gone) == multiset{};
  }

  function Threads(w: World, leader: Pid): set<Pid> {
    set t | t in w.states && t != leader && t in w.groupOf && w.groupOf[t] == leader
  }

  /** Who runs after the loop: the leader once it has no children, else the greatest runnable. */
  ghost predicate Picks(w: World, leader: Pid) {
    if HasChild(w.tree, leader) then IsTop(Settle(w.sched).runnable, w.sched.next)
    else w.sched.next == leader
  }

  lemma RemovedIsCleared(s: Sched, live: set<Pid>, t: Pid)
    requires Partition(s, live) && t in live && t !in s.finished
    ensures Remove(s, t).Ok? && Settle(Remove(s, t).value) == Cleared(s, {t})
  {
    assert Held(s, t) == 1;
    assert multiset({t}) == multiset{t};
    assert s.runnable[t := 0] == s.runnable - multiset{t};
    assert s.blocked[t := 0] == s.blocked - multiset{t};
    assert t !in s.blocked ==> s.blocked - multiset{t} == s.blocked;
    assert t !in s.runnable ==> s.runnable - multiset{t} == s.runnable;
  }

  lemma DeathOfThread(w: World, leader: Pid, t: Pid)
    requires Inv(w) && leader in w.sched.finished && w.sched.next !in w.sched.finished
    requires ThreadIn(w, leader, t)
    ensures var r := HandleNonEventExit(w, t);
            && r.Ok?
            && r.value.0 == Taken(w, leader, {t}).(sched := r.value.0.sched)
            && Settle(r.value.0.sched) == Cleared(w.sched, {t}).(next := r.value.0.sched.next)
            && Picks(r.value.0, leader)
  {
    ThreadsNeverFinish(w, leader, t);
    ExitOneThread(w, leader, t);
    ForgetThread(w, leader, t);
    ParentFound(w.states.Keys, w.groupOf, w.tree, t);
    assert EraseChild(w.tree, t).1 == leader;
    RemovedIsCleared(w.sched, w.states.Keys, t);
  }

  lemma NoThreadsTaken(w: World, leader: Pid)
    requires Inv(w) && leader in w.states && w.groupOf[leader] == leader
    ensures Taken(w, leader, {}) == w
    ensures Cleared(w.sched, {}) == Settle(w.sched)
  {
    WithoutNone(w.tree, {});
    assert Bag(w.groups, leader)[leader] == 1;
    assert forall h: Heap :: h - multiset({}) == h;
    assert w.states - {} == w.states && w.groupOf - {} == w.groupOf && w.threads - {} == w.threads;
    assert w.groups[leader := w.groups[leader]] == w.groups;
  }

  /** `w'` is what taking the threads in `gone` leaves of `w`. */
  ghost predicate Leaves(w: World, leader: Pid, gone: set<Pid>, w': World) {
    && w' == Taken(w, leader, gone).(sched := w'.sched)
    && Settle(w'.sched) == Cleared(w.sched, gone).(next := w'.sched.next)
  }

  lemma LeavesTwice(w: World, w1: World, w2: World, leader: Pid, t: Pid, rest: set<Pid>)
    requires Leaves(w, leader, {t}, w1) && Leaves(w1, leader, rest, w2) && t !in rest
    ensures Leaves(w, leader, {t} + rest, w2)
  {
    TakenTwice(w, leader, t, rest);
    ClearedTwice(w.sched, w1.sched, t, rest);
    assert Taken(w1, leader, rest) == Taken(Taken(w, leader, {t}), leader, rest).(sched := w1.sched);
  }

  lemma ThreadsMeaning(w: World, leader: Pid)
    ensures forall q :: q in Threads(w, leader) <==> ThreadIn(w, leader, q)
  {
  }

  lemma NothingToTake(w: World, leader: Pid)
    requires Inv(w) && leader in w.sched.finished && forall q :: !ThreadIn(w, leader, q)
    ensures Threads(w, leader) == {} && Leaves(w, leader, {}, w)
  {
    ThreadsMeaning(w, leader);
    assert forall q :: q !in Threads(w, leader);
    assert Held(w.sched, leader) >= 1;
    NoThreadsTaken(w, leader);
  }

  /** What the loop comes to, without a mention of the order. */
  ghost predicate Closed(w: World, leader: Pid, w': World) {
    && Leaves(w, leader, Threads(w, leader), w')
    && (if Threads(w, leader) == {} then w' == w else Picks(w', leader))
  }

  lemma {:induction false} ExitThreadsLeaves(w: World, leader: Pid, order: seq<Pid>, r: Outcome<World>)
    requires AtExit(w, leader, order) && r == ExitThreads(w, leader, order)
    ensures r.Ok? && Closed(w, leader, r.value)
    decreases |order|
  {
    if order == [] {
      NoneListed(w, leader);
      NothingToTake(w, leader);
    } else if order[0] == leader {
      ListsTail(w, w, leader, order);
      ExitThreadsLeaves(w, leader, order[1..], r);
    } else {
      ExitThreadsHead(w, leader, order);
      DeathOfThread(w, leader, order[0]);
      var w1 := HandleNonEventExit(w, order[0]).value.0;
      ExitThreadsLeaves(w1, leader, order[1..], r);
      OneAndTheRest(w, w1, r.value, leader, order[0]);
    }
  }

  /** Whatever the order, the loop leaves the same world but for a swap that is still due. */
  lemma ExitThreadsClosed(w: World, leader: Pid, order: seq<Pid>)
    requires Inv(w) && leader in w.sched.finished
    requires Lists(w, leader, order)
    requires (exists v :: ThreadIn(w, leader, v)) ==> w.sched.next !in w.sched.finished
    ensures var r := ExitThreads(w, leader, order);
            r.Ok? && Closed(w, leader, r.value)
  {
    ExitThreadsLeaves(w, leader, order, ExitThreads(w, leader, order));
  }

  lemma OneAndTheRest(w: World, w1: World, w2: World, leader: Pid, t: Pid)
    requires ThreadIn(w, leader, t) && Leaves(w, leader, {t}, w1) && Picks(w1, leader)
    requires forall q :: ThreadIn(w1, leader, q) <==> ThreadIn(w, leader, q) && q != t
    requires Closed(w1, leader, w2)
    ensures Closed(w, leader, w2) && Threads(w, leader) != {}
  {
    ThreadsMeaning(w, leader);
    ThreadsMeaning(w1, leader);
    assert Threads(w, leader) == {t} + Threads(w1, leader);
    LeavesTwice(w, w1, w2, leader, t, Threads(w1, leader));
  }

  // ---- the order cannot be seen ----

  ghost predicate SameEvent(e1: Event, e2: Event) {
    e1 == e2 || (e1.EventExit? && e2.EventExit? && multiset(e1.order) == multiset(e2.order))
  }

  /** Both turns fail in the same check, or both succeed and leave worlds that are alike. */
  ghost predicate SameOutcome(r1: Outcome<(World, bool)>, r2: Outcome<(World, bool)>) {
    if r1.Error? then r1 == r2
    else r2.Ok? && r1.value.1 == r2.value.1 && Alike(r1.value.0, r2.value.0)
  }

  lemma LeavesAlike(w: World, leader: Pid, gone: set<Pid>, a: World, b: World)
    requires Leaves(w, leader, gone, a) && Leaves(w, leader, gone, b)
    requires Picks(a, leader) && Picks(b, leader)
    ensures Alike(a, b)
  {
    assert a.tree == b.tree;
    assert Settle(a.sched).runnable == Settle(b.sched).runnable;
    assert a.sched.next == b.sched.next;
  }

  lemma GroupExitAlike(w: World, o1: seq<Pid>, o2: seq<Pid>)
    requires Inv(w) && w.sched.next in w.states && multiset(o1) == multiset(o2) == Bag(w.groups, w.groupOf[w.sched.next])
    requires w.states[w.sched.next].exitGroup && HasPeer(w, w.sched.next)
    ensures SameOutcome(Step(w, EventExit(o1)), Step(w, EventExit(o2)))
  {
    var p := w.sched.next;
    var g := w.groupOf[p];
    CountTellsPeers(w, p);
    if g !in w.sched.finished {
      var w1 := w.(states := w.states[p := w.states[p].(exitGroup := false)]);
      FlagKeepsInv(w, p, false);
      var t := PeerThread(w, p);
      ThreadsNeverFinish(w, g, t);
      InHeapsUnlessFinished(w.sched, w.states.Keys, t);
      MarkFinishedSplit(w.sched, w.states.Keys, g);
      var s := MarkFinishedAndScheduleNext(w.sched, g).value;
      assert w1.states.Keys == w.states.Keys;
      MarkedKeepsInv(w1, g, s);
      var w2 := w1.(sched := s);
      ListsMembers(w2, g, o1);
      ListsMembers(w2, g, o2);
      BothOrders(w2, g, t, o1, o2);
    }
  }

  lemma BothOrders(w: World, g: Pid, t: Pid, o1: seq<Pid>, o2: seq<Pid>)
    requires Inv(w) && g in w.sched.finished && w.sched.next !in w.sched.finished
    requires ThreadIn(w, g, t) && Lists(w, g, o1) && Lists(w, g, o2)
    ensures ExitThreads(w, g, o1).Ok? && ExitThreads(w, g, o2).Ok?
    ensures Alike(ExitThreads(w, g, o1).value, ExitThreads(w, g, o2).value)
  {
    ExitThreadsClosed(w, g, o1);
    ExitThreadsClosed(w, g, o2);
    ThreadsMeaning(w, g);
    LeavesAlike(w, g, Threads(w, g), ExitThreads(w, g, o1).value, ExitThreads(w, g, o2).value);
  }

  /** If a swap is still due on one side, the tracee to run is a finished one. */
  lemma AlikeUnlessReaping(a: World, b: World)
    requires Inv(a) && Inv(b) && Alike(a, b)
    ensures a == b || a.sched.next in a.sched.finished
  {
  }

  lemma ReapingExit(a: World, b: World, o1: seq<Pid>, o2: seq<Pid>)
    requires Inv(a) && Inv(b) && Alike(a, b) && a.sched.next in a.sched.finished
    requires a.sched.next in a.states
    ensures SameOutcome(Step(a, EventExit(o1)), Step(b, EventExit(o2)))
  {
    var p := a.sched.next;
    CountTellsPeers(a, p);
    ChildlessLeadsNoOne(a.states.Keys, a.groupOf, a.tree, p);
  }

  /** To the scheduler, reaping a finished process settles the swap. */
  lemma ReapsAlike(s: Sched, t: Sched, p: Pid)
    requires Settle(s) == Settle(t) && p in s.finished
    ensures RemoveAndScheduleNext(s, p) == RemoveAndScheduleNext(t, p)
    ensures !InHeaps(s, p) && !InHeaps(t, p) ==>
              forall parent :: RemoveAndScheduleParent(s, p, parent) == RemoveAndScheduleParent(t, p, parent)
  {
  }

  lemma DeathAlike(a: World, b: World, p: Pid)
    requires Alike(a, b) && p in a.sched.finished && !InHeaps(a.sched, p) && !InHeaps(b.sched, p)
    ensures SameOutcome(HandleNonEventExit(a, p), HandleNonEventExit(b, p))
  {
    ReapsAlike(a.sched, b.sched, p);
    assert Forget(b, p) == if Forget(a, p).Error? then Forget(a, p) else Ok(Forget(a, p).value.(sched := b.sched));
  }

  lemma ReapingDeath(a: World, b: World)
    requires Inv(a) && Inv(b) && Alike(a, b) && a.sched.next in a.sched.finished
    requires a.sched.next in a.states
    ensures SameOutcome(HandleNonEventExit(a, a.sched.next), HandleNonEventExit(b, a.sched.next))
  {
    var p := a.sched.next;
    InHeapsUnlessFinished(a.sched, a.states.Keys, p);
    InHeapsUnlessFinished(b.sched, b.states.Keys, p);
    DeathAlike(a, b, p);
  }

  /** One turn from worlds that are alike, for the same event but for the order of an exit_group. */
  lemma StepAlike(a: World, b: World, e1: Event, e2: Event)
    requires Inv(a) && Inv(b) && Alike(a, b)
    requires Enabled(a, e1) && SameEvent(e1, e2)
    ensures Enabled(b, e2)
    ensures SameOutcome(Step(a, e1), Step(b, e2))
  {
    NextIsLive(a.sched, a.states.Keys);
    AlikeUnlessReaping(a, b);
    var p := a.sched.next;
    if a.sched.next in a.sched.finished {
      if e1.EventExit? {
        ReapingExit(a, b, e1.order, e2.order);
      } else {
        ReapingDeath(a, b);
      }
    } else if e1.EventExit? {
      if a.states[p].exitGroup && HasPeer(a, p) {
        GroupExitAlike(a, e1.order, e2.order);
      } else {
        CountTellsPeers(a, p);
      }
    }
  }

  /** The pids that run, turn by turn. */
  function Schedule(w: World, evs: seq<Event>): seq<Pid>
    decreases |evs|
  {
    [w.sched.next] +
    if evs != [] && Step(w, evs[0]).Ok? && !Step(w, evs[0]).value.1
    then Schedule(Step(w, evs[0]).value.0, evs[1..])
    else []
  }

  ghost predicate SameEvents(es1: seq<Event>, es2: seq<Event>) {
    |es1| == |es2| && forall i | 0 <= i < |es1| :: SameEvent(es1[i], es2[i])
  }

  /** The first turn of both runs: the same outcome, and the rest of both runs can go on. */
  lemma HeadAlike(a: World, b: World, e1: Event, e2: Event)
    requires Inv(a) && Inv(b) && Alike(a, b) && Enabled(a, e1) && SameEvent(e1, e2)
    ensures SameOutcome(Step(a, e1), Step(b, e2))
    ensures Step(a, e1).Ok? && !Step(a, e1).value.1 ==> Inv(Step(a, e1).value.0) && Inv(Step(b, e2).value.0)
  {
    StepAlike(a, b, e1, e2);
    StepOutcome(a, e1);
    StepOutcome(b, e2);
  }

  lemma RunHead(w: World, evs: seq<Event>)
    requires evs != []
    ensures var r := Step(w, evs[0]);
            if r.Error? then Run(w, evs) == Error(r.fault) && Schedule(w, evs) == [w.sched.next]
            else if r.value.1 then Run(w, evs) == Ok((r.value.0, true)) && Schedule(w, evs) == [w.sched.next]
            else Run(w, evs) == Run(r.value.0, evs[1..]) && Schedule(w, evs) == [w.sched.next] + Schedule(r.value.0, evs[1..])
  {
  }

  /** Two runs that differ only in the orders in which exit_group finds the threads schedule the
      same pids throughout, fail in the same check if they fail, and end alike. */
  lemma {:induction false} ExitOrderIsInvisible(a: World, b: World, es1: seq<Event>, es2: seq<Event>)
    requires Inv(a) && Inv(b) && Alike(a, b)
    requires Allowed(a, es1) && SameEvents(es1, es2)
    ensures Schedule(a, es1) == Schedule(b, es2)
    ensures SameOutcome(Run(a, es1), Run(b, es2))
    decreases |es1|
  {
    if es1 != [] {
      HeadAlike(a, b, es1[0], es2[0]);
      RunHead(a, es1);
      RunHead(b, es2);
      if Step(a, es1[0]).Ok? && !Step(a, es1[0]).value.1 {
        ExitOrderIsInvisible(Step(a, es1[0]).value.0, Step(b, es2[0]).value.0, es1[1..], es2[1..]);
      }
    }
  }
}
