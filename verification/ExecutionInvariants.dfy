/** What every turn of the event loop keeps, exactly when a turn fails, and how a run ends. */
module ExecutionInvariants {
  import opened Outcomes
  import opened Scheduling
  import opened Execution

  // ---- the invariant ----

  /** Every live tracee has a live leader; entries of dead processes stay in threadGroupNumber. */
  ghost predicate LeadersOk(live: set<Pid>, groupOf: map<Pid, Pid>) {
    && (forall p | p in live :: p > 0 && p in groupOf && groupOf[p] in live)
    && (forall p | p in live :: groupOf[groupOf[p]] == groupOf[p])
  }

  /** threadGroups is the inverse of threadGroupNumber on the live tracees, without repeats. */
  ghost predicate BagsOk(live: set<Pid>, groupOf: map<Pid, Pid>, groups: map<Pid, multiset<Pid>>)
    requires LeadersOk(live, groupOf)
  {
    && (forall k | k in groups :: groups[k] != multiset{})
    && (forall k, v {:trigger Bag(groups, k)[v]} :: Bag(groups, k)[v] == if v in live && groupOf[v] == k then 1 else 0)
  }

  ghost predicate DistinctChildren(tree: seq<Edge>) {
    forall i, j | 0 <= i < j < |tree| :: tree[i].child != tree[j].child
  }

  /** Parents are live group leaders, older than their children; a thread's parent is its leader. */
  ghost predicate TreeOk(live: set<Pid>, groupOf: map<Pid, Pid>, tree: seq<Edge>)
    requires LeadersOk(live, groupOf)
  {
    && DistinctChildren(tree)
    && (forall e | e in tree ::
          && e.parent in live && e.child in live
          && groupOf[e.parent] == e.parent && e.parent < e.child
          && (groupOf[e.child] == e.child || groupOf[e.child] == e.parent))
    && (forall t | t in live && groupOf[t] != t :: Edge(groupOf[t], t) in tree)
  }

  /** Only a leader is ever finished, and it waits for a child or is about to be reaped. */
  ghost predicate FinishedOk(s: Sched, groupOf: map<Pid, Pid>, tree: seq<Edge>) {
    forall f | f in s.finished ::
      f in groupOf && groupOf[f] == f && (HasChild(tree, f) || f == s.next)
  }

  /** The pid to run is the greatest runnable one, or a finished process with no children. */
  ghost predicate NextOk(s: Sched, tree: seq<Edge>) {
    if s.next in s.finished then !HasChild(tree, s.next) else IsTop(s.runnable, s.next)
  }

  /** Two tracees hold the same descriptor table exactly when they are in one thread group. */
  ghost predicate TablesOk(states: map<Pid, Tracee>, groupOf: map<Pid, Pid>, tables: seq<FdTable>)
    requires LeadersOk(states.Keys, groupOf)
  {
    && (forall p | p in states :: states[p].fds < |tables|)
    && (forall p, q | p in states && q in states ::
          states[p].fds == states[q].fds <==> groupOf[p] == groupOf[q])
  }

  ghost predicate Inv(w: World) {
    var live := w.states.Keys;
    && Partition(w.sched, live)
    && LeadersOk(live, w.groupOf)
    && BagsOk(live, w.groupOf, w.groups)
    && w.threads == (set p | p in live && w.groupOf[p] != p)
    && TreeOk(live, w.groupOf, w.tree)
    && FinishedOk(w.sched, w.groupOf, w.tree)
    && NextOk(w.sched, w.tree)
    && TablesOk(w.states, w.groupOf, w.tables)
  }

  /** Nothing is left behind but threadGroupNumber's stale entries. */
  ghost predicate Clean(w: World) {
    && w.states == map[] && w.tree == [] && w.groups == map[] && w.threads == {}
    && w.sched.finished == {} && HeapsEmpty(w.sched)
  }

  // ---- the environment ----

  /** A pid the kernel may hand out: above every live pid, and never a process before. */
  predicate Fresh(w: World, c: Pid) {
    c > 0 && c !in w.groupOf && forall p | p in w.states :: p < c
  }

  /** A finished tracee is stopped in its exit, so it makes no more system calls; a tracee
      killed by a signal has no children left. */
  predicate Enabled(w: World, ev: Event) {
    var p := w.sched.next;
    match ev
    case Fork(c) => p !in w.sched.finished && Fresh(w, c)
    case Clone(c) => p !in w.sched.finished && Fresh(w, c)
    case Exec => p !in w.sched.finished
    case Preempt => p !in w.sched.finished
    case CallExitGroup => p !in w.sched.finished
    case SetFd(_, _) => p !in w.sched.finished
    case EventExit(order) => p in w.groupOf && multiset(order) == Bag(w.groups, w.groupOf[p])
    case NonEventExit => true
    case TerminatedBySignal => !HasChild(w.tree, p)
  }

  // ---- the tree's two operations ----

  lemma EraseChildEffect(tree: seq<Edge>, p: Pid)
    requires DistinctChildren(tree)
    ensures var (rest, parent) := EraseChild(tree, p);
            && DistinctChildren(rest)
            && (forall e :: e in rest <==> e in tree && e.child != p)
            && (parent == -1 || Edge(parent, p) in tree)
            && (parent == -1 ==> forall e | e in tree :: e.child == p ==> e.parent == -1)
  {
    var i := FindChild(tree, p);
    if i < |tree| {
      var rest := tree[..i] + tree[i + 1..];
      assert tree == tree[..i] + [tree[i]] + tree[i + 1..];
      assert forall j | 0 <= j < |rest| :: rest[j] == if j < i then tree[j] else tree[j + 1];
    }
  }

  lemma InsertChildMembers(tree: seq<Edge>, parent: Pid, child: Pid)
    ensures forall e :: e in InsertChild(tree, parent, child) <==> e in tree || e == Edge(parent, child)
  {
    var i := UpperBound(tree, parent);
    assert tree == tree[..i] + tree[i..];
  }

  lemma InsertChildEffect(tree: seq<Edge>, parent: Pid, child: Pid)
    requires DistinctChildren(tree)
    requires forall e | e in tree :: e.child != child
    ensures DistinctChildren(InsertChild(tree, parent, child))
    ensures forall e :: e in InsertChild(tree, parent, child) <==> e in tree || e == Edge(parent, child)
  {
    InsertChildMembers(tree, parent, child);
    var i := UpperBound(tree, parent);
    var t := InsertChild(tree, parent, child);
    forall j, k | 0 <= j < k < |t|
      ensures t[j].child != t[k].child
    {
      assert j != i ==> t[j] == tree[if j < i then j else j - 1];
      assert k != i ==> t[k] == tree[if k < i then k else k - 1];
    }
  }

  // ---- why something can always run ----

  lemma Greatest(s: set<Pid>) returns (m: Pid)
    requires s != {}
    ensures m in s && forall x | x in s :: x <= m
  {
    var h := multiset(s);
    assert forall x :: x in s <==> x in h;
    assert h == multiset{} ==> s == {};
    m := Top(h);
  }

  lemma NoGreatest(s: set<Pid>)
    requires forall x | x in s :: exists y :: y in s && x < y
    ensures s == {}
  {
    if s != {} {
      var m := Greatest(s);
      assert false;
    }
  }

  /** If everything alive is finished and everything finished waits for a child, nothing is alive. */
  lemma AllFinishedMeansNone(s: Sched, live: set<Pid>, groupOf: map<Pid, Pid>, tree: seq<Edge>)
    requires Partition(s, live) && LeadersOk(live, groupOf) && TreeOk(live, groupOf, tree)
    requires HeapsEmpty(s)
    requires forall f | f in s.finished :: HasChild(tree, f)
    ensures live == {} && s.finished == {}
  {
    forall x | x in s.finished
      ensures exists y :: y in s.finished && x < y
    {
      var e :| e in tree && e.parent == x;
      assert Held(s, e.child) == 1;
    }
    NoGreatest(s.finished);
    assert forall p :: p in live ==> Held(s, p) == 1;
    assert forall p :: p !in live;
  }

  // ---- a tracee dies ----

  /** The one death the source cannot handle: the tracee was marked finished, so it is in no heap,
      and it is the last child of a parent that was marked finished too. */
  ghost predicate ChainedFinish(w: World, p: Pid) {
    && p in w.sched.finished
    && exists q :: OnlyChild(w.tree, q, p) && q in w.sched.finished
  }

  ghost predicate OnlyChild(tree: seq<Edge>, q: Pid, p: Pid) {
    Edge(q, p) in tree && forall e | e in tree && e.parent == q :: e.child == p
  }

  lemma DeleteEntryEffect(groups: map<Pid, multiset<Pid>>, k: Pid, v: Pid)
    requires forall j | j in groups :: groups[j] != multiset{}
    requires v in Bag(groups, k)
    ensures var r := DeleteEntry(groups, k, v);
            && r.Ok?
            && (forall j | j in r.value :: r.value[j] != multiset{})
            && (forall j | j != k :: Bag(r.value, j) == Bag(groups, j))
            && Bag(r.value, k) == Bag(groups, k) - multiset{v}
  {
  }

  /** A tracee without children leads no one but itself. */
  lemma ChildlessLeadsNoOne(live: set<Pid>, groupOf: map<Pid, Pid>, tree: seq<Edge>, p: Pid)
    requires LeadersOk(live, groupOf) && TreeOk(live, groupOf, tree)
    requires !HasChild(tree, p)
    ensures forall q | q in live && groupOf[q] == p :: q == p
  {
    assert forall q | q in live && groupOf[q] == p && q != p :: Edge(p, q) in tree;
  }

  /** Forgetting a childless tracee keeps everything but the scheduler's part. */
  lemma ForgetLeaders(w: World, p: Pid)
    requires LeadersOk(w.states.Keys, w.groupOf) && TreeOk(w.states.Keys, w.groupOf, w.tree)
    requires p in w.states && !HasChild(w.tree, p)
    ensures LeadersOk(w.states.Keys - {p}, if p in w.threads then w.groupOf - {p} else w.groupOf)
  {
    ChildlessLeadsNoOne(w.states.Keys, w.groupOf, w.tree, p);
  }

  lemma ForgetBags(w: World, p: Pid)
    requires LeadersOk(w.states.Keys, w.groupOf)
    requires BagsOk(w.states.Keys, w.groupOf, w.groups)
    requires p in w.states
    ensures Forget(w, p).Ok?
    ensures var w1 := Forget(w, p).value;
            LeadersOk(w1.states.Keys, w1.groupOf) ==> BagsOk(w1.states.Keys, w1.groupOf, w1.groups)
  {
    var g := w.groupOf[p];
    assert Bag(w.groups, g)[p] == 1;
    DeleteEntryEffect(w.groups, g, p);
  }

  lemma ForgetTree(w: World, p: Pid)
    requires LeadersOk(w.states.Keys, w.groupOf) && TreeOk(w.states.Keys, w.groupOf, w.tree)
    requires p in w.states && !HasChild(w.tree, p)
    requires Forget(w, p).Ok?
    ensures var w1 := Forget(w, p).value;
            && (forall e :: e in w1.tree <==> e in w.tree && e.child != p)
            && (LeadersOk(w1.states.Keys, w1.groupOf) ==> TreeOk(w1.states.Keys, w1.groupOf, w1.tree))
  {
    EraseChildEffect(w.tree, p);
  }

  /** Everything but the scheduler's part of the invariant, after a childless tracee is forgotten. */
  lemma ForgetKeeps(w: World, p: Pid)
    requires Inv(w) && p in w.states && !HasChild(w.tree, p)
    ensures Forget(w, p).Ok?
    ensures var w1 := Forget(w, p).value;
            && w1.states == w.states - {p} && w1.states.Keys == w.states.Keys - {p}
            && w1.sched == w.sched
            && LeadersOk(w1.states.Keys, w1.groupOf)
            && BagsOk(w1.states.Keys, w1.groupOf, w1.groups)
            && w1.threads == (set q | q in w1.states.Keys && w1.groupOf[q] != q)
            && TreeOk(w1.states.Keys, w1.groupOf, w1.tree)
            && TablesOk(w1.states, w1.groupOf, w1.tables)
            && (forall q | q in w1.states :: w1.groupOf[q] == w.groupOf[q])
            && (forall e :: e in w1.tree <==> e in w.tree && e.child != p)
  {
    ForgetBags(w, p);
    var w1 := Forget(w, p).value;
    assert w1.states.Keys == w.states.Keys - {p};
    ForgetLeaders(w, p);
    ForgetTree(w, p);
  }

  /** The parent that eraseChildEntry reports is the tree's only entry for `p`. */
  lemma ParentFound(live: set<Pid>, groupOf: map<Pid, Pid>, tree: seq<Edge>, p: Pid)
    requires LeadersOk(live, groupOf) && TreeOk(live, groupOf, tree)
    ensures var parent := EraseChild(tree, p).1;
            if parent == -1 then forall e | e in tree :: e.child != p
            else Edge(parent, p) in tree && forall e | e in tree && e.child == p :: e.parent == parent
  {
    EraseChildEffect(tree, p);
  }

  /** handleNonEventExit's test: a finished parent has just lost its last child. */
  ghost predicate FreesParent(w: World, p: Pid) {
    var (rest, parent) := EraseChild(w.tree, p);
    parent != -1 && parent in w.sched.finished && !HasChild(rest, parent)
  }

  lemma FreesParentMeaning(w: World, p: Pid)
    requires LeadersOk(w.states.Keys, w.groupOf) && TreeOk(w.states.Keys, w.groupOf, w.tree)
    ensures FreesParent(w, p) <==> exists q :: OnlyChild(w.tree, q, p) && q in w.sched.finished
    ensures FreesParent(w, p) ==> OnlyChild(w.tree, EraseChild(w.tree, p).1, p)
  {
    EraseChildEffect(w.tree, p);
    ParentFound(w.states.Keys, w.groupOf, w.tree, p);
    var (rest, parent) := EraseChild(w.tree, p);
    if FreesParent(w, p) {
      assert OnlyChild(w.tree, parent, p);
    }
    forall q | OnlyChild(w.tree, q, p) && q in w.sched.finished
      ensures FreesParent(w, p)
    {
      assert Edge(q, p) in w.tree;
    }
  }

  /** Which finished processes still wait for a child once `p` is gone. */
  lemma StillWaiting(w: World, p: Pid, f: Pid)
    requires Inv(w)
    requires p == w.sched.next || (p !in w.sched.finished && w.sched.next !in w.sched.finished)
    requires f in w.sched.finished && f != p
    ensures HasChild(EraseChild(w.tree, p).0, f) || (FreesParent(w, p) && f == EraseChild(w.tree, p).1)
  {
    EraseChildEffect(w.tree, p);
    ParentFound(w.states.Keys, w.groupOf, w.tree, p);
    assert HasChild(w.tree, f);
    var e :| e in w.tree && e.parent == f;
    if e.child != p {
      assert e in EraseChild(w.tree, p).0;
    }
  }

  /** What the death of `p` leaves of the others. */
  ghost predicate Survivors(w: World, p: Pid, w': World) {
    && w'.states == w.states - {p}
    && w'.sched.finished == w.sched.finished - {p}
    && (forall q | q in w'.states && q in w.groupOf :: q in w'.groupOf && w'.groupOf[q] == w.groupOf[q])
    && (forall e :: e in w'.tree <==> e in w.tree && e.child != p)
  }

  lemma DeathSchedulesParent(w: World, p: Pid)
    requires Inv(w) && p in w.states && !HasChild(w.tree, p)
    requires p == w.sched.next || (p !in w.sched.finished && w.sched.next !in w.sched.finished)
    requires FreesParent(w, p)
    ensures var r := HandleNonEventExit(w, p);
            && (r.Error? <==> p in w.sched.finished)
            && (r.Ok? ==>
                  && !r.value.1 && Inv(r.value.0) && Survivors(w, p, r.value.0)
                  && r.value.0.sched.next == EraseChild(w.tree, p).1)
  {
    ForgetKeeps(w, p);
    var (rest, parent) := EraseChild(w.tree, p);
    RemoveAndScheduleParentSplit(w.sched, w.states.Keys, p, parent);
    if p !in w.sched.finished {
      var w' := HandleNonEventExit(w, p).value.0;
      assert w'.tree == rest;
      forall f | f in w'.sched.finished
        ensures f in w'.groupOf && w'.groupOf[f] == f && (HasChild(w'.tree, f) || f == w'.sched.next)
      {
        assert Held(w'.sched, f) >= 1;
        StillWaiting(w, p, f);
      }
    }
  }

  lemma DeathSchedulesNext(w: World, p: Pid)
    requires Inv(w) && p in w.states && !HasChild(w.tree, p)
    requires p == w.sched.next || (p !in w.sched.finished && w.sched.next !in w.sched.finished)
    requires !FreesParent(w, p)
    ensures var r := HandleNonEventExit(w, p);
            && r.Ok?
            && Survivors(w, p, r.value.0)
            && (r.value.1 <==> r.value.0.states == map[])
            && (if r.value.1 then Clean(r.value.0) else Inv(r.value.0))
            && (!r.value.1 ==> r.value.0.sched.next !in r.value.0.sched.finished)
  {
    ForgetKeeps(w, p);
    RemoveAndScheduleNextSplit(w.sched, w.states.Keys, p);
    var (w', done) := HandleNonEventExit(w, p).value;
    forall f | f in w'.sched.finished
      ensures f in w'.groupOf && w'.groupOf[f] == f && HasChild(w'.tree, f)
    {
      assert Held(w'.sched, f) >= 1;
      StillWaiting(w, p, f);
    }
    if done {
      AllFinishedMeansNone(w'.sched, w'.states.Keys, w'.groupOf, w'.tree);
      assert forall q :: q !in w'.threads;
      NothingLeft(w');
    } else {
      assert Held(w'.sched, w'.sched.next) == 1;
    }
  }

  lemma EmptyOrSomeEdge(tree: seq<Edge>)
    ensures tree == [] || exists e :: e in tree
  {
    if tree != [] {
      assert tree[0] in tree;
    }
  }

  lemma NothingLeft(w: World)
    requires w.states.Keys == {} && w.sched.finished == {} && HeapsEmpty(w.sched)
    requires LeadersOk(w.states.Keys, w.groupOf)
    requires BagsOk(w.states.Keys, w.groupOf, w.groups)
    requires TreeOk(w.states.Keys, w.groupOf, w.tree)
    requires w.threads == {}
    ensures Clean(w)
  {
    forall k ensures k !in w.groups.Keys {
      assert forall v :: Bag(w.groups, k)[v] == 0;
      assert Bag(w.groups, k) == multiset{};
    }
    assert w.groups.Keys == {};
    EmptyOrSomeEdge(w.tree);
  }

  /** A death is handled unless it is the chained one, and then keeps the invariant; it ends the
      run exactly when it was the last tracee's, and then nothing is left over. */
  lemma DeathOutcome(w: World, p: Pid)
    requires Inv(w) && p in w.states && !HasChild(w.tree, p)
    requires p == w.sched.next || (p !in w.sched.finished && w.sched.next !in w.sched.finished)
    ensures var r := HandleNonEventExit(w, p);
            && (r.Error? <==> ChainedFinish(w, p))
            && (r.Ok? ==>
                  && Survivors(w, p, r.value.0)
                  && (r.value.1 <==> r.value.0.states == map[])
                  && (if r.value.1 then Clean(r.value.0) else Inv(r.value.0))
                  && (!r.value.1 && r.value.0.sched.next in r.value.0.sched.finished ==>
                        OnlyChild(w.tree, r.value.0.sched.next, p)))
  {
    FreesParentMeaning(w, p);
    if FreesParent(w, p) {
      DeathSchedulesParent(w, p);
      assert w.states.Keys - {p} == (w.states - {p}).Keys;
      ParentFound(w.states.Keys, w.groupOf, w.tree, p);
    } else {
      DeathSchedulesNext(w, p);
    }
  }

  // ---- a tracee is born ----

  lemma ForkLeaders(live: set<Pid>, groupOf: map<Pid, Pid>, c: Pid, g: Pid)
    requires LeadersOk(live, groupOf) && c !in groupOf && c > 0
    requires g == c || (g in live && groupOf[g] == g)
    ensures LeadersOk(live + {c}, groupOf[c := g])
  {
  }

  lemma ForkBags(live: set<Pid>, groupOf: map<Pid, Pid>, groups: map<Pid, multiset<Pid>>, c: Pid, g: Pid)
    requires LeadersOk(live, groupOf) && BagsOk(live, groupOf, groups)
    requires c !in groupOf && LeadersOk(live + {c}, groupOf[c := g])
    ensures |Bag(groups, c)| == 0
    ensures BagsOk(live + {c}, groupOf[c := g], AddEntry(groups, g, c))
  {
    assert forall v :: Bag(groups, c)[v] == 0;
    assert Bag(groups, c) == multiset{};
    var groups' := AddEntry(groups, g, c);
    forall k, v
      ensures Bag(groups', k)[v] == if v in live + {c} && groupOf[c := g][v] == k then 1 else 0
    {
      AddedCount(groups, g, c, k, v);
      assert Bag(groups, k)[v] == if v in live && groupOf[v] == k then 1 else 0;
    }
    AddedCount(groups, g, c, g, c);
  }

  lemma AddedCount(groups: map<Pid, multiset<Pid>>, g: Pid, c: Pid, k: Pid, v: Pid)
    ensures Bag(AddEntry(groups, g, c), k)[v] == Bag(groups, k)[v] + if k == g && v == c then 1 else 0
  {
  }

  lemma ForkTree(live: set<Pid>, groupOf: map<Pid, Pid>, tree: seq<Edge>, leader: Pid, c: Pid, g: Pid)
    requires LeadersOk(live, groupOf) && TreeOk(live, groupOf, tree)
    requires c !in groupOf && (forall p | p in live :: p < c)
    requires leader in live && groupOf[leader] == leader && (g == c || g == leader)
    requires LeadersOk(live + {c}, groupOf[c := g])
    ensures TreeOk(live + {c}, groupOf[c := g], InsertChild(tree, leader, c))
    ensures forall e :: e in InsertChild(tree, leader, c) <==> e in tree || e == Edge(leader, c)
  {
    InsertChildEffect(tree, leader, c);
  }

  lemma ForkTables(w: World, p: Pid, c: Pid, g: Pid, isThread: bool)
    requires LeadersOk(w.states.Keys, w.groupOf) && TablesOk(w.states, w.groupOf, w.tables)
    requires p in w.states && c !in w.states && c !in w.groupOf
    requires g == (if isThread then w.groupOf[p] else c)
    requires LeadersOk(w.states.Keys + {c}, w.groupOf[c := g])
    ensures var (w1, tracee) := Child(w, p, isThread);
            w.states[c := tracee].Keys == w.states.Keys + {c} && TablesOk(w.states[c := tracee], w.groupOf[c := g], w1.tables)
  {
    var (w1, tracee) := Child(w, p, isThread);
    assert w.states[c := tracee].Keys == w.states.Keys + {c};
  }

  lemma ForkSched(s: Sched, live: set<Pid>, c: Pid)
    requires Partition(s, live) && (forall p | p in live :: p < c)
    ensures var s' := AddAndScheduleNext(s, c);
            Partition(s', live + {c}) && s'.finished == s.finished && c !in s'.finished && IsTop(s'.runnable, c)
  {
    var s' := AddAndScheduleNext(s, c);
    assert c !in live;
    assert Held(s, c) == 0;
    forall x | x in s'.runnable ensures x <= c {
      assert x != c ==> Held(s, x) >= 1;
    }
  }

  lemma ForkFinished(s: Sched, groupOf: map<Pid, Pid>, tree: seq<Edge>, leader: Pid, c: Pid, g: Pid)
    requires FinishedOk(s, groupOf, tree) && s.next !in s.finished && c !in groupOf
    requires forall e :: e in InsertChild(tree, leader, c) <==> e in tree || e == Edge(leader, c)
    ensures FinishedOk(AddAndScheduleNext(s, c), groupOf[c := g], InsertChild(tree, leader, c))
  {
    forall f | f in s.finished
      ensures HasChild(InsertChild(tree, leader, c), f)
    {
      var e :| e in tree && e.parent == f;
      assert e in InsertChild(tree, leader, c);
    }
  }

  /** What handleForkEvent leaves when the child's pid is fresh. */
  function Forked(w: World, c: Pid, isThread: bool): World
    requires w.sched.next in w.states && w.sched.next in w.groupOf
  {
    var p := w.sched.next;
    var leader := w.groupOf[p];
    var g := if isThread then leader else c;
    var (w1, tracee) := Child(w, p, isThread);
    World(
      AddAndScheduleNext(w.sched, c), w.states[c := tracee], InsertChild(w.tree, leader, c),
      AddEntry(w.groups, g, c), w.groupOf[c := g],
      if isThread then w.threads + {c} else w.threads, w1.tables)
  }

  /** The scheduler's half of the invariant, after a birth. */
  lemma ForkScheduling(s: Sched, live: set<Pid>, groupOf: map<Pid, Pid>, tree: seq<Edge>, leader: Pid, c: Pid, g: Pid)
    requires Partition(s, live) && FinishedOk(s, groupOf, tree) && s.next !in s.finished
    requires c !in groupOf && (forall p | p in live :: p < c)
    requires forall e :: e in InsertChild(tree, leader, c) <==> e in tree || e == Edge(leader, c)
    ensures var s', tree' := AddAndScheduleNext(s, c), InsertChild(tree, leader, c);
            Partition(s', live + {c}) && FinishedOk(s', groupOf[c := g], tree') && NextOk(s', tree')
  {
    ForkSched(s, live, c);
    ForkFinished(s, groupOf, tree, leader, c, g);
  }

  /** The groups' and the tree's half of the invariant, after a birth. */
  lemma ForkGroups(live: set<Pid>, groupOf: map<Pid, Pid>, groups: map<Pid, multiset<Pid>>, tree: seq<Edge>, leader: Pid, c: Pid, g: Pid)
    requires LeadersOk(live, groupOf) && BagsOk(live, groupOf, groups) && TreeOk(live, groupOf, tree)
    requires c > 0 && c !in groupOf && (forall p | p in live :: p < c)
    requires leader in live && groupOf[leader] == leader && (g == c || g == leader)
    ensures |Bag(groups, c)| == 0
    ensures LeadersOk(live + {c}, groupOf[c := g])
    ensures BagsOk(live + {c}, groupOf[c := g], AddEntry(groups, g, c))
    ensures TreeOk(live + {c}, groupOf[c := g], InsertChild(tree, leader, c))
    ensures forall e :: e in InsertChild(tree, leader, c) <==> e in tree || e == Edge(leader, c)
  {
    ForkLeaders(live, groupOf, c, g);
    ForkBags(live, groupOf, groups, c, g);
    ForkTree(live, groupOf, tree, leader, c, g);
  }

  lemma ForkThreads(live: set<Pid>, groupOf: map<Pid, Pid>, c: Pid, g: Pid)
    requires (forall p | p in live :: p in groupOf) && c !in live && c !in groupOf
    ensures (set p | p in live + {c} && groupOf[c := g][p] != p) ==
            (set p | p in live && groupOf[p] != p) + (if g != c then {c} else {})
  {
  }

  lemma ForkedKeepsInv(w: World, c: Pid, isThread: bool)
    requires Inv(w) && Fresh(w, c) && w.sched.next !in w.sched.finished
    requires w.sched.next in w.states
    ensures |Bag(w.groups, c)| == 0
    ensures Inv(Forked(w, c, isThread))
  {
    var p := w.sched.next;
    var live := w.states.Keys;
    var leader := w.groupOf[p];
    var g := if isThread then leader else c;
    ForkGroups(live, w.groupOf, w.groups, w.tree, leader, c, g);
    ForkScheduling(w.sched, live, w.groupOf, w.tree, leader, c, g);
    ForkTables(w, p, c, g, isThread);
    ForkThreads(live, w.groupOf, c, g);
  }

  /** A fork or clone always succeeds, schedules the child, and keeps the invariant. */
  lemma ForkOutcome(w: World, c: Pid, isThread: bool)
    requires Inv(w) && Fresh(w, c) && w.sched.next !in w.sched.finished
    ensures var r := HandleFork(w, w.sched.next, c, isThread);
            r.Ok? && Inv(r.value) && r.value.sched.next == c
  {
    NextIsLive(w.sched, w.states.Keys);
    ForkedKeepsInv(w, c, isThread);
    assert c !in w.states;
    assert HandleFork(w, w.sched.next, c, isThread) == Ok(Forked(w, c, isThread));
  }

  // ---- exec, preemption and the flag ----

  lemma LoneMember(bag: multiset<Pid>, g: Pid)
    requires bag[g] == 1
    ensures |bag| == 1 <==> bag == multiset{g}
  {
    assert bag == multiset{g} + (bag - multiset{g});
  }

  /** Whether the tracee's thread group has another live member. */
  ghost predicate HasPeer(w: World, p: Pid)
    requires p in w.groupOf
  {
    exists q :: q in w.states && q in w.groupOf && q != p && w.groupOf[q] == w.groupOf[p]
  }

  lemma CountTellsPeers(w: World, p: Pid)
    requires Inv(w) && p in w.states
    ensures |Bag(w.groups, w.groupOf[p])| != 1 <==> HasPeer(w, p)
  {
    var bag := Bag(w.groups, w.groupOf[p]);
    assert bag[p] == 1;
    LoneMember(bag, p);
    if !HasPeer(w, p) {
      assert forall v :: bag[v] == multiset{p}[v];
    } else {
      var q :| q in w.states && q in w.groupOf && q != p && w.groupOf[q] == w.groupOf[p];
      assert bag[q] == 1;
    }
  }

  lemma ExecOutcome(w: World)
    requires Inv(w) && w.sched.next !in w.sched.finished
    ensures w.sched.next in w.states
    ensures var p, r := w.sched.next, HandleExec(w, w.sched.next);
            && (r.Error? <==> HasPeer(w, p))
            && (r.Ok? ==> Inv(r.value) && r.value.sched == w.sched)
  {
    var p := w.sched.next;
    NextIsLive(w.sched, w.states.Keys);
    CountTellsPeers(w, p);
    if !HasPeer(w, p) {
      var w' := HandleExec(w, p).value;
      assert w'.states.Keys == w.states.Keys;
    }
  }

  lemma PreemptOutcome(w: World)
    requires Inv(w) && w.sched.next !in w.sched.finished
    ensures var r := PreemptAndScheduleNext(w.sched);
            r.Ok? && Inv(w.(sched := r.value))
  {
    PreemptSplit(w.sched, w.states.Keys);
    var s := PreemptAndScheduleNext(w.sched).value;
    assert Held(s, s.next) == 1;
  }

  lemma FlagKeepsInv(w: World, p: Pid, flag: bool)
    requires Inv(w) && p in w.states
    ensures Inv(w.(states := w.states[p := w.states[p].(exitGroup := flag)]))
  {
    var states := w.states[p := w.states[p].(exitGroup := flag)];
    assert states.Keys == w.states.Keys;
    assert TablesOk(states, w.groupOf, w.tables);
  }

  lemma SetFdOutcome(w: World, p: Pid, fd: int, kind: Descriptor)
    requires Inv(w) && p in w.states
    ensures var r := SetFdStatus(w, p, fd, kind);
            r.Ok? && Inv(r.value) && r.value.states == w.states
  {
  }

  // ---- exit_group ----

  ghost predicate ThreadIn(w: World, leader: Pid, t: Pid) {
    t != leader && t in w.states && t in w.groupOf && w.groupOf[t] == leader
  }

  lemma ThreadsNeverFinish(w: World, leader: Pid, t: Pid)
    requires Inv(w) && ThreadIn(w, leader, t)
    ensures t !in w.sched.finished && !HasChild(w.tree, t) && Edge(leader, t) in w.tree
  {
  }

  /** The members still to be taken through their exit. */
  ghost predicate Lists(w: World, leader: Pid, order: seq<Pid>) {
    forall v | v != leader :: multiset(order)[v] == if ThreadIn(w, leader, v) then 1 else 0
  }

  lemma ListsTail(w: World, w': World, leader: Pid, order: seq<Pid>)
    requires order != [] && Lists(w, leader, order)
    requires order[0] == leader ==> w' == w
    requires order[0] != leader ==> Survivors(w, order[0], w')
    requires forall q | q in w.states :: q in w.groupOf
    ensures Lists(w', leader, order[1..])
    ensures forall q :: ThreadIn(w', leader, q) <==> ThreadIn(w, leader, q) && q != order[0]
  {
    assert order == [order[0]] + order[1..];
    assert multiset(order) == multiset{order[0]} + multiset(order[1..]);
    assert order[0] != leader ==> multiset(order)[order[0]] == 1;
    forall v | v != leader
      ensures multiset(order[1..])[v] == if ThreadIn(w', leader, v) then 1 else 0
    {
      assert multiset(order)[v] == if ThreadIn(w, leader, v) then 1 else 0;
    }
  }

  lemma ExitOneThread(w: World, leader: Pid, t: Pid)
    requires Inv(w) && leader in w.sched.finished && w.sched.next !in w.sched.finished
    requires ThreadIn(w, leader, t)
    ensures var r := HandleNonEventExit(w, t);
            && r.Ok? && !r.value.1
            && Inv(r.value.0) && Survivors(w, t, r.value.0)
            && leader in r.value.0.sched.finished
  {
    ThreadsNeverFinish(w, leader, t);
    DeathOutcome(w, t);
    assert leader in w.states.Keys by {
      assert Held(w.sched, leader) >= 1;
    }
  }

  /** While threads are left, the leader is not the one to run. */
  lemma LeaderWaits(w: World, leader: Pid, t: Pid)
    requires Inv(w) && leader in w.sched.finished && w.sched.next !in w.sched.finished
    requires ThreadIn(w, leader, t)
    ensures var r := HandleNonEventExit(w, t);
            r.Ok? ==>
            (exists v :: ThreadIn(r.value.0, leader, v)) ==> r.value.0.sched.next !in r.value.0.sched.finished
  {
    ExitOneThread(w, leader, t);
    ThreadsNeverFinish(w, leader, t);
    DeathOutcome(w, t);
    var w' := HandleNonEventExit(w, t).value.0;
    forall v | ThreadIn(w', leader, v)
      ensures w'.sched.next !in w'.sched.finished
    {
      ThreadsNeverFinish(w', leader, v);
      assert Edge(leader, v) in w.tree;
    }
  }

  /** What the loop needs of the world it starts from. */
  ghost predicate AtExit(w: World, leader: Pid, order: seq<Pid>) {
    && Inv(w) && leader in w.sched.finished && Lists(w, leader, order)
    && ((exists v :: ThreadIn(w, leader, v)) ==> w.sched.next !in w.sched.finished)
  }

  lemma ListedThread(w: World, leader: Pid, order: seq<Pid>)
    requires Lists(w, leader, order) && order != [] && order[0] != leader
    ensures ThreadIn(w, leader, order[0])
  {
    assert order[0] in multiset(order);
  }

  lemma NoneListed(w: World, leader: Pid)
    requires Lists(w, leader, [])
    ensures forall q :: !ThreadIn(w, leader, q)
  {
    assert forall q :: ThreadIn(w, leader, q) ==> multiset([])[q] == 1;
  }

  /** One turn of the loop: the thread goes, and the loop can go on. */
  lemma ExitThreadsHead(w: World, leader: Pid, order: seq<Pid>)
    requires AtExit(w, leader, order) && order != [] && order[0] != leader
    ensures ThreadIn(w, leader, order[0]) && w.sched.next !in w.sched.finished
    ensures var r := HandleNonEventExit(w, order[0]);
            && r.Ok? && AtExit(r.value.0, leader, order[1..])
            && r.value.0.sched.finished == w.sched.finished
            && Survivors(w, order[0], r.value.0)
            && (forall q :: ThreadIn(r.value.0, leader, q) <==> ThreadIn(w, leader, q) && q != order[0])
  {
    ListedThread(w, leader, order);
    ExitOneThread(w, leader, order[0]);
    LeaderWaits(w, leader, order[0]);
    ThreadsNeverFinish(w, leader, order[0]);
    ListsTail(w, HandleNonEventExit(w, order[0]).value.0, leader, order);
  }

  /** From any order in which the container yields the members, the loop runs through, takes
      exactly the leader's threads, and keeps the invariant. */
  lemma {:induction false} ExitThreadsOutcome(w: World, leader: Pid, order: seq<Pid>)
    requires Inv(w) && leader in w.sched.finished
    requires Lists(w, leader, order)
    requires (exists v :: ThreadIn(w, leader, v)) ==> w.sched.next !in w.sched.finished
    ensures var r := ExitThreads(w, leader, order);
            && r.Ok? && Inv(r.value)
            && r.value.sched.finished == w.sched.finished
            && (forall q :: q in r.value.states <==> q in w.states && !ThreadIn(w, leader, q))
    decreases |order|
  {
    if order == [] {
      NoneListed(w, leader);
    } else if order[0] == leader {
      ListsTail(w, w, leader, order);
      ExitThreadsOutcome(w, leader, order[1..]);
    } else {
      ExitThreadsHead(w, leader, order);
      ExitThreadsOutcome(HandleNonEventExit(w, order[0]).value.0, leader, order[1..]);
    }
  }

  lemma InHeapsUnlessFinished(s: Sched, live: set<Pid>, p: Pid)
    requires Partition(s, live) && p in live
    ensures InHeaps(s, p) <==> p !in s.finished
  {
    assert Held(s, p) == 1;
  }

  lemma PeerThread(w: World, p: Pid) returns (t: Pid)
    requires Inv(w) && p in w.states && HasPeer(w, p)
    ensures ThreadIn(w, w.groupOf[p], t)
  {
    var q :| q in w.states && q in w.groupOf && q != p && w.groupOf[q] == w.groupOf[p];
    t := if p == w.groupOf[p] then q else p;
  }

  lemma ListsMembers(w: World, leader: Pid, order: seq<Pid>)
    requires Inv(w) && multiset(order) == Bag(w.groups, leader)
    ensures Lists(w, leader, order)
  {
  }

  /** Marking a process that has a child keeps the invariant. */
  lemma MarkedKeepsInv(w: World, g: Pid, s: Sched)
    requires Inv(w) && g in w.states && w.groupOf[g] == g && HasChild(w.tree, g)
    requires w.sched.next !in w.sched.finished
    requires Partition(s, w.states.Keys) && s.finished == w.sched.finished + {g} && IsTop(s.runnable, s.next)
    ensures Inv(w.(sched := s)) && s.next !in s.finished
  {
    assert Held(s, s.next) == 1;
  }

  lemma GroupExitOutcome(w: World, order: seq<Pid>)
    requires Inv(w) && w.sched.next in w.states
    requires multiset(order) == Bag(w.groups, w.groupOf[w.sched.next])
    requires w.states[w.sched.next].exitGroup && HasPeer(w, w.sched.next)
    ensures var r := HandleEventExit(w, w.sched.next, order);
            && (r.Error? <==> w.groupOf[w.sched.next] in w.sched.finished)
            && (r.Ok? ==> Inv(r.value))
  {
    var p := w.sched.next;
    var g := w.groupOf[p];
    var w1 := w.(states := w.states[p := w.states[p].(exitGroup := false)]);
    CountTellsPeers(w, p);
    FlagKeepsInv(w, p, false);
    var t := PeerThread(w, p);
    ThreadsNeverFinish(w, g, t);
    InHeapsUnlessFinished(w.sched, w.states.Keys, t);
    MarkFinishedSplit(w.sched, w.states.Keys, g);
    if g !in w.sched.finished {
      var s := MarkFinishedAndScheduleNext(w.sched, g).value;
      assert p !in w.sched.finished;
      assert w1.states.Keys == w.states.Keys;
      MarkedKeepsInv(w1, g, s);
      ListsMembers(w1.(sched := s), g, order);
      ExitThreadsOutcome(w1.(sched := s), g, order);
    }
  }

  /** What exit_group leaves: the leader finished, and none of its threads. */
  lemma GroupExitStates(w: World, order: seq<Pid>)
    requires Inv(w) && w.sched.next in w.states && multiset(order) == Bag(w.groups, w.groupOf[w.sched.next])
    requires HandleEventExit(w, w.sched.next, order).Ok?
    requires w.states[w.sched.next].exitGroup && HasPeer(w, w.sched.next)
    ensures var w', g := HandleEventExit(w, w.sched.next, order).value, w.groupOf[w.sched.next];
            && g in w'.sched.finished
            && (forall q :: q in w'.states <==> q in w.states && !ThreadIn(w, g, q))
  {
    var p := w.sched.next;
    var g := w.groupOf[p];
    GroupExitOutcome(w, order);
    CountTellsPeers(w, p);
    var w1 := w.(states := w.states[p := w.states[p].(exitGroup := false)]);
    FlagKeepsInv(w, p, false);
    var t := PeerThread(w, p);
    ThreadsNeverFinish(w, g, t);
    InHeapsUnlessFinished(w.sched, w.states.Keys, t);
    MarkFinishedSplit(w.sched, w.states.Keys, g);
    var s := MarkFinishedAndScheduleNext(w.sched, g).value;
    assert w1.states.Keys == w.states.Keys;
    MarkedKeepsInv(w1, g, s);
    ListsMembers(w1.(sched := s), g, order);
    ExitThreadsOutcome(w1.(sched := s), g, order);
    assert forall q :: ThreadIn(w1.(sched := s), g, q) <==> ThreadIn(w, g, q);
  }

  lemma SetAside(s: Sched, live: set<Pid>, p: Pid)
    requires Partition(s, live) && p in live && p !in s.finished
    ensures Remove(s, p).Ok?
    ensures var s1 := Remove(s, p).value;
            && s1.finished == s.finished && Partition(s1.(finished := s1.finished + {p}), live)
            && (forall q | InHeaps(s1, q) :: q != p && InHeaps(s, q))
  {
    assert Held(s, p) == 1;
  }

  lemma HeapsEmptyOrNot(s: Sched)
    ensures HeapsEmpty(s) || exists q :: InHeaps(s, q)
  {
    if s.runnable != multiset{} {
      assert InHeaps(s, Top(s.runnable));
    } else if s.blocked != multiset{} {
      assert InHeaps(s, Top(s.blocked));
    }
  }

  /** Besides a process with a child, some descendant is in a heap. */
  lemma SomeoneElseRuns(s: Sched, live: set<Pid>, groupOf: map<Pid, Pid>, tree: seq<Edge>, p: Pid)
    requires Partition(s, live) && LeadersOk(live, groupOf) && TreeOk(live, groupOf, tree) && FinishedOk(s, groupOf, tree)
    requires p in live && p == s.next && p !in s.finished && HasChild(tree, p)
    ensures exists q :: q != p && InHeaps(s, q)
  {
    SetAside(s, live, p);
    var s1 := Remove(s, p).value;
    HeapsEmptyOrNot(s1);
    if HeapsEmpty(s1) {
      AllFinishedMeansNone(s1.(finished := s1.finished + {p}), live, groupOf, tree);
      assert false;
    }
  }

  /** A process with a child can always be set aside: some descendant is in a heap. */
  lemma MarkingSucceeds(w: World, p: Pid)
    requires Inv(w) && p in w.states && p == w.sched.next && HasChild(w.tree, p)
    ensures p !in w.sched.finished && MarkFinishedAndScheduleNext(w.sched, p).Ok?
  {
    SomeoneElseRuns(w.sched, w.states.Keys, w.groupOf, w.tree, p);
    MarkFinishedSplit(w.sched, w.states.Keys, p);
  }

  lemma SetAsideKeepsInv(w: World, p: Pid)
    requires Inv(w) && p in w.states && p == w.sched.next && HasChild(w.tree, p)
    ensures var s := MarkFinishedAndScheduleNext(w.sched, p);
            s.Ok? && Inv(w.(sched := s.value))
  {
    MarkingSucceeds(w, p);
    MarkFinishedSplit(w.sched, w.states.Keys, p);
    var e :| e in w.tree && e.parent == p;
    MarkedKeepsInv(w, p, MarkFinishedAndScheduleNext(w.sched, p).value);
  }

  lemma PlainExitOutcome(w: World, order: seq<Pid>)
    requires Inv(w) && w.sched.next in w.states
    requires !(w.states[w.sched.next].exitGroup && HasPeer(w, w.sched.next))
    ensures var r := HandleEventExit(w, w.sched.next, order);
            r.Ok? && Inv(r.value)
  {
    var p := w.sched.next;
    var w1 := w.(states := w.states[p := w.states[p].(exitGroup := false)]);
    CountTellsPeers(w, p);
    FlagKeepsInv(w, p, false);
    if HasChild(w.tree, p) {
      SetAsideKeepsInv(w1, p);
    }
  }

  // ---- one turn of the event loop, and whole runs ----

  /** Exactly when a turn ends in an internal error, in terms of the state before it. */
  ghost predicate Fails(w: World, ev: Event)
    requires w.sched.next in w.states && w.sched.next in w.groupOf
  {
    var p := w.sched.next;
    match ev
    case Exec => HasPeer(w, p)
    case EventExit(_) => w.states[p].exitGroup && HasPeer(w, p) && w.groupOf[p] in w.sched.finished
    case NonEventExit => w.states[p].exitGroup || HasChild(w.tree, p) || ChainedFinish(w, p)
    case TerminatedBySignal => ChainedFinish(w, p)
    case _ => false
  }

  lemma StillAlive(w: World)
    requires Inv(w)
    ensures w.states != map[]
  {
    NextIsLive(w.sched, w.states.Keys);
  }

  lemma EventExitOutcome(w: World, order: seq<Pid>)
    requires Inv(w) && w.sched.next in w.states && Enabled(w, EventExit(order))
    ensures var r := Step(w, EventExit(order));
            && (r.Error? <==> Fails(w, EventExit(order)))
            && (r.Ok? ==> !r.value.1 && Inv(r.value.0) && r.value.0.states != map[])
  {
    var p := w.sched.next;
    if w.states[p].exitGroup && HasPeer(w, p) {
      GroupExitOutcome(w, order);
    } else {
      PlainExitOutcome(w, order);
    }
    if Step(w, EventExit(order)).Ok? {
      StillAlive(Step(w, EventExit(order)).value.0);
    }
  }

  /** The turns that neither finish nor kill anyone. */
  lemma QuietStep(w: World, ev: Event)
    requires Inv(w) && Enabled(w, ev) && w.sched.next in w.states
    requires ev.Fork? || ev.Clone? || ev.Exec? || ev.Preempt? || ev.CallExitGroup? || ev.SetFd?
    ensures var r := Step(w, ev);
            && (r.Error? <==> Fails(w, ev))
            && (r.Ok? ==> !r.value.1 && Inv(r.value.0))
  {
    var p := w.sched.next;
    match ev
    case Fork(c) => ForkOutcome(w, c, false);
    case Clone(c) => ForkOutcome(w, c, true);
    case Exec => ExecOutcome(w);
    case Preempt => PreemptOutcome(w);
    case CallExitGroup => FlagKeepsInv(w, p, true);
    case SetFd(fd, kind) => SetFdOutcome(w, p, fd, kind);
  }

  lemma DeathStep(w: World, ev: Event)
    requires Inv(w) && Enabled(w, ev) && w.sched.next in w.states
    requires ev.NonEventExit? || ev.TerminatedBySignal?
    ensures var r := Step(w, ev);
            && (r.Error? <==> Fails(w, ev))
            && (r.Ok? ==> (r.value.1 <==> r.value.0.states == map[]))
            && (r.Ok? ==> if r.value.1 then Clean(r.value.0) else Inv(r.value.0))
  {
    if !HasChild(w.tree, w.sched.next) {
      DeathOutcome(w, w.sched.next);
    }
  }

  /** Every turn the environment allows keeps the invariant, or ends the run with nothing left
      over, or fails exactly where `Fails` says; a turn ends the run exactly when no tracee is left. */
  lemma StepOutcome(w: World, ev: Event)
    requires Inv(w) && Enabled(w, ev)
    ensures w.sched.next in w.states && w.sched.next in w.groupOf
    ensures var r := Step(w, ev);
            && (r.Error? <==> Fails(w, ev))
            && (r.Ok? ==> (r.value.1 <==> r.value.0.states == map[]))
            && (r.Ok? ==> if r.value.1 then Clean(r.value.0) else Inv(r.value.0))
  {
    NextIsLive(w.sched, w.states.Keys);
    if ev.NonEventExit? || ev.TerminatedBySignal? {
      DeathStep(w, ev);
    } else if ev.EventExit? {
      EventExitOutcome(w, ev.order);
    } else {
      QuietStep(w, ev);
      if Step(w, ev).Ok? {
        StillAlive(Step(w, ev).value.0);
      }
    }
  }

  /** The environment's promise along a run, until the run ends or fails. */
  ghost predicate Allowed(w: World, evs: seq<Event>)
    decreases |evs|
  {
    evs != [] ==>
      && Enabled(w, evs[0])
      && (Step(w, evs[0]).Ok? && !Step(w, evs[0]).value.1 ==> Allowed(Step(w, evs[0]).value.0, evs[1..]))
  }

  lemma InitKeepsInv(p: Pid)
    requires p > 0
    ensures Inv(InitWorld(p))
  {
  }

  /** Safety over whole runs: from the first process on, every run that does not fail keeps the
      invariant, and when it ends, every table is empty and the final checks cannot fire. */
  lemma {:induction false} RunOutcome(w: World, evs: seq<Event>)
    requires Inv(w) && Allowed(w, evs)
    ensures Run(w, evs).Ok? ==>
              var (w', done) := Run(w, evs).value;
              if done then Clean(w') else Inv(w')
    decreases |evs|
  {
    if evs != [] {
      StepOutcome(w, evs[0]);
      if Step(w, evs[0]).Ok? && !Step(w, evs[0]).value.1 {
        RunOutcome(Step(w, evs[0]).value.0, evs[1..]);
      }
    }
  }

  lemma CleanEnd(start: Pid, evs: seq<Event>)
    requires start > 0 && Allowed(InitWorld(start), evs)
    ensures Run(InitWorld(start), evs).Ok? ==>
              var (w', done) := Run(InitWorld(start), evs).value;
              && (done <==> w'.states == map[])
              && (done ==> Clean(w'))
              && (!done ==> Inv(w'))
  {
    InitKeepsInv(start);
    RunOutcome(InitWorld(start), evs);
    if Run(InitWorld(start), evs).Ok? && !Run(InitWorld(start), evs).value.1 {
      StillAlive(Run(InitWorld(start), evs).value.0);
    }
  }
}
