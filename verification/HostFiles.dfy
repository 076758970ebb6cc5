/** Files as the guest sees them: virtual inode numbers handed out by the ValueMapper, and
    modification times from the processes' logical clocks (include/ValueMapper.hpp,
    src/utilSystemCalls.cpp, include/state.hpp). Two hosts that number their files differently, and
    recycle the numbers of deleted files differently, show the guest the same. */
module HostFiles {
  import opened LogicalClock

  type Pid = int

  /** A file's identity on the host. */
  datatype DevIno = DevIno(dev: int, ino: int)

  // ---- the mapper ----

  datatype Mapper = Mapper(table: map<DevIno, int>, next: int)

  function Add(m: Mapper, r: DevIno): (Mapper, int) {
    (Mapper(m.table[r := m.next], m.next + 1), m.next)
  }

  /** How every caller looks a number up: the old one, or else a new one. */
  function LookUp(m: Mapper, r: DevIno): (Mapper, int) {
    if r in m.table then (m, m.table[r]) else Add(m, r)
  }

  class ValueMapper {
    var realToVirtualValue: map<DevIno, int>
    var freshValue: int

    function View(): Mapper
      reads this
    {
      Mapper(realToVirtualValue, freshValue)
    }

    constructor (startingValue: int)
      ensures View() == Mapper(map[], startingValue)
    {
      realToVirtualValue := map[];
      freshValue := startingValue;
    }

    method AddRealValue(realValue: DevIno) returns (vValue: int)
      modifies this
      ensures (View(), vValue) == Add(old(View()), realValue)
    {
      vValue := freshValue;
      freshValue := freshValue + 1;
      realToVirtualValue := realToVirtualValue[realValue := vValue];
    }

    /** The conditional of handleStatFamily and virtualizeEntries. */
    method Virtual(realValue: DevIno) returns (vValue: int)
      modifies this
      ensures (View(), vValue) == LookUp(old(View()), realValue)
    {
      if realValue in realToVirtualValue {
        vValue := realToVirtualValue[realValue];
      } else {
        vValue := AddRealValue(realValue);
      }
    }
  }

  // ---- the tracer's part: numbers, times and clocks ----

  datatype Tracer = Tracer(epoch: int, step: int, inodes: Mapper, mtimes: map<DevIno, int>, clocks: map<Pid, int>)

  function Mtime(g: Tracer, r: DevIno): int {
    if r in g.mtimes then g.mtimes[r] else g.epoch - MICROS
  }

  function Touch(g: Tracer, p: Pid, r: DevIno): Tracer
    requires p in g.clocks
  {
    g.(mtimes := g.mtimes[r := g.clocks[p]], clocks := g.clocks[p := g.clocks[p] + g.step])
  }

  /** What stat shows of a file: its number, and its time in whole seconds. */
  datatype Shown = Shown(ino: int, seconds: int)

  /** What handlePostOpens sees of an open: its result, the flags, whether the file was there before,
      and whether the descriptor is a regular file's. */
  datatype Opened = Opened(result: int, creat: bool, tmpfile: bool, trunc: bool, path: bool, existed: bool, regular: bool)

  function PostOpens(g: Tracer, p: Pid, r: DevIno, o: Opened): Tracer
    requires p in g.clocks
  {
    if o.result >= 0 && ((o.creat && !o.existed) || o.tmpfile) then Touch(g, p, r).(inodes := Add(g.inodes, r).0)
    else if o.result >= 0 && o.trunc && !o.path && o.regular then Touch(g, p, r)
    else g
  }

  /** The global state the hooks update: inodeMap, mtimeMap, and each process's clock. */
  class GlobalState {
    const epoch: int
    const clockStep: int
    const inodeMap: ValueMapper
    var mtimeMap: map<DevIno, int>
    var clocks: map<Pid, int>

    function View(): Tracer
      reads this, inodeMap
    {
      Tracer(epoch, clockStep, inodeMap.View(), mtimeMap, clocks)
    }

    constructor (epoch: int, clockStep: int, first: Pid)
      ensures fresh(inodeMap)
      ensures View() == Tracer(epoch, clockStep, Mapper(map[], 1), map[], map[first := epoch])
    {
      this.epoch := epoch;
      this.clockStep := clockStep;
      inodeMap := new ValueMapper(1);
      mtimeMap := map[];
      clocks := map[first := epoch];
    }

    method IncrementTime(p: Pid)
      requires p in clocks
      modifies this`clocks
      ensures clocks == old(clocks)[p := old(clocks)[p] + clockStep]
    {
      clocks := clocks[p := clocks[p] + clockStep];
    }

    method HandlePostOpens(p: Pid, inode: DevIno, o: Opened)
      requires p in clocks
      modifies this, inodeMap
      ensures View() == PostOpens(old(View()), p, inode, o)
    {
      if o.result >= 0 && ((o.creat && !o.existed) || o.tmpfile) {
        mtimeMap := mtimeMap[inode := clocks[p]];
        var v := inodeMap.AddRealValue(inode);
        IncrementTime(p);
      } else if o.result >= 0 && o.trunc && !o.path && o.regular {
        mtimeMap := mtimeMap[inode := clocks[p]];
        IncrementTime(p);
      }
    }

    /** The number and the time handleStatFamily writes for the guest. */
    method HandleStatFamily(inode: DevIno) returns (shown: Shown)
      modifies inodeMap
      ensures var (inodes, v) := LookUp(old(View()).inodes, inode);
              && View() == old(View()).(inodes := inodes)
              && shown == Shown(v, ToTimeT(Mtime(old(View()), inode)))
    {
      var mtime := if inode in mtimeMap then mtimeMap[inode] else epoch - MICROS;
      var v := inodeMap.Virtual(inode);
      shown := Shown(v, ToTimeT(mtime));
    }
  }

  // ---- what the guest does, and how a host plays it ----

  type File = int

  /** `Make` is every call whose post-hook registers a file: open with O_CREAT of a new file or with
      O_TMPFILE, mkdir, mknod, symlink, and creat, which registers an existing file again. `Appear`
      is a file made by a call without such a hook. */
  datatype Op =
    | Make(p: Pid, f: File)
    | Truncate(p: Pid, f: File)
    | Stat(f: File)
    | Delete(f: File)
    | Appear(f: File)
    | Spawn(p: Pid, c: Pid)
    | Tick(p: Pid)
    | Wait(p: Pid, duration: int)
    | WaitUntil(p: Pid, deadline: int)

  /** The tracer, and the identities the host has given to the files that exist. */
  datatype World = World(g: Tracer, live: map<File, DevIno>)

  ghost predicate Injective(live: map<File, DevIno>) {
    forall f, h | f in live && h in live && live[f] == live[h] :: f == h
  }

  /** An operation the guest can make; `pick` is the identity the host gives a file that is new, any
      that no existing file has. */
  ghost predicate Enabled(w: World, op: Op, pick: DevIno) {
    match op
    case Make(p, f) => p in w.g.clocks && (f !in w.live ==> pick !in w.live.Values)
    case Truncate(p, f) => p in w.g.clocks && f in w.live
    case Stat(f) => f in w.live
    case Delete(f) => f in w.live
    case Appear(f) => f !in w.live && pick !in w.live.Values
    case Spawn(p, c) => p in w.g.clocks && c !in w.g.clocks
    case Tick(p) => p in w.g.clocks
    case Wait(p, _) => p in w.g.clocks
    case WaitUntil(p, _) => p in w.g.clocks
  }

  function Play(w: World, op: Op, pick: DevIno): (World, seq<Shown>)
    requires Enabled(w, op, pick)
  {
    var g := w.g;
    match op
    case Make(p, f) =>
      var live := if f in w.live then w.live else w.live[f := pick];
      var r := live[f];
      (World(Touch(g, p, r).(inodes := Add(g.inodes, r).0), live), [])
    case Truncate(p, f) => (w.(g := Touch(g, p, w.live[f])), [])
    case Stat(f) =>
      var r := w.live[f];
      var (inodes, v) := LookUp(g.inodes, r);
      (w.(g := g.(inodes := inodes)), [Shown(v, ToTimeT(Mtime(g, r)))])
    case Delete(f) => (w.(live := w.live - {f}), [])
    case Appear(f) => (w.(live := w.live[f := pick]), [])
    case Spawn(p, c) => (w.(g := g.(clocks := g.clocks[c := g.clocks[p]])), [])
    case Tick(p) => (w.(g := g.(clocks := g.clocks[p := g.clocks[p] + g.step])), [])
    case Wait(p, d) => (if d > 0 then w.(g := g.(clocks := g.clocks[p := g.clocks[p] + d])) else w, [])
    case WaitUntil(p, t) => (if t > g.clocks[p] then w.(g := g.(clocks := g.clocks[p := t])) else w, [])
  }

  /** What handlePostOpens does after an open of `f` is one of the operations, or nothing: the file is
      made, or truncated, or left alone. */
  lemma OpenIsPlayed(w: World, p: Pid, f: File, pick: DevIno, o: Opened)
    requires p in w.g.clocks && (f !in w.live ==> pick !in w.live.Values) && (f in w.live <==> o.existed)
    requires o.result >= 0 && !o.existed ==> o.creat || o.tmpfile
    requires o.existed ==> !o.tmpfile
    ensures var r := if f in w.live then w.live[f] else pick;
            PostOpens(w.g, p, r, o) ==
            if o.result < 0 then w.g
            else if !o.existed then Play(w, Make(p, f), pick).0.g
            else if o.trunc && !o.path && o.regular then Play(w, Truncate(p, f), pick).0.g
            else w.g
  {
  }

  ghost predicate Allowed(w: World, ops: seq<Op>, picks: seq<DevIno>)
    requires |picks| == |ops|
    decreases |ops|
  {
    ops != [] ==> Enabled(w, ops[0], picks[0]) && Allowed(Play(w, ops[0], picks[0]).0, ops[1..], picks[1..])
  }

  /** The world after the operations, and all that was shown on the way. */
  function Run(w: World, ops: seq<Op>, picks: seq<DevIno>): (World, seq<Shown>)
    requires |picks| == |ops| && Allowed(w, ops, picks)
    decreases |ops|
  {
    if ops == [] then (w, [])
    else
      var (w1, s1) := Play(w, ops[0], picks[0]);
      var (w2, s2) := Run(w1, ops[1..], picks[1..]);
      (w2, s1 + s2)
  }

  // ---- two hosts ----

  /** The tracer knows the same of a file on both hosts. */
  ghost predicate SameFile(a: World, b: World, f: File)
    requires f in a.live && f in b.live
  {
    var r, s := a.live[f], b.live[f];
    && (r in a.g.inodes.table <==> s in b.g.inodes.table)
    && (r in a.g.inodes.table ==> a.g.inodes.table[r] == b.g.inodes.table[s])
    && Mtime(a.g, r) == Mtime(b.g, s)
  }

  /** Two hosts that show the same, now and later. */
  ghost predicate Linked(a: World, b: World) {
    && a.g.epoch == b.g.epoch && a.g.step == b.g.step && a.g.clocks == b.g.clocks
    && a.g.inodes.next == b.g.inodes.next
    && a.live.Keys == b.live.Keys && Injective(a.live) && Injective(b.live)
    && forall f | f in a.live :: SameFile(a, b, f)
  }

  /** A file that appears without a hook must get an identity the tracer has not seen before. */
  ghost predicate NotSeen(w: World, op: Op, pick: DevIno) {
    op.Appear? ==> pick !in w.g.inodes.table && pick !in w.g.mtimes
  }

  lemma MakeLinked(a: World, b: World, p: Pid, f: File, r: DevIno, s: DevIno)
    requires Linked(a, b) && Enabled(a, Make(p, f), r) && Enabled(b, Make(p, f), s)
    ensures Linked(Play(a, Make(p, f), r).0, Play(b, Make(p, f), s).0)
  {
    var a', b' := Play(a, Make(p, f), r).0, Play(b, Make(p, f), s).0;
    forall h | h in a'.live ensures SameFile(a', b', h) {
      if h != f {
        assert SameFile(a, b, h);
        assert a'.live[h] != a'.live[f] && b'.live[h] != b'.live[f];
      }
    }
  }

  lemma StatLinked(a: World, b: World, f: File, r: DevIno, s: DevIno)
    requires Linked(a, b) && Enabled(a, Stat(f), r)
    ensures Linked(Play(a, Stat(f), r).0, Play(b, Stat(f), s).0)
    ensures Play(a, Stat(f), r).1 == Play(b, Stat(f), s).1
  {
    var a', b' := Play(a, Stat(f), r).0, Play(b, Stat(f), s).0;
    assert SameFile(a, b, f);
    forall h | h in a'.live ensures SameFile(a', b', h) {
      assert SameFile(a, b, h);
    }
  }

  lemma TruncateLinked(a: World, b: World, p: Pid, f: File, r: DevIno, s: DevIno)
    requires Linked(a, b) && Enabled(a, Truncate(p, f), r)
    ensures Linked(Play(a, Truncate(p, f), r).0, Play(b, Truncate(p, f), s).0)
  {
    var a', b' := Play(a, Truncate(p, f), r).0, Play(b, Truncate(p, f), s).0;
    forall h | h in a'.live ensures SameFile(a', b', h) {
      assert SameFile(a, b, h);
    }
  }

  lemma OtherLinked(a: World, b: World, op: Op, r: DevIno, s: DevIno)
    requires Linked(a, b) && Enabled(a, op, r) && Enabled(b, op, s) && NotSeen(a, op, r) && NotSeen(b, op, s)
    requires op.Delete? || op.Appear? || op.Spawn? || op.Tick? || op.Wait? || op.WaitUntil?
    ensures Linked(Play(a, op, r).0, Play(b, op, s).0)
    ensures Play(a, op, r).1 == Play(b, op, s).1
  {
    var a', b' := Play(a, op, r).0, Play(b, op, s).0;
    forall h | h in a'.live ensures SameFile(a', b', h) {
      if h in a.live {
        assert SameFile(a, b, h);
      }
    }
  }

  lemma PlayLinked(a: World, b: World, op: Op, r: DevIno, s: DevIno)
    requires Linked(a, b) && Enabled(a, op, r) && Enabled(b, op, s) && NotSeen(a, op, r) && NotSeen(b, op, s)
    ensures Linked(Play(a, op, r).0, Play(b, op, s).0)
    ensures Play(a, op, r).1 == Play(b, op, s).1
  {
    match op
    case Make(p, f) => MakeLinked(a, b, p, f, r, s);
    case Stat(f) => StatLinked(a, b, f, r, s);
    case Truncate(p, f) => TruncateLinked(a, b, p, f, r, s);
    case _ => OtherLinked(a, b, op, r, s);
  }

  ghost predicate AllNotSeen(w: World, ops: seq<Op>, picks: seq<DevIno>)
    requires |picks| == |ops| && Allowed(w, ops, picks)
    decreases |ops|
  {
    ops != [] ==> NotSeen(w, ops[0], picks[0]) && AllNotSeen(Play(w, ops[0], picks[0]).0, ops[1..], picks[1..])
  }

  /** The same operations on two hosts show the same numbers and times, and leave the mappers at the
      same fresh value, whatever identities the hosts choose and recycle. */
  lemma {:induction false} HostIsInvisible(a: World, b: World, ops: seq<Op>, picksA: seq<DevIno>, picksB: seq<DevIno>)
    requires |picksA| == |ops| == |picksB|
    requires Linked(a, b) && Allowed(a, ops, picksA) && Allowed(b, ops, picksB)
    requires AllNotSeen(a, ops, picksA) && AllNotSeen(b, ops, picksB)
    ensures Run(a, ops, picksA).1 == Run(b, ops, picksB).1
    ensures Linked(Run(a, ops, picksA).0, Run(b, ops, picksB).0)
    decreases |ops|
  {
    if ops != [] {
      PlayLinked(a, b, ops[0], picksA[0], picksB[0]);
      HostIsInvisible(Play(a, ops[0], picksA[0]).0, Play(b, ops[0], picksB[0]).0, ops[1..], picksA[1..], picksB[1..]);
    }
  }

  /** At the start the tracer knows nothing, so any two hosts with the same files are linked. */
  lemma StartsLinked(g: Tracer, liveA: map<File, DevIno>, liveB: map<File, DevIno>)
    requires g.inodes.table == map[] && g.mtimes == map[]
    requires liveA.Keys == liveB.Keys && Injective(liveA) && Injective(liveB)
    ensures Linked(World(g, liveA), World(g, liveB))
  {
  }

  /** A file made without a hook looks new exactly if its identity has not been seen before. */
  lemma UnhookedFileLooksNewIff(w: World, f: File, pick: DevIno)
    requires Enabled(w, Appear(f), pick)
    requires MapperOk(w.g.inodes) && TimeOk(w.g) && !(0 < w.g.epoch < MICROS)
    ensures var w1 := Play(w, Appear(f), pick).0;
            Play(w1, Stat(f), pick).1 == [Shown(w.g.inodes.next, ToTimeT(w.g.epoch - MICROS))] <==>
            NotSeen(w, Appear(f), pick)
  {
    OldFilesLookOlderIff(w.g.epoch);
    if pick in w.g.mtimes {
      assert ToTimeT(w.g.epoch - MICROS) < ToTimeT(w.g.mtimes[pick]);
    }
  }

  // ---- numbers over runs ----

  /** Every number handed out is below the next one, and no two identities share one. */
  ghost predicate MapperOk(m: Mapper) {
    && (forall r | r in m.table :: m.table[r] < m.next)
    && (forall r, s | r in m.table && s in m.table && m.table[r] == m.table[s] :: r == s)
  }

  lemma {:induction false} RunKeepsMapper(w: World, ops: seq<Op>, picks: seq<DevIno>)
    requires |picks| == |ops| && Allowed(w, ops, picks) && MapperOk(w.g.inodes) && Injective(w.live)
    ensures MapperOk(Run(w, ops, picks).0.g.inodes) && Injective(Run(w, ops, picks).0.live)
    decreases |ops|
  {
    if ops != [] {
      RunKeepsMapper(Play(w, ops[0], picks[0]).0, ops[1..], picks[1..]);
    }
  }

  /** Whether an operation registers `f`, so that it gets a new number. */
  predicate Registers(op: Op, f: File) {
    op.Make? && op.f == f
  }

  predicate Deletes(op: Op, f: File) {
    op.Delete? && op.f == f
  }

  /** The file exists and has a number. */
  ghost predicate Numbered(w: World, f: File) {
    f in w.live && w.live[f] in w.g.inodes.table
  }

  function NumberOf(w: World, f: File): int
    requires Numbered(w, f)
  {
    w.g.inodes.table[w.live[f]]
  }

  lemma PlayKeepsNumber(w: World, op: Op, pick: DevIno, f: File)
    requires Enabled(w, op, pick) && MapperOk(w.g.inodes) && Injective(w.live) && Numbered(w, f) && !Deletes(op, f)
    ensures var w' := Play(w, op, pick).0;
            && MapperOk(w'.g.inodes) && Injective(w'.live) && Numbered(w', f)
            && (if Registers(op, f) then NumberOf(w, f) < NumberOf(w', f) else NumberOf(w, f) == NumberOf(w', f))
  {
  }

  lemma LookUpsIdentify(m: Mapper, r: DevIno, s: DevIno)
    requires MapperOk(m)
    ensures var (m1, first) := LookUp(m, r);
            var (m2, second) := LookUp(m1, s);
            LookUp(m2, r) == (m2, first) && (first == second <==> r == s)
  {
  }

  lemma StatsIdentify(w: World, f: File, h: File, pick: DevIno)
    requires MapperOk(w.g.inodes) && Injective(w.live) && f in w.live && h in w.live
    ensures var (w2, first) := Play(w, Stat(f), pick);
            var (w3, second) := Play(w2, Stat(h), pick);
            var (w4, third) := Play(w3, Stat(f), pick);
            first == third && (first[0].ino == second[0].ino <==> f == h)
  {
    LookUpsIdentify(w.g.inodes, w.live[f], w.live[h]);
  }

  /** At any point of a run, two files that exist show different numbers, and a file shows the same
      number again. */
  lemma NumbersIdentifyFiles(w: World, ops: seq<Op>, picks: seq<DevIno>, f: File, h: File, pick: DevIno)
    requires |picks| == |ops| && Allowed(w, ops, picks) && MapperOk(w.g.inodes) && Injective(w.live)
    requires f in Run(w, ops, picks).0.live && h in Run(w, ops, picks).0.live
    ensures var w1 := Run(w, ops, picks).0;
            var (w2, first) := Play(w1, Stat(f), pick);
            var (w3, second) := Play(w2, Stat(h), pick);
            var (w4, third) := Play(w3, Stat(f), pick);
            first == third && (first[0].ino == second[0].ino <==> f == h)
  {
    RunKeepsMapper(w, ops, picks);
    StatsIdentify(Run(w, ops, picks).0, f, h, pick);
  }

  lemma {:induction false} RunKeepsNumber(w: World, ops: seq<Op>, picks: seq<DevIno>, f: File)
    requires |picks| == |ops| && Allowed(w, ops, picks) && MapperOk(w.g.inodes) && Injective(w.live) && Numbered(w, f)
    requires forall i | 0 <= i < |ops| :: !Deletes(ops[i], f)
    ensures var w' := Run(w, ops, picks).0;
            && Numbered(w', f) && NumberOf(w, f) <= NumberOf(w', f)
            && (NumberOf(w, f) == NumberOf(w', f) <==> forall i | 0 <= i < |ops| :: !Registers(ops[i], f))
    decreases |ops|
  {
    if ops != [] {
      var w1 := Play(w, ops[0], picks[0]).0;
      PlayKeepsNumber(w, ops[0], picks[0], f);
      RunKeepsNumber(w1, ops[1..], picks[1..], f);
      assert forall i | 1 <= i < |ops| :: ops[i] == ops[1..][i - 1];
    }
  }

  /** Over any run in which a file is not deleted, and whatever identities others recycle, stat shows
      the number it showed before exactly if the file has not been registered again. */
  lemma NumberStaysIff(w: World, ops: seq<Op>, picks: seq<DevIno>, f: File, pick: DevIno)
    requires |picks| == |ops| && MapperOk(w.g.inodes) && Injective(w.live) && f in w.live
    requires Allowed(Play(w, Stat(f), pick).0, ops, picks)
    requires forall i | 0 <= i < |ops| :: !Deletes(ops[i], f)
    ensures var (w1, before) := Play(w, Stat(f), pick);
            var w2 := Run(w1, ops, picks).0;
            && f in w2.live
            && (Play(w2, Stat(f), pick).1[0].ino == before[0].ino <==> forall i | 0 <= i < |ops| :: !Registers(ops[i], f))
  {
    var (w1, before) := Play(w, Stat(f), pick);
    assert MapperOk(w1.g.inodes) && Numbered(w1, f) && NumberOf(w1, f) == before[0].ino;
    RunKeepsNumber(w1, ops, picks, f);
  }

  // ---- time over runs ----

  /** Every process clock, and every recorded modification time, is at or after the epoch. */
  ghost predicate TimeOk(g: Tracer) {
    && g.step >= 0
    && (forall p | p in g.clocks :: g.clocks[p] >= g.epoch)
    && (forall r | r in g.mtimes :: g.mtimes[r] >= g.epoch)
  }

  /** What the tracer starts with, as the constructor leaves it, is in order. */
  lemma StartIsOk(epoch: int, step: nat, first: Pid)
    ensures var g := Tracer(epoch, step, Mapper(map[], 1), map[], map[first := epoch]);
            TimeOk(g) && MapperOk(g.inodes)
  {
  }

  /** No operation takes a clock back. */
  lemma PlayKeepsTime(w: World, op: Op, pick: DevIno)
    requires Enabled(w, op, pick) && TimeOk(w.g)
    ensures var g' := Play(w, op, pick).0.g;
            && TimeOk(g') && g'.epoch == w.g.epoch
            && (forall p | p in w.g.clocks :: p in g'.clocks && w.g.clocks[p] <= g'.clocks[p])
  {
  }

  lemma {:induction false} RunKeepsTime(w: World, ops: seq<Op>, picks: seq<DevIno>)
    requires |picks| == |ops| && Allowed(w, ops, picks) && TimeOk(w.g)
    ensures var g' := Run(w, ops, picks).0.g;
            && TimeOk(g') && g'.epoch == w.g.epoch
            && (forall p | p in w.g.clocks :: p in g'.clocks && w.g.clocks[p] <= g'.clocks[p])
    decreases |ops|
  {
    if ops != [] {
      PlayKeepsTime(w, ops[0], picks[0]);
      RunKeepsTime(Play(w, ops[0], picks[0]).0, ops[1..], picks[1..]);
    }
  }

  /** Whether an operation records a time for `f`. */
  predicate Times(op: Op, f: File) {
    (op.Make? || op.Truncate?) && op.f == f
  }

  ghost predicate Recorded(w: World, f: File) {
    f in w.live && w.live[f] in w.g.mtimes
  }

  lemma {:induction false} RecordedStays(w: World, ops: seq<Op>, picks: seq<DevIno>, f: File)
    requires |picks| == |ops| && Allowed(w, ops, picks) && Recorded(w, f)
    requires forall i | 0 <= i < |ops| :: !Deletes(ops[i], f)
    ensures Recorded(Run(w, ops, picks).0, f)
    decreases |ops|
  {
    if ops != [] {
      assert Recorded(Play(w, ops[0], picks[0]).0, f);
      RecordedStays(Play(w, ops[0], picks[0]).0, ops[1..], picks[1..], f);
    }
  }

  /** A file that was made or truncated, and not deleted since, has its time on record. */
  lemma {:induction false} MadeIsRecorded(w: World, ops: seq<Op>, picks: seq<DevIno>, f: File, k: nat)
    requires |picks| == |ops| && Allowed(w, ops, picks)
    requires k < |ops| && Times(ops[k], f) && forall i | k < i < |ops| :: !Deletes(ops[i], f)
    ensures Recorded(Run(w, ops, picks).0, f)
    decreases |ops|
  {
    var w1 := Play(w, ops[0], picks[0]).0;
    assert forall i | 1 <= i < |ops| :: ops[i] == ops[1..][i - 1];
    if k == 0 {
      assert Recorded(w1, f);
      RecordedStays(w1, ops[1..], picks[1..], f);
    } else {
      MadeIsRecorded(w1, ops[1..], picks[1..], f, k - 1);
    }
  }

  /** A file from before the run that is left alone stays without a time, whatever is recycled. */
  lemma {:induction false} UntouchedStaysUnrecorded(w: World, ops: seq<Op>, picks: seq<DevIno>, h: File)
    requires |picks| == |ops| && Allowed(w, ops, picks) && Injective(w.live) && h in w.live && !Recorded(w, h)
    requires forall i | 0 <= i < |ops| :: !Times(ops[i], h) && !Deletes(ops[i], h)
    ensures var w' := Run(w, ops, picks).0;
            h in w'.live && !Recorded(w', h)
    decreases |ops|
  {
    if ops != [] {
      var w1 := Play(w, ops[0], picks[0]).0;
      assert Injective(w1.live) && h in w1.live && !Recorded(w1, h);
      UntouchedStaysUnrecorded(w1, ops[1..], picks[1..], h);
    }
  }

  /** After any run, a file that was made or truncated in it, and not deleted since, shows a later
      second than one from before the run that was left alone, exactly unless both the epoch and
      the recorded time are within the first second of Unix time. */
  lemma MadeFilesLookNewer(w: World, ops: seq<Op>, picks: seq<DevIno>, f: File, k: nat, h: File, pick: DevIno)
    requires |picks| == |ops| && Allowed(w, ops, picks) && TimeOk(w.g) && Injective(w.live)
    requires k < |ops| && Times(ops[k], f) && forall i | k < i < |ops| :: !Deletes(ops[i], f)
    requires h in w.live && !Recorded(w, h)
    requires forall i | 0 <= i < |ops| :: !Times(ops[i], h) && !Deletes(ops[i], h)
    ensures var w' := Run(w, ops, picks).0;
            && f in w'.live && h in w'.live
            && var older, newer := Play(w', Stat(h), pick).1[0].seconds, Play(w', Stat(f), pick).1[0].seconds;
               && (older < newer <==> !(0 < w.g.epoch && Mtime(w'.g, w'.live[f]) < MICROS))
               && (!(0 < w.g.epoch < MICROS) ==> older < newer)
  {
    RunKeepsTime(w, ops, picks);
    MadeIsRecorded(w, ops, picks, f, k);
    UntouchedStaysUnrecorded(w, ops, picks, h);
    OldFilesLookOlderIff(w.g.epoch);
    var w' := Run(w, ops, picks).0;
    assert Mtime(w'.g, w'.live[f]) >= w.g.epoch;
  }
}
