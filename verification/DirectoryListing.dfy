/** Directory listings: the tracer reads a directory to its end, sorts the records by name, and hands
    them out with virtual inode numbers, so that the guest cannot see in which order, in which
    chunks and with which inode numbers the host lists it (include/directoryEntries.hpp,
    include/dettraceSystemCall.hpp). */
module DirectoryListing {
  import opened HostFiles

  /** A linux_dirent as a value; `reclen` is the number of bytes it takes. */
  datatype Record = Record(name: string, ino: int, off: int, kind: int, reclen: nat)

  // ---- the order of names ----

  /** std::string's operator>. */
  predicate Greater(a: string, b: string)
    decreases |a|
  {
    if b == "" then a != ""
    else if a == "" then false
    else if a[0] != b[0] then a[0] > b[0]
    else Greater(a[1..], b[1..])
  }

  lemma {:induction false} GreaterTotal(a: string, b: string)
    ensures Greater(a, b) || a == b || Greater(b, a)
    ensures !(Greater(a, b) && Greater(b, a)) && !Greater(a, a)
    decreases |a|
  {
    if a != "" {
      GreaterTotal(a[1..], a[1..]);
      if b != "" && a[0] == b[0] {
        GreaterTotal(a[1..], b[1..]);
        if a[1..] == b[1..] {
          assert a == [a[0]] + a[1..] == [b[0]] + b[1..] == b;
        }
      }
    }
  }

  lemma {:induction false} GreaterTransitive(a: string, b: string, c: string)
    requires Greater(a, b) && Greater(b, c)
    ensures Greater(a, c)
    decreases |a|
  {
    if c != "" && a[0] == b[0] == c[0] {
      GreaterTransitive(a[1..], b[1..], c[1..]);
    }
  }

  // ---- sorting ----

  ghost predicate Descending(rs: seq<Record>) {
    forall i, j | 0 <= i < j < |rs| :: !Greater(rs[j].name, rs[i].name)
  }

  function Insert(rs: seq<Record>, r: Record): seq<Record> {
    if rs == [] || !Greater(rs[0].name, r.name) then [r] + rs else [rs[0]] + Insert(rs[1..], r)
  }

  /** Descending by name. std::sort may leave records of one name in either order. */
  function Sort(rs: seq<Record>): seq<Record> {
    if rs == [] then [] else Insert(Sort(rs[..|rs| - 1]), rs[|rs| - 1])
  }

  lemma {:induction false} InsertMembers(rs: seq<Record>, r: Record)
    ensures multiset(Insert(rs, r)) == multiset(rs) + multiset{r}
    decreases |rs|
  {
    if rs != [] && Greater(rs[0].name, r.name) {
      InsertMembers(rs[1..], r);
      assert rs == [rs[0]] + rs[1..];
    }
  }

  lemma {:induction false} SortMembers(rs: seq<Record>)
    ensures multiset(Sort(rs)) == multiset(rs)
    decreases |rs|
  {
    if rs != [] {
      SortMembers(rs[..|rs| - 1]);
      InsertMembers(Sort(rs[..|rs| - 1]), rs[|rs| - 1]);
      assert rs == rs[..|rs| - 1] + [rs[|rs| - 1]];
    }
  }

  lemma SortKeepsRecords(rs: seq<Record>)
    ensures |Sort(rs)| == |rs| && forall r :: r in Sort(rs) <==> r in rs
  {
    SortMembers(rs);
    assert |multiset(Sort(rs))| == |multiset(rs)|;
    assert forall r :: r in Sort(rs) <==> r in multiset(Sort(rs));
  }

  lemma {:induction false} InsertDescends(rs: seq<Record>, r: Record)
    requires Descending(rs)
    ensures Descending(Insert(rs, r))
    decreases |rs|
  {
    if rs == [] {
    } else if !Greater(rs[0].name, r.name) {
      var t := [r] + rs;
      forall i, j | 0 <= i < j < |t|
        ensures !Greater(t[j].name, t[i].name)
      {
        if i == 0 && Greater(t[j].name, r.name) {
          GreaterTotal(rs[0].name, t[j].name);
          if Greater(rs[0].name, t[j].name) {
            GreaterTransitive(rs[0].name, t[j].name, r.name);
          }
        }
      }
    } else {
      InsertDescends(rs[1..], r);
      InsertMembers(rs[1..], r);
      var rest := Insert(rs[1..], r);
      var t := [rs[0]] + rest;
      forall i, j | 0 <= i < j < |t|
        ensures !Greater(t[j].name, t[i].name)
      {
        if i == 0 {
          assert rest[j - 1] in multiset(rest);
          GreaterTotal(rs[0].name, r.name);
        }
      }
    }
  }

  lemma {:induction false} SortDescends(rs: seq<Record>)
    ensures Descending(Sort(rs))
    decreases |rs|
  {
    if rs != [] {
      SortDescends(rs[..|rs| - 1]);
      InsertDescends(Sort(rs[..|rs| - 1]), rs[|rs| - 1]);
    }
  }

  // ---- a per-descriptor store ----

  datatype Store = Store(raw: seq<Record>, entries: seq<Record>, sorted: bool)

  /** How many records from the front fit into `room` bytes. */
  function Fitting(rs: seq<Record>, room: int): (n: nat)
    ensures n <= |rs|
  {
    if rs == [] || rs[0].reclen > room then 0 else 1 + Fitting(rs[1..], room - rs[0].reclen)
  }

  /** What has not been handed out yet. */
  function Pending(s: Store): seq<Record> {
    if s.sorted then s.entries else Sort(s.raw)
  }

  /** getSortedEntries, where it does not fail. */
  function Next(s: Store, bytes: nat): (Store, seq<Record>) {
    var es := Pending(s);
    var n := Fitting(es, bytes);
    (s.(sorted := true, entries := es[n..]), es[..n])
  }

  class DirectoryEntries {
    var rawEntries: seq<Record>
    var entries: seq<Record>
    var sorted: bool

    function View(): Store
      reads this
    {
      Store(rawEntries, entries, sorted)
    }

    /** Nothing is queued before the records are sorted. */
    predicate Valid()
      reads this
    {
      !sorted ==> entries == []
    }

    constructor ()
      ensures Valid() && View() == FRESH_STORE
    {
      rawEntries, entries, sorted := [], [], false;
    }

    method AddChunk(newChunk: seq<Record>)
      modifies this
      ensures View() == old(View()).(raw := old(rawEntries) + newChunk)
    {
      rawEntries := rawEntries + newChunk;
    }

    method SortOurEntries() returns (ok: bool)
      modifies this`entries
      ensures ok == (old(entries) == [])
      ensures ok ==> entries == Sort(rawEntries)
    {
      if entries != [] {
        return false;
      }
      for i := 0 to |rawEntries|
        invariant entries == Sort(rawEntries[..i])
      {
        assert rawEntries[..i + 1][..i] == rawEntries[..i];
        entries := Insert(entries, rawEntries[i]);
      }
      assert rawEntries[..|rawEntries|] == rawEntries;
      return true;
    }

    method GetSortedEntries(bytesNeeded: nat) returns (ok: bool, toFill: seq<Record>)
      modifies this
      ensures ok == (old(sorted) || old(entries) == [])
      ensures ok ==> (View(), toFill) == Next(old(View()), bytesNeeded)
    {
      toFill := [];
      if !sorted {
        sorted := true;
        ok := SortOurEntries();
        if !ok {
          return;
        }
      }
      ghost var es := entries;
      var filled := 0;
      ghost var n := 0;
      while entries != [] && entries[0].reclen + filled <= bytesNeeded
        invariant 0 <= n <= |es| && entries == es[n..] && toFill == es[..n]
        invariant Fitting(es, bytesNeeded) == n + Fitting(entries, bytesNeeded - filled)
        invariant rawEntries == old(rawEntries) && sorted
        decreases |entries|
      {
        assert es[..n + 1] == es[..n] + [es[n]];
        filled := filled + entries[0].reclen;
        toFill := toFill + [entries[0]];
        entries := entries[1..];
        n := n + 1;
      }
      ok := true;
    }
  }

  // ---- virtual numbers ----

  /** Give each record its virtual number and a zero offset, looking the numbers up in order. */
  function Virtualize(m: Mapper, dev: int, rs: seq<Record>): (Mapper, seq<Record>)
    decreases |rs|
  {
    if rs == [] then (m, [])
    else
      var (m1, v) := LookUp(m, DevIno(dev, rs[0].ino));
      var (m2, rest) := Virtualize(m1, dev, rs[1..]);
      (m2, [rs[0].(ino := v, off := 0)] + rest)
  }

  lemma {:induction false} VirtualizeAppend(m: Mapper, dev: int, rs: seq<Record>, r: Record)
    ensures var (m1, out) := Virtualize(m, dev, rs);
            var (m2, v) := LookUp(m1, DevIno(dev, r.ino));
            |out| == |rs| && Virtualize(m, dev, rs + [r]) == (m2, out + [r.(ino := v, off := 0)])
    decreases |rs|
  {
    if rs == [] {
      var (m1, v) := LookUp(m, DevIno(dev, r.ino));
      assert rs + [r] == [r] && [r][1..] == [] && Virtualize(m1, dev, []) == (m1, []);
      assert [r.(ino := v, off := 0)] + [] == [] + [r.(ino := v, off := 0)];
    } else {
      var (m1, v) := LookUp(m, DevIno(dev, rs[0].ino));
      var head := rs[0].(ino := v, off := 0);
      VirtualizeAppend(m1, dev, rs[1..], r);
      assert (rs + [r])[1..] == rs[1..] + [r];
      var (m2, rest) := Virtualize(m1, dev, rs[1..]);
      var last := r.(ino := LookUp(m2, DevIno(dev, r.ino)).1, off := 0);
      assert [head] + (rest + [last]) == ([head] + rest) + [last];
    }
  }

  /** The records are rewritten where they are. */
  method VirtualizeEntries(buffer: array<Record>, inodeMap: ValueMapper, dev: int)
    modifies buffer, inodeMap
    ensures (inodeMap.View(), buffer[..]) == Virtualize(old(inodeMap.View()), dev, old(buffer[..]))
  {
    ghost var rs := buffer[..];
    ghost var m := inodeMap.View();
    for i := 0 to buffer.Length
      invariant (inodeMap.View(), buffer[..i]) == Virtualize(m, dev, rs[..i])
      invariant forall k | i <= k < buffer.Length :: buffer[k] == rs[k]
    {
      VirtualizeAppend(m, dev, rs[..i], rs[i]);
      assert rs[..i + 1] == rs[..i] + [rs[i]];
      var v := inodeMap.Virtual(DevIno(dev, buffer[i].ino));
      buffer[i] := buffer[i].(ino := v, off := 0);
      assert buffer[..i + 1] == buffer[..i] + [buffer[i]];
    }
    assert buffer[..] == buffer[..buffer.Length] && rs[..buffer.Length] == rs;
  }

  // ---- getdents ----

  /** What the kernel answers the tracee's getdents, which may have been replayed by the tracer:
      an error, some records, or the end of the directory. */
  datatype Answer = Failed | Chunk(records: seq<Record>) | End

  /** What becomes of the answer: the error goes to the guest, the call is replayed, or the guest is
      given records of the tracer's choice. */
  datatype Reply = PassedOn | Replayed | Filled(records: seq<Record>)

  /** handleDents for a descriptor whose guest asked for `room` bytes. */
  function Dents(s: Store, m: Mapper, dev: int, answer: Answer, room: nat): (Store, Mapper, Reply) {
    match answer
    case Failed => (s, m, PassedOn)
    case Chunk(rs) => (s.(raw := s.raw + rs), m, Replayed)
    case End =>
      var (s1, rs) := Next(s, room);
      var (m1, out) := Virtualize(m, dev, rs);
      (s1, m1, Filled(out))
  }

  method HandleDents(dirEntries: DirectoryEntries, inodeMap: ValueMapper, dev: int, answer: Answer, room: nat)
    returns (reply: Reply)
    requires dirEntries.Valid()
    modifies dirEntries, inodeMap
    ensures dirEntries.Valid()
    ensures (dirEntries.View(), inodeMap.View(), reply)
         == Dents(old(dirEntries.View()), old(inodeMap.View()), dev, answer, room)
  {
    match answer
    case Failed =>
      reply := PassedOn;
    case Chunk(newChunk) =>
      dirEntries.AddChunk(newChunk);
      reply := Replayed;
    case End =>
      var ok, filled := dirEntries.GetSortedEntries(room);
      var buffer := new Record[|filled|](i requires 0 <= i < |filled| => filled[i]);
      assert buffer[..] == filled;
      VirtualizeEntries(buffer, inodeMap, dev);
      reply := Filled(buffer[..]);
  }

  /** One of the guest's calls, or a replay of it. */
  datatype Call = Call(answer: Answer, room: nat)

  /** All that the guest is given over a series of answers. */
  function Calls(s: Store, m: Mapper, dev: int, calls: seq<Call>): (Store, Mapper, seq<seq<Record>>)
    decreases |calls|
  {
    if calls == [] then (s, m, [])
    else
      var (s1, m1, reply) := Dents(s, m, dev, calls[0].answer, calls[0].room);
      var (s2, m2, rest) := Calls(s1, m1, dev, calls[1..]);
      (s2, m2, if reply.Filled? then [reply.records] + rest else rest)
  }

  /** A directory read to its end: first the chunks, all in the guest's first call, and then the end,
      again and again, for calls with these buffer sizes. */
  function Reading(chunks: seq<seq<Record>>, rooms: seq<nat>): (calls: seq<Call>)
    requires rooms != []
    decreases |chunks| + |rooms|
  {
    if chunks != [] then [Call(Chunk(chunks[0]), rooms[0])] + Reading(chunks[1..], rooms)
    else if |rooms| == 1 then [Call(End, rooms[0])]
    else [Call(End, rooms[0])] + Reading([], rooms[1..])
  }

  const FRESH_STORE := Store([], [], false)

  function Flatten(chunks: seq<seq<Record>>): seq<Record> {
    if chunks == [] then [] else chunks[0] + Flatten(chunks[1..])
  }

  /** The sorted records handed out for the given buffer sizes. */
  function Serve(es: seq<Record>, m: Mapper, dev: int, rooms: seq<nat>): (Mapper, seq<seq<Record>>)
    decreases |rooms|
  {
    if rooms == [] then (m, [])
    else
      var n := Fitting(es, rooms[0]);
      var (m1, out) := Virtualize(m, dev, es[..n]);
      var (m2, rest) := Serve(es[n..], m1, dev, rooms[1..]);
      (m2, [out] + rest)
  }

  /** Once sorted, or at the end of the chunks, the answers are served from the sorted records. */
  lemma {:induction false} EndsAreServed(s: Store, m: Mapper, dev: int, rooms: seq<nat>)
    requires rooms != []
    ensures var (m1, out) := Serve(Pending(s), m, dev, rooms);
            Calls(s, m, dev, Reading([], rooms)).1 == m1 && Calls(s, m, dev, Reading([], rooms)).2 == out
    decreases |rooms|
  {
    var calls := Reading([], rooms);
    var (s1, m1, reply) := Dents(s, m, dev, End, rooms[0]);
    assert calls[0] == Call(End, rooms[0]);
    if |rooms| == 1 {
      assert rooms[1..] == [] && calls[1..] == [];
    } else {
      assert calls[1..] == Reading([], rooms[1..]);
      EndsAreServed(s1, m1, dev, rooms[1..]);
    }
  }

  lemma {:induction false} ReadingIsServed(s: Store, m: Mapper, dev: int, chunks: seq<seq<Record>>, rooms: seq<nat>)
    requires rooms != []
    ensures var (m1, out) := Serve(Pending(s.(raw := s.raw + Flatten(chunks))), m, dev, rooms);
            Calls(s, m, dev, Reading(chunks, rooms)).1 == m1 && Calls(s, m, dev, Reading(chunks, rooms)).2 == out
    decreases |chunks|
  {
    if chunks == [] {
      assert s.raw + Flatten(chunks) == s.raw && s.(raw := s.raw) == s;
      EndsAreServed(s, m, dev, rooms);
    } else {
      var calls := Reading(chunks, rooms);
      assert calls[0] == Call(Chunk(chunks[0]), rooms[0]) && calls[1..] == Reading(chunks[1..], rooms);
      var s1 := s.(raw := s.raw + chunks[0]);
      assert s1.raw + Flatten(chunks[1..]) == s.raw + Flatten(chunks);
      ReadingIsServed(s1, m, dev, chunks[1..], rooms);
    }
  }

  // ---- two hosts list the same directory ----

  /** What an entry is, apart from its number on some host. */
  datatype Listed = Listed(file: File, kind: int, reclen: nat)

  ghost predicate Matches(w: World, dev: int, r: Record, dir: map<string, Listed>) {
    && r.name in dir && dir[r.name].file in w.live
    && w.live[dir[r.name].file] == DevIno(dev, r.ino)
    && r.kind == dir[r.name].kind && r.reclen == dir[r.name].reclen
  }

  /** The host lists exactly this directory, each name once, in some order. */
  ghost predicate Lists(w: World, dev: int, rs: seq<Record>, dir: map<string, Listed>) {
    && Distinct(rs)
    && (forall r | r in rs :: Matches(w, dev, r, dir))
    && (forall name :: name in dir <==> name in Names(rs))
  }

  // ---- only one order is sorted ----

  function Names(rs: seq<Record>): (ns: seq<string>)
    ensures |ns| == |rs| && forall i | 0 <= i < |rs| :: ns[i] == rs[i].name
  {
    seq(|rs|, i requires 0 <= i < |rs| => rs[i].name)
  }

  /** Each name once, and the greater names first. */
  ghost predicate Strict(ns: seq<string>) {
    forall i, j | 0 <= i < j < |ns| :: Greater(ns[i], ns[j])
  }

  lemma HeadIsGreatest(ns: seq<string>, n: string)
    requires Strict(ns) && n in ns
    ensures n == ns[0] || Greater(ns[0], n)
  {
  }

  lemma TailLosesHead(ns: seq<string>)
    requires Strict(ns) && ns != []
    ensures Strict(ns[1..]) && forall n :: n in ns[1..] <==> n in ns && n != ns[0]
  {
    GreaterTotal(ns[0], ns[0]);
    forall n | n in ns && n != ns[0]
      ensures n in ns[1..]
    {
      var i :| 0 <= i < |ns| && ns[i] == n;
      assert ns[1..][i - 1] == n;
    }
  }

  lemma HasMember(ns: seq<string>)
    ensures ns == [] || exists n :: n in ns
  {
    if ns != [] {
      assert ns[0] in ns;
    }
  }

  lemma {:induction false} OrderIsUnique(xs: seq<string>, ys: seq<string>)
    requires Strict(xs) && Strict(ys) && forall n :: n in xs <==> n in ys
    ensures xs == ys
    decreases |xs|
  {
    if xs == [] {
      HasMember(ys);
    } else {
      assert xs[0] in ys;
      assert ys[0] in xs;
      HeadIsGreatest(xs, ys[0]);
      HeadIsGreatest(ys, xs[0]);
      GreaterTotal(xs[0], ys[0]);
      TailLosesHead(xs);
      TailLosesHead(ys);
      OrderIsUnique(xs[1..], ys[1..]);
      assert xs == [xs[0]] + xs[1..] && ys == [ys[0]] + ys[1..];
    }
  }

  ghost predicate Distinct(rs: seq<Record>) {
    forall i, j | 0 <= i < j < |rs| :: rs[i].name != rs[j].name
  }

  lemma NamesPrepend(r: Record, rs: seq<Record>)
    ensures Names([r] + rs) == [r.name] + Names(rs)
  {
  }

  lemma {:induction false} InsertName(rs: seq<Record>, r: Record, n: string)
    ensures n in Names(Insert(rs, r)) <==> n in Names(rs) || n == r.name
    decreases |rs|
  {
    if rs == [] || !Greater(rs[0].name, r.name) {
      NamesPrepend(r, rs);
    } else {
      InsertName(rs[1..], r, n);
      NamesPrepend(rs[0], rs[1..]);
      assert rs == [rs[0]] + rs[1..];
      NamesPrepend(rs[0], Insert(rs[1..], r));
    }
  }

  lemma InsertNames(rs: seq<Record>, r: Record)
    ensures forall n :: n in Names(Insert(rs, r)) <==> n in Names(rs) || n == r.name
  {
    forall n
      ensures n in Names(Insert(rs, r)) <==> n in Names(rs) || n == r.name
    {
      InsertName(rs, r, n);
    }
  }

  lemma StrictPrepend(n: string, ns: seq<string>)
    requires Strict(ns) && forall k | k in ns :: Greater(n, k)
    ensures Strict([n] + ns)
  {
  }

  lemma {:induction false} InsertStrict(rs: seq<Record>, r: Record)
    requires Strict(Names(rs)) && r.name !in Names(rs)
    ensures Strict(Names(Insert(rs, r)))
    decreases |rs|
  {
    var ns := Names(rs);
    if rs == [] {
    } else if !Greater(rs[0].name, r.name) {
      assert ns[0] in ns;
      GreaterTotal(rs[0].name, r.name);
      forall k | k in ns
        ensures Greater(r.name, k)
      {
        HeadIsGreatest(ns, k);
        if k != ns[0] {
          GreaterTransitive(r.name, ns[0], k);
        }
      }
      StrictPrepend(r.name, ns);
      assert Names([r] + rs) == [r.name] + ns;
    } else {
      TailLosesHead(ns);
      assert ns[1..] == Names(rs[1..]);
      InsertStrict(rs[1..], r);
      InsertNames(rs[1..], r);
      var ks := Names(Insert(rs[1..], r));
      forall k | k in ks
        ensures Greater(rs[0].name, k)
      {
        if k != r.name {
          HeadIsGreatest(ns, k);
        }
      }
      StrictPrepend(rs[0].name, ks);
      assert Names(Insert(rs, r)) == [rs[0].name] + ks;
    }
  }

  lemma {:induction false} SortStrict(rs: seq<Record>)
    requires Distinct(rs)
    ensures Strict(Names(Sort(rs))) && forall n :: n in Names(Sort(rs)) <==> n in Names(rs)
    decreases |rs|
  {
    if rs != [] {
      var front, r := rs[..|rs| - 1], rs[|rs| - 1];
      SortStrict(front);
      assert r.name !in Names(front);
      InsertStrict(Sort(front), r);
      InsertNames(Sort(front), r);
      assert Names(rs) == Names(front) + [r.name];
    }
  }

  // ---- the listing does not depend on the host ----

  /** Records of two hosts that name the same entries in the same order. */
  ghost predicate InStep(a: World, b: World, devA: int, devB: int, xs: seq<Record>, ys: seq<Record>, dir: map<string, Listed>) {
    && |xs| == |ys|
    && (forall i | 0 <= i < |xs| :: xs[i].name == ys[i].name)
    && (forall i | 0 <= i < |xs| :: Matches(a, devA, xs[i], dir))
    && (forall i | 0 <= i < |xs| :: Matches(b, devB, ys[i], dir))
  }

  lemma SortedInStep(a: World, b: World, devA: int, devB: int, xs: seq<Record>, ys: seq<Record>, dir: map<string, Listed>)
    requires Lists(a, devA, xs, dir) && Lists(b, devB, ys, dir)
    ensures InStep(a, b, devA, devB, Sort(xs), Sort(ys), dir)
  {
    SortStrict(xs);
    SortStrict(ys);
    OrderIsUnique(Names(Sort(xs)), Names(Sort(ys)));
    assert |Names(Sort(xs))| == |Names(Sort(ys))|;
    forall i | 0 <= i < |Sort(xs)|
      ensures Sort(xs)[i].name == Sort(ys)[i].name
    {
      assert Names(Sort(xs))[i] == Names(Sort(ys))[i];
    }
    SortKeepsRecords(xs);
    SortKeepsRecords(ys);
  }

  lemma {:induction false} FittingInStep(xs: seq<Record>, ys: seq<Record>, room: int)
    requires |xs| == |ys| && forall i | 0 <= i < |xs| :: xs[i].reclen == ys[i].reclen
    ensures Fitting(xs, room) == Fitting(ys, room)
    decreases |xs|
  {
    if xs != [] && xs[0].reclen <= room {
      FittingInStep(xs[1..], ys[1..], room - xs[0].reclen);
    }
  }

  function WithInodes(w: World, m: Mapper): World {
    w.(g := w.g.(inodes := m))
  }

  lemma {:induction false} VirtualizeInStep(a: World, b: World, devA: int, devB: int, xs: seq<Record>, ys: seq<Record>, dir: map<string, Listed>)
    requires Linked(a, b) && InStep(a, b, devA, devB, xs, ys, dir)
    ensures var (ma, outA) := Virtualize(a.g.inodes, devA, xs);
            var (mb, outB) := Virtualize(b.g.inodes, devB, ys);
            outA == outB && Linked(WithInodes(a, ma), WithInodes(b, mb))
    decreases |xs|
  {
    if xs == [] {
      assert WithInodes(a, a.g.inodes) == a && WithInodes(b, b.g.inodes) == b;
    } else {
      var x, y := xs[0], ys[0];
      assert Matches(a, devA, x, dir) && Matches(b, devB, y, dir);
      var f := dir[x.name].file;
      StatLinked(a, b, f, DevIno(devA, x.ino), DevIno(devB, y.ino));
      var (ma, va) := LookUp(a.g.inodes, DevIno(devA, x.ino));
      var (mb, vb) := LookUp(b.g.inodes, DevIno(devB, y.ino));
      var a1, b1 := WithInodes(a, ma), WithInodes(b, mb);
      assert Linked(a1, b1) && va == vb;
      assert InStep(a1, b1, devA, devB, xs[1..], ys[1..], dir);
      VirtualizeInStep(a1, b1, devA, devB, xs[1..], ys[1..], dir);
      var (na, outA) := Virtualize(ma, devA, xs[1..]);
      var (nb, outB) := Virtualize(mb, devB, ys[1..]);
      assert WithInodes(a1, na) == WithInodes(a, na) && WithInodes(b1, nb) == WithInodes(b, nb);
    }
  }

  lemma {:induction false} ServeInStep(a: World, b: World, devA: int, devB: int, xs: seq<Record>, ys: seq<Record>, dir: map<string, Listed>, rooms: seq<nat>)
    requires Linked(a, b) && InStep(a, b, devA, devB, xs, ys, dir)
    ensures var (ma, outA) := Serve(xs, a.g.inodes, devA, rooms);
            var (mb, outB) := Serve(ys, b.g.inodes, devB, rooms);
            outA == outB && Linked(WithInodes(a, ma), WithInodes(b, mb))
    decreases |rooms|
  {
    if rooms == [] {
      assert WithInodes(a, a.g.inodes) == a && WithInodes(b, b.g.inodes) == b;
    } else {
      forall i | 0 <= i < |xs|
        ensures xs[i].reclen == ys[i].reclen
      {
        assert Matches(a, devA, xs[i], dir) && Matches(b, devB, ys[i], dir);
      }
      FittingInStep(xs, ys, rooms[0]);
      var n := Fitting(xs, rooms[0]);
      VirtualizeInStep(a, b, devA, devB, xs[..n], ys[..n], dir);
      var ma := Virtualize(a.g.inodes, devA, xs[..n]).0;
      var mb := Virtualize(b.g.inodes, devB, ys[..n]).0;
      var a1, b1 := WithInodes(a, ma), WithInodes(b, mb);
      assert InStep(a1, b1, devA, devB, xs[n..], ys[n..], dir);
      ServeInStep(a1, b1, devA, devB, xs[n..], ys[n..], dir, rooms[1..]);
      var na := Serve(xs[n..], ma, devA, rooms[1..]).0;
      var nb := Serve(ys[n..], mb, devB, rooms[1..]).0;
      assert WithInodes(a1, na) == WithInodes(a, na) && WithInodes(b1, nb) == WithInodes(b, nb);
    }
  }

  /** Two hosts that hold the same directory, and list it in whatever order, in whatever chunks and
      with whatever inode numbers, give the guest the same records, call by call, for any buffer
      sizes; and they show the same of every file afterwards. */
  lemma ListingIsCanonical(a: World, b: World, devA: int, devB: int, chunksA: seq<seq<Record>>, chunksB: seq<seq<Record>>,
                           dir: map<string, Listed>, rooms: seq<nat>)
    requires Linked(a, b) && rooms != []
    requires Lists(a, devA, Flatten(chunksA), dir) && Lists(b, devB, Flatten(chunksB), dir)
    ensures var (_, ma, outA) := Calls(FRESH_STORE, a.g.inodes, devA, Reading(chunksA, rooms));
            var (_, mb, outB) := Calls(FRESH_STORE, b.g.inodes, devB, Reading(chunksB, rooms));
            outA == outB && Linked(WithInodes(a, ma), WithInodes(b, mb))
  {
    var xs, ys := Flatten(chunksA), Flatten(chunksB);
    assert [] + xs == xs && [] + ys == ys;
    ReadingIsServed(FRESH_STORE, a.g.inodes, devA, chunksA, rooms);
    ReadingIsServed(FRESH_STORE, b.g.inodes, devB, chunksB, rooms);
    SortedInStep(a, b, devA, devB, xs, ys, dir);
    ServeInStep(a, b, devA, devB, Sort(xs), Sort(ys), dir, rooms);
  }

  // ---- the listing is complete ----

  lemma {:induction false} VirtualizeKeepsNames(m: Mapper, dev: int, rs: seq<Record>)
    ensures Names(Virtualize(m, dev, rs).1) == Names(rs)
    decreases |rs|
  {
    if rs != [] {
      var m1 := LookUp(m, DevIno(dev, rs[0].ino)).0;
      VirtualizeKeepsNames(m1, dev, rs[1..]);
      assert Names(rs) == [rs[0].name] + Names(rs[1..]);
      var out := Virtualize(m, dev, rs).1;
      assert Names(out) == [out[0].name] + Names(out[1..]);
    }
  }

  lemma {:induction false} NamesConcat(xs: seq<Record>, ys: seq<Record>)
    ensures Names(xs + ys) == Names(xs) + Names(ys)
  {
    assert |Names(xs + ys)| == |Names(xs) + Names(ys)|;
  }

  lemma NamesOfReplies(out: seq<Record>, rest: seq<seq<Record>>, es: seq<Record>, n: nat)
    requires n <= |es| && Names(out) == Names(es[..n]) && Names(Flatten(rest)) == Names(es[n..])
    ensures Names(Flatten([out] + rest)) == Names(es)
  {
    assert ([out] + rest)[1..] == rest;
    NamesConcat(out, Flatten(rest));
    NamesConcat(es[..n], es[n..]);
    assert es[..n] + es[n..] == es;
  }

  /** If every buffer takes every record, as many calls as there are records hand out each of them once. */
  lemma {:induction false} ServeIsComplete(es: seq<Record>, m: Mapper, dev: int, rooms: seq<nat>)
    requires |rooms| >= |es|
    requires forall i, k | 0 <= i < |es| && 0 <= k < |rooms| :: es[i].reclen <= rooms[k]
    ensures Names(Flatten(Serve(es, m, dev, rooms).1)) == Names(es)
    decreases |rooms|
  {
    if rooms != [] {
      var n := Fitting(es, rooms[0]);
      var (m1, out) := Virtualize(m, dev, es[..n]);
      VirtualizeKeepsNames(m, dev, es[..n]);
      ServeIsComplete(es[n..], m1, dev, rooms[1..]);
      NamesOfReplies(out, Serve(es[n..], m1, dev, rooms[1..]).1, es, n);
    }
  }

  lemma ServedInFull(rs: seq<Record>, m: Mapper, dev: int, rooms: seq<nat>)
    requires |rooms| >= |rs| && forall r, k | r in rs && 0 <= k < |rooms| :: r.reclen <= rooms[k]
    ensures Names(Flatten(Serve(Sort(rs), m, dev, rooms).1)) == Names(Sort(rs))
  {
    SortKeepsRecords(rs);
    forall i, k | 0 <= i < |Sort(rs)| && 0 <= k < |rooms|
      ensures Sort(rs)[i].reclen <= rooms[k]
    {
      assert Sort(rs)[i] in rs;
    }
    ServeIsComplete(Sort(rs), m, dev, rooms);
  }

  /** The guest is given every name of the directory, once, in descending order. */
  lemma ListingIsComplete(w: World, dev: int, chunks: seq<seq<Record>>, dir: map<string, Listed>, m: Mapper, rooms: seq<nat>)
    requires Lists(w, dev, Flatten(chunks), dir) && rooms != [] && |rooms| >= |Flatten(chunks)|
    requires forall r, k | r in Flatten(chunks) && 0 <= k < |rooms| :: r.reclen <= rooms[k]
    ensures var given := Names(Flatten(Calls(FRESH_STORE, m, dev, Reading(chunks, rooms)).2));
            Strict(given) && forall n :: n in given <==> n in dir
  {
    var rs := Flatten(chunks);
    assert [] + rs == rs;
    ReadingIsServed(FRESH_STORE, m, dev, chunks, rooms);
    SortStrict(rs);
    ServedInFull(rs, m, dev, rooms);
  }

  /** An empty reply tells the guest that it has seen the whole directory. It is given as well when
      the next record does not fit. */
  lemma EmptyReplyIff(s: Store, m: Mapper, dev: int, room: nat)
    ensures Dents(s, m, dev, End, room).2 == Filled([]) <==> Pending(s) == [] || Pending(s)[0].reclen > room
  {
  }

  lemma {:induction false} NothingToServe(m: Mapper, dev: int, rooms: seq<nat>)
    ensures Flatten(Serve([], m, dev, rooms).1) == []
    decreases |rooms|
  {
    if rooms != [] {
      NothingToServe(m, dev, rooms[1..]);
      var rest := Serve([], m, dev, rooms[1..]).1;
      assert ([[]] + rest)[1..] == rest;
    }
  }

  /** A directory that is read to its end again through the same descriptor, after the guest has taken
      all that was pending, is listed in full exactly if no reply has been given on it before, or it
      is empty: the store sorts only once. */
  lemma SecondListingIff(s: Store, m: Mapper, dev: int, chunks: seq<seq<Record>>, rooms: seq<nat>)
    requires Pending(s) == [] && rooms != [] && |rooms| >= |Flatten(chunks)|
    requires forall r, k | r in Flatten(chunks) && 0 <= k < |rooms| :: r.reclen <= rooms[k]
    ensures Names(Flatten(Calls(s, m, dev, Reading(chunks, rooms)).2)) == Names(Sort(Flatten(chunks)))
            <==> !s.sorted || Flatten(chunks) == []
  {
    var rs := Flatten(chunks);
    ReadingIsServed(s, m, dev, chunks, rooms);
    SortKeepsRecords(rs);
    if s.sorted {
      NothingToServe(m, dev, rooms);
    } else {
      SortKeepsRecords(s.raw);
      assert s.raw + rs == rs;
      ServedInFull(rs, m, dev, rooms);
    }
  }
}
