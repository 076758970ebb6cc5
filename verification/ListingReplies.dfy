/** What a guest finds in each reply of getdents: records that fit its buffer, as many of them as fit,
    each as the directory has it but for a zero offset and the number that stat shows
    (include/directoryEntries.hpp, include/dettraceSystemCall.hpp). */
module ListingReplies {
  import opened HostFiles
  import opened DirectoryListing

  // ---- a reply fills the buffer and no more ----

  function Bytes(rs: seq<Record>): nat {
    if rs == [] then 0 else rs[0].reclen + Bytes(rs[1..])
  }

  lemma {:induction false} LongestPrefix(rs: seq<Record>, room: nat)
    ensures var n := Fitting(rs, room);
            Bytes(rs[..n]) <= room && (n < |rs| ==> Bytes(rs[..n]) + rs[n].reclen > room)
    decreases |rs|
  {
    if rs != [] && rs[0].reclen <= room {
      LongestPrefix(rs[1..], room - rs[0].reclen);
      var n := Fitting(rs, room);
      assert rs[..n][1..] == rs[1..][..n - 1];
    }
  }

  /** The entry as it is, with a number and an offset of the tracer's choice. */
  ghost predicate SameEntry(given: Record, r: Record) {
    given.name == r.name && given.kind == r.kind && given.reclen == r.reclen && given.off == 0
  }

  /** Numbers that have been handed out stay. */
  ghost predicate Extends(m: Mapper, m': Mapper) {
    forall r | r in m.table :: r in m'.table && m'.table[r] == m.table[r]
  }

  lemma {:induction false} VirtualizeKeepsEntries(m: Mapper, dev: int, rs: seq<Record>)
    ensures var (m', out) := Virtualize(m, dev, rs);
            && Extends(m, m') && |out| == |rs| && Bytes(out) == Bytes(rs)
            && (forall i | 0 <= i < |rs| :: SameEntry(out[i], rs[i]))
            && (forall i | 0 <= i < |rs| :: DevIno(dev, rs[i].ino) in m'.table && out[i].ino == m'.table[DevIno(dev, rs[i].ino)])
    decreases |rs|
  {
    if rs != [] {
      var (m1, v) := LookUp(m, DevIno(dev, rs[0].ino));
      VirtualizeKeepsEntries(m1, dev, rs[1..]);
      var (m2, rest) := Virtualize(m1, dev, rs[1..]);
      var out := [rs[0].(ino := v, off := 0)] + rest;
      assert out[1..] == rest;
      forall i | 0 <= i < |rs|
        ensures SameEntry(out[i], rs[i])
        ensures DevIno(dev, rs[i].ino) in m2.table && out[i].ino == m2.table[DevIno(dev, rs[i].ino)]
      {
        if i > 0 {
          assert out[i] == rest[i - 1] && rs[i] == rs[1..][i - 1];
        }
      }
    }
  }

  /** The reply at the end of a directory takes the first pending records as they are; they fit the
      guest's buffer, and one more would not have. */
  lemma ReplyFits(s: Store, m: Mapper, dev: int, room: nat)
    ensures var (s', m', reply) := Dents(s, m, dev, End, room);
            && reply.Filled? && s'.sorted && s'.raw == s.raw
            && Bytes(reply.records) <= room
            && (s'.entries != [] ==> Bytes(reply.records) + s'.entries[0].reclen > room)
            && |reply.records| + |s'.entries| == |Pending(s)|
            && s'.entries == Pending(s)[|reply.records|..]
            && (forall i | 0 <= i < |reply.records| :: SameEntry(reply.records[i], Pending(s)[i]))
  {
    var n := Fitting(Pending(s), room);
    LongestPrefix(Pending(s), room);
    VirtualizeKeepsEntries(m, dev, Pending(s)[..n]);
  }

  /** The buffer sizes of the calls that are answered with the end of the directory. */
  function EndRooms(calls: seq<Call>): seq<nat> {
    if calls == [] then []
    else (if calls[0].answer.End? then [calls[0].room] else []) + EndRooms(calls[1..])
  }

  ghost predicate AllFit(replies: seq<seq<Record>>, rooms: seq<nat>) {
    |replies| == |rooms| && forall k | 0 <= k < |replies| :: Bytes(replies[k]) <= rooms[k]
  }

  /** Over any series of answers, each end of the directory gets one reply, which fits its buffer. */
  lemma {:induction false} EveryReplyFits(s: Store, m: Mapper, dev: int, calls: seq<Call>)
    ensures AllFit(Calls(s, m, dev, calls).2, EndRooms(calls))
    decreases |calls|
  {
    if calls != [] {
      var (s1, m1, reply) := Dents(s, m, dev, calls[0].answer, calls[0].room);
      EveryReplyFits(s1, m1, dev, calls[1..]);
      var rest, rooms := Calls(s1, m1, dev, calls[1..]).2, EndRooms(calls[1..]);
      if calls[0].answer.End? {
        ReplyFits(s, m, dev, calls[0].room);
        OneMoreFits(reply.records, calls[0].room, rest, rooms);
      } else {
        assert [] + rooms == rooms;
      }
    }
  }

  lemma OneMoreFits(rs: seq<Record>, room: nat, rest: seq<seq<Record>>, rooms: seq<nat>)
    requires Bytes(rs) <= room && AllFit(rest, rooms)
    ensures AllFit([rs] + rest, [room] + rooms)
  {
  }

  /** What is served next is the first of what is pending. */
  lemma {:induction false} FirstServed(es: seq<Record>, m: Mapper, dev: int, rooms: seq<nat>)
    ensures var given := Flatten(Serve(es, m, dev, rooms).1);
            given != [] ==> es != [] && given[0].reclen == es[0].reclen
    decreases |rooms|
  {
    if rooms != [] {
      var n := Fitting(es, rooms[0]);
      var (m1, first) := Virtualize(m, dev, es[..n]);
      VirtualizeKeepsEntries(m, dev, es[..n]);
      FirstServed(es[n..], m1, dev, rooms[1..]);
      var rest := Serve(es[n..], m1, dev, rooms[1..]).1;
      assert ([first] + rest)[1..] == rest;
      if n > 0 {
        assert SameEntry(first[0], es[0]);
      } else {
        assert es[n..] == es && first == [] && first + Flatten(rest) == Flatten(rest);
      }
    }
  }

  lemma {:induction false} ServeIsGreedy(es: seq<Record>, m: Mapper, dev: int, rooms: seq<nat>, k: nat)
    requires k < |rooms|
    ensures var out := Serve(es, m, dev, rooms).1;
            && |out| == |rooms| && Bytes(out[k]) <= rooms[k]
            && (Flatten(out[k + 1..]) != [] ==> Bytes(out[k]) + Flatten(out[k + 1..])[0].reclen > rooms[k])
    decreases |rooms|
  {
    var n := Fitting(es, rooms[0]);
    LongestPrefix(es, rooms[0]);
    VirtualizeKeepsEntries(m, dev, es[..n]);
    var (m1, first) := Virtualize(m, dev, es[..n]);
    var rest := Serve(es[n..], m1, dev, rooms[1..]).1;
    assert ([first] + rest)[1..] == rest;
    if k == 0 {
      FirstServed(es[n..], m1, dev, rooms[1..]);
      ServeCount(es[n..], m1, dev, rooms[1..]);
    } else {
      ServeIsGreedy(es[n..], m1, dev, rooms[1..], k - 1);
      assert ([first] + rest)[k + 1..] == rest[k..];
    }
  }

  lemma {:induction false} ServeCount(es: seq<Record>, m: Mapper, dev: int, rooms: seq<nat>)
    ensures |Serve(es, m, dev, rooms).1| == |rooms|
    decreases |rooms|
  {
    if rooms != [] {
      var n := Fitting(es, rooms[0]);
      ServeCount(es[n..], Virtualize(m, dev, es[..n]).0, dev, rooms[1..]);
    }
  }

  /** When a directory is read, each reply fits its buffer, and if more is given later, the next
      record would not have fitted. */
  lemma RepliesAreFull(m: Mapper, dev: int, chunks: seq<seq<Record>>, rooms: seq<nat>, k: nat)
    requires k < |rooms|
    ensures var out := Calls(FRESH_STORE, m, dev, Reading(chunks, rooms)).2;
            && |out| == |rooms| && Bytes(out[k]) <= rooms[k]
            && (Flatten(out[k + 1..]) != [] ==> Bytes(out[k]) + Flatten(out[k + 1..])[0].reclen > rooms[k])
  {
    ReadingIsServed(FRESH_STORE, m, dev, chunks, rooms);
    ServeIsGreedy(Sort([] + Flatten(chunks)), m, dev, rooms, k);
  }

  // ---- errors ----

  function WithoutFailures(calls: seq<Call>): seq<Call> {
    if calls == [] then []
    else (if calls[0].answer.Failed? then [] else [calls[0]]) + WithoutFailures(calls[1..])
  }

  /** An error goes to the guest and changes nothing else. */
  lemma ErrorIsPassedOn(s: Store, m: Mapper, dev: int, room: nat)
    ensures Dents(s, m, dev, Failed, room) == (s, m, PassedOn)
  {
  }

  /** A listing with errors on the way goes on as if there had been none. */
  lemma {:induction false} FailuresDoNotShow(s: Store, m: Mapper, dev: int, calls: seq<Call>)
    ensures Calls(s, m, dev, WithoutFailures(calls)) == Calls(s, m, dev, calls)
    decreases |calls|
  {
    if calls != [] {
      var (s1, m1, reply) := Dents(s, m, dev, calls[0].answer, calls[0].room);
      FailuresDoNotShow(s1, m1, dev, calls[1..]);
      var kept := WithoutFailures(calls);
      if calls[0].answer.Failed? {
        assert kept == WithoutFailures(calls[1..]);
      } else {
        assert kept[0] == calls[0] && kept[1..] == WithoutFailures(calls[1..]);
      }
    }
  }

  // ---- what the guest reads of an entry ----

  /** The record tells the entry's kind and length, and the number that stat shows of its file. */
  ghost predicate Tells(w: World, m: Mapper, r: Record, dir: map<string, Listed>) {
    && r.name in dir && r.off == 0 && r.kind == dir[r.name].kind && r.reclen == dir[r.name].reclen
    && dir[r.name].file in w.live && w.live[dir[r.name].file] in m.table
    && r.ino == m.table[w.live[dir[r.name].file]]
  }

  lemma VirtualizeTells(w: World, dev: int, rs: seq<Record>, dir: map<string, Listed>, m: Mapper)
    requires forall i | 0 <= i < |rs| :: Matches(w, dev, rs[i], dir)
    ensures var (m', out) := Virtualize(m, dev, rs);
            Extends(m, m') && forall i | 0 <= i < |out| :: Tells(w, m', out[i], dir)
  {
    VirtualizeKeepsEntries(m, dev, rs);
    var (m', out) := Virtualize(m, dev, rs);
    forall i | 0 <= i < |out|
      ensures Tells(w, m', out[i], dir)
    {
      assert Matches(w, dev, rs[i], dir) && SameEntry(out[i], rs[i]);
    }
  }

  lemma {:induction false} ServeTells(w: World, dev: int, es: seq<Record>, dir: map<string, Listed>, m: Mapper, rooms: seq<nat>)
    requires forall i | 0 <= i < |es| :: Matches(w, dev, es[i], dir)
    ensures var (m', out) := Serve(es, m, dev, rooms);
            Extends(m, m') && forall k, i | 0 <= k < |out| && 0 <= i < |out[k]| :: Tells(w, m', out[k][i], dir)
    decreases |rooms|
  {
    if rooms != [] {
      var n := Fitting(es, rooms[0]);
      VirtualizeTells(w, dev, es[..n], dir, m);
      var (m1, first) := Virtualize(m, dev, es[..n]);
      ServeTells(w, dev, es[n..], dir, m1, rooms[1..]);
      var (m2, rest) := Serve(es[n..], m1, dev, rooms[1..]);
      var out := [first] + rest;
      forall k, i | 0 <= k < |out| && 0 <= i < |out[k]|
        ensures Tells(w, m2, out[k][i], dir)
      {
        if k == 0 {
          assert Tells(w, m1, first[i], dir);
        } else {
          assert Tells(w, m2, rest[k - 1][i], dir);
        }
      }
    }
  }

  /** Every record the guest is given tells what the directory says of its name, and the number that
      stat shows afterwards. */
  lemma ListingTells(w: World, dev: int, chunks: seq<seq<Record>>, dir: map<string, Listed>, rooms: seq<nat>, pick: DevIno)
    requires Lists(w, dev, Flatten(chunks), dir) && rooms != []
    ensures var (_, m', out) := Calls(FRESH_STORE, w.g.inodes, dev, Reading(chunks, rooms));
            forall k, i | 0 <= k < |out| && 0 <= i < |out[k]| ::
              && Tells(w, m', out[k][i], dir)
              && Play(WithInodes(w, m'), Stat(dir[out[k][i].name].file), pick).1[0].ino == out[k][i].ino
  {
    var rs := Flatten(chunks);
    assert [] + rs == rs;
    ReadingIsServed(FRESH_STORE, w.g.inodes, dev, chunks, rooms);
    SortKeepsRecords(rs);
    forall i | 0 <= i < |Sort(rs)|
      ensures Matches(w, dev, Sort(rs)[i], dir)
    {
      assert Sort(rs)[i] in rs;
    }
    ServeTells(w, dev, Sort(rs), dir, w.g.inodes, rooms);
    var (_, m', out) := Calls(FRESH_STORE, w.g.inodes, dev, Reading(chunks, rooms));
    forall k, i | 0 <= k < |out| && 0 <= i < |out[k]|
      ensures Tells(w, m', out[k][i], dir)
      ensures Play(WithInodes(w, m'), Stat(dir[out[k][i].name].file), pick).1[0].ino == out[k][i].ino
    {
      assert Tells(w, m', out[k][i], dir);
    }
  }
}
