/** The lexical path normaliser and the test that hides the host's CPU topology
    (src/utilSystemCalls.cpp). */
module PathNormaliser {

  // ---- splitting and walking ----

  predicate NoSlash(s: string) {
    forall i | 0 <= i < |s| :: s[i] != '/'
  }

  /** Where the first slash at or behind `i` is, or the end. */
  function FindSlash(s: string, i: nat): (k: nat)
    requires i <= |s|
    ensures i <= k <= |s|
    ensures forall j | i <= j < k :: s[j] != '/'
    ensures k < |s| ==> s[k] == '/'
    decreases |s| - i
  {
    if i == |s| || s[i] == '/' then i else FindSlash(s, i + 1)
  }

  /** The components between the slashes, empty ones included. */
  function Split(s: string): (cs: seq<string>)
    ensures |cs| >= 1 && forall i | 0 <= i < |cs| :: NoSlash(cs[i])
    decreases |s|
  {
    var k := FindSlash(s, 0);
    if k == |s| then [s] else [s[..k]] + Split(s[k + 1..])
  }

  /** One step of the kernel's walk: ".." goes up, and stays at the root. */
  function Enter(at: seq<string>, c: string): seq<string> {
    if c == ".." then (if at == [] then [] else at[..|at| - 1])
    else if c == "" || c == "." then at
    else at + [c]
  }

  function Walk(at: seq<string>, cs: seq<string>): seq<string>
    decreases |cs|
  {
    if cs == [] then at else Walk(Enter(at, cs[0]), cs[1..])
  }

  /** The components an absolute path names once it has been walked from the root. */
  function Names(path: string): seq<string> {
    Walk([], Split(path))
  }

  function Join(cs: seq<string>): string {
    if cs == [] then "" else "/" + cs[0] + Join(cs[1..])
  }

  function Render(cs: seq<string>): string {
    if Join(cs) == "" then "/" else Join(cs)
  }

  predicate IsAbsolute(path: string) {
    path != "" && path[0] == '/'
  }

  function Normalised(path: string): string {
    if IsAbsolute(path) then Render(Names(path)) else path
  }

  /** What the source's loop still has to walk at position `i`. */
  function Ahead(path: string, i: nat): seq<string> {
    if i <= |path| then Split(path[i..]) else []
  }

  /** The walk as the source's loop takes it, from position `i` on. */
  function WalkFrom(path: string, i: nat, at: seq<string>): seq<string>
    decreases |path| + 1 - i
  {
    if i >= |path| then at
    else
      var end := FindSlash(path, i);
      WalkFrom(path, end + 1, Enter(at, path[i..end]))
  }

  /** The loop of the source: a stack of components, popped by "..", joined at the end. */
  method LexicallyNormalizePath(path: string) returns (r: string)
    ensures r == Normalised(path)
  {
    if path == "" || path[0] != '/' {
      return path;
    }
    var parts := ComponentLoop(path);
    r := JoinLoop(parts);
    if r == "" {
      r := "/";
    }
  }

  method PushComponent(parts: seq<string>, component: string) returns (pushed: seq<string>)
    ensures pushed == Enter(parts, component)
  {
    pushed := parts;
    if component == ".." {
      if parts != [] {
        pushed := parts[..|parts| - 1];
      }
    } else if component != "" && component != "." {
      pushed := parts + [component];
    }
  }

  method ComponentLoop(path: string) returns (parts: seq<string>)
    ensures parts == Names(path)
  {
    parts := [];
    var i := 0;
    while i < |path|
      invariant 0 <= i <= |path| + 1
      invariant WalkFrom(path, i, parts) == WalkFrom(path, 0, [])
    {
      var end := FindSlash(path, i);
      parts := PushComponent(parts, path[i..end]);
      i := end + 1;
    }
    assert path[0..] == path;
    WalkFromWalks(path, 0, []);
  }

  method JoinLoop(parts: seq<string>) returns (r: string)
    ensures r == Join(parts)
  {
    r := "";
    for j := 0 to |parts|
      invariant r == Join(parts[..j])
    {
      JoinAppend(parts[..j], parts[j]);
      assert parts[..j + 1] == parts[..j] + [parts[j]];
      r := r + "/" + parts[j];
    }
    assert parts[..|parts|] == parts;
  }

  /** From `i` the walk meets the component up to the next slash, then what is behind it. */
  lemma AheadSplits(path: string, i: nat)
    requires i < |path|
    ensures var end := FindSlash(path, i);
            Ahead(path, i) == [path[i..end]] + Ahead(path, end + 1)
  {
    var end := FindSlash(path, i);
    var s := path[i..];
    if end < |path| {
      assert s == path[i..end] + "/" + path[end + 1..];
      SplitCons(path[i..end], path[end + 1..]);
    } else {
      assert s == path[i..end];
      SplitPlain(s);
    }
  }

  lemma WalkOne(at: seq<string>, c: string, rest: seq<string>)
    ensures Walk(at, [c] + rest) == Walk(Enter(at, c), rest)
  {
    assert ([c] + rest)[1..] == rest;
  }

  lemma {:induction false} WalkFromWalks(path: string, i: nat, at: seq<string>)
    requires i <= |path| + 1
    ensures WalkFrom(path, i, at) == Walk(at, Ahead(path, i))
    decreases |path| + 1 - i
  {
    if i >= |path| {
      NothingAhead(path, i, at);
    } else {
      var end := FindSlash(path, i);
      AheadSplits(path, i);
      WalkOne(at, path[i..end], Ahead(path, end + 1));
      WalkFromWalks(path, end + 1, Enter(at, path[i..end]));
    }
  }

  lemma NothingAhead(path: string, i: nat, at: seq<string>)
    requires i == |path| || i == |path| + 1
    ensures Walk(at, Ahead(path, i)) == at
  {
    if i == |path| {
      assert path[i..] == "";
      SplitPlain("");
      assert [""][1..] == [];
      assert Walk(at, [""]) == Walk(Enter(at, ""), []);
    }
  }

  lemma FindFirst(s: string, k: nat)
    requires k <= |s| && (forall j | 0 <= j < k :: s[j] != '/') && (k < |s| ==> s[k] == '/')
    ensures FindSlash(s, 0) == k
  {
  }

  lemma SplitPlain(c: string)
    requires NoSlash(c)
    ensures Split(c) == [c]
  {
    FindFirst(c, |c|);
  }

  lemma SplitCons(c: string, rest: string)
    requires NoSlash(c)
    ensures Split(c + "/" + rest) == [c] + Split(rest)
  {
    var s := c + "/" + rest;
    FindFirst(s, |c|);
    assert s[..|c|] == c;
    assert s[|c| + 1..] == rest;
  }

  lemma {:induction false} JoinAppend(cs: seq<string>, c: string)
    ensures Join(cs + [c]) == Join(cs) + "/" + c
  {
    if cs == [] {
      assert [c][1..] == [];
      assert cs + [c] == [c];
    } else {
      assert (cs + [c])[1..] == cs[1..] + [c];
      JoinAppend(cs[1..], c);
    }
  }

  // ---- algebra of splitting, walking and joining ----

  lemma SlashesAssociate(c: string, rest: string, b: string)
    ensures (c + "/" + rest) + "/" + b == c + "/" + (rest + "/" + b)
  {
  }

  lemma SplitConsConcat(c: string, rest: string, b: string)
    requires NoSlash(c) && Split(rest + "/" + b) == Split(rest) + Split(b)
    ensures Split((c + "/" + rest) + "/" + b) == Split(c + "/" + rest) + Split(b)
  {
    SlashesAssociate(c, rest, b);
    SplitCons(c, rest);
    SplitCons(c, rest + "/" + b);
  }

  lemma {:induction false} SplitConcat(a: string, b: string)
    ensures Split(a + "/" + b) == Split(a) + Split(b)
    decreases |a|
  {
    var k := FindSlash(a, 0);
    if k == |a| {
      SplitPlain(a);
      SplitCons(a, b);
    } else {
      var c, rest := a[..k], a[k + 1..];
      assert a == c + "/" + rest;
      SplitConcat(rest, b);
      SplitConsConcat(c, rest, b);
    }
  }

  lemma {:induction false} WalkConcat(at: seq<string>, a: seq<string>, b: seq<string>)
    ensures Walk(at, a + b) == Walk(Walk(at, a), b)
    decreases |a|
  {
    if a == [] {
      assert a + b == b;
    } else {
      assert (a + b)[1..] == a[1..] + b;
      WalkConcat(Enter(at, a[0]), a[1..], b);
    }
  }

  /** A component that a walk keeps. */
  predicate IsName(c: string) {
    c != "" && c != "." && c != ".." && NoSlash(c)
  }

  predicate AreNames(cs: seq<string>) {
    forall i | 0 <= i < |cs| :: IsName(cs[i])
  }

  lemma {:induction false} WalkKeepsNames(at: seq<string>, cs: seq<string>)
    requires AreNames(at) && forall i | 0 <= i < |cs| :: NoSlash(cs[i])
    ensures AreNames(Walk(at, cs))
    decreases |cs|
  {
    if cs != [] {
      WalkKeepsNames(Enter(at, cs[0]), cs[1..]);
    }
  }

  lemma {:induction false} WalkNames(at: seq<string>, cs: seq<string>)
    requires AreNames(cs)
    ensures Walk(at, cs) == at + cs
    decreases |cs|
  {
    if cs == [] {
      assert at + cs == at;
    } else {
      WalkNames(at + [cs[0]], cs[1..]);
      assert at + [cs[0]] + cs[1..] == at + cs;
    }
  }

  /** Splitting what was joined gives back the components, behind the empty one before the first slash. */
  lemma {:induction false} SplitJoin(cs: seq<string>)
    requires AreNames(cs)
    ensures Split(Join(cs)) == [""] + cs
    decreases |cs|
  {
    if cs == [] {
      SplitPlain("");
    } else {
      SplitJoinTail(cs);
      SplitCons("", Join(cs)[1..]);
      assert "" + "/" + Join(cs)[1..] == Join(cs);
    }
  }

  lemma DropSlash(c: string, rest: string)
    ensures ("/" + c + rest)[0] == '/' && ("/" + c + rest)[1..] == c + rest
  {
  }

  lemma TakeSlash(c: string, rest: string)
    requires rest != "" && rest[0] == '/'
    ensures c + rest == c + "/" + rest[1..]
  {
  }

  lemma {:induction false} SplitJoinTail(cs: seq<string>)
    requires AreNames(cs) && cs != []
    ensures Join(cs)[0] == '/' && Split(Join(cs)[1..]) == cs
    decreases |cs|
  {
    var c, rest := cs[0], Join(cs[1..]);
    assert IsName(c) && cs == [c] + cs[1..];
    DropSlash(c, rest);
    if cs[1..] == [] {
      assert c + rest == c;
      SplitPlain(c);
    } else {
      SplitJoinTail(cs[1..]);
      TakeSlash(c, rest);
      SplitCons(c, rest[1..]);
    }
  }

  lemma NamesAreNames(path: string)
    ensures AreNames(Names(path))
  {
    WalkKeepsNames([], Split(path));
  }

  /** Rendering names and walking the result gives them back. */
  lemma NamesOfRendered(cs: seq<string>)
    requires AreNames(cs)
    ensures IsAbsolute(Render(cs)) && Names(Render(cs)) == cs
    ensures Split(Render(cs)) == [""] + if cs == [] then [""] else cs
  {
    if cs == [] {
      SplitPlain("");
      SplitConcat("", "");
      assert "" + "/" + "" == "/";
      assert Walk([], ["", ""]) == Walk([], [""]) by {
        assert ["", ""][1..] == [""];
      }
      assert Walk([], [""]) == [] by {
        assert [""][1..] == [];
      }
    } else {
      assert Join(cs)[0] == '/';
      SplitJoin(cs);
      assert ([""] + cs)[1..] == cs;
      assert Walk([], [""] + cs) == Walk([], cs);
      WalkNames([], cs);
      assert [] + cs == cs;
    }
  }

  // ---- the normaliser is a canonical form ----

  /** The output splits into exactly the components that were kept, and names the same file. */
  lemma NormalisedSplits(path: string)
    requires IsAbsolute(path)
    ensures IsAbsolute(Normalised(path)) && Names(Normalised(path)) == Names(path)
    ensures Split(Normalised(path)) == [""] + if Names(path) == [] then [""] else Names(path)
  {
    NamesAreNames(path);
    NamesOfRendered(Names(path));
  }

  lemma NormalisedIsIdempotent(path: string)
    ensures Normalised(Normalised(path)) == Normalised(path)
  {
    if IsAbsolute(path) {
      NormalisedSplits(path);
    }
  }

  /** Two absolute paths normalise alike exactly when they walk to the same place. */
  lemma NormalisedIsCanonical(a: string, b: string)
    requires IsAbsolute(a) && IsAbsolute(b)
    ensures Normalised(a) == Normalised(b) <==> Names(a) == Names(b)
  {
    NormalisedSplits(a);
    NormalisedSplits(b);
  }

  /** Normalising a directory first makes no difference to a path below it. */
  lemma NormalisedPrefix(a: string, b: string)
    requires IsAbsolute(a)
    ensures Normalised(Normalised(a) + "/" + b) == Normalised(a + "/" + b)
  {
    NormalisedSplits(a);
    SplitConcat(a, b);
    SplitConcat(Normalised(a), b);
    WalkConcat([], Split(a), Split(b));
    WalkConcat([], Split(Normalised(a)), Split(b));
    assert (a + "/" + b)[0] == '/' && (Normalised(a) + "/" + b)[0] == '/';
  }

  // ---- the same on strings: how each kind of component counts ----

  lemma NormalisedStep(a: string, c: string)
    requires IsAbsolute(a) && NoSlash(c)
    ensures IsAbsolute(a + "/" + c) && Names(a + "/" + c) == Enter(Names(a), c)
  {
    SplitConcat(a, c);
    SplitPlain(c);
    WalkConcat([], Split(a), [c]);
    assert [c][1..] == [];
    assert Walk(Names(a), [c]) == Walk(Enter(Names(a), c), []);
    assert (a + "/" + c)[0] == a[0];
  }

  /** A name is appended to what is before it. */
  lemma NameIsAppended(a: string, n: string)
    requires IsAbsolute(a) && IsName(n)
    ensures Normalised(a + "/" + n) == (if Normalised(a) == "/" then "" else Normalised(a)) + "/" + n
  {
    NormalisedStep(a, n);
    JoinAppend(Names(a), n);
    NamesAreNames(a);
    RootHasNoNames(Names(a));
  }

  lemma RootHasNoNames(cs: seq<string>)
    requires AreNames(cs)
    ensures Render(cs) == "/" <==> cs == []
  {
    if cs != [] {
      assert IsName(cs[0]);
      assert |Join(cs)| >= 2;
    }
  }

  /** ".." takes back the name before it. */
  lemma UpUndoesName(a: string, n: string)
    requires IsAbsolute(a) && IsName(n)
    ensures Normalised(a + "/" + n + "/..") == Normalised(a)
  {
    NormalisedStep(a, n);
    NormalisedStep(a + "/" + n, "..");
    assert a + "/" + n + "/.." == (a + "/" + n) + "/" + "..";
    assert (Names(a) + [n])[..|Names(a)|] == Names(a);
  }

  /** ".." at the root stays there. */
  lemma UpStopsAtRoot(a: string)
    requires IsAbsolute(a) && Normalised(a) == "/"
    ensures Normalised(a + "/..") == "/"
  {
    NamesAreNames(a);
    RootHasNoNames(Names(a));
    NormalisedStep(a, "..");
    assert a + "/.." == a + "/" + "..";
  }

  /** "." and an empty component count for nothing. */
  lemma DotsAndSlashesDrop(a: string)
    requires IsAbsolute(a)
    ensures Normalised(a + "/.") == Normalised(a) && Normalised(a + "/") == Normalised(a)
  {
    NormalisedStep(a, ".");
    NormalisedStep(a, "");
    assert a + "/." == a + "/" + "." && a + "/" == a + "/" + "";
  }

  lemma RootIsNormal()
    ensures Normalised("/") == "/" && Normalised("/..") == "/"
  {
    SplitPlain("");
    SplitConcat("", "");
    assert "" + "/" + "" == "/";
    assert ["", ""][1..] == [""] && [""][1..] == [];
    assert Walk([], ["", ""]) == Walk([], [""]);
    SplitPlain("..");
    SplitConcat("", "..");
    assert "" + "/" + ".." == "/..";
    assert ["", ".."][1..] == [".."] && [".."][1..] == [];
    assert Walk([], ["", ".."]) == Walk([], [".."]);
  }

  // ---- the topology test ----

  /** The lambda isUnder: a prefix that ends at a component boundary. */
  predicate IsUnder(clean: string, dir: string) {
    dir <= clean && (|clean| == |dir| || clean[|dir|] == '/')
  }

  const NODES: seq<string> := ["sys", "devices", "system", "node"]
  const BUS: seq<string> := ["sys", "bus", "cpu"]
  const CPUS: seq<string> := ["sys", "devices", "system", "cpu"]

  predicate IsHostCpuTopologyPath(path: string, cpuTreeIsOurs: bool) {
    var clean := Normalised(path);
    || IsUnder(clean, "/sys/devices/system/node")
    || IsUnder(clean, "/sys/bus/cpu")
    || (!cpuTreeIsOurs && IsUnder(clean, "/sys/devices/system/cpu"))
  }

  lemma {:induction false} JoinConcat(a: seq<string>, b: seq<string>)
    ensures Join(a + b) == Join(a) + Join(b)
    decreases |a|
  {
    if a == [] {
      assert a + b == b;
    } else {
      assert (a + b)[1..] == a[1..] + b;
      JoinConcat(a[1..], b);
    }
  }

  /** On rendered names, the string test is the test for a prefix of components. */
  lemma UnderIsPrefix(ns: seq<string>, ds: seq<string>)
    requires AreNames(ns) && AreNames(ds) && ds != []
    ensures IsUnder(Render(ns), Join(ds)) <==> ds <= ns
  {
    if ds <= ns {
      var more := ns[|ds|..];
      assert ns == ds + more;
      JoinConcat(ds, more);
      assert Join(ds)[0] == '/';
    }
    if IsUnder(Render(ns), Join(ds)) {
      UnderMeansPrefix(ns, ds);
    }
  }

  lemma UnderMeansPrefix(ns: seq<string>, ds: seq<string>)
    requires AreNames(ns) && AreNames(ds) && ds != []
    requires IsUnder(Render(ns), Join(ds))
    ensures ds <= ns
  {
    NamesOfRendered(ns);
    SplitJoin(ds);
    var more := SplitUnder(Render(ns), Join(ds));
    var tail := if ns == [] then [""] else ns;
    SameTail(tail, ds, more);
    assert IsName(ds[0]);
    assert tail[0] == ds[0];
  }

  lemma SplitUnder(clean: string, dir: string) returns (more: seq<string>)
    requires IsUnder(clean, dir)
    ensures Split(clean) == Split(dir) + more
  {
    if |clean| == |dir| {
      assert clean == dir;
      more := [];
    } else {
      var rest := clean[|dir| + 1..];
      assert clean == dir + "/" + rest;
      SplitConcat(dir, rest);
      more := Split(rest);
    }
  }

  lemma SameTail(tail: seq<string>, ds: seq<string>, more: seq<string>)
    requires [""] + tail == [""] + ds + more
    ensures tail == ds + more
  {
    assert ([""] + tail)[1..] == tail;
    assert ([""] + ds + more)[1..] == ds + more;
  }

  /** Whatever the spelling, the test holds exactly of the absolute paths that walk to one of the
      hidden directories or below it. */
  lemma TopologyTestIsComponentPrefix(path: string, cpuTreeIsOurs: bool)
    ensures IsHostCpuTopologyPath(path, cpuTreeIsOurs) <==>
            && IsAbsolute(path)
            && (|| NODES <= Names(path)
                || BUS <= Names(path)
                || (!cpuTreeIsOurs && CPUS <= Names(path)))
  {
    HiddenNames();
    NodesDirectory();
    BusDirectory();
    CpusDirectory();
    if IsAbsolute(path) {
      NamesAreNames(path);
      UnderIsPrefix(Names(path), NODES);
      UnderIsPrefix(Names(path), BUS);
      UnderIsPrefix(Names(path), CPUS);
    }
  }

  /** A detour through a name and ".." hides nothing, and makes nothing look hidden. */
  lemma DetourDoesNotHide(a: string, n: string, b: string, cpuTreeIsOurs: bool)
    requires IsAbsolute(a) && IsName(n)
    ensures IsHostCpuTopologyPath(a + "/" + n + "/.." + "/" + b, cpuTreeIsOurs) == IsHostCpuTopologyPath(a + "/" + b, cpuTreeIsOurs)
  {
    UpUndoesName(a, n);
    var detour := a + "/" + n + "/..";
    assert detour[0] == a[0];
    NormalisedPrefix(detour, b);
    NormalisedPrefix(a, b);
  }

  lemma JoinThree(a: string, b: string, c: string)
    ensures Join([a, b, c]) == "/" + a + ("/" + b + ("/" + c))
  {
    assert [a, b, c][1..] == [b, c] && [b, c][1..] == [c] && [c][1..] == [];
    assert Join([c]) == "/" + c;
    assert Join([b, c]) == "/" + b + ("/" + c);
  }

  lemma JoinFour(a: string, b: string, c: string, d: string)
    ensures Join([a, b, c, d]) == "/" + a + ("/" + b + ("/" + c + ("/" + d)))
  {
    JoinThree(b, c, d);
    assert [a, b, c, d][1..] == [b, c, d];
  }

  lemma HiddenNames()
    ensures AreNames(NODES) && AreNames(BUS) && AreNames(CPUS)
  {
  }

  lemma NodesDirectory()
    ensures Join(NODES) == "/sys/devices/system/node"
  {
    JoinFour("sys", "devices", "system", "node");
  }

  lemma BusDirectory()
    ensures Join(BUS) == "/sys/bus/cpu"
  {
    JoinThree("sys", "bus", "cpu");
  }

  lemma CpusDirectory()
    ensures Join(CPUS) == "/sys/devices/system/cpu"
  {
    JoinFour("sys", "devices", "system", "cpu");
  }
}
