/** Writing code into a tracee a word at a time: the vDSO replacements and the stub injected after
    execve (src/execution.cpp). PTRACE_PEEKTEXT and PTRACE_POKETEXT move whole words; what they
    must come to is said byte by byte. */
module CodePatching {

  type Byte = bv8
  type Memory = map<int, Byte>
  type Word = seq<Byte>

  /** A function of the vDSO: where it is, its replacement, and the word that fills the rest. */
  datatype Symbol = Symbol(offset: int, size: nat, code: seq<Byte>, poison: Word)

  predicate Mapped(m: Memory, addr: int, n: int) {
    forall x | addr <= x < addr + n :: x in m
  }

  /** Bytes in memory order, so a word's bytes are the ones memcpy sees. */
  function Peek(m: Memory, addr: int, n: nat): seq<Byte>
    requires Mapped(m, addr, n)
  {
    seq(n, i requires 0 <= i < n => m[addr + i])
  }

  function Poke(m: Memory, addr: int, bytes: seq<Byte>): Memory {
    map x | x in m :: if addr <= x < addr + |bytes| then bytes[x - addr] else m[x]
  }

  /** A poke changes the bytes it writes and no others. */
  lemma PokedByte(m: Memory, addr: int, bytes: seq<Byte>, x: int)
    requires x in m
    ensures Poke(m, addr, bytes).Keys == m.Keys
    ensures Poke(m, addr, bytes)[x] == if addr <= x < addr + |bytes| then bytes[x - addr] else m[x]
  {
  }

  /** The number of words it takes to hold `size` bytes. */
  function Words(size: nat, w: nat): (k: nat)
    requires w > 0
    ensures (k - 1) * w < size <= k * w
  {
    var k := (size + w - 1) / w;
    DivBounds(size + w - 1, w);
    assert k * w <= size + w - 1 < k * w + w;
    assert (k - 1) * w == k * w - w;
    k
  }

  lemma DivBounds(x: nat, w: nat)
    requires w > 0
    ensures (x / w) * w <= x < (x / w) * w + w
  {
  }

  lemma WordFits(i: nat, k: nat, w: nat)
    requires i < k
    ensures i * w + w <= k * w
  {
    assert (k - i - 1) * w >= 0;
    assert k * w == i * w + w + (k - i - 1) * w;
  }

  lemma ByteInWord(i: nat, w: nat, b: nat)
    requires b < w
    ensures (i * w + b) % w == b
  {
    var x := i * w + b;
    var q := x / w;
    assert x == q * w + x % w;
    if q < i {
      WordFits(q, i, w);
    } else if i < q {
      WordFits(i, q, w);
    }
  }

  // ---- the byte-level meaning ----

  function PatchByte(sym: Symbol, pos: nat, w: nat): Byte
    requires 0 < w == |sym.poison|
  {
    if pos < |sym.code| then sym.code[pos] else sym.poison[pos % w]
  }

  predicate Covers(base: int, sym: Symbol, x: int) {
    base + sym.offset <= x < base + sym.offset + sym.size
  }

  function Patched(m: Memory, base: int, sym: Symbol, w: nat): Memory
    requires 0 < w == |sym.poison|
  {
    map x | x in m :: if Covers(base, sym, x) then PatchByte(sym, x - (base + sym.offset), w) else m[x]
  }

  predicate WordSized(syms: seq<Symbol>, w: nat) {
    0 < w && forall i | 0 <= i < |syms| :: |syms[i].poison| == w
  }

  function PatchedAll(m: Memory, base: int, syms: seq<Symbol>, w: nat): Memory
    requires WordSized(syms, w)
    decreases |syms|
  {
    if syms == [] then m else PatchedAll(Patched(m, base, syms[0], w), base, syms[1..], w)
  }

  /** The check on a symbol, and that all the words it touches can be read. */
  predicate Patchable(m: Memory, base: int, sym: Symbol, w: nat)
    requires 0 < w
  {
    |sym.code| <= Words(sym.size, w) * w && Mapped(m, base + sym.offset, Words(sym.size, w) * w)
  }

  // ---- word by word, in place ----

  class Tracee {
    var mem: Memory

    method PeekText(addr: int, w: nat) returns (ok: bool, word: Word)
      ensures ok == Mapped(mem, addr, w)
      ensures ok ==> word == Peek(mem, addr, w)
    {
      word := [];
      for i := 0 to w
        invariant Mapped(mem, addr, i) && word == Peek(mem, addr, i)
      {
        if addr + i !in mem {
          return false, word;
        }
        word := word + [mem[addr + i]];
        assert word == Peek(mem, addr, i + 1);
      }
      ok := true;
    }

    method PokeText(addr: int, word: Word)
      modifies this
      ensures mem == Poke(old(mem), addr, word)
    {
      mem := Poke(mem, addr, word);
    }

    /** One function of the vDSO: the replacement, then poison, never a byte past its size; the
        last word is merged with what is there. */
    method PatchSymbol(base: int, sym: Symbol, w: nat) returns (ok: bool)
      requires 0 < w == |sym.poison|
      modifies this
      ensures ok == (|sym.code| <= Words(sym.size, w) * w && Mapped(old(mem), base + sym.offset, Words(sym.size, w) * w))
      ensures ok ==> mem == Patched(old(mem), base, sym, w)
    {
      var k := Words(sym.size, w);
      if |sym.code| > k * w {
        return false;
      }
      var target := base + sym.offset;
      var i := 0;
      while i < k
        invariant 0 <= i <= k
        invariant Mapped(old(mem), target, i * w)
        invariant mem == Upto(old(mem), target, sym, w, i * w)
      {
        WordFits(i, k, w);
        ok := PatchWord(target, sym, w, i, old(mem));
        if !ok {
          return;
        }
        i := i + 1;
      }
      assert mem == Patched(old(mem), base, sym, w);
      ok := true;
    }

    /** One word of a function: read, merged and written back. */
    method PatchWord(target: int, sym: Symbol, w: nat, i: nat, ghost start: Memory) returns (ok: bool)
      requires 0 < w == |sym.poison|
      requires Mapped(start, target, i * w) && mem == Upto(start, target, sym, w, i * w)
      modifies this
      ensures ok == Mapped(start, target, (i + 1) * w)
      ensures ok ==> mem == Upto(start, target, sym, w, (i + 1) * w)
    {
      WordEffect(start, mem, target, sym, w, i);
      var word;
      ok, word := PeekText(target + i * w, w);
      if ok {
        var bytes := Merge(word, sym, w, i);
        PokeText(target + i * w, bytes);
      }
    }

    /** disableVdso over the functions found. */
    method DisableVdso(base: int, syms: seq<Symbol>, w: nat) returns (ok: bool)
      requires WordSized(syms, w)
      modifies this
      ensures ok == (forall i | 0 <= i < |syms| :: Patchable(old(mem), base, syms[i], w))
      ensures ok ==> mem == PatchedAll(old(mem), base, syms, w)
    {
      ghost var start := mem;
      for i := 0 to |syms|
        invariant mem.Keys == start.Keys
        invariant forall j | 0 <= j < i :: Patchable(start, base, syms[j], w)
        invariant PatchedAll(start, base, syms, w) == PatchedAll(mem, base, syms[i..], w)
      {
        assert syms[i..][0] == syms[i] && syms[i..][1..] == syms[i + 1..];
        ghost var before := mem;
        ok := PatchSymbol(base, syms[i], w);
        assert Patchable(before, base, syms[i], w) <==> Patchable(start, base, syms[i], w);
        if !ok {
          return;
        }
      }
      ok := true;
    }

    /** Reads `k` words, as the loops around PTRACE_PEEKTEXT do. */
    method ReadWords(addr: int, k: nat, w: nat) returns (ok: bool, bytes: seq<Byte>)
      ensures ok == Mapped(mem, addr, k * w)
      ensures ok ==> bytes == Peek(mem, addr, k * w)
    {
      bytes := [];
      var i := 0;
      while i < k
        invariant 0 <= i <= k && Mapped(mem, addr, i * w) && bytes == Peek(mem, addr, i * w)
      {
        WordFits(i, k, w);
        var word;
        ok, word := PeekText(addr + i * w, w);
        if !ok {
          return;
        }
        bytes := bytes + word;
        assert (i + 1) * w == i * w + w;
        assert bytes == Peek(mem, addr, (i + 1) * w);
        i := i + 1;
      }
      ok := true;
    }

    /** Writes `k` words, as the loops around PTRACE_POKETEXT do. */
    method WriteWords(addr: int, k: nat, w: nat, bytes: seq<Byte>)
      requires |bytes| == k * w
      modifies this
      ensures mem == Poke(old(mem), addr, bytes)
    {
      var i := 0;
      assert mem == Poke(old(mem), addr, bytes[..0]);
      while i < k
        invariant 0 <= i <= k && i * w <= |bytes|
        invariant mem == Poke(old(mem), addr, bytes[..i * w])
      {
        WordFits(i, k, w);
        assert (i + 1) * w == i * w + w;
        PokeText(addr + i * w, bytes[i * w..i * w + w]);
        assert mem == Poke(old(mem), addr, bytes[..(i + 1) * w]);
        i := i + 1;
      }
      assert bytes[..k * w] == bytes;
    }

    /** handleExecEvent: save the words at the entry point, put the stub there, let the tracee run
        it, patch the vDSO, and write the saved words back. `run` is where the tracee runs the stub. */
    method HandleExecEvent(rip: int, stub: seq<Byte>, maxWords: nat, base: int, syms: seq<Symbol>, w: nat)
      returns (ok: bool, ghost run: Memory)
      requires WordSized(syms, w)
      modifies this
      ensures ok == (Words(|stub|, w) <= maxWords
                     && Mapped(old(mem), rip, Words(|stub|, w) * w)
                     && forall i | 0 <= i < |syms| :: Patchable(old(mem), base, syms[i], w))
      ensures ok ==> run == Poke(old(mem), rip, stub)
      ensures ok ==> mem == Restored(old(mem), rip, Words(|stub|, w) * w, PatchedAll(old(mem), base, syms, w))
    {
      run := mem;
      var k := Words(|stub|, w);
      if k > maxWords {
        return false, run;
      }
      var saved;
      ok, saved := ReadWords(rip, k, w);
      if !ok {
        return;
      }
      WriteWords(rip, k, w, stub + saved[|stub|..]);
      run := mem;
      OverlayIsPoke(old(mem), rip, stub, k * w);
      ok := DisableVdso(base, syms, w);
      PatchableByKeys(run, old(mem), base, syms, w);
      if !ok {
        return;
      }
      WriteWords(rip, k, w, saved);
      RestoreUndoes(old(mem), rip, stub, k * w, base, syms, w);
    }
  }

  /** Memory with the first `n` bytes of a symbol patched, and nothing past its size. */
  function Upto(m: Memory, target: int, sym: Symbol, w: nat, n: nat): Memory
    requires 0 < w == |sym.poison|
  {
    map x | x in m :: if target <= x < target + n && x < target + sym.size then PatchByte(sym, x - target, w) else m[x]
  }

  /** What the source's inner loop makes of word `i`. */
  function Merged(word: Word, sym: Symbol, w: nat, i: nat): (r: Word)
    requires 0 < w == |sym.poison| && |word| == w
    ensures |r| == w
  {
    seq(w, b requires 0 <= b < w =>
      var pos := i * w + b;
      if pos < sym.size then (if pos < |sym.code| then sym.code[pos] else sym.poison[b]) else word[b])
  }

  method Merge(word: Word, sym: Symbol, w: nat, i: nat) returns (bytes: Word)
    requires 0 < w == |sym.poison| && |word| == w
    ensures bytes == Merged(word, sym, w, i)
  {
    bytes := word;
    var b := 0;
    while b < w && i * w + b < sym.size
      invariant 0 <= b <= w && |bytes| == w
      invariant forall c | 0 <= c < b :: i * w + c < sym.size && bytes[c] == Merged(word, sym, w, i)[c]
      invariant forall c | b <= c < w :: bytes[c] == word[c]
    {
      var pos := i * w + b;
      bytes := bytes[b := if pos < |sym.code| then sym.code[pos] else sym.poison[b]];
      b := b + 1;
    }
  }

  lemma MappedNext(m: Memory, m': Memory, target: int, n: nat, w: nat)
    requires m.Keys == m'.Keys && Mapped(m, target, n)
    ensures Mapped(m', target + n, w) <==> Mapped(m, target, n + w)
  {
    assert forall x :: x in m <==> x in m';
  }

  lemma UptoNext(m: Memory, target: int, sym: Symbol, w: nat, i: nat)
    requires 0 < w == |sym.poison|
    requires Mapped(m, target, (i + 1) * w)
    ensures (i + 1) * w == i * w + w
    ensures var sofar := Upto(m, target, sym, w, i * w);
            Mapped(sofar, target + i * w, w) &&
            Poke(sofar, target + i * w, Merged(Peek(sofar, target + i * w, w), sym, w, i)) ==
            Upto(m, target, sym, w, (i + 1) * w)
  {
    var sofar := Upto(m, target, sym, w, i * w);
    assert (i + 1) * w == i * w + w;
    var word := Peek(sofar, target + i * w, w);
    var r, next := Poke(sofar, target + i * w, Merged(word, sym, w, i)), Upto(m, target, sym, w, (i + 1) * w);
    forall x | x in m
      ensures r[x] == next[x]
    {
      var b := x - (target + i * w);
      if 0 <= b < w {
        ByteInWord(i, w, b);
        assert word[b] == sofar[x];
      }
    }
    SameMemory(r, next, m);
  }

  lemma WordEffect(start: Memory, m: Memory, target: int, sym: Symbol, w: nat, i: nat)
    requires 0 < w == |sym.poison| && Mapped(start, target, i * w) && m == Upto(start, target, sym, w, i * w)
    ensures Mapped(m, target + i * w, w) <==> Mapped(start, target, (i + 1) * w)
    ensures Mapped(m, target + i * w, w) ==>
              Poke(m, target + i * w, Merged(Peek(m, target + i * w, w), sym, w, i)) == Upto(start, target, sym, w, (i + 1) * w)
  {
    assert (i + 1) * w == i * w + w;
    MappedNext(start, m, target, i * w, w);
    if Mapped(m, target + i * w, w) {
      UptoNext(start, target, sym, w, i);
    }
  }

  // ---- any order, and nothing outside the symbols ----

  ghost predicate Disjoint(base: int, syms: seq<Symbol>) {
    forall i, j | 0 <= i < j < |syms| :: forall x :: !(Covers(base, syms[i], x) && Covers(base, syms[j], x))
  }

  lemma {:induction false} PatchedAllKeys(m: Memory, base: int, syms: seq<Symbol>, w: nat)
    requires WordSized(syms, w)
    ensures PatchedAll(m, base, syms, w).Keys == m.Keys
    decreases |syms|
  {
    if syms != [] {
      PatchedAllKeys(Patched(m, base, syms[0], w), base, syms[1..], w);
    }
  }

  /** A byte no symbol covers keeps its value. */
  lemma {:induction false} Untouched(m: Memory, base: int, syms: seq<Symbol>, w: nat, x: int)
    requires WordSized(syms, w) && x in m
    requires forall i | 0 <= i < |syms| :: !Covers(base, syms[i], x)
    ensures x in PatchedAll(m, base, syms, w) && PatchedAll(m, base, syms, w)[x] == m[x]
    decreases |syms|
  {
    if syms != [] {
      Untouched(Patched(m, base, syms[0], w), base, syms[1..], w, x);
    }
  }

  /** A byte of a symbol ends up as that symbol's code or poison. */
  lemma {:induction false} PatchedByte(m: Memory, base: int, syms: seq<Symbol>, w: nat, i: nat, x: int)
    requires WordSized(syms, w) && x in m && Disjoint(base, syms)
    requires i < |syms| && Covers(base, syms[i], x)
    ensures x in PatchedAll(m, base, syms, w)
    ensures var pos := x - (base + syms[i].offset);
            PatchedAll(m, base, syms, w)[x] == if pos < |syms[i].code| then syms[i].code[pos] else syms[i].poison[pos % w]
    decreases |syms|
  {
    var m1 := Patched(m, base, syms[0], w);
    if i == 0 {
      Untouched(m1, base, syms[1..], w, x);
    } else {
      PatchedByte(m1, base, syms[1..], w, i - 1, x);
    }
  }

  /** Disjoint symbols give the same memory in any order. */
  lemma PatchOrderDoesNotMatter(m: Memory, base: int, a: seq<Symbol>, b: seq<Symbol>, w: nat)
    requires WordSized(a, w) && WordSized(b, w) && Disjoint(base, a) && Disjoint(base, b)
    requires multiset(a) == multiset(b)
    ensures PatchedAll(m, base, a, w) == PatchedAll(m, base, b, w)
  {
    PatchedAllKeys(m, base, a, w);
    PatchedAllKeys(m, base, b, w);
    var ma, mb := PatchedAll(m, base, a, w), PatchedAll(m, base, b, w);
    forall x | x in m
      ensures ma[x] == mb[x]
    {
      SameMembers(a, b);
      if i :| 0 <= i < |a| && Covers(base, a[i], x) {
        assert a[i] in a && a[i] in b;
        var j :| 0 <= j < |b| && b[j] == a[i];
        PatchedByte(m, base, a, w, i, x);
        PatchedByte(m, base, b, w, j, x);
      } else {
        Untouched(m, base, a, w, x);
        forall j | 0 <= j < |b|
          ensures !Covers(base, b[j], x)
        {
          assert b[j] in b && b[j] in a;
        }
        Untouched(m, base, b, w, x);
      }
    }
  }

  lemma SameMembers(a: seq<Symbol>, b: seq<Symbol>)
    requires multiset(a) == multiset(b)
    ensures forall s :: s in a <==> s in b
  {
    assert forall s :: s in a <==> s in multiset(a);
    assert forall s :: s in b <==> s in multiset(b);
  }

  // ---- the stub is undone ----

  /** `now` with the `n` bytes at `addr` as they were in `m`. */
  function Restored(m: Memory, addr: int, n: nat, now: Memory): Memory {
    map x | x in now :: if addr <= x < addr + n && x in m then m[x] else now[x]
  }

  /** Overlaying the stub on the saved words changes its own bytes only. */
  lemma OverlayIsPoke(m: Memory, rip: int, stub: seq<Byte>, n: nat)
    requires |stub| <= n && Mapped(m, rip, n)
    ensures Poke(m, rip, stub + Peek(m, rip, n)[|stub|..]) == Poke(m, rip, stub)
  {
    var bytes := stub + Peek(m, rip, n)[|stub|..];
    forall x | x in m
      ensures Poke(m, rip, bytes)[x] == Poke(m, rip, stub)[x]
    {
      if rip + |stub| <= x < rip + n {
        assert bytes[x - rip] == Peek(m, rip, n)[x - rip];
      }
    }
  }

  /** What a patch writes does not depend on what was there. */
  lemma {:induction false} PatchForgets(m: Memory, m': Memory, base: int, syms: seq<Symbol>, w: nat, x: int)
    requires WordSized(syms, w) && x in m && x in m' && m[x] == m'[x]
    ensures x in PatchedAll(m, base, syms, w) && x in PatchedAll(m', base, syms, w)
    ensures PatchedAll(m, base, syms, w)[x] == PatchedAll(m', base, syms, w)[x]
    decreases |syms|
  {
    if syms != [] {
      PatchForgets(Patched(m, base, syms[0], w), Patched(m', base, syms[0], w), base, syms[1..], w, x);
    }
  }

  lemma PatchableByKeys(m: Memory, m': Memory, base: int, syms: seq<Symbol>, w: nat)
    requires m.Keys == m'.Keys && 0 < w
    ensures forall i | 0 <= i < |syms| :: Patchable(m, base, syms[i], w) <==> Patchable(m', base, syms[i], w)
  {
    forall i | 0 <= i < |syms|
      ensures Patchable(m, base, syms[i], w) <==> Patchable(m', base, syms[i], w)
    {
      var addr, n := base + syms[i].offset, Words(syms[i].size, w) * w;
      assert forall x :: x in m <==> x in m';
      assert Mapped(m, addr, n) <==> Mapped(m', addr, n);
    }
  }

  lemma RestoreUndoes(m: Memory, rip: int, stub: seq<Byte>, n: nat, base: int, syms: seq<Symbol>, w: nat)
    requires WordSized(syms, w) && |stub| <= n && Mapped(m, rip, n)
    ensures Poke(PatchedAll(Poke(m, rip, stub), base, syms, w), rip, Peek(m, rip, n)) ==
            Restored(m, rip, n, PatchedAll(m, base, syms, w))
  {
    var p, q := PatchedAll(Poke(m, rip, stub), base, syms, w), PatchedAll(m, base, syms, w);
    PatchedAllKeys(Poke(m, rip, stub), base, syms, w);
    PatchedAllKeys(m, base, syms, w);
    forall x | x in m && !(rip <= x < rip + n)
      ensures p[x] == q[x]
    {
      PatchForgets(Poke(m, rip, stub), m, base, syms, w, x);
    }
    PokeRestores(m, p, q, rip, n);
  }

  lemma ByteRestored(m: Memory, p: Memory, q: Memory, rip: int, n: nat, bytes: seq<Byte>, x: int)
    requires x in m && x in p && x in q && |bytes| == n
    requires if rip <= x < rip + n then bytes[x - rip] == m[x] else p[x] == q[x]
    ensures Poke(p, rip, bytes)[x] == Restored(m, rip, n, q)[x]
  {
  }

  lemma PokeRestores(m: Memory, p: Memory, q: Memory, rip: int, n: nat)
    requires p.Keys == m.Keys && q.Keys == m.Keys && Mapped(m, rip, n)
    requires forall x | x in m && !(rip <= x < rip + n) :: p[x] == q[x]
    ensures Poke(p, rip, Peek(m, rip, n)) == Restored(m, rip, n, q)
  {
    var bytes := Peek(m, rip, n);
    forall x | x in m
      ensures Poke(p, rip, bytes)[x] == Restored(m, rip, n, q)[x]
    {
      ByteRestored(m, p, q, rip, n, bytes, x);
    }
    SameMemory(Poke(p, rip, bytes), Restored(m, rip, n, q), m);
  }

  lemma SameMemory(a: Memory, b: Memory, m: Memory)
    requires a.Keys == m.Keys && b.Keys == m.Keys
    requires forall x | x in m :: a[x] == b[x]
    ensures a == b
  {
    assert forall x :: x in a.Keys <==> x in m.Keys;
    assert forall x :: x in b.Keys <==> x in m.Keys;
    assert forall x | x in a :: x in b && a[x] == b[x];
    assert a.Keys == b.Keys;
  }

  /** What exec leaves of a byte: its own value at the entry point's words, a patch in a symbol, and its
      own value everywhere else. */
  lemma ByteAfterExec(m: Memory, rip: int, n: nat, base: int, syms: seq<Symbol>, w: nat, x: int)
    requires WordSized(syms, w) && Disjoint(base, syms) && x in m
    ensures var after := Restored(m, rip, n, PatchedAll(m, base, syms, w));
            && x in after
            && (rip <= x < rip + n ==> after[x] == m[x])
            && ((forall i | 0 <= i < |syms| :: !(base + syms[i].offset <= x < base + syms[i].offset + syms[i].size)) ==> after[x] == m[x])
            && (forall i | 0 <= i < |syms| && !(rip <= x < rip + n)
                           && base + syms[i].offset <= x < base + syms[i].offset + syms[i].size ::
                  var pos := x - (base + syms[i].offset);
                  after[x] == if pos < |syms[i].code| then syms[i].code[pos] else syms[i].poison[pos % w])
  {
    PatchedAllKeys(m, base, syms, w);
    if forall i | 0 <= i < |syms| :: !(base + syms[i].offset <= x < base + syms[i].offset + syms[i].size) {
      Untouched(m, base, syms, w, x);
    }
    forall i | 0 <= i < |syms| && base + syms[i].offset <= x < base + syms[i].offset + syms[i].size
      ensures var pos := x - (base + syms[i].offset);
              PatchedAll(m, base, syms, w)[x] == if pos < |syms[i].code| then syms[i].code[pos] else syms[i].poison[pos % w]
    {
      PatchedByte(m, base, syms, w, i, x);
    }
  }

  /** No symbol reaches into the words at the entry point. */
  ghost predicate Apart(rip: int, n: nat, base: int, syms: seq<Symbol>) {
    forall x, i | rip <= x < rip + n && 0 <= i < |syms| :: !Covers(base, syms[i], x)
  }

  function Filled(addr: int, n: nat, v: Byte): (m: Memory)
    ensures forall x :: x in m <==> addr <= x < addr + n
    ensures forall x | x in m :: m[x] == v
  {
    if n == 0 then map[] else Filled(addr, n - 1, v)[addr + n - 1 := v]
  }

  /** Injecting the stub leaves no trace, whatever memory holds, exactly when the vDSO functions stay
      clear of the words at the entry point; otherwise the restore undoes a patch. */
  lemma StubLeavesNoTraceIff(rip: int, n: nat, base: int, syms: seq<Symbol>, w: nat)
    requires WordSized(syms, w) && Disjoint(base, syms)
    ensures Apart(rip, n, base, syms) <==>
            forall m: Memory :: Mapped(m, rip, n) ==>
                                  Restored(m, rip, n, PatchedAll(m, base, syms, w)) == PatchedAll(m, base, syms, w)
  {
    if Apart(rip, n, base, syms) {
      forall m: Memory | Mapped(m, rip, n)
        ensures Restored(m, rip, n, PatchedAll(m, base, syms, w)) == PatchedAll(m, base, syms, w)
      {
        PatchedAllKeys(m, base, syms, w);
        forall x | x in m && rip <= x < rip + n
          ensures PatchedAll(m, base, syms, w)[x] == m[x]
        {
          Untouched(m, base, syms, w, x);
        }
      }
    } else {
      var x, i :| rip <= x < rip + n && 0 <= i < |syms| && Covers(base, syms[i], x);
      var wrong := PatchByte(syms[i], x - (base + syms[i].offset), w) + 1;
      var m := Filled(rip, n, wrong);
      PatchedByte(m, base, syms, w, i, x);
      assert Restored(m, rip, n, PatchedAll(m, base, syms, w))[x] == wrong;
      assert Mapped(m, rip, n);
    }
  }
}
