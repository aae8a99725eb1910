/** What one move of blocks, or of chunks, does to the invariant of the allocator: carving from the
    current chunk, making a chunk current, freeing a chunk that was not mapped, moving blocks between
    a list, the spare groups, a thread's stack and a call, and a thread that registers. */
module BlockMoves {
  import opened Blocks

  // ---------------------------------------------------------------- chunks that change their kind

  lemma PointerInStock(h: Heap, s: nat, a: nat)
    requires s < |h.lists| && a in Pointers(h.lists[s])
    ensures a in Listed(h.lists) && a in Stock(h)
  {
    ConcatHas(PointerParts(h.lists), a);
    assert a in PointerParts(h.lists)[s];
  }

  lemma AddressInStock(h: Heap, s: nat, a: nat)
    requires s < |h.lists| && a in Addresses(h.lists[s])
    ensures a in InGroups(h.lists) && a in Stock(h)
  {
    ConcatHas(AddressParts(h.lists), a);
    assert a in AddressParts(h.lists)[s];
  }

  lemma CachedInStock(h: Heap, t: nat, s: nat, a: nat)
    requires t < |h.threads| && s < |h.threads[t]| && a in Contents(h.threads[t][s])
    ensures a in Stock(h)
  {
    ConcatHas(StackParts(h.threads[t]), a);
    assert a in StackParts(h.threads[t])[s];
    ConcatHas(ThreadParts(h.threads), a);
    assert a in ThreadParts(h.threads)[t];
  }

  predicate KindKept(out: multiset<nat>, kind: seq<int>, kind': seq<int>, a: nat)
    requires |kind'| == |kind|
  {
    a in out && a / CHUNK < |kind| ==> kind'[a / CHUNK] == kind[a / CHUNK]
  }

  /** The kinds of the chunks that hold these blocks did not change. */
  ghost predicate KindsKept(out: multiset<nat>, kind: seq<int>, kind': seq<int>) {
    |kind'| == |kind| && forall a: nat :: KindKept(out, kind, kind', a)
  }

  lemma KeptSame(out: multiset<nat>, kind: seq<int>)
    ensures KindsKept(out, kind, kind)
  {
    forall a: nat ensures KindKept(out, kind, kind, a) { }
  }

  /** One change after another. */
  lemma KeptTwice(out: multiset<nat>, out1: multiset<nat>, out2: multiset<nat>, a: seq<int>, b: seq<int>, c: seq<int>)
    requires KindsKept(out1, a, b) && KindsKept(out2, b, c) && out <= out1 && out <= out2
    ensures KindsKept(out, a, c)
  {
    forall x: nat ensures KindKept(out, a, c, x) {
      assert KindKept(out1, a, b, x) && KindKept(out2, b, c, x);
      assert out[x] <= out1[x] && out[x] <= out2[x];
    }
  }

  lemma KeptAllKind(out: multiset<nat>, l: seq<nat>, kind: seq<int>, kind': seq<int>, s: int)
    requires KindsKept(out, kind, kind') && AllKind(kind, l, s) && forall a :: a in l ==> a in out
    ensures AllKind(kind', l, s)
  {
    forall a: nat ensures KindAt(kind', l, s, a) {
      assert KindAt(kind, l, s, a) && KindKept(out, kind, kind', a);
    }
  }

  lemma RefitList(kind: seq<int>, kind': seq<int>, h: Heap, s: nat)
    requires s < |h.lists| && ListOk(kind, s, h.lists[s]) && KindsKept(Stock(h), kind, kind')
    ensures ListOk(kind', s, h.lists[s])
  {
    forall a | a in Pointers(h.lists[s]) ensures a in Stock(h) { PointerInStock(h, s, a); }
    KeptAllKind(Stock(h), Pointers(h.lists[s]), kind, kind', s);
    forall a | a in Addresses(h.lists[s]) ensures a in Stock(h) { AddressInStock(h, s, a); }
    KeptAllKind(Stock(h), Addresses(h.lists[s]), kind, kind', GROUP_IDX);
  }

  lemma RefitStack(z: seq<int>, kind: seq<int>, kind': seq<int>, h: Heap, t: nat, s: nat)
    requires t < |h.threads| && s < |h.threads[t]| && s < |z| && StackOk(z, kind, s, h.threads[t][s])
    requires KindsKept(Stock(h), kind, kind')
    ensures StackOk(z, kind', s, h.threads[t][s])
  {
    var l := Contents(h.threads[t][s]);
    forall a | a in l ensures a in Stock(h) { CachedInStock(h, t, s, a); }
    KeptAllKind(Stock(h), l, kind, kind', s);
  }

  /** Everything in stock keeps its place when no chunk that has stock changes its kind. */
  lemma Refit(z: seq<int>, kind: seq<int>, kind': seq<int>, h: Heap)
    requires ListsOk(z, kind, h.lists) && AllKind(kind, h.spare, GROUP_IDX) && ThreadsOk(z, kind, h.threads)
    requires KindsKept(Stock(h), kind, kind')
    ensures ListsOk(z, kind', h.lists) && AllKind(kind', h.spare, GROUP_IDX) && ThreadsOk(z, kind', h.threads)
  {
    forall s | 0 <= s < |z| ensures ListOk(kind', s, h.lists[s]) {
      assert ListOk(kind, s, h.lists[s]);
      RefitList(kind, kind', h, s);
    }
    forall a | a in h.spare ensures a in Stock(h) { }
    KeptAllKind(Stock(h), h.spare, kind, kind', GROUP_IDX);
    forall t | 0 <= t < |h.threads| ensures ThreadOk(z, kind', h.threads[t]) {
      assert ThreadOk(z, kind, h.threads[t]);
      forall s | 0 <= s < |z| ensures StackOk(z, kind', s, h.threads[t][s]) {
        assert StackOk(z, kind, s, h.threads[t][s]);
        RefitStack(z, kind, kind', h, t, s);
      }
    }
  }

  /** Whatever is somewhere is in a chunk that has a size. */
  lemma OnlyCarved(z: seq<int>, kind: seq<int>, current: seq<nat>, all: multiset<nat>, a: nat)
    requires Balanced(z, kind, current, all) && a in all
    ensures IsCarved(z, kind, current, a) && all[a] == 1
  {
    assert BalancedAt(z, kind, current, all, a);
  }

  /** A move that leaves chunks alone keeps the balance when it loses and invents nothing. */
  lemma SameBalance(z: seq<int>, h: Heap, out: multiset<nat>, h': Heap, out': multiset<nat>)
    requires Balanced(z, h.kind, h.current, Stock(h) + out) && h'.kind == h.kind && h'.current == h.current
    requires Stock(h') + out' == Stock(h) + out
    ensures Balanced(z, h'.kind, h'.current, Stock(h') + out')
  {
  }

  // ---------------------------------------------------------------- carving

  /** The blocks in the rest of the chunk, from the current pointer, are the ones not yet carved. */
  lemma CarveAt(z: seq<int>, kind: seq<int>, current: seq<nat>, s: nat, count: nat, next: nat, a: nat)
    requires SizesOk(z) && KindsOk(z, kind) && CurrentsOk(z, kind, current) && 1 <= s < |z| && current[s] != 0
    requires count >= 1
    requires current[s] % CHUNK + count * z[s] <= CHUNK
    requires next == if current[s] % CHUNK + count * z[s] == CHUNK then 0 else current[s] + count * z[s]
    ensures IsCarved(z, kind, current[s := next], a) <==>
      IsCarved(z, kind, current, a) || a in RunOf(current[s], z[s], count)
    ensures a in RunOf(current[s], z[s], count) ==> !IsCarved(z, kind, current, a)
  {
    var cur, size := current[s], z[s];
    assert CurrentOk(z, kind, s, cur);
    FirstFits(count, size);
    InBlocks(cur, size, count, a);
    assert kind[cur / CHUNK] == s;
    if a / CHUNK == cur / CHUNK {
      if next != 0 {
        InChunk(cur, count * size);
      }
    }
  }

  lemma FirstFits(count: nat, size: nat)
    requires count >= 1
    ensures size <= count * size
  {
    assert (count - 1) * size >= 0;
  }

  lemma CarveBalance(z: seq<int>, kind: seq<int>, current: seq<nat>, all: multiset<nat>, s: nat, count: nat, next: nat)
    requires SizesOk(z) && KindsOk(z, kind) && CurrentsOk(z, kind, current) && 1 <= s < |z| && current[s] != 0
    requires count >= 1
    requires current[s] % CHUNK + count * z[s] <= CHUNK && Balanced(z, kind, current, all)
    requires next == if current[s] % CHUNK + count * z[s] == CHUNK then 0 else current[s] + count * z[s]
    ensures Balanced(z, kind, current[s := next], all + multiset(RunOf(current[s], z[s], count)))
  {
    var l, current' := RunOf(current[s], z[s], count), current[s := next];
    forall a: nat ensures BalancedAt(z, kind, current', all + multiset(l), a) {
      CarveAt(z, kind, current, s, count, next, a);
      BlocksOnce(current[s], z[s], count, a);
      assert BalancedAt(z, kind, current, all, a);
    }
  }

  lemma CarveCurrents(z: seq<int>, kind: seq<int>, current: seq<nat>, s: nat, count: nat, next: nat)
    requires SizesOk(z) && CurrentsOk(z, kind, current) && 1 <= s < |z| && current[s] != 0 && count >= 1
    requires current[s] % CHUNK + count * z[s] <= CHUNK
    requires next == if current[s] % CHUNK + count * z[s] == CHUNK then 0 else current[s] + count * z[s]
    ensures CurrentsOk(z, kind, current[s := next])
  {
    var cur, size := current[s], z[s];
    assert CurrentOk(z, kind, s, cur);
    FirstFits(count, size);
    if next != 0 {
      InChunk(cur, count * size);
      NextCell(size, cur % CHUNK, count);
    }
    assert CurrentOk(z, kind, s, next);
    var current' := current[s := next];
    forall r | 1 <= r < |z| ensures CurrentOk(z, kind, r, current'[r]) {
      assert CurrentOk(z, kind, r, current[r]);
    }
  }

  lemma CarveKind(z: seq<int>, kind: seq<int>, cur: nat, s: nat, count: nat)
    requires SizesOk(z) && 1 <= s < |z| && CurrentOk(z, kind, s, cur) && cur != 0 && count >= 1
    requires cur % CHUNK + count * z[s] <= CHUNK
    ensures AllKind(kind, RunOf(cur, z[s], count), s)
  {
    FirstFits(count, z[s]);
    forall a | a in RunOf(cur, z[s], count) ensures a / CHUNK == cur / CHUNK {
      InBlocks(cur, z[s], count, a);
    }
  }

  /** Carving adds just the carved blocks. */
  lemma Carve(z: seq<int>, h: Heap, out: multiset<nat>, s: nat, count: nat, next: nat)
    requires Inv(z, h, out) && 1 <= s < |z| && h.current[s] != 0 && count >= 1
    requires h.current[s] % CHUNK + count * z[s] <= CHUNK
    requires next == if h.current[s] % CHUNK + count * z[s] == CHUNK then 0 else h.current[s] + count * z[s]
    ensures Inv(z, h.(current := h.current[s := next]), out + multiset(RunOf(h.current[s], z[s], count)))
    ensures AllKind(h.kind, RunOf(h.current[s], z[s], count), s)
  {
    var h' := h.(current := h.current[s := next]);
    var l := multiset(RunOf(h.current[s], z[s], count));
    assert CurrentOk(z, h.kind, s, h.current[s]);
    CarveBalance(z, h.kind, h.current, Stock(h) + out, s, count, next);
    assert Stock(h') + (out + l) == Stock(h) + out + l;
    CarveCurrents(z, h.kind, h.current, s, count, next);
    CarveKind(z, h.kind, h.current[s], s, count);
  }

  // ---------------------------------------------------------------- chunks without blocks

  /** A chunk that has no size may get any kind: nothing in stock and no current pointer that
      still fits a block lies in it. */
  lemma CurrentsKept(z: seq<int>, kind: seq<int>, current: seq<nat>, c: nat, v: int)
    requires CurrentsOk(z, kind, current) && c < |kind| && kind[c] <= 0
    ensures CurrentsOk(z, kind[c := v], current)
  {
    forall r | 1 <= r < |z| ensures CurrentOk(z, kind[c := v], r, current[r]) {
      assert CurrentOk(z, kind, r, current[r]);
    }
  }

  lemma StockKept(z: seq<int>, h: Heap, out: multiset<nat>, c: nat, v: int)
    requires Balanced(z, h.kind, h.current, Stock(h) + out) && c < |h.kind| && h.kind[c] <= 0
    requires ListsOk(z, h.kind, h.lists) && AllKind(h.kind, h.spare, GROUP_IDX) && ThreadsOk(z, h.kind, h.threads)
    ensures ListsOk(z, h.kind[c := v], h.lists) && AllKind(h.kind[c := v], h.spare, GROUP_IDX)
    ensures ThreadsOk(z, h.kind[c := v], h.threads)
  {
    var kind' := h.kind[c := v];
    forall a: nat ensures KindKept(Stock(h), h.kind, kind', a) {
      if a in Stock(h) { OnlyCarved(z, h.kind, h.current, Stock(h) + out, a); }
    }
    Refit(z, h.kind, kind', h);
  }

  lemma NewFreeBalance(z: seq<int>, kind: seq<int>, current: seq<nat>, all: multiset<nat>, c: nat)
    requires Balanced(z, kind, current, all) && c < |kind| && kind[c] <= 0
    ensures Balanced(z, kind[c := -1], current, all)
  {
    var kind' := kind[c := -1];
    forall a: nat ensures BalancedAt(z, kind', current, all, a) {
      assert BalancedAt(z, kind, current, all, a);
    }
  }

  lemma FreeSnoc(kind: seq<int>, free: seq<nat>, c: nat, kind': seq<int>, free': seq<nat>)
    requires FreeOk(kind, free) && 0 < c < |kind| && kind[c] != -1 && kind' == kind[c := -1] && free' == free + [c]
    ensures FreeOk(kind', free')
  {
    assert free'[|free|] == c;
    forall i: int ensures FreeAt(kind', free', i) { assert FreeAt(kind, free, i); }
    forall i: int, j: int ensures FreeOnce(free', i, j) { assert FreeOnce(free, i, j) && FreeAt(kind, free, i); }
    forall d: int ensures FreeListed(kind', free', d) { assert FreeListed(kind, free, d); }
  }

  lemma KindsSet(z: seq<int>, kind: seq<int>, c: nat, v: int)
    requires KindsOk(z, kind) && 0 < c < |kind| && -1 <= v < |z|
    ensures KindsOk(z, kind[c := v])
  {
    var kind' := kind[c := v];
    forall d: int ensures KindOk(z, kind', d) { assert KindOk(z, kind, d); }
  }

  /** A chunk that was not mapped becomes free. */
  lemma NewFree(z: seq<int>, h: Heap, out: multiset<nat>, c: nat)
    requires Inv(z, h, out) && 0 < c < |h.kind| && h.kind[c] == 0
    ensures Inv(z, h.(kind := h.kind[c := -1], free := h.free + [c]), out)
  {
    var h' := h.(kind := h.kind[c := -1], free := h.free + [c]);
    assert Stock(h') == Stock(h);
    NewFreeBalance(z, h.kind, h.current, Stock(h) + out, c);
    StockKept(z, h, out, c, -1);
    CurrentsKept(z, h.kind, h.current, c, -1);
    KindsSet(z, h.kind, c, -1);
    FreeSnoc(h.kind, h.free, c, h'.kind, h'.free);
  }

  // ---------------------------------------------------------------- a new current chunk

  /** In another chunk of size s, the used-up current pointer had passed every block. */
  lemma UsedUp(z: seq<int>, kind: seq<int>, current: seq<nat>, s: nat, c: nat, a: nat)
    requires SizesOk(z) && KindsOk(z, kind) && |current| == |z| && 1 <= s < |z| && 0 < c < |kind| && kind[c] == -1
    requires a / CHUNK != c
    requires current[s] == 0 || current[s] % CHUNK + z[s] > CHUNK
    ensures IsCarved(z, kind[c := s], current[s := c * CHUNK + z[s]], a) <==> IsCarved(z, kind, current, a)
  {
    InChunk(c * CHUNK, z[s]);
  }

  lemma FirstOnly(z: seq<int>, kind: seq<int>, current: seq<nat>, s: nat, c: nat, a: nat)
    requires SizesOk(z) && |current| == |z| && 1 <= s < |z| && 0 < c < |kind| && kind[c] == -1 && a / CHUNK == c
    ensures IsCarved(z, kind[c := s], current[s := c * CHUNK + z[s]], a) <==> a == c * CHUNK
    ensures !IsCarved(z, kind, current, a)
  {
    InChunk(c * CHUNK, z[s]);
    if Cell(z[s], a % CHUNK) && a % CHUNK != 0 {
      CellsApart(z[s], 0, a % CHUNK);
    }
  }

  lemma NewChunkBalance(z: seq<int>, kind: seq<int>, current: seq<nat>, all: multiset<nat>, s: nat, c: nat)
    requires SizesOk(z) && KindsOk(z, kind) && |current| == |z| && 1 <= s < |z| && 0 < c < |kind| && kind[c] == -1
    requires Balanced(z, kind, current, all)
    requires current[s] == 0 || current[s] % CHUNK + z[s] > CHUNK
    ensures Balanced(z, kind[c := s], current[s := c * CHUNK + z[s]], all + multiset{c * CHUNK})
  {
    var kind', current' := kind[c := s], current[s := c * CHUNK + z[s]];
    forall a: nat ensures BalancedAt(z, kind', current', all + multiset{c * CHUNK}, a) {
      assert BalancedAt(z, kind, current, all, a);
      if a / CHUNK == c {
        FirstOnly(z, kind, current, s, c, a);
      } else {
        UsedUp(z, kind, current, s, c, a);
      }
    }
  }

  lemma NewCurrent(z: seq<int>, kind: seq<int>, current: seq<nat>, s: nat, c: nat)
    requires SizesOk(z) && CurrentsOk(z, kind, current) && 1 <= s < |z| && 0 < c < |kind| && kind[c] == s
    ensures CurrentsOk(z, kind, current[s := c * CHUNK + z[s]])
  {
    InChunk(c * CHUNK, z[s]);
    ModOfMultiple(1, z[s]);
    var current' := current[s := c * CHUNK + z[s]];
    forall r | 1 <= r < |z| ensures CurrentOk(z, kind, r, current'[r]) {
      assert r != s ==> CurrentOk(z, kind, r, current[r]);
    }
  }

  lemma FreePop(kind: seq<int>, free: seq<nat>, s: int, c: nat, kind': seq<int>, free': seq<nat>)
    requires FreeOk(kind, free) && |free| > 0 && s != -1 && c == free[|free| - 1] && c < |kind|
    requires kind' == kind[c := s] && free' == free[..|free| - 1]
    ensures FreeOk(kind', free')
  {
    var m := |free| - 1;
    forall i: int ensures FreeAt(kind', free', i) { assert FreeAt(kind, free, i) && FreeOnce(free, i, m); }
    forall i: int, j: int ensures FreeOnce(free', i, j) { assert FreeOnce(free, i, j); }
    forall d: int ensures FreeListed(kind', free', d) {
      assert FreeListed(kind, free, d);
      if d in free && d != c {
        var i :| 0 <= i < |free| && free[i] == d;
        assert free'[i] == d;
      }
    }
  }

  /** The chunk listed last is free. */
  lemma LastFree(kind: seq<int>, free: seq<nat>, c: nat)
    requires FreeOk(kind, free) && |free| > 0 && c == free[|free| - 1]
    ensures 0 < c < |kind| && kind[c] == -1
  {
    assert FreeAt(kind, free, |free| - 1);
  }

  /** A free chunk becomes the current one of size s, and its first block is handed out. The chunk
      that was current is used up, so it counts as fully carved. */
  lemma NewChunk(z: seq<int>, h: Heap, out: multiset<nat>, s: nat, c: nat, h': Heap)
    requires Inv(z, h, out) && 1 <= s < |z| && 0 < c < |h.kind| && h.kind[c] == -1 && |h.free| > 0
    requires c == h.free[|h.free| - 1]
    requires h.current[s] == 0 || h.current[s] % CHUNK + z[s] > CHUNK
    requires h' == h.(free := h.free[..|h.free| - 1], kind := h.kind[c := s],
      current := h.current[s := c * CHUNK + z[s]])
    ensures Inv(z, h', out + multiset{c * CHUNK}) && AllKind(h'.kind, [c * CHUNK], s)
  {
    NewChunkBalance(z, h.kind, h.current, Stock(h) + out, s, c);
    OneMore(Stock(h), out, c * CHUNK);
    assert Stock(h') == Stock(h);
    NewChunkRest(z, h, out, s, c, h');
    FirstKind(h'.kind, c, s);
  }

  lemma OneMore(stock: multiset<nat>, out: multiset<nat>, a: nat)
    ensures stock + (out + multiset{a}) == stock + out + multiset{a}
  {
  }

  lemma FirstKind(kind: seq<int>, c: nat, s: nat)
    requires 0 < c < |kind| && kind[c] == s >= 1
    ensures AllKind(kind, [c * CHUNK], s)
  {
  }

  lemma NewChunkRest(z: seq<int>, h: Heap, out: multiset<nat>, s: nat, c: nat, h': Heap)
    requires Inv(z, h, out) && 1 <= s < |z| && 0 < c < |h.kind| && h.kind[c] == -1 && |h.free| > 0
    requires c == h.free[|h.free| - 1]
    requires h' == h.(free := h.free[..|h.free| - 1], kind := h.kind[c := s],
      current := h.current[s := c * CHUNK + z[s]])
    ensures KindsOk(z, h'.kind) && FreeOk(h'.kind, h'.free) && CurrentsOk(z, h'.kind, h'.current)
    ensures ListsOk(z, h'.kind, h.lists) && AllKind(h'.kind, h.spare, GROUP_IDX) && ThreadsOk(z, h'.kind, h.threads)
  {
    StockKept(z, h, out, c, s);
    CurrentsKept(z, h.kind, h.current, c, s);
    NewCurrent(z, h'.kind, h.current, s, c);
    KindsSet(z, h.kind, c, s);
    FreePop(h.kind, h.free, s, c, h'.kind, h'.free);
  }

  // ---------------------------------------------------------------- moving blocks

  lemma SumsAgree(a: multiset<nat>, b: multiset<nat>, c: multiset<nat>,
                  a': multiset<nat>, b': multiset<nat>, c': multiset<nat>,
                  p: multiset<nat>, q: multiset<nat>, p': multiset<nat>, q': multiset<nat>,
                  out: multiset<nat>, out': multiset<nat>, rest: multiset<nat>)
    requires a' + p == a + p' && b' + q == b + q'
    requires p' + q' + c' + out' == p + q + c + out
    ensures (a' + b' + c' + rest) + out' == (a + b + c + rest) + out
  {
    forall e ensures ((a' + b' + c' + rest) + out')[e] == ((a + b + c + rest) + out)[e] {
      assert (a' + p)[e] == (a + p')[e] && (b' + q)[e] == (b + q')[e];
      assert (p' + q' + c' + out')[e] == (p + q + c + out)[e];
    }
  }

  /** Moving blocks between a list, the spare groups and a call. */
  lemma ChangeList(z: seq<int>, h: Heap, out: multiset<nat>, s: nat, l: seq<Group>, spare: seq<nat>,
                   out': multiset<nat>)
    requires Inv(z, h, out) && s < |z| && ListOk(h.kind, s, l) && AllKind(h.kind, spare, GROUP_IDX)
    requires multiset(Pointers(l)) + multiset(Addresses(l)) + multiset(spare) + out'
          == multiset(Pointers(h.lists[s])) + multiset(Addresses(h.lists[s])) + multiset(h.spare) + out
    ensures Inv(z, h.(lists := h.lists[s := l], spare := spare), out')
  {
    var h' := h.(lists := h.lists[s := l], spare := spare);
    ListUpdate(h.lists, s, l);
    SumsAgree(Listed(h.lists), InGroups(h.lists), multiset(h.spare),
              Listed(h'.lists), InGroups(h'.lists), multiset(spare),
              multiset(Pointers(h.lists[s])), multiset(Addresses(h.lists[s])),
              multiset(Pointers(l)), multiset(Addresses(l)), out, out', Cached(h.threads));
    SameBalance(z, h, out, h', out');
  }

  /** Moving blocks between a thread's stack and a call. */
  lemma ChangeStack(z: seq<int>, h: Heap, out: multiset<nat>, t: nat, s: nat, st: Stack, stacks: seq<Stack>,
                    out': multiset<nat>)
    requires Inv(z, h, out) && t < |h.threads| && s < |z| == |h.threads[t]| && stacks == h.threads[t][s := st]
    requires StackOk(z, h.kind, s, st)
    requires multiset(Contents(st)) + out' == multiset(Contents(h.threads[t][s])) + out
    ensures Inv(z, h.(threads := h.threads[t := stacks]), out')
  {
    var h' := h.(threads := h.threads[t := stacks]);
    StackUpdate(h.threads, t, s, st, stacks);
    var rest := Listed(h.lists) + InGroups(h.lists) + multiset(h.spare);
    var p, p' := multiset(Contents(h.threads[t][s])), multiset(Contents(st));
    forall e ensures (Stock(h') + out')[e] == (Stock(h) + out)[e] {
      assert (Cached(h'.threads) + p)[e] == (Cached(h.threads) + p')[e];
      assert (p' + out')[e] == (p + out)[e];
    }
    SameBalance(z, h, out, h', out');
    assert ThreadOk(z, h.kind, h.threads[t]);
  }

  lemma CachedSnoc(threads: seq<seq<Stack>>, stacks: seq<Stack>)
    requires forall s :: 0 <= s < |stacks| ==> Contents(stacks[s]) == []
    ensures Cached(threads + [stacks]) == Cached(threads)
  {
    Empties(StackParts(stacks));
    var p := ThreadParts(threads + [stacks]);
    assert p[..|threads|] == ThreadParts(threads) && p[|threads|] == [];
  }

  /** A thread registers with empty stacks. */
  lemma NewThread(z: seq<int>, h: Heap, out: multiset<nat>, stacks: seq<Stack>)
    requires Inv(z, h, out) && ThreadOk(z, h.kind, stacks) && forall s :: 0 <= s < |stacks| ==>
      Contents(stacks[s]) == []
    ensures Inv(z, h.(threads := h.threads + [stacks]), out)
  {
    var h' := h.(threads := h.threads + [stacks]);
    CachedSnoc(h.threads, stacks);
    SameBalance(z, h, out, h', out);
  }

  lemma {:induction false} Empties(parts: seq<seq<nat>>)
    requires forall i :: 0 <= i < |parts| ==> parts[i] == []
    ensures Concat(parts) == []
  {
    if parts != [] {
      Empties(parts[..|parts| - 1]);
    }
  }

  /** Nothing mapped, nothing anywhere. */
  lemma EmptyHeap(z: seq<int>, h: Heap)
    requires SizesOk(z) && |h.kind| > 0 && |h.current| == |z| == |h.lists| && h.free == [] && h.spare == []
    requires h.threads == []
    requires forall c :: 0 <= c < |h.kind| ==> h.kind[c] == 0
    requires forall s :: 0 <= s < |z| ==> h.current[s] == 0 && h.lists[s] == []
    ensures Inv(z, h, multiset{})
  {
    Empties(PointerParts(h.lists));
    Empties(AddressParts(h.lists));
    assert ThreadParts(h.threads) == [];
    assert Stock(h) + multiset{} == multiset{};
    forall a: nat ensures BalancedAt(z, h.kind, h.current, multiset{}, a) { }
    forall c: int ensures FreeListed(h.kind, h.free, c) && KindOk(z, h.kind, c) && FreeAt(h.kind, h.free, c) { }
    forall s | 1 <= s < |z| ensures CurrentOk(z, h.kind, s, h.current[s]) { }
    forall s | 0 <= s < |z| ensures ListOk(h.kind, s, h.lists[s]) { }
  }
}
