/** Defragmentation: which chunks have all their blocks in the lists, and what is left without them. */
module DrainedChunks {
  import opened Blocks
  import opened BlockMoves

  /** Every block of the chunk is in a list of free blocks. */
  ghost predicate Drained(z: seq<int>, kind: seq<int>, listed: multiset<nat>, c: nat) {
    c < |kind| && 1 <= kind[c] < |z| && forall a: nat :: a / CHUNK == c && Cell(z[kind[c]], a % CHUNK) ==> a in listed
  }

  // ---------------------------------------------------------------- counting

  function CountIn(l: seq<nat>, c: nat): nat {
    if l == [] then 0 else CountIn(l[..|l| - 1], c) + if l[|l| - 1] / CHUNK == c then 1 else 0
  }

  ghost function InChunkOf(l: seq<nat>, c: nat): set<nat> { set a | a in l && a / CHUNK == c }

  lemma {:induction false} CountIsSize(l: seq<nat>, c: nat)
    requires forall a :: multiset(l)[a] <= 1
    ensures |InChunkOf(l, c)| == CountIn(l, c)
  {
    if l == [] {
      assert InChunkOf(l, c) == {};
    } else {
      var m := |l| - 1;
      var x: nat := l[m];
      assert l == l[..m] + [x];
      forall a ensures multiset(l[..m])[a] <= 1 { assert multiset(l)[a] <= 1; }
      CountIsSize(l[..m], c);
      assert multiset(l)[x] == multiset(l[..m])[x] + 1;
      assert x !in l[..m];
      assert InChunkOf(l, c) == InChunkOf(l[..m], c) + if x / CHUNK == c then {x} else {};
    }
  }

  ghost function RunSet(from: nat, size: nat, n: nat): set<nat> { set a | a in RunOf(from, size, n) }

  lemma {:induction false} SizeOfRun(from: nat, size: nat, n: nat)
    requires size > 0
    ensures |RunSet(from, size, n)| == n
  {
    var s := RunSet(from, size, n);
    if n == 0 {
      assert s == {};
    } else {
      SizeOfRun(from, size, n - 1);
      var x := from + (n - 1) * size;
      forall i | 0 <= i < n - 1 ensures from + i * size != x { MulOrder(i, n - 1, size); }
      var l := RunOf(from, size, n - 1);
      assert RunOf(from, size, n) == l + [x];
      assert x !in l;
      assert s == RunSet(from, size, n - 1) + {x};
    }
  }

  /** The cells of a chunk. */
  lemma CellsOfChunk(size: nat, c: nat, a: nat)
    requires 0 < size <= CHUNK
    ensures a in RunOf(c * CHUNK, size, CHUNK / size) <==> a / CHUNK == c && Cell(size, a % CHUNK)
  {
    var n := CHUNK / size;
    assert n * size <= CHUNK < n * size + size;
    var from := c * CHUNK;
    assert from % CHUNK == 0 && from / CHUNK == c;
    InBlocks(from, size, n, a);
    if a / CHUNK == c && Cell(size, a % CHUNK) {
      CellsBelow(size, a % CHUNK);
    }
  }

  lemma CellsBelow(size: nat, off: nat)
    requires size > 0 && Cell(size, off)
    ensures off + size <= CHUNK / size * size
  {
    var n, k := CHUNK / size, off / size;
    assert off == k * size && CHUNK < n * size + size;
    assert (n + 1) * size == n * size + size && (k + 1) * size == k * size + size;
    MulOrder(k + 1, n + 1, size);
    MulOrder(k, n, size);
  }

  lemma SameSize(a: set<nat>, b: set<nat>)
    requires a <= b
    ensures |a| <= |b| && (|a| == |b| <==> a == b)
  {
    assert b == a + (b - a);
  }

  /** The listed blocks of a chunk fill its places just when the chunk is drained. */
  lemma FilledIsDrained(z: seq<int>, kind: seq<int>, l: seq<nat>, c: nat)
    requires SizesOk(z) && c < |kind| && 1 <= kind[c] < |z|
    ensures Drained(z, kind, multiset(l), c) <==> CellSet(z[kind[c]], c) <= InChunkOf(l, c)
  {
    var size := z[kind[c]];
    InCells(size, c);
    if CellSet(size, c) <= InChunkOf(l, c) {
      forall a: nat | a / CHUNK == c && Cell(size, a % CHUNK) ensures a in multiset(l) { assert a in CellSet(size, c); }
    }
  }

  lemma ListedInCells(z: seq<int>, kind: seq<int>, current: seq<nat>, l: seq<nat>, c: nat)
    requires SizesOk(z) && c < |kind| && 1 <= kind[c] < |z|
    requires forall a :: a in l ==> IsCarved(z, kind, current, a)
    ensures InChunkOf(l, c) <= CellSet(z[kind[c]], c)
  {
    InCells(z[kind[c]], c);
  }

  /** The number of listed blocks of a chunk reaches the number of its places just when all are listed. */
  lemma CountDecides(z: seq<int>, kind: seq<int>, current: seq<nat>, l: seq<nat>, c: nat)
    requires SizesOk(z) && c < |kind| && 1 <= kind[c] < |z|
    requires forall a :: a in l ==> IsCarved(z, kind, current, a)
    requires forall a :: multiset(l)[a] <= 1
    ensures CountIn(l, c) <= CHUNK / z[kind[c]]
    ensures CountIn(l, c) == CHUNK / z[kind[c]] <==> Drained(z, kind, multiset(l), c)
  {
    var size := z[kind[c]];
    CountIsSize(l, c);
    SizeOfRun(c * CHUNK, size, CHUNK / size);
    ListedInCells(z, kind, current, l, c);
    SameSize(InChunkOf(l, c), CellSet(size, c));
    FilledIsDrained(z, kind, l, c);
  }

  ghost function CellSet(size: nat, c: nat): set<nat>
    requires size > 0
  {
    RunSet(c * CHUNK, size, CHUNK / size)
  }

  lemma InCells(size: nat, c: nat)
    requires 0 < size <= CHUNK
    ensures forall a: nat :: a in CellSet(size, c) <==> a / CHUNK == c && Cell(size, a % CHUNK)
  {
    forall a: nat ensures a in CellSet(size, c) <==> a / CHUNK == c && Cell(size, a % CHUNK) {
      CellsOfChunk(size, c, a);
    }
  }

  // ---------------------------------------------------------------- sweeping

  predicate Stays(freed: seq<int>, p: nat) { p != 0 && p / CHUNK < |freed| && freed[p / CHUNK] == 0 }

  function Kept(ptrs: seq<nat>, freed: seq<int>): seq<nat> {
    if ptrs == [] then [] else Kept(ptrs[..|ptrs| - 1], freed) + if Stays(freed, ptrs[|ptrs| - 1]) then
      [ptrs[|ptrs| - 1]] else []
  }

  function Padded(l: seq<nat>): (p: seq<nat>)
    requires |l| <= GROUP
    ensures |p| == GROUP
  {
    l + Zeros(GROUP - |l|)
  }

  function Zeros(n: nat): (p: seq<nat>)
    ensures |p| == n && forall i :: 0 <= i < n ==> p[i] == 0
  {
    seq(n, _ => 0)
  }

  lemma {:induction false} KeptBound(ptrs: seq<nat>, freed: seq<int>)
    ensures |Kept(ptrs, freed)| <= |ptrs| && forall i :: 0 <= i < |Kept(ptrs, freed)| ==> Kept(ptrs, freed)[i] != 0
  {
    if ptrs != [] {
      KeptBound(ptrs[..|ptrs| - 1], freed);
    }
  }

  lemma {:induction false} KeptConcat(a: seq<nat>, b: seq<nat>, freed: seq<int>)
    ensures Kept(a + b, freed) == Kept(a, freed) + Kept(b, freed)
  {
    if b == [] {
      assert a + b == a;
    } else {
      var m := |b| - 1;
      KeptConcat(a, b[..m], freed);
      assert (a + b)[..|a + b| - 1] == a + b[..m];
    }
  }

  lemma {:induction false} KeptFilled(ptrs: seq<nat>, freed: seq<int>)
    ensures Kept(Filled(ptrs), freed) == Kept(ptrs, freed)
  {
    if ptrs != [] {
      var m := |ptrs| - 1;
      KeptFilled(ptrs[..m], freed);
      var x := if ptrs[m] != 0 then [ptrs[m]] else [];
      KeptConcat(Filled(ptrs[..m]), x, freed);
      if ptrs[m] != 0 {
        assert x[..0] == [] && Kept(x, freed) == if Stays(freed, ptrs[m]) then [ptrs[m]] else [];
      }
    }
  }

  /** What is left of each pointer, with multiplicity. */
  lemma {:induction false} KeptCounts(l: seq<nat>, freed: seq<int>, a: nat)
    ensures multiset(Kept(l, freed))[a] == if Stays(freed, a) then multiset(l)[a] else 0
  {
    if l != [] {
      KeptCounts(l[..|l| - 1], freed, a);
      assert l == l[..|l| - 1] + [l[|l| - 1]];
    }
  }

  lemma {:induction false} FilledPadding(l: seq<nat>, n: nat)
    requires forall i :: 0 <= i < |l| ==> l[i] != 0
    ensures Filled(l + Zeros(n)) == l
  {
    if n > 0 {
      var m := n - 1;
      FilledPadding(l, m);
      assert l + Zeros(n) == (l + Zeros(m)) + [0];
      FilledSnoc(l + Zeros(m), 0);
    } else {
      FilledWhole(l);
      assert l + Zeros(0) == l;
    }
  }

  lemma FilledSnoc(l: seq<nat>, x: nat)
    ensures Filled(l + [x]) == Filled(l) + if x != 0 then [x] else []
  {
    assert (l + [x])[..|l|] == l;
  }

  lemma {:induction false} FilledWhole(l: seq<nat>)
    requires forall i :: 0 <= i < |l| ==> l[i] != 0
    ensures Filled(l) == l
  {
    if l != [] {
      var m := |l| - 1;
      FilledWhole(l[..m]);
      assert l == l[..m] + [l[m]];
    }
  }

  ghost predicate Whole(list: seq<Group>) { forall i :: 0 <= i < |list| ==> |list[i].ptrs| == GROUP }

  /** The list without pointers into freed chunks and without groups that have none left. */
  function Swept(list: seq<Group>, freed: seq<int>): seq<Group>
    requires Whole(list)
  {
    if list == [] then [] else
      KeptBound(list[0].ptrs, freed);
      var k := Kept(list[0].ptrs, freed);
      (if k == [] then [] else [Group(list[0].addr, Padded(k))]) + Swept(list[1..], freed)
  }

  function Dropped(list: seq<Group>, freed: seq<int>): seq<nat> {
    if list == [] then []
      else (if Kept(list[0].ptrs, freed) == [] then [list[0].addr] else []) + Dropped(list[1..], freed)
  }

  lemma Cons(g: Group, rest: seq<Group>)
    ensures Pointers([g] + rest) == Filled(g.ptrs) + Pointers(rest)
    ensures Addresses([g] + rest) == [g.addr] + Addresses(rest)
  {
    assert ([g] + rest)[1..] == rest;
  }

  lemma {:induction false} SweptPointers(list: seq<Group>, freed: seq<int>)
    requires Whole(list)
    ensures Pointers(Swept(list, freed)) == Kept(Pointers(list), freed)
  {
    if list == [] {
      assert Swept(list, freed) == [] && Pointers(list) == [];
    } else {
      var g, rest := list[0], list[1..];
      SweptPointers(rest, freed);
      SweptFirst(list, freed);
      KeptFilled(g.ptrs, freed);
      KeptConcat(Filled(g.ptrs), Pointers(rest), freed);
      assert Pointers(list) == Filled(g.ptrs) + Pointers(rest);
    }
  }

  lemma SweptFirst(list: seq<Group>, freed: seq<int>)
    requires Whole(list) && list != []
    ensures Pointers(Swept(list, freed)) == Kept(list[0].ptrs, freed) + Pointers(Swept(list[1..], freed))
  {
    var g, rest := list[0], Swept(list[1..], freed);
    var k := Kept(g.ptrs, freed);
    KeptBound(g.ptrs, freed);
    if k != [] {
      FilledPadding(k, GROUP - |k|);
      assert Filled(Padded(k)) == k;
      Cons(Group(g.addr, Padded(k)), rest);
    } else {
      assert Swept(list, freed) == rest;
    }
  }

  lemma {:induction false} SweptAddresses(list: seq<Group>, freed: seq<int>)
    requires Whole(list)
    ensures multiset(Addresses(Swept(list, freed))) + multiset(Dropped(list, freed)) == multiset(Addresses(list))
  {
    if list != [] {
      SweptAddresses(list[1..], freed);
      SweptHead(list, freed);
      assert Addresses(list) == [list[0].addr] + Addresses(list[1..]);
    }
  }

  lemma SweptHead(list: seq<Group>, freed: seq<int>)
    requires Whole(list) && list != []
    ensures multiset(Addresses(Swept(list, freed))) + multiset(Dropped(list, freed))
      == multiset{list[0].addr} + multiset(Addresses(Swept(list[1..], freed))) + multiset(Dropped(list[1..], freed))
  {
    var g, rest := list[0], list[1..];
    var k := Kept(g.ptrs, freed);
    KeptBound(g.ptrs, freed);
    if k != [] {
      Cons(Group(g.addr, Padded(k)), Swept(rest, freed));
      assert Dropped(list, freed) == Dropped(rest, freed);
    } else {
      assert Swept(list, freed) == Swept(rest, freed);
      assert Dropped(list, freed) == [g.addr] + Dropped(rest, freed);
    }
  }

  /** Every group that stays has its pointers in front. */
  lemma {:induction false} SweptCompact(list: seq<Group>, freed: seq<int>)
    requires Whole(list)
    ensures forall i :: 0 <= i < |Swept(list, freed)| ==> Compact(Swept(list, freed)[i].ptrs)
  {
    if list != [] {
      SweptCompact(list[1..], freed);
      KeptBound(list[0].ptrs, freed);
    }
  }

  /** All lists swept together. */
  ghost predicate AllSwept(lists: seq<seq<Group>>, lists': seq<seq<Group>>, freed: seq<int>) {
    |lists'| == |lists| && forall s :: 0 <= s < |lists| ==> Whole(lists[s]) && lists'[s] == Swept(lists[s], freed)
  }

  lemma {:induction false} KeptParts(p: seq<seq<nat>>, q: seq<seq<nat>>, freed: seq<int>)
    requires |p| == |q| && forall s :: 0 <= s < |p| ==> q[s] == Kept(p[s], freed)
    ensures Concat(q) == Kept(Concat(p), freed)
  {
    if p != [] {
      var m := |p| - 1;
      KeptParts(p[..m], q[..m], freed);
      KeptConcat(Concat(p[..m]), p[m], freed);
    }
  }

  /** Pointers outside freed chunks survive with multiplicity, and no others do. */
  lemma ListedAfter(lists: seq<seq<Group>>, lists': seq<seq<Group>>, freed: seq<int>, a: nat)
    requires AllSwept(lists, lists', freed)
    ensures Listed(lists')[a] == if Stays(freed, a) then Listed(lists)[a] else 0
  {
    var p, q := PointerParts(lists), PointerParts(lists');
    forall s | 0 <= s < |p| ensures q[s] == Kept(p[s], freed) { SweptPointers(lists[s], freed); }
    KeptParts(p, q, freed);
    KeptCounts(Concat(p), freed, a);
  }

  // ---------------------------------------------------------------- the whole of it

  function Cleared(kind: seq<int>, freed: seq<int>, n: nat): (k: seq<int>)
    requires n <= |kind| == |freed|
    ensures |k| == |kind| && forall c :: 0 <= c < |k| ==> k[c] == if c < n && freed[c] != 0 then -1 else kind[c]
  {
    seq(|kind|, c requires 0 <= c < |kind| => if c < n && freed[c] != 0 then -1 else kind[c])
  }

  /** Just the drained chunks are marked. */
  ghost predicate Marked(z: seq<int>, h: Heap, freed: seq<int>) {
    |freed| == |h.kind| && forall c :: 0 <= c < |freed| ==> (freed[c] != 0 <==> Drained(z, h.kind, Listed(h.lists), c))
  }

  /** A drained chunk has nothing left to carve, even if it is still the current one. */
  lemma DrainedIsUsedUp(z: seq<int>, h: Heap, out: multiset<nat>, s: nat)
    requires Inv(z, h, out) && 1 <= s < |z| && h.current[s] != 0
    requires Drained(z, h.kind, Listed(h.lists), h.current[s] / CHUNK)
    ensures h.current[s] % CHUNK + z[s] > CHUNK
  {
    var cur := h.current[s];
    assert CurrentOk(z, h.kind, s, cur);
    if cur % CHUNK + z[s] <= CHUNK {
      assert Cell(z[h.kind[cur / CHUNK]], cur % CHUNK);
      assert cur in Listed(h.lists) && cur in Stock(h) + out;
      OnlyCarved(z, h.kind, h.current, Stock(h) + out, cur);
    }
  }

  /** What defragmentation makes of the heap. */
  ghost predicate Defragmented(h: Heap, freed: seq<int>, h': Heap) {
    && |freed| == |h.kind| && h'.kind == Cleared(h.kind, freed, |h.kind|)
    && h'.current == h.current && h'.threads == h.threads && AllSwept(h.lists, h'.lists, freed)
    && multiset(h'.spare) + InGroups(h'.lists) == multiset(h.spare) + InGroups(h.lists)
  }

  lemma CarvedAfter(z: seq<int>, kind: seq<int>, current: seq<nat>, freed: seq<int>, a: nat)
    requires |freed| == |kind|
    ensures IsCarved(z, Cleared(kind, freed, |kind|), current, a) <==>
      IsCarved(z, kind, current, a) && a / CHUNK < |freed| && freed[a / CHUNK] == 0
  {
  }

  /** All places together, before and after. */
  lemma CountsAfter(h: Heap, out: multiset<nat>, freed: seq<int>, h': Heap, a: nat) returns (rest: nat)
    requires Defragmented(h, freed, h')
    ensures (Stock(h) + out)[a] == Listed(h.lists)[a] + rest
    ensures (Stock(h') + out)[a] == rest + if Stays(freed, a) then Listed(h.lists)[a] else 0
  {
    ListedAfter(h.lists, h'.lists, freed, a);
    assert (multiset(h'.spare) + InGroups(h'.lists))[a] == (multiset(h.spare) + InGroups(h.lists))[a];
    rest := multiset(h.spare)[a] + InGroups(h.lists)[a] + Cached(h.threads)[a] + out[a];
  }

  lemma BalanceAfterAt(z: seq<int>, kind: seq<int>, current: seq<nat>, listed: multiset<nat>, freed: seq<int>,
                       all: multiset<nat>, all': multiset<nat>, rest: nat, a: nat)
    requires KindsOk(z, kind) && |freed| == |kind| && BalancedAt(z, kind, current, all, a)
    requires a / CHUNK < |kind| ==> (freed[a / CHUNK] != 0 <==> Drained(z, kind, listed, a / CHUNK))
    requires all[a] == listed[a] + rest
    requires all'[a] == rest + if Stays(freed, a) then listed[a] else 0
    ensures BalancedAt(z, Cleared(kind, freed, |kind|), current, all', a)
  {
    var c := a / CHUNK;
    CarvedAfter(z, kind, current, freed, a);
    if IsCarved(z, kind, current, a) && freed[c] != 0 {
      assert a in listed;
    }
  }

  lemma CurrentsAfter(z: seq<int>, h: Heap, out: multiset<nat>, freed: seq<int>)
    requires Inv(z, h, out) && Marked(z, h, freed)
    ensures CurrentsOk(z, Cleared(h.kind, freed, |h.kind|), h.current)
  {
    forall s | 1 <= s < |z| ensures CurrentOk(z, Cleared(h.kind, freed, |h.kind|), s, h.current[s]) {
      assert CurrentOk(z, h.kind, s, h.current[s]);
      if h.current[s] != 0 && freed[h.current[s] / CHUNK] != 0 {
        DrainedIsUsedUp(z, h, out, s);
      }
    }
  }

  lemma {:induction false} KeptSubset(l: seq<nat>, freed: seq<int>)
    ensures forall a :: a in Kept(l, freed) ==> a in l
  {
    forall a | a in Kept(l, freed) ensures a in l {
      KeptCounts(l, freed, a);
      assert a in multiset(Kept(l, freed));
      assert a in multiset(l);
    }
  }

  lemma SubKind(kind: seq<int>, l: seq<nat>, l': seq<nat>, s: int)
    requires AllKind(kind, l, s) && forall a :: a in l' ==> a in l
    ensures AllKind(kind, l', s)
  {
    forall a: nat ensures KindAt(kind, l', s, a) { assert KindAt(kind, l, s, a); }
  }

  lemma ListAfter(kind: seq<int>, s: nat, list: seq<Group>, list': seq<Group>, freed: seq<int>)
    requires ListOk(kind, s, list) && Whole(list) && list' == Swept(list, freed)
    ensures ListOk(kind, s, list')
  {
    SweptPointers(list, freed);
    KeptSubset(Pointers(list), freed);
    SubKind(kind, Pointers(list), Pointers(list'), s);
    SweptCompact(list, freed);
    SweptAddresses(list, freed);
    forall a | a in Addresses(list') ensures a in Addresses(list) {
      assert a in multiset(Addresses(list'));
      assert a in multiset(Addresses(list));
    }
    SubKind(kind, Addresses(list), Addresses(list'), GROUP_IDX);
  }

  lemma ListsAfter(z: seq<int>, kind: seq<int>, lists: seq<seq<Group>>, lists': seq<seq<Group>>, freed: seq<int>)
    requires ListsOk(z, kind, lists) && AllSwept(lists, lists', freed)
    ensures ListsOk(z, kind, lists')
  {
    forall s | 0 <= s < |z| ensures ListOk(kind, s, lists'[s]) {
      assert ListOk(kind, s, lists[s]);
      ListAfter(kind, s, lists[s], lists'[s], freed);
    }
  }

  /** The blocks in `spare` afterwards were spare or groups before. */
  lemma SpareAfter(z: seq<int>, h: Heap, freed: seq<int>, h': Heap)
    requires ListsOk(z, h.kind, h.lists) && AllKind(h.kind, h.spare, GROUP_IDX) && Defragmented(h, freed, h')
    ensures AllKind(h.kind, h'.spare, GROUP_IDX)
  {
    forall a: nat ensures KindAt(h.kind, h'.spare, GROUP_IDX, a) {
      if a in h'.spare {
        assert a in multiset(h'.spare) + InGroups(h'.lists);
        assert a in multiset(h.spare) + InGroups(h.lists);
        if a in InGroups(h.lists) {
          GroupKind(z, h.kind, h.lists, a);
        } else {
          assert a in h.spare;
          InKind(h.kind, h.spare, GROUP_IDX, a);
        }
      }
    }
  }

  lemma GroupKind(z: seq<int>, kind: seq<int>, lists: seq<seq<Group>>, a: nat)
    requires ListsOk(z, kind, lists) && a in InGroups(lists)
    ensures a / CHUNK < |kind| && kind[a / CHUNK] == GROUP_IDX
  {
    ConcatHas(AddressParts(lists), a);
    var s :| 0 <= s < |lists| && a in AddressParts(lists)[s];
    assert ListOk(kind, s, lists[s]) && a in Addresses(lists[s]);
    InKind(kind, Addresses(lists[s]), GROUP_IDX, a);
  }

  /** Nothing in stock lies in a freed chunk. */
  lemma KindsAfter(z: seq<int>, h: Heap, out: multiset<nat>, freed: seq<int>, h': Heap)
    requires KindsOk(z, h.kind) && Defragmented(h, freed, h') && Balanced(z, h'.kind, h'.current, Stock(h') + out)
    requires ListsOk(z, h.kind, h'.lists) && AllKind(h.kind, h'.spare, GROUP_IDX) && ThreadsOk(z, h.kind, h'.threads)
    ensures ListsOk(z, h'.kind, h'.lists) && AllKind(h'.kind, h'.spare, GROUP_IDX) && ThreadsOk(z, h'.kind, h'.threads)
  {
    forall a: nat ensures KindKept(Stock(h'), h.kind, h'.kind, a) {
      if a in Stock(h') { OnlyCarved(z, h'.kind, h'.current, Stock(h') + out, a); }
    }
    Refit(z, h.kind, h'.kind, h');
  }

  /** Freeing just the drained chunks, and sweeping the pointers to them, keeps every block that
      remains in exactly one place. */
  lemma DefragmentKeeps(z: seq<int>, h: Heap, out: multiset<nat>, freed: seq<int>, h': Heap)
    requires Inv(z, h, out) && Marked(z, h, freed) && Defragmented(h, freed, h') && FreeOk(h'.kind, h'.free)
    ensures Inv(z, h', out)
  {
    forall a: nat ensures BalancedAt(z, h'.kind, h'.current, Stock(h') + out, a) {
      assert BalancedAt(z, h.kind, h.current, Stock(h) + out, a);
      var rest := CountsAfter(h, out, freed, h', a);
      BalanceAfterAt(z, h.kind, h.current, Listed(h.lists), freed, Stock(h) + out, Stock(h') + out, rest, a);
    }
    CurrentsAfter(z, h, out, freed);
    ListsAfter(z, h.kind, h.lists, h'.lists, freed);
    SpareAfter(z, h, freed, h');
    KindsAfter(z, h, out, freed, h');
    ClearedKinds(z, h, freed);
  }

  lemma ClearedKinds(z: seq<int>, h: Heap, freed: seq<int>)
    requires KindsOk(z, h.kind) && Marked(z, h, freed)
    ensures KindsOk(z, Cleared(h.kind, freed, |h.kind|))
  {
    var kind' := Cleared(h.kind, freed, |h.kind|);
    assert h.kind[0] == 0 && !Drained(z, h.kind, Listed(h.lists), 0);
    forall c: int ensures KindOk(z, kind', c) { assert KindOk(z, h.kind, c); }
  }
}
