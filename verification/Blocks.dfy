/** Chunks, blocks and groups of blocks: who owns every carved block. Calls are atomic here. */
module Blocks {

  const CHUNK: nat := 0x10_0000
  const GROUP: nat := 15
  const THREAD_BUF: nat := 256
  const GROUP_IDX: nat := 8
  const MAX_MEM_PER_SIZE: nat := 0x8_0000

  /** Block size by size index; entry 0 is not used. */
  const SIZES: seq<int> := [-1, 16, 16, 32, 32, 48, 64, 96, 128, 192, 256, 384, 512, 768, 1024, 1536, 2048,
                            3072, 4096, 6144, 8192, 12288, 16384, 24576, 32768]

  /** All that is used of the table of sizes. */
  predicate SizesOk(z: seq<int>) { |z| > GROUP_IDX && forall s :: 1 <= s < |z| ==> 1 <= z[s] <= MAX_MEM_PER_SIZE }

  /** The table of the build for YT, with two more sizes. */
  const SIZES_YT: seq<int> := SIZES + [49152, 65536]

  /** A group is a link and 15 pointers of 8 bytes, which fill a block of its size. */
  lemma TableOk()
    ensures SizesOk(SIZES) && SIZES[GROUP_IDX] == 8 + 8 * GROUP
    ensures SizesOk(SIZES_YT) && SIZES_YT[GROUP_IDX] == 8 + 8 * GROUP
  {
  }

  /** A list entry: a block of its own that holds up to 15 pointers to free blocks, 0 for none. */
  datatype Group = Group(addr: nat, ptrs: seq<nat>)

  /** Free blocks of one size in one thread: those in `slots` from `index` on. */
  datatype Stack = Stack(slots: seq<nat>, index: nat)

  /** `kind` maps a chunk to its size index: 0 not mapped, -1 free. `free` lists the free chunks.
      `current` has, for each size, the next block to carve (0 for none), `lists` the groups of free
      blocks, `spare` the blocks that are free to become groups; `mapped` counts the regions mapped. */
  datatype Heap = Heap(kind: seq<int>, free: seq<nat>, current: seq<nat>, lists: seq<seq<Group>>, spare: seq<nat>,
                       threads: seq<seq<Stack>>, mapped: nat)

  // ---------------------------------------------------------------- what is where

  function Filled(ptrs: seq<nat>): (l: seq<nat>) {
    if ptrs == [] then [] else Filled(ptrs[..|ptrs| - 1]) + if ptrs[|ptrs| - 1] != 0 then [ptrs[|ptrs| - 1]] else []
  }

  function Pointers(list: seq<Group>): seq<nat> {
    if list == [] then [] else Filled(list[0].ptrs) + Pointers(list[1..])
  }

  function Addresses(list: seq<Group>): seq<nat> {
    if list == [] then [] else [list[0].addr] + Addresses(list[1..])
  }

  function Contents(st: Stack): seq<nat> {
    if st.index <= |st.slots| then st.slots[st.index..] else []
  }

  function Concat(parts: seq<seq<nat>>): seq<nat> {
    if parts == [] then [] else Concat(parts[..|parts| - 1]) + parts[|parts| - 1]
  }

  function PointerParts(lists: seq<seq<Group>>): (p: seq<seq<nat>>)
    ensures |p| == |lists| && forall s :: 0 <= s < |p| ==> p[s] == Pointers(lists[s])
  {
    seq(|lists|, s requires 0 <= s < |lists| => Pointers(lists[s]))
  }

  function AddressParts(lists: seq<seq<Group>>): (p: seq<seq<nat>>)
    ensures |p| == |lists| && forall s :: 0 <= s < |p| ==> p[s] == Addresses(lists[s])
  {
    seq(|lists|, s requires 0 <= s < |lists| => Addresses(lists[s]))
  }

  function StackParts(stacks: seq<Stack>): (p: seq<seq<nat>>)
    ensures |p| == |stacks| && forall s :: 0 <= s < |p| ==> p[s] == Contents(stacks[s])
  {
    seq(|stacks|, s requires 0 <= s < |stacks| => Contents(stacks[s]))
  }

  function ThreadParts(threads: seq<seq<Stack>>): (p: seq<seq<nat>>)
    ensures |p| == |threads| && forall t :: 0 <= t < |p| ==> p[t] == Concat(StackParts(threads[t]))
  {
    seq(|threads|, t requires 0 <= t < |threads| => Concat(StackParts(threads[t])))
  }

  ghost function Listed(lists: seq<seq<Group>>): multiset<nat> { multiset(Concat(PointerParts(lists))) }

  ghost function InGroups(lists: seq<seq<Group>>): multiset<nat> { multiset(Concat(AddressParts(lists))) }

  ghost function Cached(threads: seq<seq<Stack>>): multiset<nat> { multiset(Concat(ThreadParts(threads))) }

  /** Everything the allocator holds itself, with multiplicity. */
  ghost function Stock(h: Heap): multiset<nat> {
    Listed(h.lists) + InGroups(h.lists) + multiset(h.spare) + Cached(h.threads)
  }

  lemma ConcatSnoc(parts: seq<seq<nat>>, init: seq<seq<nat>>, last: seq<nat>)
    requires parts == init + [last]
    ensures multiset(Concat(parts)) == multiset(Concat(init)) + multiset(last)
  {
    assert parts[..|parts| - 1] == init;
  }

  lemma Exchange(a: multiset<nat>, b: multiset<nat>, c: multiset<nat>, d: multiset<nat>, m: multiset<nat>)
    requires a + b == c + d
    ensures (a + m) + b == (c + m) + d
  {
    assert (a + m) + b == (a + b) + m && (c + m) + d == (c + d) + m;
  }

  lemma Cancel(a: multiset<nat>, k: multiset<nat>, c: multiset<nat>, z: multiset<nat>, x: multiset<nat>,
               y: multiset<nat>)
    requires a + k == c + z && z + x == k + y
    ensures a + x == c + y
  {
    forall e ensures (a + x)[e] == (c + y)[e] {
      assert (a + k)[e] == (c + z)[e] && (z + x)[e] == (k + y)[e];
    }
  }

  lemma {:induction false} ConcatUpdate(parts: seq<seq<nat>>, i: nat, x: seq<nat>)
    requires i < |parts|
    ensures multiset(Concat(parts[i := x])) + multiset(parts[i]) == multiset(Concat(parts)) + multiset(x)
  {
    var m := |parts| - 1;
    var z, a := parts[i := x], parts[..m];
    ConcatSnoc(parts, a, parts[m]);
    if i == m {
      ConcatSnoc(z, a, x);
      return;
    }
    var b := a[i := x];
    ConcatUpdate(a, i, x);
    ConcatSnoc(z, b, parts[m]);
    Exchange(multiset(Concat(b)), multiset(parts[i]), multiset(Concat(a)), multiset(x), multiset(parts[m]));
  }

  lemma {:induction false} ConcatHas(parts: seq<seq<nat>>, a: nat)
    ensures a in Concat(parts) <==> exists i :: 0 <= i < |parts| && a in parts[i]
  {
    if parts != [] {
      var m := |parts| - 1;
      ConcatHas(parts[..m], a);
      if i :| 0 <= i < |parts| && a in parts[i] {
        assert i < m ==> parts[..m][i] == parts[i];
      }
      if i :| 0 <= i < m && a in parts[..m][i] {
        assert a in parts[i];
      }
    }
  }

  lemma ListUpdate(lists: seq<seq<Group>>, s: nat, l: seq<Group>)
    requires s < |lists|
    ensures Listed(lists[s := l]) + multiset(Pointers(lists[s])) == Listed(lists) + multiset(Pointers(l))
    ensures InGroups(lists[s := l]) + multiset(Addresses(lists[s])) == InGroups(lists) + multiset(Addresses(l))
  {
    PointersUpdate(lists, s, l);
    AddressesUpdate(lists, s, l);
  }

  lemma PointersUpdate(lists: seq<seq<Group>>, s: nat, l: seq<Group>)
    requires s < |lists|
    ensures Listed(lists[s := l]) + multiset(Pointers(lists[s])) == Listed(lists) + multiset(Pointers(l))
  {
    ConcatUpdate(PointerParts(lists), s, Pointers(l));
    assert PointerParts(lists[s := l]) == PointerParts(lists)[s := Pointers(l)];
  }

  lemma AddressesUpdate(lists: seq<seq<Group>>, s: nat, l: seq<Group>)
    requires s < |lists|
    ensures InGroups(lists[s := l]) + multiset(Addresses(lists[s])) == InGroups(lists) + multiset(Addresses(l))
  {
    ConcatUpdate(AddressParts(lists), s, Addresses(l));
    assert AddressParts(lists[s := l]) == AddressParts(lists)[s := Addresses(l)];
  }

  lemma StackUpdate(threads: seq<seq<Stack>>, t: nat, s: nat, st: Stack, stacks: seq<Stack>)
    requires t < |threads| && s < |threads[t]| && stacks == threads[t][s := st]
    ensures Cached(threads[t := stacks]) + multiset(Contents(threads[t][s])) == Cached(threads) + multiset(Contents(st))
  {
    StacksUpdate(threads[t], s, st);
    var y, z := Concat(StackParts(threads[t])), Concat(StackParts(stacks));
    ConcatUpdate(ThreadParts(threads), t, z);
    assert ThreadParts(threads[t := stacks]) == ThreadParts(threads)[t := z];
    Cancel(Cached(threads[t := stacks]), multiset(y), Cached(threads), multiset(z),
      multiset(Contents(threads[t][s])), multiset(Contents(st)));
  }

  lemma StacksUpdate(stacks: seq<Stack>, s: nat, st: Stack)
    requires s < |stacks|
    ensures multiset(Concat(StackParts(stacks[s := st])))
      + multiset(Contents(stacks[s])) == multiset(Concat(StackParts(stacks))) + multiset(Contents(st))
  {
    ConcatUpdate(StackParts(stacks), s, Contents(st));
    assert StackParts(stacks[s := st]) == StackParts(stacks)[s := Contents(st)];
  }

  // ---------------------------------------------------------------- carved blocks

  /** A place for a block of this size in a chunk. */
  predicate Cell(size: int, off: int) { size > 0 && off % size == 0 && 0 <= off && off + size <= CHUNK }

  /** The block at `a` has been carved from its chunk. */
  predicate IsCarved(z: seq<int>, kind: seq<int>, current: seq<nat>, a: nat) {
    var c := a / CHUNK;
    && c < |kind| && 1 <= kind[c] < |z| == |current| && Cell(z[kind[c]], a % CHUNK)
    && (current[kind[c]] / CHUNK == c ==> a < current[kind[c]])
  }

  /** The next block to carve, if it fits, is in a chunk of its size. It may not fit, and then its
      chunk may already serve another size. */
  predicate CurrentOk(z: seq<int>, kind: seq<int>, s: int, cur: nat)
    requires 1 <= s < |z|
  {
    cur == 0 || (cur / CHUNK < |kind| && z[s] > 0 && cur % CHUNK % z[s] == 0
      && (cur % CHUNK + z[s] <= CHUNK ==> kind[cur / CHUNK] == s))
  }

  ghost predicate BalancedAt(z: seq<int>, kind: seq<int>, current: seq<nat>, all: multiset<nat>, a: nat) {
    all[a] == if IsCarved(z, kind, current, a) then 1 else 0
  }

  /** Every carved block is in exactly one place, and nothing else is anywhere. */
  ghost predicate Balanced(z: seq<int>, kind: seq<int>, current: seq<nat>, all: multiset<nat>) {
    forall a: nat :: BalancedAt(z, kind, current, all, a)
  }

  predicate KindAt(kind: seq<int>, l: seq<nat>, s: int, a: nat) {
    a in l ==> s >= 1 && a / CHUNK < |kind| && kind[a / CHUNK] == s
  }

  /** Every block listed is in a chunk of size index s. */
  ghost predicate AllKind(kind: seq<int>, l: seq<nat>, s: int) { forall a: nat :: KindAt(kind, l, s, a) }

  lemma InKind(kind: seq<int>, l: seq<nat>, s: int, a: nat)
    requires AllKind(kind, l, s) && a in l
    ensures s >= 1 && a / CHUNK < |kind| && kind[a / CHUNK] == s
  {
    assert KindAt(kind, l, s, a);
  }

  /** The pointers of a group stand before its empty entries, and there is at least one. */
  predicate Compact(ptrs: seq<nat>) {
    |ptrs| == GROUP && ptrs[0] != 0 && forall i, j :: 0 <= i < j < |ptrs| && ptrs[j] != 0 ==> ptrs[i] != 0
  }

  function Border(size: int): int
    requires size > 0
  {
    THREAD_BUF - if MAX_MEM_PER_SIZE / size > THREAD_BUF then THREAD_BUF else MAX_MEM_PER_SIZE / size
  }

  /** As far down as a stack may reach: to its border, or to where a full refill of an empty stack ends. */
  function Lowest(size: int): int
    requires size > 0
  {
    var refilled := THREAD_BUF - (GROUP - 1);
    if Border(size) < refilled then Border(size) else refilled
  }

  ghost predicate StackOk(z: seq<int>, kind: seq<int>, s: int, st: Stack)
    requires 0 <= s < |z|
  {
    && |st.slots| == THREAD_BUF && AllKind(kind, Contents(st), s)
    && if s >= 1 then z[s] > 0 && Lowest(z[s]) <= st.index <= THREAD_BUF else st.index == THREAD_BUF
  }

  ghost predicate ListOk(kind: seq<int>, s: int, list: seq<Group>) {
    && AllKind(kind, Pointers(list), s) && AllKind(kind, Addresses(list), GROUP_IDX)
    && forall i {:trigger Compact(list[i].ptrs)} :: 0 <= i < |list| ==> Compact(list[i].ptrs)
  }

  predicate KindOk(z: seq<int>, kind: seq<int>, c: int) { 0 <= c < |kind| ==> -1 <= kind[c] < |z| }

  ghost predicate KindsOk(z: seq<int>, kind: seq<int>) {
    |kind| > 0 && kind[0] == 0 && forall c: int :: KindOk(z, kind, c)
  }

  predicate FreeAt(kind: seq<int>, free: seq<nat>, i: int) {
    0 <= i < |free| ==> 0 < free[i] < |kind| && kind[free[i]] == -1
  }

  predicate FreeOnce(free: seq<nat>, i: int, j: int) { 0 <= i < j < |free| ==> free[i] != free[j] }

  predicate FreeListed(kind: seq<int>, free: seq<nat>, c: int) { 0 <= c < |kind| && kind[c] == -1 ==> c in free }

  /** The chunks of kind -1 are listed, each once, and no others. */
  ghost predicate FreeOk(kind: seq<int>, free: seq<nat>) {
    (forall i: int :: FreeAt(kind, free, i)) && (forall i: int, j: int :: FreeOnce(free, i, j))
      && forall c: int :: FreeListed(kind, free, c)
  }

  ghost predicate CurrentsOk(z: seq<int>, kind: seq<int>, current: seq<nat>) {
    |current| == |z| && forall s {:trigger CurrentOk(z, kind, s, current[s])} :: 1 <= s < |z| ==>
      CurrentOk(z, kind, s, current[s])
  }

  ghost predicate ListsOk(z: seq<int>, kind: seq<int>, lists: seq<seq<Group>>) {
    |lists| == |z| && forall s {:trigger ListOk(kind, s, lists[s])} :: 0 <= s < |z| ==> ListOk(kind, s, lists[s])
  }

  ghost predicate ThreadOk(z: seq<int>, kind: seq<int>, stacks: seq<Stack>) {
    |stacks| == |z| && forall s {:trigger StackOk(z, kind, s, stacks[s])} :: 0 <= s < |z| ==>
      StackOk(z, kind, s, stacks[s])
  }

  ghost predicate ThreadsOk(z: seq<int>, kind: seq<int>, threads: seq<seq<Stack>>) {
    forall t {:trigger ThreadOk(z, kind, threads[t])} :: 0 <= t < |threads| ==> ThreadOk(z, kind, threads[t])
  }

  /** The invariant. `out` are the blocks in the hands of callers and in transit inside a call. */
  ghost predicate Inv(z: seq<int>, h: Heap, out: multiset<nat>) {
    && SizesOk(z) && KindsOk(z, h.kind) && FreeOk(h.kind, h.free) && CurrentsOk(z, h.kind, h.current)
    && ListsOk(z, h.kind, h.lists) && AllKind(h.kind, h.spare, GROUP_IDX) && ThreadsOk(z, h.kind, h.threads)
    && Balanced(z, h.kind, h.current, Stock(h) + out)
  }

  /** Two blocks out at the same time never overlap. */
  lemma BlocksDisjoint(z: seq<int>, h: Heap, out: multiset<nat>, a: nat, b: nat)
    requires Inv(z, h, out) && a in out && b in out && a < b
    ensures a / CHUNK < |h.kind| && 1 <= h.kind[a / CHUNK] < |z|
    ensures a + z[h.kind[a / CHUNK]] <= b && a / CHUNK == (a + z[h.kind[a / CHUNK]] - 1) / CHUNK
  {
    assert BalancedAt(z, h.kind, h.current, Stock(h) + out, a) && BalancedAt(z, h.kind, h.current, Stock(h) + out, b);
    var size := z[h.kind[a / CHUNK]];
    if a / CHUNK == b / CHUNK {
      CellsApart(size, a % CHUNK, b % CHUNK);
    }
  }

  lemma MulOrder(i: int, j: int, size: int)
    requires size > 0
    ensures i < j ==> i * size + size <= j * size
    ensures i * size < j * size ==> i < j
  {
    if i < j {
      Multiply(i, j - i - 1, size);
    } else {
      Multiply(j, i - j, size);
    }
  }

  lemma Multiply(i: int, d: nat, size: int)
    requires size > 0
    ensures (i + d) * size == i * size + d * size && d * size >= 0
    ensures (i + d + 1) * size == i * size + d * size + size
  {
  }

  lemma CellsApart(size: int, x: int, y: int)
    requires size > 0 && x % size == 0 && y % size == 0 && x < y
    ensures x + size <= y
  {
    var i, j := x / size, y / size;
    assert x == i * size && y == j * size;
    MulOrder(i, j, size);
  }

  lemma NextCell(size: int, x: int, i: int)
    requires size > 0 && x % size == 0
    ensures (x + i * size) % size == 0
  {
    var k := x / size;
    assert x + i * size == (k + i) * size;
    ModOfMultiple(k + i, size);
  }

  lemma ModOfMultiple(k: int, size: int)
    requires size > 0
    ensures (k * size) % size == 0
  {
    var q, r := (k * size) / size, (k * size) % size;
    assert k * size == q * size + r;
    MulOrder(q, k, size);
    MulOrder(k, q, size);
  }

  // ---------------------------------------------------------------- carving

  /** `count` blocks of this size, one after another. */
  function RunOf(from: nat, size: nat, count: nat): (l: seq<nat>)
    ensures |l| == count && forall i :: 0 <= i < count ==> l[i] == from + i * size
  {
    seq(count, i requires 0 <= i < count => from + i * size)
  }

  lemma {:induction false} Once(l: seq<nat>, a: nat)
    requires forall i, j :: 0 <= i < j < |l| ==> l[i] != l[j]
    ensures multiset(l)[a] == if a in l then 1 else 0
  {
    if l != [] {
      var m := |l| - 1;
      Once(l[..m], a);
      assert l == l[..m] + [l[m]];
    }
  }

  lemma BlocksOnce(from: nat, size: nat, count: nat, a: nat)
    requires size > 0
    ensures multiset(RunOf(from, size, count))[a] == if a in RunOf(from, size, count) then 1 else 0
  {
    var l := RunOf(from, size, count);
    forall i, j | 0 <= i < j < |l| ensures l[i] != l[j] {
      assert i * size + size == (i + 1) * size <= j * size;
    }
    Once(l, a);
  }

  /** Which addresses the carved blocks have. */
  lemma InBlocks(from: nat, size: nat, count: nat, a: nat)
    requires size > 0 && from % CHUNK % size == 0 && from % CHUNK + count * size <= CHUNK
    ensures a in RunOf(from, size, count) <==>
      from <= a < from + count * size && a / CHUNK == from / CHUNK && Cell(size, a % CHUNK)
  {
    var l := RunOf(from, size, count);
    if a in l {
      var i :| 0 <= i < count && l[i] == a;
      BlockCell(from, size, count, i);
    }
    if from <= a < from + count * size && a / CHUNK == from / CHUNK && Cell(size, a % CHUNK) {
      var i := CellBlock(from, size, count, a);
      assert l[i] == a;
    }
  }

  lemma BlockCell(from: nat, size: nat, count: nat, i: nat)
    requires size > 0 && from % CHUNK % size == 0 && from % CHUNK + count * size <= CHUNK && i < count
    ensures from <= from + i * size < from + count * size
    ensures (from + i * size) / CHUNK == from / CHUNK && Cell(size, (from + i * size) % CHUNK)
  {
    var x := from % CHUNK;
    MulOrder(i, count, size);
    assert i * size >= 0;
    NextCell(size, x, i);
    InChunk(from, i * size);
  }

  /** Adding an offset that stays in the chunk. */
  lemma InChunk(from: nat, d: nat)
    requires from % CHUNK + d < CHUNK
    ensures (from + d) / CHUNK == from / CHUNK && (from + d) % CHUNK == from % CHUNK + d
  {
  }

  lemma CellBlock(from: nat, size: nat, count: nat, a: nat) returns (i: nat)
    requires size > 0 && from % CHUNK % size == 0
    requires from <= a < from + count * size && a / CHUNK == from / CHUNK && a % CHUNK % size == 0
    ensures i < count && a == from + i * size
  {
    var x, y := from % CHUNK, a % CHUNK;
    var p, q := x / size, y / size;
    assert x == p * size && y == q * size;
    assert (q - p) * size == a - from;
    MulOrder(q - p, count, size);
    MulOrder(-1, q - p, size);
    i := q - p;
  }
}
