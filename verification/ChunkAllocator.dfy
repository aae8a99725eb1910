/** The small-block allocator: chunks, groups, per-thread stacks and defragmentation, one call at a time. */
module ChunkAllocator {
  import opened Blocks
  import opened BlockMoves
  import opened DrainedChunks
  import opened Defragment
  import opened BlockSupply

  /** What does not change: the table of sizes, the switch for defragmentation, and the answers of
      the operating system to the requests for regions, 0 for a failure. An address space has room
      for finitely many regions, so from some request on all are refused. */
  datatype Setup = Setup(sizes: seq<int>, enableDefrag: bool, region: seq<nat>)

  /** Chunk `c` lies inside the region mapped at `place`. */
  predicate Inside(place: nat, c: nat) { place != 0 && place <= c * CHUNK && c * CHUNK + CHUNK <= place + LARGE }

  /** Regions lie in the address space and do not overlap. */
  ghost predicate RegionsOk(region: seq<nat>, chunks: nat) {
    && (forall n: nat :: Answer(region, n) != 0 ==> Answer(region, n) + LARGE <= chunks * CHUNK)
    && forall m: nat, n: nat :: m < n && Answer(region, m) != 0 && Answer(region, n) != 0 ==>
      Answer(region, m) + LARGE <= Answer(region, n) || Answer(region, n) + LARGE <= Answer(region, m)
  }

  /** What is still to be mapped has not been used. */
  ghost predicate Unmapped(region: seq<nat>, mapped: nat, kind: seq<int>) {
    forall n: nat, c :: mapped <= n && 0 <= c < |kind| && Inside(Answer(region, n), c) ==> kind[c] == 0
  }

  predicate SameZero(kind: seq<int>, kind': seq<int>) {
    |kind'| == |kind| && forall c :: 0 <= c < |kind| ==> (kind[c] == 0 <==> kind'[c] == 0)
  }

  ghost predicate Fine(u: Setup, h: Heap, out: multiset<nat>) {
    Inv(u.sizes, h, out) && RegionsOk(u.region, |h.kind|) && Unmapped(u.region, h.mapped, h.kind)
  }

  // ---------------------------------------------------------------- carving

  /** The next block to carve after `count` blocks at `b`, 0 when the chunk is used up. */
  function After(b: nat, size: nat, count: nat): nat {
    if b % CHUNK + count * size == CHUNK then 0 else b + count * size
  }

  /** There is room for this many more blocks in the current chunk. */
  predicate Roomy(u: Setup, h: Heap, s: nat, count: nat)
    requires s < |u.sizes| && s < |h.current|
  {
    h.current[s] != 0 && h.current[s] % CHUNK + count * u.sizes[s] <= CHUNK
  }

  /** LFAllocFromCurrentChunk: `count` blocks in a row, or 0 when they do not fit. */
  method AllocFromCurrentChunk(u: Setup, h: Heap, s: nat, count: nat, ghost out: multiset<nat>)
    returns (b: nat, h': Heap)
    requires Fine(u, h, out) && 1 <= s < |u.sizes| && count >= 1
    ensures b == 0 ==> h' == h && (h.current[s] == 0 || h.current[s] % CHUNK + count * u.sizes[s] > CHUNK)
    ensures b != 0 ==> h.current[s] % CHUNK + count * u.sizes[s] <= CHUNK && b == h.current[s] && u.sizes[s] > 0
    ensures b != 0 ==> h' == h.(current := h.current[s := After(b, u.sizes[s], count)])
    ensures b != 0 ==>
      Fine(u, h', out + multiset(RunOf(b, u.sizes[s], count))) && AllKind(h.kind, RunOf(b, u.sizes[s], count), s)
  {
    b, h' := h.current[s], h;
    if b != 0 {
      var nextFree := b + count * u.sizes[s];
      var end := b - b % CHUNK + CHUNK;
      if nextFree >= end {
        if nextFree > end {
          return 0, h;
        }
        nextFree := 0;
      }
      FirstFits(count, u.sizes[s]);
      Carve(u.sizes, h, out, s, count, nextFree);
      h' := h.(current := h.current[s := nextFree]);
    }
  }

  /** There is one block less to be had without defragmentation. */
  predicate OneLess(u: Setup, h: Heap, h': Heap, s: nat) {
    BlocksLeft(u.sizes, u.region, h', s) + 1 == BlocksLeft(u.sizes, u.region, h, s)
  }

  /** One block of the current chunk, or 0 when none fits. */
  method AllocOne(u: Setup, h: Heap, s: nat, ghost out: multiset<nat>) returns (b: nat, h': Heap)
    requires Fine(u, h, out) && 1 <= s < |u.sizes|
    ensures b == 0 <==> !Roomy(u, h, s, 1)
    ensures b == 0 ==> h' == h
    ensures b != 0 ==> b == h.current[s] && h' == h.(current := h'.current)
    ensures b != 0 ==> Fine(u, h', out + multiset{b}) && AllKind(h'.kind, [b], s)
    ensures b != 0 ==> OneLess(u, h, h', s)
  {
    b, h' := AllocFromCurrentChunk(u, h, s, 1, out);
    if b != 0 {
      CarvedOne(u.sizes, u.region, h, h', s, After(b, u.sizes[s], 1));
      RunOfOne(b, u.sizes[s]);
    }
  }

  lemma RunOfOne(b: nat, size: nat)
    ensures RunOf(b, size, 1) == [b] && multiset(RunOf(b, size, 1)) == multiset{b}
  {
  }

  // ---------------------------------------------------------------- defragmentation

  ghost predicate DrainedIn(z: seq<int>, h: Heap, c: nat) { Drained(z, h.kind, Listed(h.lists), c) }

  lemma ListsInChunks(z: seq<int>, kind: seq<int>, lists: seq<seq<Group>>)
    requires ListsOk(z, kind, lists)
    ensures forall s :: 0 <= s < |lists| ==> Whole(lists[s]) && InChunks(Pointers(lists[s]), |kind|)
  {
    forall s | 0 <= s < |lists| ensures Whole(lists[s]) && InChunks(Pointers(lists[s]), |kind|) {
      assert ListOk(kind, s, lists[s]);
      forall i | 0 <= i < |lists[s]| ensures |lists[s][i].ptrs| == GROUP { assert Compact(lists[s][i].ptrs); }
      forall a | a in Pointers(lists[s]) ensures a / CHUNK < |kind| { InKind(kind, Pointers(lists[s]), s, a); }
    }
  }

  lemma AnyDrained(z: seq<int>, h: Heap, freed: seq<int>)
    requires KindsOk(z, h.kind) && Marked(z, h, freed)
    ensures (exists c :: 0 <= c < |freed| && freed[c] != 0) <==> exists c :: DrainedIn(z, h, c)
    ensures forall c :: 0 <= c < |freed| && freed[c] != 0 ==> c > 0 && h.kind[c] >= 1
    ensures forall c: nat :: DrainedIn(z, h, c) <==> c < |freed| && freed[c] != 0
  {
    forall c: nat ensures DrainedIn(z, h, c) <==> c < |freed| && freed[c] != 0 { }
    if c :| 0 <= c < |freed| && freed[c] != 0 {
      assert DrainedIn(z, h, c);
    }
  }

  /** The list of free chunks only grew at its end. */
  predicate Grown(free: seq<nat>, free': seq<nat>) { |free'| >= |free| && free'[..|free|] == free }

  /** Whether chunk c is new in the list. */
  predicate NewIff(free: seq<nat>, free': seq<nat>, c: nat, yes: bool)
    requires Grown(free, free')
  {
    c in free'[|free|..] <==> yes
  }

  /** Just the drained chunks become free, and just the pointers to their blocks leave the lists. */
  ghost predicate Defragments(z: seq<int>, h: Heap, on: bool, any: bool, h': Heap) {
    && (any <==> on && exists c :: DrainedIn(z, h, c))
    && h'.current == h.current && h'.threads == h.threads && h'.mapped == h.mapped && |h'.kind| == |h.kind|
    && (forall c :: 0 <= c < |h.kind| ==> h'.kind[c] == if on && DrainedIn(z, h, c) then -1 else h.kind[c])
    && Grown(h.free, h'.free) && (forall c: nat :: NewIff(h.free, h'.free, c, on && DrainedIn(z, h, c)))
    && forall a: nat :: Listed(h'.lists)[a] == if on && DrainedIn(z, h, a / CHUNK) then 0 else Listed(h.lists)[a]
  }

  lemma ListedAfterAll(lists: seq<seq<Group>>, lists': seq<seq<Group>>, freed: seq<int>, drained: bool, a: nat)
    requires AllSwept(lists, lists', freed) && (a in Listed(lists) ==> a != 0 && a / CHUNK < |freed|)
    requires drained <==> a / CHUNK < |freed| && freed[a / CHUNK] != 0
    ensures Listed(lists')[a] == if drained then 0 else Listed(lists)[a]
  {
    ListedAfter(lists, lists', freed, a);
  }

  lemma InSum(l: multiset<nat>, g: multiset<nat>, spare: multiset<nat>, c: multiset<nat>, out: multiset<nat>, a: nat)
    requires a in l
    ensures a in l + g + spare + c + out
  {
  }

  lemma InSomeChunk(z: seq<int>, kind: seq<int>, current: seq<nat>, all: multiset<nat>, a: nat)
    requires |kind| > 0 && kind[0] == 0 && Balanced(z, kind, current, all) && a in all
    ensures a != 0 && a / CHUNK < |kind|
  {
    OnlyCarved(z, kind, current, all, a);
  }

  lemma ListedInChunks(z: seq<int>, h: Heap, out: multiset<nat>, a: nat)
    requires |h.kind| > 0 && h.kind[0] == 0 && Balanced(z, h.kind, h.current, Stock(h) + out) && a in Listed(h.lists)
    ensures a != 0 && a / CHUNK < |h.kind|
  {
    InSum(Listed(h.lists), InGroups(h.lists), multiset(h.spare), Cached(h.threads), out, a);
    InSomeChunk(z, h.kind, h.current, Stock(h) + out, a);
  }

  lemma OutKept(z: seq<int>, h: Heap, h': Heap, out: multiset<nat>)
    requires Balanced(z, h'.kind, h'.current, Stock(h') + out) && |h'.kind| == |h.kind|
    requires forall c :: 0 <= c < |h.kind| && h'.kind[c] >= 1 ==> h'.kind[c] == h.kind[c]
    ensures KindsKept(out, h.kind, h'.kind)
  {
    forall a: nat ensures KindKept(out, h.kind, h'.kind, a) {
      if a in out { OnlyCarved(z, h'.kind, h'.current, Stock(h') + out, a); }
    }
  }

  lemma NothingDone(z: seq<int>, h: Heap, out: multiset<nat>)
    ensures Defragments(z, h, false, false, h) && KindsKept(out, h.kind, h.kind)
  {
    forall c: nat ensures NewIff(h.free, h.free, c, false) { }
    forall a: nat ensures KindKept(out, h.kind, h.kind, a) { }
  }

  /** DefragmentMem: the chunks all of whose blocks are in the lists become free again. */
  method DefragmentMem(u: Setup, h: Heap, ghost out: multiset<nat>) returns (any: bool, h': Heap)
    requires Fine(u, h, out)
    ensures Fine(u, h', out) && if any then h'.free != [] else h' == h
    ensures Defragments(u.sizes, h, u.enableDefrag, any, h') && KindsKept(out, h.kind, h'.kind)
  {
    if !u.enableDefrag {
      NothingDone(u.sizes, h, out);
      return false, h;
    }
    any, h' := Sweep(u.sizes, h, out);
    StillUnmapped(u.region, h.mapped, h.kind, h'.kind);
  }

  method Sweep(z: seq<int>, h: Heap, ghost out: multiset<nat>) returns (any: bool, h': Heap)
    requires Inv(z, h, out)
    ensures Inv(z, h', out) && if any then h'.free != [] else h' == h
    ensures Defragments(z, h, true, any, h') && KindsKept(out, h.kind, h'.kind) && SameZero(h.kind, h'.kind)
  {
    ListsInChunks(z, h.kind, h.lists);
    var nFreeCount := CountAll(h.lists, |h.kind|);
    ghost var counts := nFreeCount[..];
    any := MarkFull(z, h.kind, nFreeCount);
    ghost var freed := nFreeCount[..];
    CountsMark(z, h, out, counts, freed);
    AnyDrained(z, h, freed);
    h' := h;
    if any {
      var lists, spare := SweepAll(h.lists, nFreeCount, h.spare);
      var kind, free := FreeMarked(h.kind, nFreeCount, h.free);
      h' := h.(kind := kind, free := free, lists := lists, spare := spare);
      DefragmentKeeps(z, h, out, freed, h');
      SweptRight(z, h, out, freed, h');
      SomeFreed(z, h, h');
    } else {
      NothingDrained(z, h);
    }
  }

  lemma SomeFreed(z: seq<int>, h: Heap, h': Heap)
    requires Defragments(z, h, true, true, h')
    ensures h'.free != []
  {
    var c: nat :| DrainedIn(z, h, c);
    assert NewIff(h.free, h'.free, c, DrainedIn(z, h, c));
  }

  lemma NothingDrained(z: seq<int>, h: Heap)
    requires !exists c :: DrainedIn(z, h, c)
    ensures Defragments(z, h, true, false, h)
  {
    forall c: nat ensures NewIff(h.free, h.free, c, DrainedIn(z, h, c)) { }
  }

  lemma NewlyFree(free: seq<nat>, free': seq<nat>, freed: seq<int>, c: nat, drained: bool)
    requires free' == free + MarkedChunks(freed, |freed|) && (drained <==> c < |freed| && freed[c] != 0)
    ensures Grown(free, free') && NewIff(free, free', c, drained)
  {
    MarkedHas(freed, |freed|, c);
    assert free'[|free|..] == MarkedChunks(freed, |freed|);
  }

  lemma ListedRight(z: seq<int>, h: Heap, out: multiset<nat>, freed: seq<int>, lists: seq<seq<Group>>, a: nat)
    requires |h.kind| > 0 && h.kind[0] == 0 && Balanced(z, h.kind, h.current, Stock(h) + out) && |freed| == |h.kind|
    requires AllSwept(h.lists, lists, freed)
    requires DrainedIn(z, h, a / CHUNK) <==> a / CHUNK < |freed| && freed[a / CHUNK] != 0
    ensures Listed(lists)[a] == if DrainedIn(z, h, a / CHUNK) then 0 else Listed(h.lists)[a]
  {
    if a in Listed(h.lists) { ListedInChunks(z, h, out, a); }
    ListedAfterAll(h.lists, lists, freed, DrainedIn(z, h, a / CHUNK), a);
  }

  lemma KindsRight(z: seq<int>, h: Heap, freed: seq<int>, kind': seq<int>)
    requires |freed| == |h.kind| && kind' == Cleared(h.kind, freed, |h.kind|)
    requires forall c: nat :: DrainedIn(z, h, c) <==> c < |freed| && freed[c] != 0
    ensures forall c :: 0 <= c < |h.kind| ==> kind'[c] == if DrainedIn(z, h, c) then -1 else h.kind[c]
    ensures SameZero(h.kind, kind') && forall c :: 0 <= c < |h.kind| && kind'[c] >= 1 ==> kind'[c] == h.kind[c]
  {
    assert forall c: nat :: DrainedIn(z, h, c) ==> h.kind[c] >= 1;
  }

  lemma SweptRight(z: seq<int>, h: Heap, out: multiset<nat>, freed: seq<int>, h': Heap)
    requires |h.kind| > 0 && h.kind[0] == 0 && Balanced(z, h.kind, h.current, Stock(h) + out)
    requires Balanced(z, h'.kind, h'.current, Stock(h') + out) && Defragmented(h, freed, h') && h'.mapped == h.mapped
    requires h'.free == h.free + MarkedChunks(freed, |freed|)
    requires exists c :: DrainedIn(z, h, c)
    requires forall c: nat :: DrainedIn(z, h, c) <==> c < |freed| && freed[c] != 0
    ensures Defragments(z, h, true, true, h') && KindsKept(out, h.kind, h'.kind) && SameZero(h.kind, h'.kind)
  {
    KindsRight(z, h, freed, h'.kind);
    forall a: nat ensures Listed(h'.lists)[a] == if DrainedIn(z, h, a / CHUNK) then 0 else Listed(h.lists)[a] {
      ListedRight(z, h, out, freed, h'.lists, a);
    }
    NewlyFree(h.free, h'.free, freed, 0, DrainedIn(z, h, 0));
    forall c: nat ensures NewIff(h.free, h'.free, c, DrainedIn(z, h, c)) {
      NewlyFree(h.free, h'.free, freed, c, DrainedIn(z, h, c));
    }
    OutKept(z, h, h', out);
  }

  lemma StillUnmapped(region: seq<nat>, mapped: nat, kind: seq<int>, kind': seq<int>)
    requires Unmapped(region, mapped, kind) && SameZero(kind, kind')
    ensures Unmapped(region, mapped, kind')
  {
  }

  // ---------------------------------------------------------------- failure

  /** Defragmentation is on and some chunk is drained. */
  ghost predicate Drainable(u: Setup, h: Heap) { u.enableDefrag && exists c :: DrainedIn(u.sizes, h, c) }

  /** A region has to be asked for: no chunk is free, and none gets free by defragmentation. */
  ghost predicate Asks(u: Setup, h: Heap, defrag: bool) { h.free == [] && !(defrag && Drainable(u, h)) }

  /** No block of this size is to be had: the current chunk is full, a region has to be asked for, and
      the system will refuse it. */
  ghost predicate NoBlock(u: Setup, h: Heap, s: nat, defrag: bool)
    requires s < |u.sizes| && s < |h.current|
  {
    !Roomy(u, h, s, 1) && Asks(u, h, defrag) && Answer(u.region, h.mapped) == 0
  }

  /** Without defragmentation that is so exactly when none is left. */
  lemma NoBlockLeft(u: Setup, h: Heap, s: nat)
    requires SizesOk(u.sizes) && 1 <= s < |u.sizes| == |h.current|
    ensures NoBlock(u, h, s, false) <==> BlocksLeft(u.sizes, u.region, h, s) == 0
  {
    NoneLeft(u.sizes, u.region, h, s);
  }

  /** A call that turned `h` into `h'` failed: the last region it asked for was refused. */
  predicate Refused(u: Setup, h: Heap, h': Heap) { h'.mapped > h.mapped && Answer(u.region, h'.mapped - 1) == 0 }

  /** The outcome of a call: it fails exactly when the system refuses a region, and success keeps
      everything in order. */
  ghost predicate Outcome(u: Setup, h: Heap, ok: bool, h': Heap) {
    h.mapped <= h'.mapped && (ok <==> !Refused(u, h, h'))
  }

  lemma OutcomeJoin(u: Setup, h: Heap, h1: Heap, ok: bool, h2: Heap)
    requires Outcome(u, h, true, h1) && Outcome(u, h1, ok, h2)
    ensures Outcome(u, h, ok, h2)
  {
  }

  // ---------------------------------------------------------------- new chunks

  /** A region mapped now and one mapped later share no chunk. */
  lemma RegionsApart(region: seq<nat>, mapped: nat, kind: seq<int>, c: nat)
    requires RegionsOk(region, |kind|) && Unmapped(region, mapped + 1, kind) && c < |kind|
    requires Inside(Answer(region, mapped), c)
    ensures Unmapped(region, mapped + 1, kind[c := -1])
  {
    forall n: nat, d | mapped + 1 <= n && 0 <= d < |kind| && Inside(Answer(region, n), d)
      ensures kind[c := -1][d] == 0
    {
      assert kind[d] == 0;
      NotBoth(Answer(region, mapped), Answer(region, n), c);
    }
  }

  lemma NotBoth(p: nat, q: nat, c: nat)
    requires p + LARGE <= q || q + LARGE <= p
    ensures !(Inside(p, c) && Inside(q, c))
  {
  }

  /** The chunks inside the next region. */
  lemma NextRegion(u: Setup, h: Heap, place: nat, lo: nat, hi: nat)
    requires RegionsOk(u.region, |h.kind|) && Unmapped(u.region, h.mapped, h.kind)
    requires place == Answer(u.region, h.mapped) != 0
    requires lo == (place + CHUNK - 1) / CHUNK && hi == (place + LARGE) / CHUNK
    ensures 0 < lo < hi <= |h.kind| && forall c :: lo <= c < hi ==> Blank(h.kind, place, c)
  {
  }

  /** A chunk inside the region that no region before held. */
  predicate Blank(kind: seq<int>, place: nat, c: nat) { Inside(place, c) && c < |kind| && kind[c] == 0 }

  /** Where chunk c begins. */
  function StartOf(c: nat): nat { if c == 0 then 0 else StartOf(c - 1) + CHUNK }

  lemma {:induction false} StartIs(c: nat)
    ensures StartOf(c) == c * CHUNK
  {
    if c > 0 { StartIs(c - 1); }
  }

  lemma {:induction false} StartsAscend(c: nat, d: nat)
    requires c <= d
    ensures StartOf(c) <= StartOf(d) && (c < d ==> StartOf(c) < StartOf(d))
    decreases d
  {
    if c < d { StartsAscend(c, d - 1); }
  }

  lemma ChunkAt(p: nat, c: nat)
    requires p == c * CHUNK
    ensures p / CHUNK == c
  {
  }

  /** The chunks from lo up to hi. */
  function ChunksBetween(lo: nat, hi: nat): (l: seq<nat>)
    requires lo <= hi
    ensures |l| == hi - lo
  {
    if lo == hi then [] else ChunksBetween(lo, hi - 1) + [hi - 1]
  }

  lemma {:induction false} ChunksHas(lo: nat, hi: nat, c: nat)
    requires lo <= hi
    ensures c in ChunksBetween(lo, hi) <==> lo <= c < hi
    decreases hi
  {
    if lo < hi {
      var m := hi - 1;
      ChunksHas(lo, m, c);
    }
  }

  predicate FreedAt(h: Heap, h': Heap, lo: nat, p: nat, c: nat)
    requires |h'.kind| == |h.kind| && c < |h.kind|
  {
    h'.kind[c] == if lo <= c < p then -1 else h.kind[c]
  }

  /** The chunks from lo up to p are free, those from p up to hi are not yet. */
  ghost predicate Freed(h: Heap, h': Heap, lo: nat, p: nat, hi: nat) {
    && h' == h.(kind := h'.kind, free := h'.free, mapped := h.mapped + 1) && |h'.kind| == |h.kind|
    && lo <= p <= hi <= |h.kind| && h'.free == h.free + ChunksBetween(lo, p)
    && forall c :: 0 <= c < |h.kind| ==> FreedAt(h, h', lo, p, c)
  }

  lemma FreedNext(h: Heap, h1: Heap, h2: Heap, lo: nat, p: nat, p': nat, hi: nat)
    requires Freed(h, h1, lo, p, hi) && p < hi && p' == p + 1
    requires h2 == h1.(kind := h1.kind[p := -1], free := h1.free + [p])
    ensures Freed(h, h2, lo, p', hi)
  {
    assert ChunksBetween(lo, p') == ChunksBetween(lo, p) + [p];
    forall c | 0 <= c < |h.kind| ensures FreedAt(h, h2, lo, p', c) { assert FreedAt(h, h1, lo, p, c); }
  }

  /** The chunk at p is not free yet. */
  lemma NotYet(h: Heap, h1: Heap, lo: nat, p: nat, hi: nat)
    requires Freed(h, h1, lo, p, hi) && p < hi
    ensures h1.kind[p] == h.kind[p]
  {
    assert FreedAt(h, h1, lo, p, p);
  }

  lemma NoneFreed(h: Heap, h1: Heap, lo: nat, hi: nat)
    requires h1 == h.(mapped := h.mapped + 1) && lo <= hi <= |h.kind|
    ensures Freed(h, h1, lo, lo, hi)
  {
    forall c | 0 <= c < |h.kind| ensures FreedAt(h, h1, lo, lo, c) { }
  }

  /** Just the whole chunks inside the region at `place` became free. */
  ghost predicate RegionFreed(h: Heap, h': Heap, place: nat) {
    && |h'.kind| == |h.kind|
    && (forall c :: 0 <= c < |h.kind| ==> h'.kind[c] == if Inside(place, c) then -1 else h.kind[c])
    && Grown(h.free, h'.free) && forall c: nat :: NewIff(h.free, h'.free, c, Inside(place, c))
  }

  lemma FreedRegion(h: Heap, h': Heap, place: nat, lo: nat, hi: nat)
    requires Freed(h, h', lo, hi, hi) && place != 0 && lo == (place + CHUNK - 1) / CHUNK
    requires hi == (place + LARGE) / CHUNK
    ensures RegionFreed(h, h', place)
  {
    forall c: nat ensures Inside(place, c) <==> lo <= c < hi { }
    forall c | 0 <= c < |h.kind| ensures h'.kind[c] == if Inside(place, c) then -1 else h.kind[c] {
      assert FreedAt(h, h', lo, hi, c);
    }
    assert h'.free[|h.free|..] == ChunksBetween(lo, hi);
    forall c: nat ensures NewIff(h.free, h'.free, c, Inside(place, c)) { ChunksHas(lo, hi, c); }
  }

  lemma OldKinds(h: Heap, h': Heap, lo: nat, p: nat, hi: nat)
    requires Freed(h, h', lo, p, hi)
    ensures forall c :: 0 <= c < |h.kind| && h'.kind[c] >= 1 ==> h'.kind[c] == h.kind[c]
  {
    forall c | 0 <= c < |h.kind| && h'.kind[c] >= 1 ensures h'.kind[c] == h.kind[c] { assert FreedAt(h, h', lo, p, c); }
  }

  /** AllocWithMMap and the loop after it: all chunks inside a new region become free. */
  method MapRegion(u: Setup, h: Heap, ghost out: multiset<nat>) returns (ok: bool, h': Heap)
    requires Fine(u, h, out)
    ensures ok <==> Answer(u.region, h.mapped) != 0
    ensures ok ==> Fine(u, h', out) && h'.free != [] && KindsKept(out, h.kind, h'.kind)
    ensures ok ==> RegionFreed(h, h', Answer(u.region, h.mapped))
    ensures ok ==> |h'.free| == |h.free| + WholeChunks(Answer(u.region, h.mapped))
    ensures h' == h.(kind := h'.kind, free := h'.free, mapped := h.mapped + 1)
  {
    var place := Answer(u.region, h.mapped);
    h' := h.(mapped := h.mapped + 1);
    if place == 0 {
      return false, h';
    }
    var lo, hi := (place + CHUNK - 1) / CHUNK, (place + LARGE) / CHUNK;
    NextRegion(u, h, place, lo, hi);
    NoneFreed(h, h', lo, hi);
    StartIs(lo);
    StartIs(hi);
    FreedToFine(u, h, h', place, lo, hi, hi, out);
    h' := AddFreeChunks(h', lo * CHUNK, hi * CHUNK, lo, hi);
    OldKinds(h, h', lo, hi, hi);
    OutKept(u.sizes, h, h', out);
    FreedRegion(h, h', place, lo, hi);
    ok := true;
  }

  /** AddFreeChunk. */
  function WithFree(h: Heap, c: nat): Heap
    requires c < |h.kind|
  {
    h.(kind := h.kind[c := -1], free := h.free + [c])
  }

  /** The chunks from lo up to c become free one by one. */
  function FreedTo(h: Heap, lo: nat, c: nat): (h': Heap)
    requires lo <= c <= |h.kind|
    ensures |h'.kind| == |h.kind|
  {
    if c == lo then h else WithFree(FreedTo(h, lo, c - 1), c - 1)
  }

  lemma {:induction false} FreedToFine(u: Setup, h: Heap, h1: Heap, place: nat, lo: nat, c: nat, hi: nat,
                                       out: multiset<nat>)
    requires RegionsOk(u.region, |h.kind|) && place == Answer(u.region, h.mapped)
    requires Freed(h, h1, lo, lo, hi) && Inv(u.sizes, h1, out) && Unmapped(u.region, h1.mapped, h1.kind)
    requires 0 < lo <= c <= hi <= |h.kind| && forall c :: lo <= c < hi ==> Blank(h.kind, place, c)
    ensures var h' := FreedTo(h1, lo, c);
      Freed(h, h', lo, c, hi) && Inv(u.sizes, h', out) && Unmapped(u.region, h'.mapped, h'.kind)
    decreases c
  {
    if c > lo {
      var d := c - 1;
      FreedToFine(u, h, h1, place, lo, d, hi, out);
      assert Blank(h.kind, place, d);
      OneMoreFree(u, h, FreedTo(h1, lo, d), FreedTo(h1, lo, c), place, lo, d, c, hi, out);
    } else {
      assert FreedTo(h1, lo, c) == h1;
    }
  }

  lemma OneMoreFree(u: Setup, h: Heap, h2: Heap, h': Heap, place: nat, lo: nat, c: nat, c': nat, hi: nat,
                    out: multiset<nat>)
    requires RegionsOk(u.region, |h.kind|) && place == Answer(u.region, h.mapped)
    requires Freed(h, h2, lo, c, hi) && Inv(u.sizes, h2, out) && Unmapped(u.region, h2.mapped, h2.kind)
    requires 0 < c < hi && Blank(h.kind, place, c) && c' == c + 1 && h' == WithFree(h2, c)
    ensures Freed(h, h', lo, c', hi) && Inv(u.sizes, h', out) && Unmapped(u.region, h'.mapped, h'.kind)
  {
    NotYet(h, h2, lo, c, hi);
    NewFree(u.sizes, h2, out, c);
    RegionsApart(u.region, h.mapped, h2.kind, c);
    FreedNext(h, h2, h', lo, c, c', hi);
  }

  /** The loop over the chunks from `addr` up to `endAddr`. */
  method AddFreeChunks(h: Heap, addr: nat, endAddr: nat, ghost lo: nat, ghost hi: nat) returns (h': Heap)
    requires lo <= hi <= |h.kind| && addr == StartOf(lo) && endAddr == StartOf(hi)
    ensures h' == FreedTo(h, lo, hi)
  {
    h' := h;
    var p := addr;
    ghost var c := lo;
    while p < endAddr
      invariant lo <= c <= hi && p == StartOf(c) && h' == FreedTo(h, lo, c)
    {
      StartsAscend(c, hi);
      StartIs(c);
      ChunkAt(p, c);
      h' := WithFree(h', p / CHUNK);
      p, c := p + CHUNK, c + 1;
    }
    StartsAscend(c, hi);
  }

  /** Taking a free chunk. */
  method TakeChunk(u: Setup, h: Heap, s: nat, ghost out: multiset<nat>) returns (b: nat, h': Heap)
    requires Fine(u, h, out) && 1 <= s < |u.sizes| && h.free != []
    requires !Roomy(u, h, s, 1)
    ensures b != 0 && OneLess(u, h, h', s) && h'.mapped == h.mapped
    ensures Fine(u, h', out + multiset{b}) && AllKind(h'.kind, [b], s) && KindsKept(out, h.kind, h'.kind)
    ensures h' == h.(kind := h'.kind, free := h'.free, current := h'.current)
  {
    var chunk := h.free[|h.free| - 1];
    LastFree(h.kind, h.free, chunk);
    b := chunk * CHUNK;
    h' := h.(free := h.free[..|h.free| - 1], kind := h.kind[chunk := s], current := h.current[s := b + u.sizes[s]]);
    NewChunk(u.sizes, h, out, s, chunk, h');
    assert SameZero(h.kind, h'.kind);
    StillUnmapped(u.region, h.mapped, h.kind, h'.kind);
    OutKeptNew(u.sizes, h, h', out, chunk);
    TookChunk(u.sizes, u.region, h, h', s, chunk);
  }

  lemma OutKeptNew(z: seq<int>, h: Heap, h': Heap, out: multiset<nat>, c: nat)
    requires Balanced(z, h.kind, h.current, Stock(h) + out) && c < |h.kind| && h.kind[c] == -1
    requires |h'.kind| == |h.kind| && forall i :: 0 <= i < |h.kind| && i != c ==> h'.kind[i] == h.kind[i]
    ensures KindsKept(out, h.kind, h'.kind)
  {
    forall a: nat ensures KindKept(out, h.kind, h'.kind, a) {
      if a in out { OnlyCarved(z, h.kind, h.current, Stock(h) + out, a); }
    }
  }

  /** What the slow path needs of defragmentation. */
  method TryDefragment(u: Setup, h: Heap, ghost out: multiset<nat>) returns (any: bool, h': Heap)
    requires Fine(u, h, out)
    ensures Fine(u, h', out) && (any <==> Drainable(u, h)) && if any then h'.free != [] else h' == h
    ensures h'.current == h.current && h'.threads == h.threads && h'.mapped == h.mapped
    ensures KindsKept(out, h.kind, h'.kind)
  {
    any, h' := DefragmentMem(u, h, out);
  }

  /** What becomes of a request for chunks: a region is asked for exactly if it has to be. */
  ghost predicate Supplied(u: Setup, h: Heap, defrag: bool, ok: bool, h': Heap) {
    && (ok <==> !(Asks(u, h, defrag) && Answer(u.region, h.mapped) == 0))
    && h'.mapped == h.mapped + (if Asks(u, h, defrag) then 1 else 0)
    && (ok && !defrag ==>
          forall s: nat :: BlocksLeft(u.sizes, u.region, h', s) == BlocksLeft(u.sizes, u.region, h, s))
  }

  /** Free chunks from defragmentation or, failing that, from a new region. */
  method GetChunks(u: Setup, h: Heap, defrag: bool, ghost out: multiset<nat>) returns (ok: bool, h': Heap)
    requires Fine(u, h, out) && h.free == []
    ensures Outcome(u, h, ok, h') && Supplied(u, h, defrag, ok, h')
    ensures ok ==> Fine(u, h', out) && h'.free != [] && h'.current == h.current && KindsKept(out, h.kind, h'.kind)
    ensures h'.threads == h.threads && (!defrag ==> h'.lists == h.lists && h'.spare == h.spare)
  {
    h' := h;
    ok := false;
    KeptSame(out, h.kind);
    if defrag {
      ok, h' := TryDefragment(u, h, out);
    }
    if !ok {
      ghost var h1 := h';
      ok, h' := MapRegion(u, h', out);
      if ok {
        KeptTwice(out, out, out, h.kind, h1.kind, h'.kind);
        NoneLost(u, h, h');
      }
    }
  }

  lemma NoneLost(u: Setup, h: Heap, h': Heap)
    requires Answer(u.region, h.mapped) != 0 && h'.mapped == h.mapped + 1 && h'.current == h.current
    requires |h'.free| == |h.free| + WholeChunks(Answer(u.region, h.mapped))
    ensures forall s: nat :: BlocksLeft(u.sizes, u.region, h', s) == BlocksLeft(u.sizes, u.region, h, s)
  {
    forall s: nat ensures BlocksLeft(u.sizes, u.region, h', s) == BlocksLeft(u.sizes, u.region, h, s) {
      MappedSame(u.sizes, u.region, h, h', s);
    }
  }

  /** The loop of SlowLFAlloc: chunks are asked for until there is a free one. */
  method WaitForChunk(u: Setup, h: Heap, defrag: bool, ghost out: multiset<nat>) returns (ok: bool, h': Heap)
    requires Fine(u, h, out)
    ensures Outcome(u, h, ok, h') && Supplied(u, h, defrag, ok, h')
    ensures ok ==> Fine(u, h', out) && h'.free != [] && h'.current == h.current && KindsKept(out, h.kind, h'.kind)
    ensures h'.threads == h.threads && (!defrag ==> h'.lists == h.lists && h'.spare == h.spare)
  {
    h', ok := h, true;
    KeptSame(out, h.kind);
    while h'.free == []
      invariant Fine(u, h', out) && KindsKept(out, h.kind, h'.kind) && h'.current == h.current
      invariant Outcome(u, h, true, h') && if h'.free == [] then h' == h else Supplied(u, h, defrag, true, h')
      invariant h'.threads == h.threads && (!defrag ==> h'.lists == h.lists && h'.spare == h.spare)
      decreases if h'.free == [] then 1 else 0
    {
      ghost var h1 := h';
      ok, h' := GetChunks(u, h', defrag, out);
      OutcomeJoin(u, h, h1, ok, h');
      if !ok {
        return;
      }
      KeptTwice(out, out, out, h.kind, h1.kind, h'.kind);
    }
  }

  /** What becomes of a request for a block: 0 exactly if none is to be had, and a region is asked for
      exactly if there is no room and no free or drained chunk. */
  ghost predicate Served(u: Setup, h: Heap, s: nat, defrag: bool, ok: bool, h': Heap)
    requires s < |u.sizes| && s < |h.current|
  {
    && (ok <==> !NoBlock(u, h, s, defrag))
    && h'.mapped == h.mapped + (if !Roomy(u, h, s, 1) && Asks(u, h, defrag) then 1 else 0)
    && (ok && !defrag ==> OneLess(u, h, h', s))
  }

  /** SlowLFAlloc: one block, from a new chunk if need be. */
  method SlowAlloc(u: Setup, h: Heap, s: nat, defrag: bool, ghost out: multiset<nat>) returns (b: nat, h': Heap)
    requires Fine(u, h, out) && 1 <= s < |u.sizes|
    ensures Outcome(u, h, b != 0, h') && Served(u, h, s, defrag, b != 0, h')
    ensures b != 0 ==> Fine(u, h', out + multiset{b}) && AllKind(h'.kind, [b], s) && KindsKept(out, h.kind, h'.kind)
    ensures h'.threads == h.threads && (!defrag ==> h'.lists == h.lists && h'.spare == h.spare)
  {
    b, h' := AllocOne(u, h, s, out);
    KeptSame(out, h.kind);
    if b != 0 {
      return;
    }
    var ok;
    ok, h' := WaitForChunk(u, h, defrag, out);
    if ok {
      ghost var h1 := h';
      b, h' := TakeChunk(u, h', s, out);
      KeptTwice(out, out, out, h.kind, h1.kind, h'.kind);
      ThenTaken(u, h, s, defrag, h1, h');
    }
  }

  lemma ThenTaken(u: Setup, h: Heap, s: nat, defrag: bool, h1: Heap, h2: Heap)
    requires s < |u.sizes| && s < |h.current| && !Roomy(u, h, s, 1)
    requires Outcome(u, h, true, h1) && Supplied(u, h, defrag, true, h1)
    requires OneLess(u, h1, h2, s) && h2.mapped == h1.mapped
    ensures Outcome(u, h, true, h2) && Served(u, h, s, defrag, true, h2)
  {
  }

  /** LFAllocNoCache. */
  method AllocNoCache(u: Setup, h: Heap, s: nat, defrag: bool, ghost out: multiset<nat>) returns (b: nat, h': Heap)
    requires Fine(u, h, out) && 1 <= s < |u.sizes|
    ensures Outcome(u, h, b != 0, h') && Served(u, h, s, defrag, b != 0, h')
    ensures b != 0 ==> Fine(u, h', out + multiset{b}) && AllKind(h'.kind, [b], s) && KindsKept(out, h.kind, h'.kind)
    ensures h'.threads == h.threads && (!defrag ==> h'.lists == h.lists && h'.spare == h.spare)
  {
    b, h' := AllocOne(u, h, s, out);
    KeptSame(out, h.kind);
    if b != 0 {
      return;
    }
    b, h' := SlowAlloc(u, h', s, defrag, out);
  }

  /** LFAllocNoCacheMultiple: a full group's worth of adjacent blocks if the chunk has them, or one. */
  method AllocNoCacheMultiple(u: Setup, h: Heap, s: nat, ghost out: multiset<nat>) returns (buf: seq<nat>, h': Heap)
    requires Fine(u, h, out) && 1 <= s < |u.sizes|
    ensures Outcome(u, h, buf != [], h') && h'.threads == h.threads
    ensures buf == [] <==> NoBlock(u, h, s, true)
    ensures if Roomy(u, h, s, GROUP)
            then u.sizes[s] > 0 && buf == RunOf(h.current[s], u.sizes[s], GROUP)
            else |buf| <= 1
    ensures buf != [] ==>
      Fine(u, h', out + multiset(buf)) && AllKind(h'.kind, buf, s) && KindsKept(out, h.kind, h'.kind)
  {
    var res;
    res, h' := AllocFromCurrentChunk(u, h, s, GROUP, out);
    KeptSame(out, h.kind);
    if res != 0 {
      OneToo(u, h, s);
      buf := FillBuffer(res, u.sizes[s]);
      return;
    }
    var b;
    b, h' := SlowAlloc(u, h', s, true, out);
    buf := if b == 0 then [] else [b];
  }

  lemma OneToo(u: Setup, h: Heap, s: nat)
    requires SizesOk(u.sizes) && 1 <= s < |u.sizes| && s < |h.current| && Roomy(u, h, s, GROUP)
    ensures Roomy(u, h, s, 1)
  {
  }

  method FillBuffer(res: nat, size: nat) returns (buf: seq<nat>)
    ensures buf == RunOf(res, size, GROUP)
  {
    buf := [];
    var resPtr := res;
    for k := 0 to GROUP
      invariant resPtr == res + k * size && buf == RunOf(res, size, k)
    {
      buf := buf + [resPtr];
      resPtr := resPtr + size;
    }
  }

  // ---------------------------------------------------------------- groups

  lemma {:induction false} FilledZeros(ptrs: seq<nat>, i: nat)
    requires i <= |ptrs| && forall j :: i <= j < |ptrs| ==> ptrs[j] == 0
    ensures Filled(ptrs) == Filled(ptrs[..i])
  {
    if i < |ptrs| {
      FilledZeros(ptrs[..|ptrs| - 1], i);
      assert ptrs[..|ptrs| - 1][..i] == ptrs[..i];
    } else {
      assert ptrs[..i] == ptrs;
    }
  }

  /** The pointers of a group, up to the first empty entry. */
  method ReadGroup(ptrs: seq<nat>) returns (buf: seq<nat>)
    requires Compact(ptrs)
    ensures buf == Filled(ptrs) && 0 < |buf| <= GROUP
  {
    buf := [];
    for i := 0 to GROUP
      invariant buf == Filled(ptrs[..i]) && |buf| == i
    {
      if ptrs[i] == 0 {
        FilledZeros(ptrs, i);
        return;
      }
      assert ptrs[..i + 1][..i] == ptrs[..i];
      buf := buf + [ptrs[i]];
    }
    assert ptrs[..GROUP] == ptrs;
  }

  /** TakeBlocksFromGlobalFreeList: the blocks of the first group, or none when the list is empty. */
  method TakeBlocks(u: Setup, h: Heap, s: nat, ghost out: multiset<nat>) returns (buf: seq<nat>, h': Heap)
    requires Fine(u, h, out) && 1 <= s < |u.sizes|
    ensures Fine(u, h', out + multiset(buf)) && AllKind(h.kind, buf, s) && |buf| <= GROUP
    ensures buf == [] <==> h.lists[s] == []
    ensures if h.lists[s] == [] then h' == h else
      var g := h.lists[s][0];
      buf == Filled(g.ptrs) && h' == h.(lists := h.lists[s := h.lists[s][1..]], spare := [g.addr] + h.spare)
  {
    if h.lists[s] == [] {
      assert out + multiset([]) == out;
      return [], h;
    }
    var g, rest := h.lists[s][0], h.lists[s][1..];
    assert h.lists[s] == [g] + rest;
    TakenGroup(u.sizes, h, out, s, g, rest);
    buf := ReadGroup(g.ptrs);
    h' := h.(lists := h.lists[s := rest], spare := [g.addr] + h.spare);
  }

  lemma AllKindConcat(kind: seq<int>, a: seq<nat>, b: seq<nat>, s: int)
    ensures AllKind(kind, a + b, s) <==> AllKind(kind, a, s) && AllKind(kind, b, s)
  {
    if AllKind(kind, a + b, s) {
      SubKind(kind, a + b, a, s);
      SubKind(kind, a + b, b, s);
    }
    if AllKind(kind, a, s) && AllKind(kind, b, s) {
      forall x: nat ensures KindAt(kind, a + b, s, x) { assert KindAt(kind, a, s, x) && KindAt(kind, b, s, x); }
    }
  }

  lemma ListTail(kind: seq<int>, s: int, g: Group, rest: seq<Group>)
    requires ListOk(kind, s, [g] + rest)
    ensures ListOk(kind, s, rest) && Compact(g.ptrs) && AllKind(kind, Filled(g.ptrs), s)
    ensures AllKind(kind, [g.addr], GROUP_IDX)
  {
    Cons(g, rest);
    AllKindConcat(kind, Filled(g.ptrs), Pointers(rest), s);
    AllKindConcat(kind, [g.addr], Addresses(rest), GROUP_IDX);
    var list := [g] + rest;
    assert Compact(list[0].ptrs);
    forall i | 0 <= i < |rest| ensures Compact(rest[i].ptrs) { assert Compact(list[i + 1].ptrs); }
  }

  lemma TakenSums(g: Group, rest: seq<Group>, spare: seq<nat>, out: multiset<nat>)
    ensures multiset(Pointers(rest)) + multiset(Addresses(rest)) + multiset([g.addr] + spare)
      + (out + multiset(Filled(g.ptrs)))
         == multiset(Pointers([g] + rest)) + multiset(Addresses([g] + rest)) + multiset(spare) + out
  {
    Cons(g, rest);
  }

  lemma TakenGroup(z: seq<int>, h: Heap, out: multiset<nat>, s: nat, g: Group, rest: seq<Group>)
    requires Inv(z, h, out) && s < |z| && h.lists[s] == [g] + rest
    ensures Compact(g.ptrs) && AllKind(h.kind, Filled(g.ptrs), s)
    ensures Inv(z, h.(lists := h.lists[s := rest], spare := [g.addr] + h.spare), out + multiset(Filled(g.ptrs)))
  {
    assert ListOk(h.kind, s, h.lists[s]);
    ListTail(h.kind, s, g, rest);
    SpareHead(h.kind, g.addr, h.spare);
    TakenSums(g, rest, h.spare, out);
    ChangeList(z, h, out, s, rest, [g.addr] + h.spare, out + multiset(Filled(g.ptrs)));
  }

  lemma SpareHead(kind: seq<int>, g: nat, spare: seq<nat>)
    requires AllKind(kind, [g], GROUP_IDX) && AllKind(kind, spare, GROUP_IDX)
    ensures AllKind(kind, [g] + spare, GROUP_IDX)
  {
    AllKindConcat(kind, [g], spare, GROUP_IDX);
  }

  lemma SpareTaken(z: seq<int>, h: Heap, out: multiset<nat>)
    requires Inv(z, h, out) && h.spare != []
    ensures Inv(z, h.(spare := h.spare[1..]), out + multiset{h.spare[0]}) && AllKind(h.kind, [h.spare[0]], GROUP_IDX)
    ensures h.spare[0] != 0
  {
    var h' := h.(spare := h.spare[1..]);
    assert h.spare == [h.spare[0]] + h.spare[1..];
    AllKindConcat(h.kind, [h.spare[0]], h.spare[1..], GROUP_IDX);
    HeadOut(Listed(h.lists), InGroups(h.lists), h.spare, Cached(h.threads), out);
    SameBalance(z, h, out, h', out + multiset{h.spare[0]});
    NotNull(h.kind, [h.spare[0]], GROUP_IDX);
  }

  lemma HeadOut(a: multiset<nat>, b: multiset<nat>, l: seq<nat>, c: multiset<nat>, out: multiset<nat>)
    requires l != []
    ensures a + b + multiset(l[1..]) + c + (out + multiset{l[0]}) == a + b + multiset(l) + c + out
  {
    assert l == [l[0]] + l[1..];
    assert multiset(l) == multiset{l[0]} + multiset(l[1..]);
  }

  /** Blocks in chunks with a size are not null. */
  lemma NotNull(kind: seq<int>, l: seq<nat>, s: int)
    requires |kind| > 0 && kind[0] == 0 && AllKind(kind, l, s)
    ensures forall i :: 0 <= i < |l| ==> l[i] != 0
  {
    forall i | 0 <= i < |l| ensures l[i] != 0 { InKind(kind, l, s, l[i]); }
  }

  /** What becomes of a request for this many groups: it fails exactly if fewer blocks are left for them. */
  predicate Grouped(u: Setup, h: Heap, groups: nat, ok: bool, h': Heap) {
    && (ok <==> groups <= GroupsLeft(u.sizes, u.region, h))
    && (ok ==> GroupsLeft(u.sizes, u.region, h') + groups == GroupsLeft(u.sizes, u.region, h))
  }

  lemma OneSpareLess(u: Setup, h: Heap)
    requires h.spare != []
    ensures var h' := h.(spare := h.spare[1..]); Outcome(u, h, true, h') && Grouped(u, h, 1, true, h')
  {
  }

  /** A block for a new group. */
  method TakeGroupBlock(u: Setup, h: Heap, ghost out: multiset<nat>) returns (g: nat, h': Heap)
    requires Fine(u, h, out)
    ensures Outcome(u, h, g != 0, h') && Grouped(u, h, 1, g != 0, h')
    ensures g != 0 ==>
      Fine(u, h', out + multiset{g}) && AllKind(h'.kind, [g], GROUP_IDX) && KindsKept(out, h.kind, h'.kind)
    ensures h'.threads == h.threads && h'.lists == h.lists
  {
    KeptSame(out, h.kind);
    if h.spare != [] {
      SpareTaken(u.sizes, h, out);
      g, h' := h.spare[0], h.(spare := h.spare[1..]);
      OneSpareLess(u, h);
    } else {
      NoBlockLeft(u, h, GROUP_IDX);
      g, h' := AllocNoCache(u, h, GROUP_IDX, false, out);
    }
  }

  lemma ListHead(kind: seq<int>, s: int, part: seq<nat>, g: nat, list: seq<Group>)
    requires ListOk(kind, s, list) && 0 < |part| <= GROUP && |kind| > 0 && kind[0] == 0
    requires AllKind(kind, part, s) && AllKind(kind, [g], GROUP_IDX)
    ensures ListOk(kind, s, [Group(g, Padded(part))] + list) && Filled(Padded(part)) == part
  {
    NotNull(kind, part, s);
    FilledPadding(part, GROUP - |part|);
    var G := Group(g, Padded(part));
    Cons(G, list);
    AllKindConcat(kind, part, Pointers(list), s);
    AllKindConcat(kind, [g], Addresses(list), GROUP_IDX);
    var l := [G] + list;
    forall i | 0 <= i < |l| ensures Compact(l[i].ptrs) {
      assert i > 0 ==> Compact(list[i - 1].ptrs) && l[i] == list[i - 1];
    }
  }

  lemma PutSums(part: seq<nat>, g: nat, list: seq<Group>, spare: seq<nat>, out: multiset<nat>)
    requires |part| <= GROUP && Filled(Padded(part)) == part
    ensures multiset(Pointers([Group(g, Padded(part))] + list))
      + multiset(Addresses([Group(g, Padded(part))] + list)) + multiset(spare) + out
         == multiset(Pointers(list)) + multiset(Addresses(list)) + multiset(spare)
           + (out + multiset(part) + multiset{g})
  {
    Cons(Group(g, Padded(part)), list);
  }

  lemma GroupPut(z: seq<int>, h: Heap, out: multiset<nat>, s: nat, part: seq<nat>, g: nat)
    requires Inv(z, h, out + multiset(part) + multiset{g}) && s < |z| && 0 < |part| <= GROUP
    requires AllKind(h.kind, part, s) && AllKind(h.kind, [g], GROUP_IDX)
    ensures Inv(z, h.(lists := h.lists[s := [Group(g, Padded(part))] + h.lists[s]]), out)
  {
    assert ListOk(h.kind, s, h.lists[s]);
    ListHead(h.kind, s, part, g, h.lists[s]);
    PutSums(part, g, h.lists[s], h.spare, out);
    ChangeList(z, h, out + multiset(part) + multiset{g}, s, [Group(g, Padded(part))] + h.lists[s], h.spare, out);
  }

  /** One group is filled and goes to the front of the list. */
  method PutGroup(u: Setup, h: Heap, s: nat, part: seq<nat>, ghost out: multiset<nat>) returns (ok: bool, h': Heap)
    requires Fine(u, h, out + multiset(part)) && s < |u.sizes| && 0 < |part| <= GROUP && AllKind(h.kind, part, s)
    ensures Outcome(u, h, ok, h') && h'.threads == h.threads && Grouped(u, h, 1, ok, h')
    ensures ok ==> Fine(u, h', out) && KindsKept(out + multiset(part), h.kind, h'.kind)
    ensures ok ==> ListGrew(h.lists, h'.lists, s, [part])
  {
    var g, h1 := TakeGroupBlock(u, h, out + multiset(part));
    ok, h' := g != 0, h1;
    if ok {
      PutFront(u, h, h1, out, s, part, g);
      h' := WithGroup(h1, s, Group(g, Padded(part)));
      GroupKeeps(u, out + multiset(part), h, h1, s, Group(g, Padded(part)));
    }
  }

  lemma GroupKeeps(u: Setup, out: multiset<nat>, h: Heap, h1: Heap, s: nat, g: Group)
    requires Outcome(u, h, true, h1) && h1.threads == h.threads && KindsKept(out, h.kind, h1.kind) && s < |h1.lists|
    requires Grouped(u, h, 1, true, h1)
    ensures var h' := WithGroup(h1, s, g); Outcome(u, h, true, h') && Grouped(u, h, 1, true, h')
    ensures var h' := WithGroup(h1, s, g); h'.threads == h.threads && KindsKept(out, h.kind, h'.kind)
  {
  }

  function WithGroup(h: Heap, s: nat, g: Group): Heap
    requires s < |h.lists|
  {
    h.(lists := h.lists[s := [g] + h.lists[s]])
  }

  lemma PutFront(u: Setup, h: Heap, h1: Heap, out: multiset<nat>, s: nat, part: seq<nat>, g: nat)
    requires Fine(u, h1, out + multiset(part) + multiset{g}) && s < |u.sizes| && 0 < |part| <= GROUP
    requires AllKind(h.kind, part, s) && KindsKept(out + multiset(part), h.kind, h1.kind)
    requires AllKind(h1.kind, [g], GROUP_IDX)
    ensures s < |h1.lists| && var h' := WithGroup(h1, s, Group(g, Padded(part)));
      Fine(u, h', out) && ListGrew(h1.lists, h'.lists, s, [part])
  {
    KeptAllKind(out + multiset(part), part, h.kind, h1.kind, s);
    GroupPut(u.sizes, h1, out, s, part, g);
    FilledFront(h1.kind, s, part, g, h1.lists[s]);
  }

  lemma FilledFront(kind: seq<int>, s: int, part: seq<nat>, g: nat, list: seq<Group>)
    requires |kind| > 0 && kind[0] == 0 && AllKind(kind, part, s) && |part| <= GROUP
    ensures InFront([Group(g, Padded(part))] + list, [part], list)
  {
    NotNull(kind, part, s);
    FilledPadding(part, GROUP - |part|);
  }

  /** Before the groups of `l`, the list l' has groups with just the blocks in `more`, one for each part. */
  predicate InFront(l': seq<Group>, more: seq<seq<nat>>, l: seq<Group>) {
    && |l'| == |more| + |l| && l'[|more|..] == l
    && forall i :: 0 <= i < |more| ==> Filled(l'[i].ptrs) == more[i]
  }

  /** Only list s changed: groups with `more` stand before its groups. */
  predicate ListGrew(lists: seq<seq<Group>>, lists': seq<seq<Group>>, s: nat, more: seq<seq<nat>>) {
    s < |lists| && lists' == lists[s := if s < |lists'| then lists'[s] else []] && InFront(lists'[s], more, lists[s])
  }

  lemma FrontJoin(l: seq<Group>, l1: seq<Group>, l2: seq<Group>, a: seq<seq<nat>>, b: seq<seq<nat>>)
    requires InFront(l1, a, l) && InFront(l2, b, l1)
    ensures InFront(l2, b + a, l)
  {
    assert l2[|b + a|..] == l2[|b|..][|a|..];
    forall i | 0 <= i < |b + a| ensures Filled(l2[i].ptrs) == (b + a)[i] {
      assert i >= |b| ==> l2[i] == l2[|b|..][i - |b|] == l1[i - |b|];
    }
  }

  /** The blocks as the list holds them, in groups: the one put last stands first. */
  function Stacked(buf: seq<nat>): seq<seq<nat>> {
    if buf == [] then [] else if |buf| <= GROUP then [buf] else Stacked(buf[GROUP..]) + [buf[..GROUP]]
  }

  /** Group number i from the end has the blocks from 15 i on, and all groups but the first are full. */
  lemma {:induction false} StackedAt(buf: seq<nat>, i: nat)
    requires i < |Stacked(buf)|
    ensures GROUP * i < |buf|
    ensures Stacked(buf)[|Stacked(buf)| - 1 - i]
      == buf[GROUP * i..if GROUP * i + GROUP < |buf| then GROUP * i + GROUP else |buf|]
    decreases i
  {
    if |buf| > GROUP && i > 0 {
      var rest, k := buf[GROUP..], i - 1;
      StackedAt(rest, k);
    }
  }

  lemma {:induction false} StackedCount(buf: seq<nat>)
    ensures |Stacked(buf)| == Groups(|buf|)
    decreases |buf|
  {
    if |buf| > GROUP { StackedCount(buf[GROUP..]); }
  }

  /** Of `buf`, `done` stands in front of the list, and `rest` is still to come. */
  ghost predicate Putting(lists: seq<seq<Group>>, lists': seq<seq<Group>>, s: nat, buf: seq<nat>, rest: seq<nat>,
                          done: seq<seq<nat>>) {
    ListGrew(lists, lists', s, done) && Stacked(rest) + done == Stacked(buf)
  }

  lemma PutMore(lists: seq<seq<Group>>, lists1: seq<seq<Group>>, lists2: seq<seq<Group>>, s: nat, buf: seq<nat>,
                rest: seq<nat>, done: seq<seq<nat>>, part: seq<nat>, rest': seq<nat>)
    requires Putting(lists, lists1, s, buf, rest, done) && ListGrew(lists1, lists2, s, [part])
    requires Stacked(rest) == Stacked(rest') + [part]
    ensures Putting(lists, lists2, s, buf, rest', [part] + done)
  {
    PartsJoin(Stacked(rest'), part, done);
    FrontJoin(lists[s], lists1[s], lists2[s], done, [part]);
  }

  lemma PartsJoin(a: seq<seq<nat>>, part: seq<nat>, done: seq<seq<nat>>)
    ensures a + ([part] + done) == (a + [part]) + done
  {
  }

  lemma PutAll(lists: seq<seq<Group>>, lists': seq<seq<Group>>, s: nat, buf: seq<nat>, done: seq<seq<nat>>)
    requires Putting(lists, lists', s, buf, [], done)
    ensures ListGrew(lists, lists', s, Stacked(buf))
  {
    assert Stacked([]) + done == done;
  }

  /** The next group: what goes into it, and what is left. */
  method PutPart(u: Setup, h: Heap, s: nat, buf: seq<nat>, ghost out: multiset<nat>)
    returns (ok: bool, h': Heap, rest: seq<nat>, ghost part: seq<nat>)
    requires buf != [] && s < |u.sizes| && Fine(u, h, out + multiset(buf)) && AllKind(h.kind, buf, s)
    ensures Outcome(u, h, ok, h') && h'.threads == h.threads && |rest| < |buf|
    ensures Grouped(u, h, 1, ok, h') && Groups(|buf|) == 1 + Groups(|rest|)
    ensures ok ==> Fine(u, h', out + multiset(rest)) && AllKind(h'.kind, rest, s) && KindsKept(out, h.kind, h'.kind)
    ensures ok ==> ListGrew(h.lists, h'.lists, s, [part])
    ensures Stacked(buf) == Stacked(rest) + [part]
  {
    var groupSize := if |buf| > GROUP then GROUP else |buf|;
    var filled := buf[..groupSize];
    rest, part := buf[groupSize..], filled;
    assert buf == part + rest;
    SplitPart(h.kind, s, buf, part, rest, out);
    ok, h' := PutGroup(u, h, s, filled, out + multiset(rest));
    if ok {
      RestKept(out, part, rest, h.kind, h'.kind, s);
    }
  }

  lemma RestKept(out: multiset<nat>, part: seq<nat>, rest: seq<nat>, kind: seq<int>, kind': seq<int>, s: int)
    requires KindsKept(out + multiset(rest) + multiset(part), kind, kind') && AllKind(kind, rest, s)
    ensures AllKind(kind', rest, s) && KindsKept(out, kind, kind')
  {
    KeptAllKind(out + multiset(rest) + multiset(part), rest, kind, kind', s);
    KeptSame(out, kind');
    KeptTwice(out, out + multiset(rest) + multiset(part), out, kind, kind', kind');
  }

  lemma SplitPart(kind: seq<int>, s: int, buf: seq<nat>, part: seq<nat>, rest: seq<nat>, out: multiset<nat>)
    requires buf != [] && |part| == (if |buf| > GROUP then GROUP else |buf|) && buf == part + rest
    requires AllKind(kind, buf, s)
    ensures out + multiset(buf) == out + multiset(rest) + multiset(part)
    ensures Stacked(buf) == Stacked(rest) + [part] && Groups(|buf|) == 1 + Groups(|rest|)
    ensures AllKind(kind, part, s) && AllKind(kind, rest, s)
  {
    SumOfParts(buf, part, rest, out);
    StackedParts(buf, part, rest);
    OneGroupLess(|buf|, |part|, |rest|);
    AllKindConcat(kind, part, rest, s);
  }

  lemma SumOfParts(buf: seq<nat>, part: seq<nat>, rest: seq<nat>, out: multiset<nat>)
    requires buf == part + rest
    ensures out + multiset(buf) == out + multiset(rest) + multiset(part)
  {
  }

  lemma OneGroupLess(n: nat, part: nat, rest: nat)
    requires n > 0 && part == (if n > GROUP then GROUP else n) && n == part + rest
    ensures Groups(n) == 1 + Groups(rest)
  {
  }

  lemma StackedParts(buf: seq<nat>, part: seq<nat>, rest: seq<nat>)
    requires buf != [] && |part| == (if |buf| > GROUP then GROUP else |buf|) && buf == part + rest
    ensures Stacked(buf) == Stacked(rest) + [part]
  {
    if |buf| > GROUP {
      assert buf[..GROUP] == part && buf[GROUP..] == rest;
    } else {
      assert rest == [] && part == buf;
    }
  }

  /** PutBlocksToGlobalFreeList: all the blocks, in groups of up to 15, each in front of those before. */
  method PutBlocks(u: Setup, h: Heap, s: nat, buf: seq<nat>, ghost out: multiset<nat>) returns (ok: bool, h': Heap)
    requires Fine(u, h, out + multiset(buf)) && s < |u.sizes| && AllKind(h.kind, buf, s)
    ensures Outcome(u, h, ok, h') && h'.threads == h.threads && Grouped(u, h, Groups(|buf|), ok, h')
    ensures ok ==> Fine(u, h', out) && KindsKept(out, h.kind, h'.kind) && ListGrew(h.lists, h'.lists, s, Stacked(buf))
  {
    h' := h;
    var rest := buf;
    ghost var done: seq<seq<nat>> := [];
    KeptSame(out, h.kind);
    assert InFront(h.lists[s], [], h.lists[s]) && Stacked(buf) + [] == Stacked(buf);
    ok := true;
    while rest != []
      invariant Fine(u, h', out + multiset(rest)) && AllKind(h'.kind, rest, s) && KindsKept(out, h.kind, h'.kind)
      invariant h'.threads == h.threads && Outcome(u, h, true, h') && Putting(h.lists, h'.lists, s, buf, rest, done)
      invariant GroupsLeft(u.sizes, u.region, h') + Groups(|buf|) == GroupsLeft(u.sizes, u.region, h) + Groups(|rest|)
      decreases |rest|
    {
      ghost var h1, rest1 := h', rest;
      ghost var part;
      ok, h', rest, part := PutPart(u, h', s, rest, out);
      OutcomeJoin(u, h, h1, ok, h');
      if !ok {
        return;
      }
      PutMore(h.lists, h1.lists, h'.lists, s, buf, rest1, done, part, rest);
      KeptTwice(out, out, out, h.kind, h1.kind, h'.kind);
      done := [part] + done;
    }
    assert out + multiset(rest) == out;
    PutAll(h.lists, h'.lists, s, buf, done);
  }
}
