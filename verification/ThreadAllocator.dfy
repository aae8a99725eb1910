/** LFAlloc and LFFree: per-thread stacks over the groups and chunks. */
module ThreadAllocator {
  import opened Blocks
  import opened BlockMoves
  import opened DrainedChunks
  import opened ChunkAllocator
  import opened BlockSupply

  // ---------------------------------------------------------------- stacks

  /** Stack s of thread t is replaced. */
  function SetStack(threads: seq<seq<Stack>>, t: nat, s: nat, st: Stack): seq<seq<Stack>> {
    if t < |threads| && s < |threads[t]| then threads[t := threads[t][s := st]] else threads
  }

  function WithStack(h: Heap, t: nat, s: nat, st: Stack): Heap { h.(threads := SetStack(h.threads, t, s, st)) }

  lemma SetTwice(threads: seq<seq<Stack>>, t: nat, s: nat, a: Stack, b: Stack)
    requires t < |threads| && s < |threads[t]|
    ensures SetStack(SetStack(threads, t, s, a), t, s, b) == SetStack(threads, t, s, b)
    ensures SetStack(threads, t, s, a)[t][s] == a && |SetStack(threads, t, s, a)[t]| == |threads[t]|
    ensures |SetStack(threads, t, s, a)| == |threads|
  {
    var stacks := threads[t];
    assert stacks[s := a][s := b] == stacks[s := b];
    assert threads[t := stacks[s := a]][t := stacks[s := b]] == threads[t := stacks[s := b]];
  }

  lemma SetSame(threads: seq<seq<Stack>>, t: nat, s: nat)
    requires t < |threads| && s < |threads[t]|
    ensures SetStack(threads, t, s, Lower(threads[t][s], 0)) == threads
  {
    assert threads[t][s := threads[t][s]] == threads[t];
  }

  /** Blocks move between a stack and a call: `more` come out of the stack, `less` go in. */
  lemma StackChange(u: Setup, h: Heap, out: multiset<nat>, t: nat, s: nat, st: Stack, more: seq<nat>, less: seq<nat>,
                    out': multiset<nat>)
    requires Fine(u, h, out) && t < |h.threads| && 1 <= s < |u.sizes| == |h.threads[t]|
    requires |st.slots| == THREAD_BUF && AllKind(h.kind, Contents(st), s)
    requires u.sizes[s] > 0 && Lowest(u.sizes[s]) <= st.index <= THREAD_BUF
    requires multiset(Contents(st)) + multiset(more) == multiset(Contents(h.threads[t][s])) + multiset(less)
    requires out' + multiset(less) == out + multiset(more)
    ensures Fine(u, WithStack(h, t, s, st), out')
  {
    var p, q := multiset(Contents(st)), multiset(Contents(h.threads[t][s]));
    forall e ensures (p + out')[e] == (q + out)[e] {
      assert (p + multiset(more))[e] == (q + multiset(less))[e]
        && (out' + multiset(less))[e] == (out + multiset(more))[e];
    }
    ChangeStack(u.sizes, h, out, t, s, st, h.threads[t][s := st], out');
  }

  lemma StackIs(z: seq<int>, h: Heap, t: nat, s: nat)
    requires ThreadsOk(z, h.kind, h.threads) && t < |h.threads| && s < |z|
    ensures |h.threads[t]| == |z| && StackOk(z, h.kind, s, h.threads[t][s])
  {
    assert ThreadOk(z, h.kind, h.threads[t]);
  }

  lemma TopOf(st: Stack, kind: seq<int>, s: int, p: nat)
    requires st.index < |st.slots| && AllKind(kind, Contents(st), s) && p == st.slots[st.index]
    ensures AllKind(kind, [p], s) && AllKind(kind, Contents(Popped(st)), s)
    ensures multiset(Contents(Popped(st))) + multiset([p]) == multiset(Contents(st)) + multiset([])
  {
    assert Contents(st) == [p] + Contents(Popped(st));
    AllKindConcat(kind, [p], Contents(Popped(st)), s);
  }

  lemma Quotient(a: nat, size: nat, n: nat)
    requires size > 0
    ensures a / size >= n <==> n * size <= a
  {
    var q := a / size;
    assert q * size <= a < q * size + size;
    MulOrder(n, q + 1, size);
    MulOrder(q, n, size);
    assert (q + 1) * size == q * size + size;
    if n * size <= a {
      assert n * size < (q + 1) * size;
    }
  }

  /** A stack that is refilled when empty stays at or above its border if and only if the blocks are
      small enough: the default table's are, and the two sizes added in the build for YT are not. */
  lemma BorderRoom(size: nat)
    requires size > 0
    ensures Border(size) <= THREAD_BUF - (GROUP - 1) <==> (GROUP - 1) * size <= MAX_MEM_PER_SIZE
    ensures Lowest(size) == Border(size) <==> (GROUP - 1) * size <= MAX_MEM_PER_SIZE
  {
    Quotient(MAX_MEM_PER_SIZE, size, GROUP - 1);
  }

  /** Above its border a stack has as many blocks as fit both into it and into the memory per size. */
  lemma BorderIs(size: nat, count: nat)
    requires size > 0
    ensures Border(size) <= THREAD_BUF - count <==> count <= THREAD_BUF && count * size <= MAX_MEM_PER_SIZE
  {
    Quotient(MAX_MEM_PER_SIZE, size, count);
  }

  /** The border is a place in the stack. */
  lemma BorderInside(z: seq<int>, s: nat)
    requires SizesOk(z) && 1 <= s < |z|
    ensures 0 <= Border(z[s]) < THREAD_BUF && 0 <= Lowest(z[s]) <= THREAD_BUF - (GROUP - 1)
  {
    Quotient(MAX_MEM_PER_SIZE, z[s], 1);
  }

  /** The stack without its top. */
  function Popped(st: Stack): Stack { st.(index := st.index + 1) }

  lemma TopTaken(u: Setup, h: Heap, t: nat, s: nat, out: multiset<nat>, st: Stack, p: nat)
    requires Fine(u, h, out) && 1 <= s < |u.sizes| && t < |h.threads| && |h.threads[t]| == |u.sizes|
    requires st == h.threads[t][s] && |st.slots| == THREAD_BUF && st.index < THREAD_BUF && p == st.slots[st.index]
    ensures Fine(u, WithStack(h, t, s, Popped(st)), out + multiset{p}) && AllKind(h.kind, [p], s) && p != 0
  {
    StackIs(u.sizes, h, t, s);
    TopOf(st, h.kind, s, p);
    StackChange(u, h, out, t, s, Popped(st), [p], [], out + multiset{p});
    NotNull(h.kind, [p], s);
  }

  /** The top block of the thread's stack. */
  method PopBlock(u: Setup, h: Heap, t: nat, s: nat, ghost out: multiset<nat>) returns (p: nat, h': Heap)
    requires Fine(u, h, out) && 1 <= s < |u.sizes| && t < |h.threads| && |h.threads[t]| == |u.sizes|
    requires |h.threads[t][s].slots| == THREAD_BUF && h.threads[t][s].index < THREAD_BUF
    ensures Fine(u, h', out + multiset{p}) && AllKind(h.kind, [p], s) && p != 0
    ensures p == h.threads[t][s].slots[h.threads[t][s].index] && h' == WithStack(h, t, s, Popped(h.threads[t][s]))
  {
    var st := h.threads[t][s];
    p := st.slots[st.index];
    TopTaken(u, h, t, s, out, st, p);
    h' := WithStack(h, t, s, Popped(st));
  }

  lemma RefillStep(dst: seq<nat>, dst': seq<nat>, buf: seq<nat>, i: nat, top: nat)
    requires i < |buf| && top < |dst| && dst' == dst[top := buf[i]]
    requires multiset(dst[top + 1..]) == multiset(buf[..i])
    ensures multiset(dst'[top..]) == multiset(buf[..i + 1])
  {
    assert dst'[top..] == [buf[i]] + dst[top + 1..];
    assert buf[..i + 1] == buf[..i] + [buf[i]];
  }

  /** All blocks but the last go on an empty stack, from its end downwards. */
  method Refill(slots: seq<nat>, buf: seq<nat>) returns (st: Stack)
    requires |slots| == THREAD_BUF && 0 < |buf| <= GROUP
    ensures Restocked(st, buf) && multiset(Contents(st)) == multiset(buf[..|buf| - 1])
  {
    var dst, n, top := slots, |buf| - 1, THREAD_BUF;
    for i := 0 to n
      invariant |dst| == THREAD_BUF && top == THREAD_BUF - i && multiset(dst[top..]) == multiset(buf[..i])
      invariant forall k :: 0 <= k < i ==> dst[THREAD_BUF - 1 - k] == buf[k]
    {
      top := top - 1;
      RefillStep(dst, dst[top := buf[i]], buf, i, top);
      dst := dst[top := buf[i]];
    }
    st := Stack(dst, top);
  }

  lemma LastOf(buf: seq<nat>, kind: seq<int>, s: int, l: seq<nat>)
    requires buf != [] && AllKind(kind, buf, s) && multiset(l) == multiset(buf[..|buf| - 1])
    ensures AllKind(kind, l, s) && AllKind(kind, [buf[|buf| - 1]], s)
    ensures multiset(buf) == multiset(l) + multiset{buf[|buf| - 1]}
  {
    var n := |buf| - 1;
    assert buf == buf[..n] + [buf[n]];
    AllKindConcat(kind, buf[..n], [buf[n]], s);
    forall a: nat ensures KindAt(kind, l, s, a) {
      assert KindAt(kind, buf[..n], s, a);
      if a in l { SameHas(l, buf[..n], a); }
    }
  }

  lemma SameHas(l: seq<nat>, m: seq<nat>, a: nat)
    requires multiset(l) == multiset(m) && a in l
    ensures a in m
  {
    assert a in multiset(l);
  }

  /** All of `buf` but its last block are on the stack, the first at the end. */
  predicate Restocked(st: Stack, buf: seq<nat>) {
    && 0 < |buf| <= GROUP && |st.slots| == THREAD_BUF && st.index == THREAD_BUF - (|buf| - 1)
    && forall i :: 0 <= i < |buf| - 1 ==> st.slots[THREAD_BUF - 1 - i] == buf[i]
  }

  lemma BlocksStored(u: Setup, h: Heap, t: nat, s: nat, buf: seq<nat>, st: Stack, p: nat, out: multiset<nat>)
    requires Fine(u, h, out + multiset(buf)) && 1 <= s < |u.sizes| && t < |h.threads| && |h.threads[t]| == |u.sizes|
    requires |h.threads[t][s].slots| == THREAD_BUF && h.threads[t][s].index == THREAD_BUF
    requires Restocked(st, buf) && multiset(Contents(st)) == multiset(buf[..|buf| - 1]) && AllKind(h.kind, buf, s)
    requires p == buf[|buf| - 1]
    ensures Fine(u, WithStack(h, t, s, st), out + multiset{p}) && AllKind(h.kind, [p], s) && p != 0
  {
    LastOf(buf, h.kind, s, Contents(st));
    BorderInside(u.sizes, s);
    NotNull(h.kind, buf, s);
    StackChange(u, h, out + multiset(buf), t, s, st, [], Contents(st), out + multiset{p});
  }

  /** Several blocks arrive for an empty stack: all but the last are stored, the last is handed out. */
  method StoreAllButLast(u: Setup, h: Heap, t: nat, s: nat, buf: seq<nat>, ghost out: multiset<nat>)
    returns (p: nat, h': Heap, ghost st: Stack)
    requires Fine(u, h, out + multiset(buf)) && 1 <= s < |u.sizes| && t < |h.threads| && |h.threads[t]| == |u.sizes|
    requires |h.threads[t][s].slots| == THREAD_BUF && h.threads[t][s].index == THREAD_BUF
    requires 0 < |buf| <= GROUP && AllKind(h.kind, buf, s)
    ensures Fine(u, h', out + multiset{p}) && AllKind(h.kind, [p], s) && p == buf[|buf| - 1] && p != 0
    ensures h' == WithStack(h, t, s, st) && Restocked(st, buf)
  {
    var filled := Refill(h.threads[t][s].slots, buf);
    st := filled;
    p := buf[|buf| - 1];
    BlocksStored(u, h, t, s, buf, st, p, out);
    h' := WithStack(h, t, s, filled);
  }

  /** The first group of the list, or else a group's worth of adjacent blocks if there is room. */
  ghost predicate Fetched(u: Setup, h: Heap, s: nat, buf: seq<nat>, lists': seq<seq<Group>>)
    requires s < |u.sizes| && s < |h.lists| && s < |h.current|
  {
    if h.lists[s] != [] then
      buf == Filled(h.lists[s][0].ptrs) && lists' == h.lists[s := h.lists[s][1..]]
    else if Roomy(u, h, s, GROUP) then
      u.sizes[s] > 0 && buf == RunOf(h.current[s], u.sizes[s], GROUP)
    else
      |buf| <= 1
  }

  /** Several free blocks of this size, from the lists or from a chunk; none when space is used up. */
  method FetchBlocks(u: Setup, h: Heap, s: nat, ghost out: multiset<nat>) returns (buf: seq<nat>, h': Heap)
    requires Fine(u, h, out) && 1 <= s < |u.sizes|
    ensures |buf| <= GROUP && h'.threads == h.threads && Outcome(u, h, buf != [], h')
    ensures buf == [] <==> h.lists[s] == [] && NoBlock(u, h, s, true)
    ensures Fetched(u, h, s, buf, h'.lists)
    ensures buf != [] ==>
      Fine(u, h', out + multiset(buf)) && AllKind(h'.kind, buf, s) && KindsKept(out, h.kind, h'.kind)
  {
    buf, h' := TakeBlocks(u, h, s, out);
    if buf == [] {
      assert out + multiset(buf) == out;
      buf, h' := AllocNoCacheMultiple(u, h', s, out);
    }
  }

  /** The stack is filled first, from the list or from a chunk. */
  method AllocEmpty(u: Setup, h: Heap, t: nat, s: nat, ghost out: multiset<nat>)
    returns (p: nat, h': Heap, ghost st: Stack, ghost fetched: seq<nat>)
    requires Fine(u, h, out) && 1 <= s < |u.sizes| && t < |h.threads| && |h.threads[t]| == |u.sizes|
    requires |h.threads[t][s].slots| == THREAD_BUF && h.threads[t][s].index == THREAD_BUF
    ensures Outcome(u, h, p != 0, h') && (p == 0 <==> h.lists[s] == [] && NoBlock(u, h, s, true))
    ensures p != 0 ==> Fine(u, h', out + multiset{p}) && AllKind(h'.kind, [p], s) && KindsKept(out, h.kind, h'.kind)
    ensures p != 0 ==>
      Restocked(st, fetched) && p == fetched[|fetched| - 1] && h'.threads == SetStack(h.threads, t, s, st)
    ensures p != 0 ==> Fetched(u, h, s, fetched, h'.lists)
  {
    var buf, h1 := FetchBlocks(u, h, s, out);
    p, h', st, fetched := 0, h1, h.threads[t][s], buf;
    if buf != [] {
      p, h', st := StoreAllButLast(u, h1, t, s, buf, out);
      StackKeeps(u, out, h, h1, t, s, st);
    }
  }

  lemma StackKeeps(u: Setup, out: multiset<nat>, h: Heap, h1: Heap, t: nat, s: nat, st: Stack)
    requires Outcome(u, h, true, h1) && h1.threads == h.threads && KindsKept(out, h.kind, h1.kind)
    ensures var h' := WithStack(h1, t, s, st);
      Outcome(u, h, true, h') && KindsKept(out, h.kind, h'.kind) && h'.lists == h1.lists
      && h'.kind == h1.kind && h'.threads == SetStack(h.threads, t, s, st)
  {
  }

  /** LFAlloc for a registered thread: the top of its stack if there is one. Otherwise the stack is
      filled first, and the last block fetched is not stored. */
  method AllocFor(u: Setup, h: Heap, t: nat, s: nat, ghost out: multiset<nat>)
    returns (p: nat, h': Heap, ghost st: Stack, ghost fetched: seq<nat>)
    requires Fine(u, h, out) && 1 <= s < |u.sizes| && t < |h.threads| && |h.threads[t]| == |u.sizes|
    ensures Outcome(u, h, p != 0, h') && |h.threads[t][s].slots| == THREAD_BUF
    ensures p == 0 <==> h.threads[t][s].index >= THREAD_BUF && h.lists[s] == [] && NoBlock(u, h, s, true)
    ensures p != 0 ==> Fine(u, h', out + multiset{p}) && AllKind(h'.kind, [p], s) && KindsKept(out, h.kind, h'.kind)
    ensures p != 0 ==> h'.threads == SetStack(h.threads, t, s, st)
    ensures h.threads[t][s].index < THREAD_BUF ==>
      st == Popped(h.threads[t][s]) && p == h.threads[t][s].slots[st.index - 1] && h' == WithStack(h, t, s, st)
    ensures h.threads[t][s].index >= THREAD_BUF && p != 0 ==>
      Restocked(st, fetched) && p == fetched[|fetched| - 1] && Fetched(u, h, s, fetched, h'.lists)
  {
    StackIs(u.sizes, h, t, s);
    if h.threads[t][s].index < THREAD_BUF {
      fetched, st := [], Popped(h.threads[t][s]);
      KeptSame(out, h.kind);
      p, h' := PopBlock(u, h, t, s, out);
    } else {
      p, h', st, fetched := AllocEmpty(u, h, t, s, out);
    }
  }

  /** The stack with a block on top. */
  function Pushed(st: Stack, p: nat): Stack
    requires 0 < st.index <= |st.slots|
  {
    Stack(st.slots[st.index - 1 := p], st.index - 1)
  }

  lemma TopPut(u: Setup, h: Heap, t: nat, s: nat, p: nat, out: multiset<nat>, st: Stack)
    requires Fine(u, h, out + multiset{p}) && 1 <= s < |u.sizes| && t < |h.threads| && AllKind(h.kind, [p], s)
    requires |h.threads[t]| == |u.sizes| && u.sizes[s] > 0 && st == h.threads[t][s]
    requires 0 <= Border(u.sizes[s]) < st.index <= |st.slots|
    ensures Fine(u, WithStack(h, t, s, Pushed(st, p)), out)
  {
    StackIs(u.sizes, h, t, s);
    var st' := Pushed(st, p);
    assert Contents(st') == [p] + Contents(st);
    AllKindConcat(h.kind, [p], Contents(st), s);
    StackChange(u, h, out + multiset{p}, t, s, st', [], [p], out);
  }

  /** A block goes on top of the stack, which has room. */
  method PushBlock(u: Setup, h: Heap, t: nat, s: nat, p: nat, ghost out: multiset<nat>) returns (h': Heap)
    requires Fine(u, h, out + multiset{p}) && 1 <= s < |u.sizes| && t < |h.threads| && AllKind(h.kind, [p], s)
    requires |h.threads[t]| == |u.sizes| && u.sizes[s] > 0
    requires 0 <= Border(u.sizes[s]) < h.threads[t][s].index <= |h.threads[t][s].slots|
    ensures Fine(u, h', out) && h' == WithStack(h, t, s, Pushed(h.threads[t][s], p))
  {
    TopPut(u, h, t, s, p, out, h.threads[t][s]);
    h' := WithStack(h, t, s, Pushed(h.threads[t][s], p));
  }

  /** The stack without the `count` blocks on top, and those. */
  function Lower(st: Stack, count: nat): Stack { st.(index := st.index + count) }

  function Top(st: Stack, count: nat): seq<nat>
    requires st.index + count <= |st.slots|
  {
    st.slots[st.index..st.index + count]
  }

  lemma TopSplit(u: Setup, h: Heap, t: nat, s: nat, count: nat, out: multiset<nat>, st: Stack)
    requires Fine(u, h, out) && 1 <= s < |u.sizes| && t < |h.threads| && |h.threads[t]| == |u.sizes|
    requires st == h.threads[t][s] && |st.slots| == THREAD_BUF && st.index + count <= THREAD_BUF
    ensures Fine(u, WithStack(h, t, s, Lower(st, count)), out + multiset(Top(st, count)))
    ensures AllKind(h.kind, Top(st, count), s)
  {
    StackIs(u.sizes, h, t, s);
    var st', part := Lower(st, count), Top(st, count);
    assert Contents(st) == part + Contents(st');
    AllKindConcat(h.kind, part, Contents(st'), s);
    StackChange(u, h, out, t, s, st', part, [], out + multiset(part));
  }

  /** The first `count` blocks of the stack move to the lists. */
  method Unload(u: Setup, h: Heap, t: nat, s: nat, count: nat, ghost out: multiset<nat>) returns (ok: bool, h': Heap)
    requires Fine(u, h, out) && 1 <= s < |u.sizes| && t < |h.threads| && |h.threads[t]| == |u.sizes|
    requires |h.threads[t][s].slots| == THREAD_BUF && h.threads[t][s].index + count <= THREAD_BUF
    ensures Outcome(u, h, ok, h') && Grouped(u, h, Groups(count), ok, h')
    ensures ok ==> Fine(u, h', out) && KindsKept(out, h.kind, h'.kind)
    ensures h'.threads == SetStack(h.threads, t, s, Lower(h.threads[t][s], count))
    ensures ok ==> ListGrew(h.lists, h'.lists, s, Stacked(Top(h.threads[t][s], count)))
  {
    var st := h.threads[t][s];
    TopSplit(u, h, t, s, count, out, st);
    var part, h1 := Top(st, count), WithStack(h, t, s, Lower(st, count));
    ok, h' := PutBlocks(u, h1, s, part, out);
    StackFirst(u, out, h, t, s, Lower(st, count), h1, ok, h', part);
  }

  lemma StackFirst(u: Setup, out: multiset<nat>, h: Heap, t: nat, s: nat, st: Stack, h1: Heap, ok: bool, h': Heap,
                   part: seq<nat>)
    requires h1 == WithStack(h, t, s, st) && Outcome(u, h1, ok, h') && h'.threads == h1.threads
    requires Grouped(u, h1, Groups(|part|), ok, h')
    requires ok ==> KindsKept(out, h1.kind, h'.kind) && ListGrew(h1.lists, h'.lists, s, Stacked(part))
    ensures Outcome(u, h, ok, h') && h'.threads == SetStack(h.threads, t, s, st)
    ensures Grouped(u, h, Groups(|part|), ok, h')
    ensures ok ==> KindsKept(out, h.kind, h'.kind) && ListGrew(h.lists, h'.lists, s, Stacked(part))
  {
  }

  /** How many blocks leave the stack before one is pushed: as many as a group holds, or all. */
  function Surplus(size: int, index: nat): nat
    requires size > 0 && index <= THREAD_BUF
  {
    if index > Border(size) then 0 else if GROUP > THREAD_BUF - index then THREAD_BUF - index else GROUP
  }

  /** Enough leaves the stack to make room above its border. */
  lemma NowRoomy(z: seq<int>, s: nat, index: nat)
    requires SizesOk(z) && 1 <= s < |z| && Lowest(z[s]) <= index <= THREAD_BUF
    ensures 0 <= Border(z[s]) < index + Surplus(z[s], index) <= THREAD_BUF
  {
    BorderInside(z, s);
  }

  /** A stack at its border gives up a group's worth of blocks. */
  method MakeRoom(u: Setup, h: Heap, t: nat, s: nat, n: nat, ghost out: multiset<nat>) returns (ok: bool, h': Heap)
    requires Fine(u, h, out) && 1 <= s < |u.sizes| && t < |h.threads| && |h.threads[t]| == |u.sizes|
    requires |h.threads[t][s].slots| == THREAD_BUF && h.threads[t][s].index + n <= THREAD_BUF
    ensures Outcome(u, h, ok, h') && Grouped(u, h, Groups(n), ok, h')
    ensures ok ==> Fine(u, h', out) && KindsKept(out, h.kind, h'.kind)
    ensures h'.threads == SetStack(h.threads, t, s, Lower(h.threads[t][s], n))
    ensures ok ==>
      if n == 0 then h'.lists == h.lists else ListGrew(h.lists, h'.lists, s, Stacked(Top(h.threads[t][s], n)))
  {
    if n == 0 {
      KeptSame(out, h.kind);
      SetSame(h.threads, t, s);
      return true, h;
    }
    ok, h' := Unload(u, h, t, s, n, out);
  }

  /** What a free makes of a stack and the list of its size. Above the border the block comes on top and the
      list stays. At the border or below, the first 15 blocks of the stack, or all if there are fewer, become
      the first group of the list, and the block comes on top of the others. */
  predicate FreedOn(st: Stack, st': Stack, border: int, p: nat, lists: seq<seq<Group>>, lists': seq<seq<Group>>,
                    s: nat) {
    var stored := Contents(st);
    if st.index > border then
      Contents(st') == [p] + stored && lists' == lists
    else
      var k := if |stored| > GROUP then GROUP else |stored|;
      k > 0 && Contents(st') == [p] + stored[k..] && ListGrew(lists, lists', s, [stored[..k]])
  }

  /** LFFree for a registered thread: the block goes on the stack, after a group's worth of blocks has
      gone to the list if the stack is at its border. */
  method FreeFor(u: Setup, h: Heap, t: nat, s: nat, p: nat, ghost out: multiset<nat>)
    returns (ok: bool, h': Heap, ghost st: Stack)
    requires Fine(u, h, out + multiset{p}) && 1 <= s < |u.sizes| && t < |h.threads| && AllKind(h.kind, [p], s)
    requires |h.threads[t]| == |u.sizes|
    ensures u.sizes[s] > 0 && Outcome(u, h, ok, h')
    ensures Grouped(u, h, if h.threads[t][s].index > Border(u.sizes[s]) then 0 else 1, ok, h')
    ensures ok ==> Fine(u, h', out) && KindsKept(out, h.kind, h'.kind)
    ensures ok ==> h'.threads == SetStack(h.threads, t, s, st)
    ensures ok ==> FreedOn(h.threads[t][s], st, Border(u.sizes[s]), p, h.lists, h'.lists, s)
  {
    var stack := h.threads[t][s];
    st := stack;
    StackIs(u.sizes, h, t, s);
    NowRoomy(u.sizes, s, stack.index);
    var surplus := Surplus(u.sizes[s], stack.index);
    OneGroupAtMost(surplus);
    var h1;
    ok, h1 := MakeRoom(u, h, t, s, surplus, out + multiset{p});
    h' := h1;
    if ok {
      st := Pushed(Lower(stack, surplus), p);
      SetTwice(h.threads, t, s, Lower(stack, surplus), st);
      PieceKept(out, p, h.kind, h1.kind, s);
      h' := PushBlock(u, h1, t, s, p, out);
      StackAfter(u, out, h, Groups(surplus), h1, t, s, st);
      FreedIs(stack, u.sizes[s], p, h.lists, h1.lists, s);
    }
  }

  lemma FreedIs(st: Stack, size: int, p: nat, lists: seq<seq<Group>>, lists': seq<seq<Group>>, s: nat)
    requires size > 0 && |st.slots| == THREAD_BUF && st.index <= THREAD_BUF && 0 <= Border(size) < THREAD_BUF
    requires st.index + Surplus(size, st.index) > 0
    requires var n := Surplus(size, st.index);
      if n == 0 then lists' == lists else ListGrew(lists, lists', s, Stacked(Top(st, n)))
    ensures FreedOn(st, Pushed(Lower(st, Surplus(size, st.index)), p), Border(size), p, lists, lists', s)
  {
    var n := Surplus(size, st.index);
    var stored := Contents(st);
    assert Contents(Pushed(Lower(st, n), p)) == [p] + stored[n..];
    if n == 0 {
      assert stored[0..] == stored;
    } else {
      assert Top(st, n) == stored[..n] && Stacked(stored[..n]) == [stored[..n]];
    }
  }

  /** Replacing a stack after a call changes nothing else. */
  lemma StackAfter(u: Setup, out: multiset<nat>, h: Heap, groups: nat, h1: Heap, t: nat, s: nat, st: Stack)
    requires Outcome(u, h, true, h1) && Grouped(u, h, groups, true, h1) && KindsKept(out, h.kind, h1.kind)
    ensures var h' := WithStack(h1, t, s, st);
      Outcome(u, h, true, h') && Grouped(u, h, groups, true, h') && KindsKept(out, h.kind, h'.kind)
      && h'.lists == h1.lists && h'.threads == SetStack(h1.threads, t, s, st)
  {
  }

  lemma OneGroupAtMost(n: nat)
    requires n <= GROUP
    ensures Groups(n) == if n == 0 then 0 else 1
  {
  }

  lemma PieceKept(out: multiset<nat>, p: nat, kind: seq<int>, kind': seq<int>, s: int)
    requires KindsKept(out + multiset{p}, kind, kind') && AllKind(kind, [p], s)
    ensures AllKind(kind', [p], s) && KindsKept(out, kind, kind')
  {
    KeptAllKind(out + multiset{p}, [p], kind, kind', s);
    KeptSame(out, kind');
    KeptTwice(out, out + multiset{p}, out, kind, kind', kind');
  }

  // ---------------------------------------------------------------- threads

  function EmptyStacks(n: nat): (l: seq<Stack>)
    ensures |l| == n && forall s :: 0 <= s < n ==> |l[s].slots| == THREAD_BUF && l[s].index == THREAD_BUF
  {
    seq(n, _ => Stack(seq(THREAD_BUF, _ => 0), THREAD_BUF))
  }

  predicate Unstocked(stacks: seq<Stack>) { forall s :: 0 <= s < |stacks| ==> stacks[s].index == THREAD_BUF }

  /** AllocThreadInfo: the thread registers with empty stacks. */
  method Register(u: Setup, h: Heap, ghost out: multiset<nat>) returns (h': Heap)
    requires Fine(u, h, out)
    ensures Fine(u, h', out) && h' == h.(threads := h'.threads) && |h'.threads| == |h.threads| + 1
    ensures Unstocked(h'.threads[|h.threads|])
  {
    var stacks := EmptyStacks(|u.sizes|);
    assert ThreadOk(u.sizes, h.kind, stacks) by {
      forall s | 0 <= s < |u.sizes| ensures StackOk(u.sizes, h.kind, s, stacks[s]) {
        if s >= 1 { BorderInside(u.sizes, s); }
      }
    }
    NewThread(u.sizes, h, out, stacks);
    h' := h.(threads := h.threads + [stacks]);
  }

  lemma OnceOnly(a: multiset<nat>, b: multiset<nat>, p: nat)
    requires (a + (b + multiset{p}))[p] == 1
    ensures p !in a && p !in b
  {
    assert (a + (b + multiset{p}))[p] == a[p] + b[p] + 1;
  }

  lemma CarvedKind(z: seq<int>, kind: seq<int>, current: seq<nat>, a: nat)
    requires IsCarved(z, kind, current, a) && kind[0] == 0
    ensures a / CHUNK < |kind| && 1 <= kind[a / CHUNK] < |z| && a != 0
  {
  }

  /** A block out once is nowhere else. */
  lemma OutOnce(u: Setup, h: Heap, out: multiset<nat>, p: nat)
    requires Fine(u, h, out + multiset{p})
    ensures p !in out && p !in Stock(h)
    ensures p / CHUNK < |h.kind| && 1 <= h.kind[p / CHUNK] < |u.sizes| && p != 0
  {
    var all := Stock(h) + (out + multiset{p});
    assert p in all;
    OnlyCarved(u.sizes, h.kind, h.current, all, p);
    OnceOnly(Stock(h), out, p);
    CarvedKind(u.sizes, h.kind, h.current, p);
  }

  /** The body of LFFree. A thread without stacks gives the block to the list at once. */
  method FreeBlock(u: Setup, h: Heap, t: nat, stopping: bool, p: nat, ghost out: multiset<nat>)
    returns (ok: bool, h': Heap)
    requires Fine(u, h, out + multiset{p})
    ensures Outcome(u, h, ok, h') && Grouped(u, h, if StackTakes(u, h, t, p) then 0 else 1, ok, h')
    ensures ok ==> Fine(u, h', out) && KindsKept(out, h.kind, h'.kind)
    ensures ok && t >= |h.threads| ==>
      |h'.threads| == |h.threads| + (if stopping then 0 else 1) && ListGrew(h.lists, h'.lists, SizeOf(h, p), [[p]])
    ensures ok && t < |h.threads| ==> StackFreed(u, h, h', t, p)
  {
    OutOnce(u, h, out, p);
    var s := h.kind[p / CHUNK];
    BlockKind(h.kind, p, s);
    if t < |h.threads| {
      StackIs(u.sizes, h, t, s);
      ghost var st;
      ok, h', st := FreeFor(u, h, t, s, p, out);
      if ok { FreedThere(u, h, h', t, s, p, st); }
    } else {
      ok, h' := FreeUncached(u, h, stopping, s, p, out);
    }
  }

  /** The thread's stack takes the block as it is. */
  predicate StackTakes(u: Setup, h: Heap, t: nat, p: nat) {
    var s := SizeOf(h, p);
    t < |h.threads| && s < |h.threads[t]| && s < |u.sizes| && u.sizes[s] > 0
      && h.threads[t][s].index > Border(u.sizes[s])
  }

  /** What freeing block p does to the stack of its size, and that no other stack changes. */
  predicate StackFreed(u: Setup, h: Heap, h': Heap, t: nat, p: nat) {
    var s := SizeOf(h, p);
    && t < |h.threads| == |h'.threads| && s < |h.threads[t]| == |h'.threads[t]| && s < |u.sizes| && u.sizes[s] > 0
    && h'.threads == SetStack(h.threads, t, s, h'.threads[t][s])
    && FreedOn(h.threads[t][s], h'.threads[t][s], Border(u.sizes[s]), p, h.lists, h'.lists, s)
  }

  lemma FreedThere(u: Setup, h: Heap, h': Heap, t: nat, s: nat, p: nat, st: Stack)
    requires t < |h.threads| && s < |h.threads[t]| && s < |u.sizes| && u.sizes[s] > 0 && s == SizeOf(h, p)
    requires h'.threads == SetStack(h.threads, t, s, st)
    requires FreedOn(h.threads[t][s], st, Border(u.sizes[s]), p, h.lists, h'.lists, s)
    ensures StackFreed(u, h, h', t, p)
  {
    assert h'.threads[t][s] == st;
  }

  /** The size index of the chunk of a block. */
  function SizeOf(h: Heap, p: nat): nat {
    if p / CHUNK < |h.kind| && h.kind[p / CHUNK] >= 0 then h.kind[p / CHUNK] else 0
  }

  lemma BlockKind(kind: seq<int>, p: nat, s: int)
    requires p / CHUNK < |kind| && kind[p / CHUNK] == s >= 1
    ensures AllKind(kind, [p], s)
  {
    forall a: nat ensures KindAt(kind, [p], s, a) { }
  }

  /** LFFree for a thread without stacks, which registers unless it is stopping. */
  method FreeUncached(u: Setup, h: Heap, stopping: bool, s: nat, p: nat, ghost out: multiset<nat>)
    returns (ok: bool, h': Heap)
    requires Fine(u, h, out + multiset{p}) && 1 <= s < |u.sizes| && AllKind(h.kind, [p], s)
    ensures Outcome(u, h, ok, h') && Grouped(u, h, 1, ok, h')
    ensures ok ==> Fine(u, h', out) && KindsKept(out, h.kind, h'.kind) && ListGrew(h.lists, h'.lists, s, [[p]])
    ensures |h'.threads| == |h.threads| + if stopping then 0 else 1
  {
    var h1 := h;
    if !stopping {
      h1 := Register(u, h, out + multiset{p});
    }
    OneBlock(p);
    var buf := [p];
    ok, h' := PutBlocks(u, h1, s, buf, out);
    AfterRegister(u, out, h, h1, s, buf, ok, h');
  }

  /** A call after a thread has registered does what it would have done before. */
  lemma AfterRegister(u: Setup, out: multiset<nat>, h: Heap, h1: Heap, s: nat, buf: seq<nat>, ok: bool, h': Heap)
    requires h1 == h.(threads := h1.threads) && Outcome(u, h1, ok, h') && Grouped(u, h1, Groups(|buf|), ok, h')
    requires ok ==> KindsKept(out, h1.kind, h'.kind) && ListGrew(h1.lists, h'.lists, s, Stacked(buf))
    ensures Outcome(u, h, ok, h') && Grouped(u, h, Groups(|buf|), ok, h')
    ensures ok ==> KindsKept(out, h.kind, h'.kind) && ListGrew(h.lists, h'.lists, s, Stacked(buf))
  {
  }

  lemma OneBlock(p: nat)
    ensures multiset([p]) == multiset{p} && Stacked([p]) == [[p]] && Groups(1) == 1
  {
  }

  class TAllocator {
    const u: Setup
    var heap: Heap
    /** The blocks in the hands of callers. */
    ghost var held: multiset<nat>

    ghost predicate Valid()
      reads this
    {
      Fine(u, heap, held)
    }

    /** An address space of `chunks` chunks with nothing mapped yet. */
    constructor (u: Setup, chunks: nat)
      requires SizesOk(u.sizes) && chunks > 0 && RegionsOk(u.region, chunks)
      ensures Valid() && held == multiset{} && this.u == u && heap.threads == [] && |heap.kind| == chunks
    {
      this.u := u;
      heap := Heap(seq(chunks, _ => 0), [], seq(|u.sizes|, _ => 0), seq(|u.sizes|, _ => []), [], [], 0);
      held := multiset{};
      new;
      EmptyHeap(u.sizes, heap);
    }

    /** LFAlloc for size index s, by thread t if it is registered. A thread that is not registers
        first, unless it is stopping. The result is 0 exactly when there is nothing for it; the program
        stops then. */
    method LFAlloc(t: nat, stopping: bool, s: nat) returns (p: nat)
      requires Valid() && 1 <= s < |u.sizes|
      modifies this
      ensures Outcome(u, old(heap), p != 0, heap) && (p == 0 <==> NothingFor(u, old(heap), t, stopping, s))
      ensures p != 0 ==> Valid() && held == old(held) + multiset{p} && p !in old(held)
      ensures p != 0 ==> AllKind(heap.kind, [p], s) && KindsKept(old(held), old(heap.kind), heap.kind)
      ensures FromStack(old(heap), t, s) ==>
        var st := old(heap).threads[t][s]; p == st.slots[st.index] && heap == WithStack(old(heap), t, s, Popped(st))
    {
      var h;
      p, h := AllocBlock(u, heap, t, stopping, s, held);
      heap := h;
      if p != 0 {
        OutOnce(u, heap, held, p);
        held := held + multiset{p};
      }
    }

    /** LFFree, by thread t if it is registered. It fails exactly when a group has to be put and no block
        is left for it. */
    method LFFree(t: nat, stopping: bool, p: nat) returns (ok: bool)
      requires Valid() && (p == 0 || p in held)
      modifies this
      ensures Outcome(u, old(heap), ok, heap)
      ensures Grouped(u, old(heap), if p == 0 || StackTakes(u, old(heap), t, p) then 0 else 1, ok, heap)
      ensures ok ==> Valid() && held == old(held) - multiset{p} && KindsKept(held, old(heap.kind), heap.kind)
      ensures ok && p != 0 ==>
        if t < |old(heap).threads| then StackFreed(u, old(heap), heap, t, p)
        else ListGrew(old(heap).lists, heap.lists, SizeOf(old(heap), p), [[p]])
      ensures p == 0 ==> ok && heap == old(heap)
    {
      if p == 0 {
        NullNotHeld(u, heap, held);
        KeptSame(held, heap.kind);
        return true;
      }
      ghost var out := held - multiset{p};
      assert held == out + multiset{p};
      var h;
      ok, h := FreeBlock(u, heap, t, stopping, p, out);
      heap, held := h, out;
    }

    /** MoveSingleThreadFreeToGlobal: the stacks of a thread that ends go to the lists. It fails exactly
        when fewer blocks are left than the groups that they fill. */
    method MoveSingleThreadFreeToGlobal(t: nat) returns (ok: bool)
      requires Valid() && t < |heap.threads|
      modifies this`heap
      ensures Outcome(u, old(heap), ok, heap)
      ensures |u.sizes| == |old(heap).threads[t]|
      ensures Grouped(u, old(heap), GroupsOf(old(heap).threads[t], |u.sizes|), ok, heap)
      ensures ok ==> Valid() && KindsKept(held, old(heap.kind), heap.kind)
      ensures ok ==> |heap.threads| == |old(heap.threads)| && Emptied(heap.threads[t], |u.sizes|)
    {
      var h;
      ok, h := EmptyThread(u, heap, t, held);
      heap := h;
    }
  }

  /** There is nothing for the thread: its stack and the list are empty, of which a thread that is
      stopping looks at neither, and no block is to be had. */
  ghost predicate NothingFor(u: Setup, h: Heap, t: nat, stopping: bool, s: nat)
    requires s < |u.sizes| && s < |h.current|
  {
    && (t < |h.threads| ==> s < |h.threads[t]| && h.threads[t][s].index >= THREAD_BUF)
    && ((t >= |h.threads| && stopping) || (s < |h.lists| && h.lists[s] == []))
    && NoBlock(u, h, s, true)
  }

  /** The thread's stack has a block. */
  predicate FromStack(h: Heap, t: nat, s: nat) {
    t < |h.threads| && s < |h.threads[t]| && h.threads[t][s].index < THREAD_BUF <= |h.threads[t][s].slots|
  }

  /** The body of LFAlloc. */
  method AllocBlock(u: Setup, h: Heap, t: nat, stopping: bool, s: nat, ghost out: multiset<nat>)
    returns (p: nat, h': Heap)
    requires Fine(u, h, out) && 1 <= s < |u.sizes|
    ensures Outcome(u, h, p != 0, h') && (p == 0 <==> NothingFor(u, h, t, stopping, s))
    ensures p != 0 ==> Fine(u, h', out + multiset{p}) && AllKind(h'.kind, [p], s) && KindsKept(out, h.kind, h'.kind)
    ensures FromStack(h, t, s) ==>
      p == h.threads[t][s].slots[h.threads[t][s].index] && h' == WithStack(h, t, s, Popped(h.threads[t][s]))
  {
    if t < |h.threads| { StackIs(u.sizes, h, t, s); }
    if t >= |h.threads| && stopping {
      p, h' := AllocNoCache(u, h, s, true, out);
      return;
    }
    var thr, h1 := t, h;
    if t >= |h.threads| {
      thr := |h.threads|;
      h1 := Register(u, h, out);
    }
    StackIs(u.sizes, h1, thr, s);
    ghost var st, fetched;
    p, h', st, fetched := AllocFor(u, h1, thr, s, out);
    AllocAfterRegister(u, out, h, h1, s, p != 0, h');
  }

  lemma AllocAfterRegister(u: Setup, out: multiset<nat>, h: Heap, h1: Heap, s: nat, ok: bool, h': Heap)
    requires h1 == h.(threads := h1.threads) && Outcome(u, h1, ok, h') && s < |u.sizes| && s < |h.current|
    requires ok ==> KindsKept(out, h1.kind, h'.kind)
    ensures Outcome(u, h, ok, h') && (ok ==> KindsKept(out, h.kind, h'.kind))
    ensures NoBlock(u, h1, s, true) <==> NoBlock(u, h, s, true)
  {
    assert forall c :: DrainedIn(u.sizes, h1, c) <==> DrainedIn(u.sizes, h, c);
  }

  /** The stacks of the first n sizes hold nothing. */
  predicate Emptied(stacks: seq<Stack>, n: nat) {
    n <= |stacks| && forall s :: 0 <= s < n ==> Contents(stacks[s]) == []
  }

  /** Taking all blocks off a stack empties it. */
  lemma AllOff(threads: seq<seq<Stack>>, t: nat, s: nat, count: nat)
    requires t < |threads| && s < |threads[t]| && Emptied(threads[t], s)
    requires threads[t][s].index + count == |threads[t][s].slots|
    ensures Top(threads[t][s], count) == Contents(threads[t][s])
    ensures var threads' := SetStack(threads, t, s, Lower(threads[t][s], count));
      |threads'| == |threads| && |threads'[t]| == |threads[t]| && Emptied(threads'[t], s + 1)
      && SameFrom(threads[t], threads'[t], s + 1)
  {
    assert Contents(Lower(threads[t][s], count)) == [];
  }

  lemma NullNotHeld(u: Setup, h: Heap, out: multiset<nat>)
    requires Fine(u, h, out)
    ensures out - multiset{0} == out
  {
    assert BalancedAt(u.sizes, h.kind, h.current, Stock(h) + out, 0);
  }

  /** From stack s on nothing has changed. */
  predicate SameFrom(stacks: seq<Stack>, stacks': seq<Stack>, s: nat) {
    |stacks'| == |stacks| && forall r :: s <= r < |stacks| ==> stacks'[r] == stacks[r]
  }

  /** The stacks of sizes below s have been emptied, and no others changed. */
  ghost predicate Emptying(u: Setup, h: Heap, t: nat, s: nat, h': Heap)
    requires t < |h.threads| && s <= |h.threads[t]|
  {
    && Outcome(u, h, true, h') && Grouped(u, h, GroupsOf(h.threads[t], s), true, h') && |h'.threads| == |h.threads|
    && SameFrom(h.threads[t], h'.threads[t], s) && Emptied(h'.threads[t], s)
  }

  /** The next stack is emptied, or is one too many. */
  lemma StackGrouped(u: Setup, h: Heap, h1: Heap, t: nat, s: nat, ok: bool, h2: Heap)
    requires t < |h.threads| && 1 <= s < |h.threads[t]| && Emptying(u, h, t, s, h1) && Outcome(u, h1, ok, h2)
    requires Grouped(u, h1, Groups(Held(h1.threads[t][s])), ok, h2)
    requires ok ==> |h2.threads| == |h1.threads| && SameFrom(h1.threads[t], h2.threads[t], s + 1)
    requires ok ==> Emptied(h2.threads[t], s + 1)
    ensures if ok then Emptying(u, h, t, s + 1, h2)
            else Outcome(u, h, false, h2) && Grouped(u, h, GroupsOf(h.threads[t], |h.threads[t]|), false, h2)
  {
    var next := s + 1;
    GroupsOfGrows(h.threads[t], next, |h.threads[t]|);
    assert GroupsOf(h.threads[t], next) == GroupsOf(h.threads[t], s) + Groups(Held(h1.threads[t][s]));
    OutcomeJoin(u, h, h1, ok, h2);
  }

  lemma EmptyingStart(u: Setup, h: Heap, t: nat)
    requires t < |h.threads| && |h.threads[t]| == |u.sizes| > 0 && Contents(h.threads[t][0]) == []
    ensures Emptying(u, h, t, 1, h)
  {
  }

  lemma EmptyingEnd(u: Setup, h: Heap, t: nat, n: nat, h': Heap)
    requires t < |h.threads| && n == |h.threads[t]| && Emptying(u, h, t, n, h')
    ensures Outcome(u, h, true, h') && Grouped(u, h, GroupsOf(h.threads[t], n), true, h')
    ensures |h'.threads| == |h.threads| && Emptied(h'.threads[t], n)
  {
  }

  method EmptyThread(u: Setup, h: Heap, t: nat, ghost out: multiset<nat>) returns (ok: bool, h': Heap)
    requires Fine(u, h, out) && t < |h.threads|
    ensures |h.threads[t]| == |u.sizes|
    ensures Outcome(u, h, ok, h') && Grouped(u, h, GroupsOf(h.threads[t], |u.sizes|), ok, h')
    ensures ok ==> Fine(u, h', out) && KindsKept(out, h.kind, h'.kind) && |h'.threads| == |h.threads|
    ensures ok ==> Emptied(h'.threads[t], |u.sizes|)
  {
    h' := h;
    StackIs(u.sizes, h, t, 0);
    KeptSame(out, h.kind);
    EmptyingStart(u, h, t);
    for s := 1 to |u.sizes|
      invariant Fine(u, h', out) && KindsKept(out, h.kind, h'.kind) && Emptying(u, h, t, s, h')
    {
      ok, h' := EmptyNext(u, h, h', t, s, out);
      if !ok {
        return;
      }
    }
    EmptyingEnd(u, h, t, |u.sizes|, h');
    ok := true;
  }

  method EmptyNext(u: Setup, ghost h: Heap, h1: Heap, t: nat, s: nat, ghost out: multiset<nat>)
    returns (ok: bool, h2: Heap)
    requires t < |h.threads| && 1 <= s < |u.sizes| == |h.threads[t]|
    requires Fine(u, h1, out) && KindsKept(out, h.kind, h1.kind) && Emptying(u, h, t, s, h1)
    ensures if ok then Fine(u, h2, out) && KindsKept(out, h.kind, h2.kind) && Emptying(u, h, t, s + 1, h2)
            else Outcome(u, h, false, h2) && Grouped(u, h, GroupsOf(h.threads[t], |h.threads[t]|), false, h2)
  {
    ok, h2 := EmptyStack(u, h1, t, s, out);
    StackGrouped(u, h, h1, t, s, ok, h2);
    if ok { KeptTwice(out, out, out, h.kind, h1.kind, h2.kind); }
  }

  /** The stack of one size goes to the list. */
  method EmptyStack(u: Setup, h: Heap, t: nat, s: nat, ghost out: multiset<nat>) returns (ok: bool, h': Heap)
    requires Fine(u, h, out) && t < |h.threads| && 1 <= s < |u.sizes| == |h.threads[t]| && Emptied(h.threads[t], s)
    ensures Outcome(u, h, ok, h') && Grouped(u, h, Groups(Held(h.threads[t][s])), ok, h')
    ensures ok ==> Fine(u, h', out) && KindsKept(out, h.kind, h'.kind) && |h'.threads| == |h.threads|
    ensures ok ==> |h'.threads[t]| == |u.sizes| && SameFrom(h.threads[t], h'.threads[t], s + 1)
    ensures ok ==> ListGrew(h.lists, h'.lists, s, Stacked(Contents(h.threads[t][s])))
    ensures ok ==> Emptied(h'.threads[t], s + 1)
  {
    StackIs(u.sizes, h, t, s);
    var count := THREAD_BUF - h.threads[t][s].index;
    AllOff(h.threads, t, s, count);
    assert Stacked(Top(h.threads[t][s], count)) == Stacked(Contents(h.threads[t][s]));
    ok, h' := Unload(u, h, t, s, count, out);
  }
}
