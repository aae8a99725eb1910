/** TLFAllocFreeList as a step machine. */
module LockFreeList {
  // Every atomic read, write, fetch-and-add and compare-and-swap of `Alloc` and `Free` is one step,
  // and the steps of any number of threads interleave freely.

  type Ptr = nat
  type Tid = int

  const NULL: Ptr := 0

  /** Where a thread is, with the locals that are live there. */
  datatype Pc =
    | Idle
      // Free and Enqueue
    | FreeTest(node: Ptr)
    | PushRead(toHead: bool, node: Ptr)
    | PushLink(toHead: bool, node: Ptr, prev: Ptr)
    | PushCas(toHead: bool, node: Ptr, prev: Ptr)
      // Alloc
    | ReadCounter
    | ReadPending(keep: nat)
    | Enter(keep: nat, fl: Ptr)
    | Recheck(keep: nat, fl: Ptr)
    | TakePending(fl: Ptr)
    | TakeNext(res: Ptr)
    | FindTail(res: Ptr, fl: Ptr, tail: Ptr)
    | SpliceRead(res: Ptr, fl: Ptr, tail: Ptr)
    | SpliceLink(res: Ptr, fl: Ptr, tail: Ptr, prev: Ptr)
    | SpliceCas(res: Ptr, fl: Ptr, tail: Ptr, prev: Ptr)
    | Bump(res: Ptr)
      // DoAlloc
    | PopRead
    | PopNext(snapshot: Ptr)
    | PopCas(snapshot: Ptr, next: Ptr)
    | Leave(result: Ptr)
  {
    /** Between the increment and the decrement of AllocCount. */
    predicate InFlight() { Recheck? || TakePending? || Moving() || Popping() || PopRead? || Leave? }

    /** The increment returned 1 and the private path has not been left. */
    predicate Privileged() { Recheck? || TakePending? || Moving() }

    /** Has emptied Pending and not yet counted it. */
    predicate Moving() { TakeNext? || FindTail? || Splicing() || Bump? }

    predicate Splicing() { SpliceRead? || SpliceLink? || SpliceCas? }

    predicate Popping() { PopNext? || PopCas? }

    predicate Pushing() { PushRead? || PushLink? || PushCas? }

    predicate PushingToHead() { Pushing() && toHead }

    /** Holds a copy of Pending that the private path may act on. */
    predicate HasPending() { Enter? || Recheck? || TakePending? }

    predicate Acting() { Recheck? || TakePending? }

    predicate HasCounter() { ReadPending? || Enter? || Recheck? }
  }

  /** Shared memory, the threads, and the nodes that callers hold. */
  datatype State = State(
    head: Ptr, pending: Ptr, counter: nat, allocCount: int,
    next: map<Ptr, Ptr>, pc: map<Tid, Pc>, held: set<Ptr>)

  /** One scheduling choice: a thread takes its next step, or a caller acts. */
  datatype Event =
    | Run(t: Tid)
    | CallAlloc(t: Tid)
    | CallFree(t: Tid, n: Ptr)
    | Scribble(n: Ptr, v: Ptr)

  /** Callers free only what they hold, and write only into what they hold. */
  predicate Enabled(s: State, e: Event) {
    match e
    case Run(t) => t in s.pc && s.pc[t] != Idle
    case CallAlloc(t) => t in s.pc && s.pc[t] == Idle
    case CallFree(t, n) => t in s.pc && s.pc[t] == Idle && n in s.held
    case Scribble(n, v) => n in s.held
  }

  /** A read through a pointer. Blocks stay mapped, so it always yields something. */
  function At(next: map<Ptr, Ptr>, p: Ptr): Ptr {
    if p in next then next[p] else NULL
  }

  function Load(s: State, p: Ptr): Ptr { At(s.next, p) }

  function Goto(s: State, t: Tid, pc: Pc): State { s.(pc := s.pc[t := pc]) }

  function Apply(s: State, e: Event): State
    requires Enabled(s, e)
  {
    match e
    case CallAlloc(t) => Goto(s, t, ReadCounter)
    case CallFree(t, n) => Goto(s.(held := s.held - {n}), t, FreeTest(n))
    case Scribble(n, v) => s.(next := s.next[n := v])
    case Run(t) => Advance(s, t)
  }

  function Advance(s: State, t: Tid): State
    requires t in s.pc && s.pc[t] != Idle
  {
    match s.pc[t]
    case FreeTest(n) => Goto(s, t, PushRead(s.allocCount == 0, n))
    case PushRead(h, n) => Goto(s, t, PushLink(h, n, if h then s.head else s.pending))
    case PushLink(h, n, prev) => Goto(s.(next := s.next[n := prev]), t, PushCas(h, n, prev))
    case PushCas(true, n, prev) =>
      if s.head == prev then Goto(s.(head := n), t, Idle) else Goto(s, t, PushRead(true, n))
    case PushCas(false, n, prev) =>
      if s.pending == prev then Goto(s.(pending := n), t, Idle) else Goto(s, t, PushRead(false, n))
    case ReadCounter => Goto(s, t, ReadPending(s.counter))
    case ReadPending(keep) => Goto(s, t, Enter(keep, s.pending))
    case Enter(keep, fl) =>
      Goto(s.(allocCount := s.allocCount + 1), t,
           if s.allocCount + 1 == 1 && fl != NULL then Recheck(keep, fl) else PopRead)
    case Recheck(keep, fl) => Goto(s, t, if keep == s.counter then TakePending(fl) else PopRead)
    case TakePending(fl) =>
      if s.pending == fl then Goto(s.(pending := NULL), t, TakeNext(fl)) else Goto(s, t, PopRead)
    case TakeNext(res) =>
      var fl := Load(s, res);
      Goto(s, t, if fl == NULL then Bump(res) else FindTail(res, fl, fl))
    case FindTail(res, fl, tail) =>
      var n := Load(s, tail);
      Goto(s, t, if n == NULL then SpliceRead(res, fl, tail) else FindTail(res, fl, n))
    case SpliceRead(res, fl, tail) => Goto(s, t, SpliceLink(res, fl, tail, s.head))
    case SpliceLink(res, fl, tail, prev) =>
      Goto(s.(next := s.next[tail := prev]), t, SpliceCas(res, fl, tail, prev))
    case SpliceCas(res, fl, tail, prev) =>
      if s.head == prev then Goto(s.(head := fl), t, Bump(res)) else Goto(s, t, SpliceRead(res, fl, tail))
    case Bump(res) => Goto(s.(counter := s.counter + 1), t, Leave(res))
    case PopRead => Goto(s, t, if s.head == NULL then Leave(NULL) else PopNext(s.head))
    case PopNext(res) => Goto(s, t, PopCas(res, Load(s, res)))
    case PopCas(res, next) =>
      if s.head == res then Goto(s.(head := next), t, Leave(res)) else Goto(s, t, PopRead)
    case Leave(res) =>
      Goto(s.(allocCount := s.allocCount - 1,
              held := if res == NULL then s.held else s.held + {res}), t, Idle)
  }

  /** Both lists empty, every thread idle, every block in a caller's hands. */
  function Start(blocks: map<Ptr, Ptr>, threads: set<Tid>): State {
    State(NULL, NULL, 0, 0, blocks, map t | t in threads :: Idle, blocks.Keys)
  }

  // ---------------------------------------------------------------- auxiliary state

  /** The one place where a block is. */
  datatype Place = InHead | InPending | Held | With(t: Tid)

  /** History kept beside a run; no step looks at it.
      `taken` counts the emptyings of Pending; `epoch` and `seen` are what each thread
      found (that count, and the pending list) when it read the counter and Pending;
      `moved` is the list a thread carries from Pending to Head. */
  datatype Aux = Aux(
    onHead: seq<Ptr>, onPending: seq<Ptr>, place: map<Ptr, Place>, taken: nat,
    epoch: map<Tid, nat>, seen: map<Tid, seq<Ptr>>, moved: map<Tid, seq<Ptr>>)

  function First(l: seq<Ptr>): Ptr { if l == [] then NULL else l[0] }

  predicate Distinct(l: seq<Ptr>) { forall i, j :: 0 <= i < j < |l| ==> l[i] != l[j] }

  function After(l: seq<Ptr>, i: nat, end: Ptr): Ptr { if i + 1 < |l| then l[i + 1] else end }

  /** `l` spells the links starting at its first element; its last link is `end`. */
  predicate Segment(next: map<Ptr, Ptr>, l: seq<Ptr>, end: Ptr) {
    forall i :: 0 <= i < |l| ==> l[i] in next && l[i] != NULL && next[l[i]] == After(l, i, end)
  }

  predicate Suffix(l: seq<Ptr>, whole: seq<Ptr>) { |l| <= |whole| && whole[|whole| - |l|..] == l }

  /** The blocks in the hands of a thread at `pc` that carries the list `l`. */
  predicate Owns(pc: Pc, l: seq<Ptr>, n: Ptr) {
    match pc
    case FreeTest(m) => n == m
    case PushRead(_, m) => n == m
    case PushLink(_, m, _) => n == m
    case PushCas(_, m, _) => n == m
    case TakeNext(_) => n in l
    case FindTail(res, _, _) => n == res || n in l
    case SpliceRead(res, _, _) => n == res || n in l
    case SpliceLink(res, _, _, _) => n == res || n in l
    case SpliceCas(res, _, _, _) => n == res || n in l
    case Bump(res) => n == res
    case Leave(res) => res != NULL && n == res
    case _ => false
  }

  function Relocate(place: map<Ptr, Place>, l: seq<Ptr>, p: Place): map<Ptr, Place> {
    map n | n in place :: if n in l then p else place[n]
  }

  /** How the history grows with each event. */
  function Track(s: State, a: Aux, e: Event): Aux
    requires Enabled(s, e)
  {
    match e
    case CallAlloc(t) => a
    case CallFree(t, n) => a.(place := a.place[n := With(t)])
    case Scribble(n, v) => a
    case Run(t) => TrackRun(s, a, t)
  }

  function TrackRun(s: State, a: Aux, t: Tid): Aux
    requires t in s.pc && s.pc[t] != Idle
  {
    match s.pc[t]
    case PushCas(true, n, prev) =>
      if s.head == prev then a.(onHead := [n] + a.onHead, place := a.place[n := InHead]) else a
    case PushCas(false, n, prev) =>
      if s.pending == prev then a.(onPending := [n] + a.onPending, place := a.place[n := InPending]) else a
    case ReadCounter => a.(epoch := a.epoch[t := a.taken])
    case ReadPending(keep) => a.(seen := a.seen[t := a.onPending])
    case TakePending(fl) =>
      if s.pending == fl
      then a.(taken := a.taken + 1, moved := a.moved[t := a.onPending], onPending := [],
              place := Relocate(a.place, a.onPending, With(t)))
      else a
    case TakeNext(res) =>
      if t in a.moved && a.moved[t] != [] then a.(moved := a.moved[t := a.moved[t][1..]]) else a
    case SpliceCas(res, fl, tail, prev) =>
      if s.head == prev && t in a.moved
      then a.(onHead := a.moved[t] + a.onHead, place := Relocate(a.place, a.moved[t], InHead))
      else a
    case PopCas(res, next) =>
      if s.head == res && a.onHead != []
      then a.(onHead := a.onHead[1..], place := a.place[res := With(t)])
      else a
    case Leave(res) => if res == NULL then a else a.(place := a.place[res := Held])
    case _ => a
  }

  // ---------------------------------------------------------------- the invariant

  type Pcs = map<Tid, Pc>

  ghost predicate Typed(s: State, a: Aux) {
    && NULL !in s.next
    && s.next.Keys == a.place.Keys
    && a.epoch.Keys == s.pc.Keys && a.seen.Keys == s.pc.Keys && a.moved.Keys == s.pc.Keys
  }

  /** `place` is a function, so every block is in exactly one place; it agrees with the lists. */
  ghost predicate Placed(place: map<Ptr, Place>, onHead: seq<Ptr>, onPending: seq<Ptr>, held: set<Ptr>) {
    && (forall n :: n in onHead <==> n in place && place[n] == InHead)
    && (forall n :: n in onPending <==> n in place && place[n] == InPending)
    && (forall n :: n in held <==> n in place && place[n] == Held)
  }

  /** ... and with what the threads have in hand. */
  ghost predicate Hands(pcs: Pcs, moved: map<Tid, seq<Ptr>>, place: map<Ptr, Place>)
    requires moved.Keys == pcs.Keys
  {
    && (forall t, n :: t in pcs && Owns(pcs[t], moved[t], n) ==> n in place && place[n] == With(t))
    && (forall n :: n in place && place[n].With? ==>
          place[n].t in pcs && Owns(pcs[place[n].t], moved[place[n].t], n))
  }

  /** `head` starts the duplicate-free list `l`. */
  ghost predicate Listed(next: map<Ptr, Ptr>, head: Ptr, l: seq<Ptr>) {
    head == First(l) && Distinct(l) && Segment(next, l, NULL)
  }

  /** What a thread knows about the links of the blocks it has in hand. */
  ghost predicate Carried(next: map<Ptr, Ptr>, pc: Pc, l: seq<Ptr>) {
    match pc
    case PushCas(_, n, prev) => n in next && next[n] == prev
    case TakeNext(res) => l != [] && l[0] == res && Distinct(l) && Segment(next, l, NULL)
    case FindTail(res, fl, tail) =>
      l != [] && l[0] == fl && res !in l && Distinct(l) && Segment(next, l, NULL) && tail in l
    case SpliceRead(res, fl, tail) =>
      l != [] && l[0] == fl && res !in l && Distinct(l) && l[|l| - 1] == tail && tail in next
        && Segment(next, l, next[tail])
    case SpliceLink(res, fl, tail, prev) =>
      l != [] && l[0] == fl && res !in l && Distinct(l) && l[|l| - 1] == tail && tail in next
        && Segment(next, l, next[tail])
    case SpliceCas(res, fl, tail, prev) =>
      l != [] && l[0] == fl && res !in l && Distinct(l) && l[|l| - 1] == tail && Segment(next, l, prev)
    case Bump(res) => res != NULL
    case _ => true
  }

  ghost predicate AllCarried(next: map<Ptr, Ptr>, pcs: Pcs, moved: map<Tid, seq<Ptr>>)
    requires moved.Keys == pcs.Keys
  {
    forall t :: t in pcs ==> Carried(next, pcs[t], moved[t])
  }

  ghost function Flying(pcs: Pcs): set<Tid> { set t | t in pcs && pcs[t].InFlight() }

  /** AllocCount counts the calls in flight, and at most one of them is on the private path. */
  ghost predicate Counted(pcs: Pcs, allocCount: int) {
    && allocCount == |Flying(pcs)|
    && forall t, u :: t in pcs && u in pcs && pcs[t].Privileged() && pcs[u].Privileged() ==> t == u
  }

  ghost predicate SomeMoving(pcs: Pcs) { exists t :: t in pcs && pcs[t].Moving() }

  ghost predicate Epochs(pcs: Pcs, counter: nat, taken: nat) {
    taken == counter + if SomeMoving(pcs) then 1 else 0
  }

  /** What the counter, and a copy of Pending, are evidence of. */
  ghost predicate Evidence(pc: Pc, taken: nat, epoch: nat, seen: seq<Ptr>, onPending: seq<Ptr>) {
    && (pc.HasCounter() ==> pc.keep <= epoch <= taken)
    && (pc.HasPending() ==> pc.fl == First(seen) && (epoch == taken ==> Suffix(seen, onPending)))
    && (pc.Recheck? ==> pc.fl != NULL)
    && (pc.TakePending? ==> pc.fl != NULL && epoch == taken)
  }

  ghost predicate Dated(pcs: Pcs, taken: nat, epoch: map<Tid, nat>, seen: map<Tid, seq<Ptr>>, onPending: seq<Ptr>)
    requires epoch.Keys == pcs.Keys && seen.Keys == pcs.Keys
  {
    forall t :: t in pcs ==> Evidence(pcs[t], taken, epoch[t], seen[t], onPending)
  }

  /** No pop in flight has a snapshot of a block that the private path is about to move. */
  ghost predicate Quiet(pcs: Pcs, taken: nat, epoch: map<Tid, nat>, seen: map<Tid, seq<Ptr>>)
    requires epoch.Keys == pcs.Keys && seen.Keys == pcs.Keys
  {
    forall t, u :: t in pcs && u in pcs && pcs[t].Acting() && epoch[t] == taken && pcs[u].Popping()
      ==> pcs[u].snapshot !in seen[t]
  }

  /** Not on its way to Head: it is there already, or cannot come there while a pop is in flight. */
  ghost predicate Settled(pcs: Pcs, place: map<Ptr, Place>, n: Ptr) {
    && n in place
    && (place[n].With? ==> place[n].t in pcs && !pcs[place[n].t].Moving() && !pcs[place[n].t].PushingToHead())
  }

  /** A snapshot is settled, and if it is on Head then its link is the one that was read. */
  ghost predicate Guarded(next: map<Ptr, Ptr>, pcs: Pcs, place: map<Ptr, Place>) {
    forall u :: u in pcs && pcs[u].Popping() ==>
      && Settled(pcs, place, pcs[u].snapshot)
      && (pcs[u].PopCas? && place[pcs[u].snapshot] == InHead ==> pcs[u].next == At(next, pcs[u].snapshot))
  }

  ghost predicate Inv(s: State, a: Aux) {
    && Typed(s, a)
    && Placed(a.place, a.onHead, a.onPending, s.held)
    && Hands(s.pc, a.moved, a.place)
    && Listed(s.next, s.head, a.onHead) && Listed(s.next, s.pending, a.onPending)
    && AllCarried(s.next, s.pc, a.moved)
    && Counted(s.pc, s.allocCount)
    && Epochs(s.pc, s.counter, a.taken)
    && Dated(s.pc, a.taken, a.epoch, a.seen, a.onPending)
    && Quiet(s.pc, a.taken, a.epoch, a.seen)
    && Guarded(s.next, s.pc, a.place)
  }

  // ---------------------------------------------------------------- one thread moves: each part of the invariant

  ghost predicate SameBut<T>(m: map<Tid, T>, m': map<Tid, T>, t: Tid) {
    m'.Keys == m.Keys && forall u :: u in m && u != t ==> m'[u] == m[u]
  }

  lemma HandsMove(pcs: Pcs, moved: map<Tid, seq<Ptr>>, place: map<Ptr, Place>,
                  t: Tid, pc: Pc, moved': map<Tid, seq<Ptr>>, place': map<Ptr, Place>)
    requires moved.Keys == pcs.Keys && Hands(pcs, moved, place) && t in pcs && SameBut(moved, moved', t)
    requires forall n :: Owns(pc, moved'[t], n) <==> n in place' && place'[n] == With(t)
    requires forall n :: n in place' && place'[n].With? && place'[n].t != t ==> n in place && place[n] == place'[n]
    requires forall n :: n in place && place[n].With? && place[n].t != t ==> n in place' && place'[n] == place[n]
    ensures Hands(pcs[t := pc], moved', place')
  {
  }

  lemma CarriedMove(next: map<Ptr, Ptr>, pcs: Pcs, moved: map<Tid, seq<Ptr>>, t: Tid, pc: Pc,
                    moved': map<Tid, seq<Ptr>>)
    requires moved.Keys == pcs.Keys && AllCarried(next, pcs, moved) && t in pcs && SameBut(moved, moved', t)
    requires Carried(next, pc, moved'[t])
    ensures AllCarried(next, pcs[t := pc], moved')
  {
  }

  lemma CountedMove(pcs: Pcs, allocCount: int, t: Tid, pc: Pc)
    requires Counted(pcs, allocCount) && t in pcs
    requires pc.Privileged() ==> pcs[t].Privileged() || allocCount == 0
    ensures Counted(pcs[t := pc],
                    allocCount + (if pc.InFlight() then 1 else 0) - (if pcs[t].InFlight() then 1 else 0))
  {
    var z := pcs[t := pc];
    if pc.InFlight() {
      assert Flying(z) == Flying(pcs) + {t};
    } else {
      assert Flying(z) == Flying(pcs) - {t};
    }
    if allocCount == 0 { assert forall u :: u in pcs && pcs[u].Privileged() ==> u in Flying(pcs); }
  }

  lemma MovingMove(pcs: Pcs, t: Tid, pc: Pc)
    requires t in pcs && pc.Moving() == pcs[t].Moving()
    ensures SomeMoving(pcs[t := pc]) == SomeMoving(pcs)
  {
    var z := pcs[t := pc];
    if SomeMoving(pcs) { var u :| u in pcs && pcs[u].Moving(); assert z[u].Moving(); }
    if SomeMoving(z) { var u :| u in z && z[u].Moving(); assert pcs[u].Moving(); }
  }

  lemma DatedMove(pcs: Pcs, taken: nat, epoch: map<Tid, nat>, seen: map<Tid, seq<Ptr>>, onPending: seq<Ptr>,
                  t: Tid, pc: Pc, epoch': map<Tid, nat>, seen': map<Tid, seq<Ptr>>)
    requires epoch.Keys == pcs.Keys && seen.Keys == pcs.Keys && t in pcs
    requires Dated(pcs, taken, epoch, seen, onPending) && SameBut(epoch, epoch', t) && SameBut(seen, seen', t)
    requires Evidence(pc, taken, epoch'[t], seen'[t], onPending)
    ensures Dated(pcs[t := pc], taken, epoch', seen', onPending)
  {
  }

  lemma QuietMove(pcs: Pcs, taken: nat, epoch: map<Tid, nat>, seen: map<Tid, seq<Ptr>>,
                  t: Tid, pc: Pc, epoch': map<Tid, nat>, seen': map<Tid, seq<Ptr>>)
    requires epoch.Keys == pcs.Keys && seen.Keys == pcs.Keys && t in pcs
    requires Quiet(pcs, taken, epoch, seen) && SameBut(epoch, epoch', t) && SameBut(seen, seen', t)
    requires pc.Acting() ==> forall u :: u in pcs && u != t && pcs[u].Popping() ==> pcs[u].snapshot !in seen'[t]
    requires pc.Popping() ==> forall u :: u in pcs && u != t && pcs[u].Acting() && epoch[u] == taken ==>
      pc.snapshot !in seen[u]
    ensures Quiet(pcs[t := pc], taken, epoch', seen')
  {
  }

  lemma GuardedMove(next: map<Ptr, Ptr>, pcs: Pcs, place: map<Ptr, Place>,
                    t: Tid, pc: Pc, next': map<Ptr, Ptr>, place': map<Ptr, Place>)
    requires Guarded(next, pcs, place) && t in pcs
    requires forall n :: Settled(pcs, place, n) ==> Settled(pcs[t := pc], place', n)
    requires forall n :: Settled(pcs, place, n) && n in place' && place'[n] == InHead ==>
      place[n] == InHead && At(next', n) == At(next, n)
    requires pc.Popping() ==>
      && Settled(pcs, place, pc.snapshot)
      && (pc.PopCas? && place[pc.snapshot] == InHead ==> pc.next == At(next, pc.snapshot))
    ensures Guarded(next', pcs[t := pc], place')
  {
  }

  // ---------------------------------------------------------------- steps that change no shared word

  /** Such a step changes the thread's place in the code and, at most, its notes. */
  ghost predicate Local(s: State, a: Aux, t: Tid, pc: Pc, b: Aux)
    requires Typed(s, a) && t in s.pc
  {
    var was := s.pc[t];
    && b == a.(epoch := b.epoch, seen := b.seen) && SameBut(a.epoch, b.epoch, t) && SameBut(a.seen, b.seen, t)
    && (forall n :: Owns(pc, a.moved[t], n) <==> Owns(was, a.moved[t], n))
    && Carried(s.next, pc, a.moved[t])
    && (pc.InFlight() <==> was.InFlight()) && (pc.Moving() <==> was.Moving())
    && (pc.Privileged() ==> was.Privileged())
    && Evidence(pc, a.taken, b.epoch[t], b.seen[t], a.onPending)
    && (pc.Acting() ==> was.Acting() && a.epoch[t] == a.taken && b.seen[t] == a.seen[t])
    && (pc.PushingToHead() ==> was.PushingToHead() || s.allocCount == 0)
    && (pc.Popping() ==>
          || (pc.PopNext? && pc.snapshot == s.head && s.head != NULL)
          || (pc.PopCas? && was == PopNext(pc.snapshot) && pc.next == At(s.next, pc.snapshot)))
  }

  lemma LocalHands(s: State, a: Aux, t: Tid, pc: Pc)
    requires Typed(s, a) && Hands(s.pc, a.moved, a.place) && t in s.pc
    requires forall n :: Owns(pc, a.moved[t], n) <==> Owns(s.pc[t], a.moved[t], n)
    ensures Hands(s.pc[t := pc], a.moved, a.place)
  {
    HandsMove(s.pc, a.moved, a.place, t, pc, a.moved, a.place);
  }

  /** While Pending has not been emptied, a copy of it lies in Pending. */
  lemma CopyIsPending(pc: Pc, taken: nat, epoch: nat, seen: seq<Ptr>, onPending: seq<Ptr>, n: Ptr)
    requires Evidence(pc, taken, epoch, seen, onPending) && pc.HasPending() && epoch == taken && n in seen
    ensures n in onPending
  {
    var k :| 0 <= k < |seen| && seen[k] == n;
    assert onPending[|onPending| - |seen| + k] == n;
  }

  lemma LocalQuiet(s: State, a: Aux, t: Tid, pc: Pc, b: Aux)
    requires Typed(s, a) && Placed(a.place, a.onHead, a.onPending, s.held) && s.head == First(a.onHead)
    requires Dated(s.pc, a.taken, a.epoch, a.seen, a.onPending) && Quiet(s.pc, a.taken, a.epoch, a.seen)
    requires t in s.pc && Local(s, a, t, pc, b)
    ensures Quiet(s.pc[t := pc], a.taken, b.epoch, b.seen)
  {
    if pc.PopNext? {
      forall u | u in s.pc && u != t && s.pc[u].Acting() && a.epoch[u] == a.taken
        ensures pc.snapshot !in a.seen[u]
      {
        if pc.snapshot in a.seen[u] {
          CopyIsPending(s.pc[u], a.taken, a.epoch[u], a.seen[u], a.onPending, pc.snapshot);
        }
      }
    }
    QuietMove(s.pc, a.taken, a.epoch, a.seen, t, pc, b.epoch, b.seen);
  }

  lemma NoneInFlight(pcs: Pcs, allocCount: int)
    requires Counted(pcs, allocCount) && allocCount == 0
    ensures forall u :: u in pcs ==> !pcs[u].InFlight()
  {
    forall u | u in pcs ensures !pcs[u].InFlight() { assert u !in Flying(pcs); }
  }

  lemma LocalGuarded(s: State, a: Aux, t: Tid, pc: Pc, b: Aux)
    requires Typed(s, a) && Placed(a.place, a.onHead, a.onPending, s.held) && s.head == First(a.onHead)
    requires Counted(s.pc, s.allocCount) && Guarded(s.next, s.pc, a.place)
    requires t in s.pc && Local(s, a, t, pc, b)
    ensures Guarded(s.next, s.pc[t := pc], a.place)
  {
    if s.allocCount == 0 {
      NoneInFlight(s.pc, 0);
      assert Guarded(s.next, s.pc[t := pc], a.place);
    } else {
      if pc.PopNext? { assert pc.snapshot in a.onHead; }
      GuardedMove(s.next, s.pc, a.place, t, pc, s.next, a.place);
    }
  }

  lemma LocalRest(s: State, a: Aux, t: Tid, pc: Pc, b: Aux)
    requires Inv(s, a) && t in s.pc && Local(s, a, t, pc, b)
    ensures AllCarried(s.next, s.pc[t := pc], a.moved)
    ensures Counted(s.pc[t := pc], s.allocCount)
    ensures Epochs(s.pc[t := pc], s.counter, a.taken)
    ensures Dated(s.pc[t := pc], a.taken, b.epoch, b.seen, a.onPending)
  {
    CarriedMove(s.next, s.pc, a.moved, t, pc, a.moved);
    CountedMove(s.pc, s.allocCount, t, pc);
    MovingMove(s.pc, t, pc);
    DatedMove(s.pc, a.taken, a.epoch, a.seen, a.onPending, t, pc, b.epoch, b.seen);
  }

  lemma LocalInv(s: State, a: Aux, t: Tid, pc: Pc, b: Aux)
    requires Inv(s, a) && t in s.pc && Local(s, a, t, pc, b)
    ensures Inv(Goto(s, t, pc), b)
  {
    LocalHands(s, a, t, pc);
    LocalQuiet(s, a, t, pc, b);
    LocalGuarded(s, a, t, pc, b);
    LocalRest(s, a, t, pc, b);
  }

  /** An unchanged counter proves that Pending has not been emptied since it was read. */
  lemma RecheckProves(pcs: Pcs, allocCount: int, counter: nat, taken: nat, t: Tid, epoch: nat)
    requires Counted(pcs, allocCount) && Epochs(pcs, counter, taken)
    requires t in pcs && pcs[t].Recheck? && pcs[t].keep == counter && pcs[t].keep <= epoch <= taken
    ensures epoch == taken
  {
    assert forall u :: u in pcs && pcs[u].Privileged() ==> u == t;
  }

  lemma TailWalk(next: map<Ptr, Ptr>, pc: Pc, l: seq<Ptr>)
    requires pc.FindTail? && Carried(next, pc, l)
    ensures At(next, pc.tail) == NULL ==> Carried(next, SpliceRead(pc.res, pc.fl, pc.tail), l)
    ensures At(next, pc.tail) != NULL ==> Carried(next, FindTail(pc.res, pc.fl, At(next, pc.tail)), l)
  {
    var k :| 0 <= k < |l| && l[k] == pc.tail;
    assert l[k] in next;
    assert next[l[k]] == After(l, k, NULL);
  }

  predicate IsLocal(s: State, t: Tid)
    requires t in s.pc
  {
    var pc := s.pc[t];
    FreeLocal(pc, s) || AllocLocal(pc, s) || MoveLocal(pc, s) || PopLocal(pc, s)
  }

  predicate FreeLocal(pc: Pc, s: State) {
    pc.FreeTest? || pc.PushRead? || (pc.PushCas? && pc.prev != if pc.toHead then s.head else s.pending)
  }

  predicate AllocLocal(pc: Pc, s: State) {
    pc.ReadCounter? || pc.ReadPending? || pc.Recheck? || (pc.TakePending? && pc.fl != s.pending)
  }

  predicate MoveLocal(pc: Pc, s: State) {
    pc.FindTail? || pc.SpliceRead? || (pc.SpliceCas? && pc.prev != s.head)
  }

  predicate PopLocal(pc: Pc, s: State) {
    pc.PopRead? || pc.PopNext? || (pc.PopCas? && pc.snapshot != s.head)
  }

  lemma FreeShape(s: State, a: Aux, t: Tid)
    requires Typed(s, a) && t in s.pc && FreeLocal(s.pc[t], s)
    ensures var z := Advance(s, t); z == Goto(s, t, z.pc[t]) && Local(s, a, t, z.pc[t], TrackRun(s, a, t))
  {
    var pc := Advance(s, t).pc[t];
    match s.pc[t] {
      case FreeTest(n) => assert pc == PushRead(s.allocCount == 0, n);
      case PushRead(h, n) => assert pc == PushLink(h, n, if h then s.head else s.pending);
      case PushCas(h, n, prev) => assert pc == PushRead(h, n);
    }
    assert TrackRun(s, a, t) == a;
  }

  lemma CounterShape(s: State, a: Aux, t: Tid)
    requires Typed(s, a) && t in s.pc && s.pc[t].ReadCounter? && s.counter <= a.taken
    ensures Advance(s, t) == Goto(s, t, ReadPending(s.counter))
    ensures Local(s, a, t, ReadPending(s.counter), TrackRun(s, a, t))
  {
    CounterNoted(s, a, t, a.(epoch := a.epoch[t := a.taken]));
  }

  lemma CounterNoted(s: State, a: Aux, t: Tid, b: Aux)
    requires Typed(s, a) && t in s.pc && s.pc[t].ReadCounter? && s.counter <= a.taken
    requires b == a.(epoch := a.epoch[t := a.taken])
    ensures Local(s, a, t, ReadPending(s.counter), b)
  {
  }

  lemma PendingShape(s: State, a: Aux, t: Tid)
    requires Typed(s, a) && t in s.pc && s.pc[t].ReadPending? && s.pending == First(a.onPending)
    requires Evidence(s.pc[t], a.taken, a.epoch[t], a.seen[t], a.onPending)
    ensures Advance(s, t) == Goto(s, t, Enter(s.pc[t].keep, s.pending))
    ensures Local(s, a, t, Enter(s.pc[t].keep, s.pending), TrackRun(s, a, t))
  {
    var b := TrackRun(s, a, t);
    assert b.epoch == a.epoch && b.seen == a.seen[t := a.onPending];
  }

  lemma RecheckShape(s: State, a: Aux, t: Tid)
    requires Typed(s, a) && t in s.pc && AllocLocal(s.pc[t], s) && s.pc[t].Acting()
    requires Evidence(s.pc[t], a.taken, a.epoch[t], a.seen[t], a.onPending)
    requires s.pc[t].Recheck? && s.pc[t].keep == s.counter ==> a.epoch[t] == a.taken
    ensures var z := Advance(s, t); z == Goto(s, t, z.pc[t]) && Local(s, a, t, z.pc[t], TrackRun(s, a, t))
  {
  }

  lemma MoveShape(s: State, a: Aux, t: Tid)
    requires Typed(s, a) && t in s.pc && MoveLocal(s.pc[t], s)
    requires Carried(s.next, s.pc[t], a.moved[t])
    ensures var z := Advance(s, t); z == Goto(s, t, z.pc[t]) && Local(s, a, t, z.pc[t], TrackRun(s, a, t))
  {
    if s.pc[t].FindTail? {
      TailWalk(s.next, s.pc[t], a.moved[t]);
    }
  }

  lemma PopShape(s: State, a: Aux, t: Tid)
    requires Typed(s, a) && t in s.pc && PopLocal(s.pc[t], s)
    ensures var z := Advance(s, t); z == Goto(s, t, z.pc[t]) && Local(s, a, t, z.pc[t], TrackRun(s, a, t))
  {
  }

  lemma LocalStep(s: State, a: Aux, t: Tid)
    requires Inv(s, a) && t in s.pc && IsLocal(s, t)
    ensures Inv(Advance(s, t), TrackRun(s, a, t))
  {
    var pc := s.pc[t];
    if FreeLocal(pc, s) {
      FreeShape(s, a, t);
    } else if AllocLocal(pc, s) {
      if pc.Recheck? && pc.keep == s.counter {
        RecheckProves(s.pc, s.allocCount, s.counter, a.taken, t, a.epoch[t]);
      }
      if pc.ReadCounter? {
        CounterShape(s, a, t);
      } else if pc.ReadPending? {
        PendingShape(s, a, t);
      } else {
        RecheckShape(s, a, t);
      }
    } else if MoveLocal(pc, s) {
      MoveShape(s, a, t);
    } else {
      PopShape(s, a, t);
    }
    LocalInv(s, a, t, Advance(s, t).pc[t], TrackRun(s, a, t));
  }

  // ---------------------------------------------------------------- writes to links

  lemma SegmentFrame(next: map<Ptr, Ptr>, l: seq<Ptr>, end: Ptr, p: Ptr, v: Ptr)
    requires Segment(next, l, end) && p !in l
    ensures Segment(next[p := v], l, end)
  {
    forall i | 0 <= i < |l|
      ensures l[i] in next[p := v] && l[i] != NULL && next[p := v][l[i]] == After(l, i, end)
    {
      assert l[i] in l;
    }
  }

  lemma CarriedFrame(next: map<Ptr, Ptr>, pc: Pc, l: seq<Ptr>, p: Ptr, v: Ptr)
    requires Carried(next, pc, l) && !Owns(pc, l, p)
    ensures Carried(next[p := v], pc, l)
  {
    if pc.TakeNext? || pc.FindTail? {
      SegmentFrame(next, l, NULL, p, v);
    } else if pc.SpliceRead? || pc.SpliceLink? {
      SegmentFrame(next, l, next[pc.tail], p, v);
      assert pc.tail in l;
    } else if pc.SpliceCas? {
      SegmentFrame(next, l, pc.prev, p, v);
    }
  }

  /** Writing into a block that is in neither list disturbs only the thread that has it in hand. */
  lemma WriteLinks(s: State, a: Aux, p: Ptr, v: Ptr)
    requires Inv(s, a) && p in a.place && !a.place[p].InHead? && !a.place[p].InPending?
    ensures Listed(s.next[p := v], s.head, a.onHead) && Listed(s.next[p := v], s.pending, a.onPending)
    ensures forall u :: u in s.pc && a.place[p] != With(u) ==> Carried(s.next[p := v], s.pc[u], a.moved[u])
    ensures Guarded(s.next[p := v], s.pc, a.place)
  {
    SegmentFrame(s.next, a.onHead, NULL, p, v);
    SegmentFrame(s.next, a.onPending, NULL, p, v);
    forall u | u in s.pc && a.place[p] != With(u) ensures Carried(s.next[p := v], s.pc[u], a.moved[u]) {
      CarriedFrame(s.next, s.pc[u], a.moved[u], p, v);
    }
  }

  lemma ScribbleStep(s: State, a: Aux, n: Ptr, v: Ptr)
    requires Inv(s, a) && n in s.held
    ensures Inv(s.(next := s.next[n := v]), a)
  {
    WriteLinks(s, a, n, v);
  }

  /** A thread goes to a place where it knows nothing about the lists. */
  lemma PlainMove(s: State, a: Aux, t: Tid, pc: Pc)
    requires Typed(s, a) && Counted(s.pc, s.allocCount) && Epochs(s.pc, s.counter, a.taken) && t in s.pc
    requires Dated(s.pc, a.taken, a.epoch, a.seen, a.onPending) && Quiet(s.pc, a.taken, a.epoch, a.seen)
    requires !pc.HasCounter() && !pc.HasPending() && !pc.Popping()
    requires pc.Privileged() ==> s.pc[t].Privileged()
    requires pc.Moving() == s.pc[t].Moving()
    ensures Counted(s.pc[t := pc],
                    s.allocCount + (if pc.InFlight() then 1 else 0) - (if s.pc[t].InFlight() then 1 else 0))
    ensures Epochs(s.pc[t := pc], s.counter, a.taken)
    ensures Dated(s.pc[t := pc], a.taken, a.epoch, a.seen, a.onPending)
    ensures Quiet(s.pc[t := pc], a.taken, a.epoch, a.seen)
  {
    CountedMove(s.pc, s.allocCount, t, pc);
    MovingMove(s.pc, t, pc);
    DatedMove(s.pc, a.taken, a.epoch, a.seen, a.onPending, t, pc, a.epoch, a.seen);
    QuietMove(s.pc, a.taken, a.epoch, a.seen, t, pc, a.epoch, a.seen);
  }

  /** A thread that has just written into the block it has in hand moves on. */
  lemma WriteInv(s: State, a: Aux, p: Ptr, v: Ptr, t: Tid, pc: Pc)
    requires Inv(s, a) && t in s.pc && p in a.place && a.place[p] == With(t)
    requires Carried(s.next[p := v], pc, a.moved[t])
    requires forall n :: Owns(pc, a.moved[t], n) <==> Owns(s.pc[t], a.moved[t], n)
    requires (pc.PushCas? && s.pc[t].PushLink? && pc.toHead == s.pc[t].toHead) || (pc.SpliceCas? && s.pc[t].SpliceLink?)
    ensures Inv(Goto(s.(next := s.next[p := v]), t, pc), a)
  {
    WriteLinks(s, a, p, v);
    WriteCarried(s, a, p, v, t, pc);
    WriteNotes(s, a, t, pc);
    WriteGuarded(s, a, p, v, t, pc);
    var z := WriteShape(s, p, v, t, pc);
    Moved(s, a, t, pc, s.next[p := v], s.allocCount, s.held, a.place, z, a);
  }

  lemma WriteShape(s: State, p: Ptr, v: Ptr, t: Tid, pc: Pc) returns (z: State)
    ensures z == State(s.head, s.pending, s.counter, s.allocCount, s.next[p := v], s.pc[t := pc], s.held)
    ensures z == Goto(s.(next := s.next[p := v]), t, pc)
  {
    z := Goto(s.(next := s.next[p := v]), t, pc);
  }

  lemma WriteNotes(s: State, a: Aux, t: Tid, pc: Pc)
    requires Typed(s, a) && Hands(s.pc, a.moved, a.place)
    requires Counted(s.pc, s.allocCount) && Epochs(s.pc, s.counter, a.taken)
    requires Dated(s.pc, a.taken, a.epoch, a.seen, a.onPending) && Quiet(s.pc, a.taken, a.epoch, a.seen)
    requires t in s.pc && forall n :: Owns(pc, a.moved[t], n) <==> Owns(s.pc[t], a.moved[t], n)
    requires (pc.PushCas? && s.pc[t].PushLink?) || (pc.SpliceCas? && s.pc[t].SpliceLink?)
    ensures Hands(s.pc[t := pc], a.moved, a.place)
    ensures Counted(s.pc[t := pc], s.allocCount) && Epochs(s.pc[t := pc], s.counter, a.taken)
    ensures Dated(s.pc[t := pc], a.taken, a.epoch, a.seen, a.onPending)
    ensures Quiet(s.pc[t := pc], a.taken, a.epoch, a.seen)
  {
    LocalHands(s, a, t, pc);
    PlainMove(s, a, t, pc);
  }

  lemma WriteCarried(s: State, a: Aux, p: Ptr, v: Ptr, t: Tid, pc: Pc)
    requires Typed(s, a) && t in s.pc && p in a.place && a.place[p] == With(t)
    requires forall u :: u in s.pc && a.place[p] != With(u) ==> Carried(s.next[p := v], s.pc[u], a.moved[u])
    requires Carried(s.next[p := v], pc, a.moved[t])
    ensures AllCarried(s.next[p := v], s.pc[t := pc], a.moved)
  {
  }

  /** A thread has moved: the parts of the invariant make up the whole. */
  lemma Moved(s: State, a: Aux, t: Tid, pc: Pc, next: map<Ptr, Ptr>, allocCount: int, held: set<Ptr>,
              place: map<Ptr, Place>, z: State, b: Aux)
    requires z == State(s.head, s.pending, s.counter, allocCount, next, s.pc[t := pc], held) && b == a.(place := place)
    requires Typed(s, a) && t in s.pc && next.Keys == s.next.Keys && place.Keys == a.place.Keys
    requires Placed(place, a.onHead, a.onPending, held) && Hands(s.pc[t := pc], a.moved, place)
    requires Listed(next, s.head, a.onHead) && Listed(next, s.pending, a.onPending)
    requires AllCarried(next, s.pc[t := pc], a.moved) && Counted(s.pc[t := pc], allocCount)
    requires Epochs(s.pc[t := pc], s.counter, a.taken)
    requires Dated(s.pc[t := pc], a.taken, a.epoch, a.seen, a.onPending)
    requires Quiet(s.pc[t := pc], a.taken, a.epoch, a.seen)
    requires Guarded(next, s.pc[t := pc], place)
    ensures Inv(z, b)
  {
  }

  lemma WriteGuarded(s: State, a: Aux, p: Ptr, v: Ptr, t: Tid, pc: Pc)
    requires t in s.pc && Guarded(s.next[p := v], s.pc, a.place)
    requires (pc.PushCas? && s.pc[t].PushLink? && pc.toHead == s.pc[t].toHead) || (pc.SpliceCas? && s.pc[t].SpliceLink?)
    ensures Guarded(s.next[p := v], s.pc[t := pc], a.place)
  {
    GuardedMove(s.next[p := v], s.pc, a.place, t, pc, s.next[p := v], a.place);
  }

  lemma PushLinkStep(s: State, a: Aux, t: Tid)
    requires Inv(s, a) && t in s.pc && s.pc[t].PushLink?
    ensures Inv(Advance(s, t), a)
  {
    var PushLink(h, n, prev) := s.pc[t];
    assert Owns(s.pc[t], a.moved[t], n);
    WriteInv(s, a, n, prev, t, PushCas(h, n, prev));
  }

  lemma SpliceLinkStep(s: State, a: Aux, t: Tid)
    requires Inv(s, a) && t in s.pc && s.pc[t].SpliceLink?
    ensures Inv(Advance(s, t), a)
  {
    var SpliceLink(res, fl, tail, prev) := s.pc[t];
    var l := a.moved[t];
    assert Carried(s.next, s.pc[t], l);
    assert Owns(s.pc[t], l, tail);
    assert Carried(s.next[tail := prev], SpliceCas(res, fl, tail, prev), l) by {
      forall i | 0 <= i < |l|
        ensures l[i] in s.next && l[i] != NULL && s.next[tail := prev][l[i]] == After(l, i, prev)
      {
      }
    }
    WriteInv(s, a, tail, prev, t, SpliceCas(res, fl, tail, prev));
  }

  // ---------------------------------------------------------------- successful compare-and-swaps

  lemma PushListed(next: map<Ptr, Ptr>, head: Ptr, l: seq<Ptr>, n: Ptr)
    requires Listed(next, head, l) && n !in l && n in next && n != NULL && next[n] == head
    ensures Listed(next, n, [n] + l)
  {
    SegmentPush(next, l, n, NULL);
    DistinctPush(l, n);
  }

  lemma SegmentPush(next: map<Ptr, Ptr>, l: seq<Ptr>, n: Ptr, end: Ptr)
    requires Segment(next, l, end) && n in next && n != NULL && next[n] == if l == [] then end else l[0]
    ensures Segment(next, [n] + l, end)
  {
    var m := [n] + l;
    forall i | 0 <= i < |m| ensures m[i] in next && m[i] != NULL && next[m[i]] == After(m, i, end) {
      if i > 0 {
        var k := i - 1;
        assert m[i] == l[k] && After(m, i, end) == After(l, k, end);
      }
    }
  }

  lemma DistinctPush(l: seq<Ptr>, n: Ptr)
    requires Distinct(l) && n !in l
    ensures Distinct([n] + l)
  {
    var m := [n] + l;
    forall i, j | 0 <= i < j < |m| ensures m[i] != m[j] {
      assert m[j] == l[j - 1] && m[j] in l;
    }
  }

  /** A thread lets go of the one block it has in hand. */
  lemma LetGo(s: State, a: Aux, t: Tid, n: Ptr, p: Place)
    requires Typed(s, a) && Hands(s.pc, a.moved, a.place) && t in s.pc && n in a.place && !p.With?
    requires forall m :: Owns(s.pc[t], a.moved[t], m) <==> m == n
    ensures Hands(s.pc[t := Idle], a.moved, a.place[n := p])
  {
    HandsMove(s.pc, a.moved, a.place, t, Idle, a.moved, a.place[n := p]);
  }

  lemma PlacedPush(place: map<Ptr, Place>, onHead: seq<Ptr>, onPending: seq<Ptr>, held: set<Ptr>, n: Ptr)
    requires Placed(place, onHead, onPending, held) && n in place && place[n].With?
    ensures Placed(place[n := InHead], [n] + onHead, onPending, held)
    ensures Placed(place[n := InPending], onHead, [n] + onPending, held)
    ensures n !in onHead && n !in onPending
  {
  }

  lemma GuardedPush(next: map<Ptr, Ptr>, pcs: Pcs, place: map<Ptr, Place>, t: Tid, n: Ptr, p: Place)
    requires Guarded(next, pcs, place) && t in pcs && pcs[t].Pushing() && n in place && place[n] == With(t)
    requires p == if pcs[t].toHead then InHead else InPending
    ensures Guarded(next, pcs[t := Idle], place[n := p])
  {
    GuardedMove(next, pcs, place, t, Idle, next, place[n := p]);
  }

  /** What a thread about to push has in hand. */
  lemma PushHand(s: State, a: Aux, t: Tid)
    requires Typed(s, a) && Hands(s.pc, a.moved, a.place) && AllCarried(s.next, s.pc, a.moved)
    requires t in s.pc && s.pc[t].PushCas?
    ensures var n := s.pc[t].node;
      n in a.place && a.place[n] == With(t) && n != NULL && n in s.next && s.next[n] == s.pc[t].prev
  {
    assert Owns(s.pc[t], a.moved[t], s.pc[t].node);
  }

  /** The part of a push's compare-and-swap that is the same for both lists. */
  lemma PushRest(s: State, a: Aux, t: Tid, n: Ptr, p: Place)
    requires Typed(s, a) && Hands(s.pc, a.moved, a.place) && AllCarried(s.next, s.pc, a.moved)
    requires Counted(s.pc, s.allocCount) && Epochs(s.pc, s.counter, a.taken)
    requires Dated(s.pc, a.taken, a.epoch, a.seen, a.onPending) && Quiet(s.pc, a.taken, a.epoch, a.seen)
    requires Guarded(s.next, s.pc, a.place)
    requires t in s.pc && s.pc[t].PushCas? && s.pc[t].node == n && p == if s.pc[t].toHead then InHead else InPending
    requires n in a.place && a.place[n] == With(t)
    ensures Hands(s.pc[t := Idle], a.moved, a.place[n := p]) && AllCarried(s.next, s.pc[t := Idle], a.moved)
    ensures Counted(s.pc[t := Idle], s.allocCount) && Epochs(s.pc[t := Idle], s.counter, a.taken)
    ensures Dated(s.pc[t := Idle], a.taken, a.epoch, a.seen, a.onPending)
    ensures Quiet(s.pc[t := Idle], a.taken, a.epoch, a.seen)
    ensures Guarded(s.next, s.pc[t := Idle], a.place[n := p])
  {
    LetGo(s, a, t, n, p);
    CarriedMove(s.next, s.pc, a.moved, t, Idle, a.moved);
    PlainMove(s, a, t, Idle);
    GuardedPush(s.next, s.pc, a.place, t, n, p);
  }

  lemma PushTyped(s: State, a: Aux, t: Tid, n: Ptr)
    requires Typed(s, a) && t in s.pc && s.pc[t].PushCas? && s.pc[t].node == n && n in a.place
    requires s.pc[t].prev == if s.pc[t].toHead then s.head else s.pending
    ensures Typed(Advance(s, t), TrackRun(s, a, t))
    ensures Advance(s, t) == Goto(if s.pc[t].toHead then s.(head := n) else s.(pending := n), t, Idle)
    ensures TrackRun(s, a, t) ==
      if s.pc[t].toHead then a.(onHead := [n] + a.onHead, place := a.place[n := InHead])
      else a.(onPending := [n] + a.onPending, place := a.place[n := InPending])
  {
  }

  lemma PushHeadStep(s: State, a: Aux, t: Tid)
    requires Inv(s, a) && t in s.pc && s.pc[t].PushCas? && s.pc[t].toHead && s.head == s.pc[t].prev
    ensures Inv(Advance(s, t), TrackRun(s, a, t))
  {
    var n := s.pc[t].node;
    PushHand(s, a, t);
    PlacedPush(a.place, a.onHead, a.onPending, s.held, n);
    PushListed(s.next, s.head, a.onHead, n);
    PushRest(s, a, t, n, InHead);
    PushTyped(s, a, t, n);
  }

  lemma DatedPush(pcs: Pcs, taken: nat, epoch: map<Tid, nat>, seen: map<Tid, seq<Ptr>>, onPending: seq<Ptr>, n: Ptr)
    requires epoch.Keys == pcs.Keys && seen.Keys == pcs.Keys && Dated(pcs, taken, epoch, seen, onPending)
    ensures Dated(pcs, taken, epoch, seen, [n] + onPending)
  {
    forall t | t in pcs && Suffix(seen[t], onPending) ensures Suffix(seen[t], [n] + onPending) {
      var m := [n] + onPending;
      assert m[|m| - |seen[t]|..] == onPending[|onPending| - |seen[t]|..];
    }
  }

  lemma PushPendingStep(s: State, a: Aux, t: Tid)
    requires Inv(s, a) && t in s.pc && s.pc[t].PushCas? && !s.pc[t].toHead && s.pending == s.pc[t].prev
    ensures Inv(Advance(s, t), TrackRun(s, a, t))
  {
    var n := s.pc[t].node;
    PushHand(s, a, t);
    PlacedPush(a.place, a.onHead, a.onPending, s.held, n);
    PushListed(s.next, s.pending, a.onPending, n);
    PushRest(s, a, t, n, InPending);
    DatedPush(s.pc[t := Idle], a.taken, a.epoch, a.seen, a.onPending, n);
    PushTyped(s, a, t, n);
  }

  lemma EnterQuiet(s: State, a: Aux, t: Tid, pc: Pc)
    requires Typed(s, a) && Counted(s.pc, s.allocCount) && Quiet(s.pc, a.taken, a.epoch, a.seen) && t in s.pc
    requires (pc.Recheck? && s.allocCount == 0) || pc == PopRead
    ensures Quiet(s.pc[t := pc], a.taken, a.epoch, a.seen)
  {
    if pc.Recheck? { NoneInFlight(s.pc, s.allocCount); }
    QuietMove(s.pc, a.taken, a.epoch, a.seen, t, pc, a.epoch, a.seen);
  }

  lemma EnterGuarded(s: State, a: Aux, t: Tid, pc: Pc)
    requires Guarded(s.next, s.pc, a.place) && t in s.pc && s.pc[t].Enter? && (pc.Recheck? || pc == PopRead)
    ensures Guarded(s.next, s.pc[t := pc], a.place)
  {
    GuardedMove(s.next, s.pc, a.place, t, pc, s.next, a.place);
  }

  lemma EnterNotes(s: State, a: Aux, t: Tid, pc: Pc)
    requires Typed(s, a) && Counted(s.pc, s.allocCount) && Epochs(s.pc, s.counter, a.taken)
    requires Dated(s.pc, a.taken, a.epoch, a.seen, a.onPending) && Quiet(s.pc, a.taken, a.epoch, a.seen)
    requires t in s.pc && s.pc[t].Enter?
    requires pc == if s.allocCount == 0 && s.pc[t].fl != NULL then Recheck(s.pc[t].keep, s.pc[t].fl) else PopRead
    ensures Counted(s.pc[t := pc], s.allocCount + 1) && Epochs(s.pc[t := pc], s.counter, a.taken)
    ensures Dated(s.pc[t := pc], a.taken, a.epoch, a.seen, a.onPending)
    ensures Quiet(s.pc[t := pc], a.taken, a.epoch, a.seen)
  {
    assert Evidence(s.pc[t], a.taken, a.epoch[t], a.seen[t], a.onPending);
    CountedMove(s.pc, s.allocCount, t, pc);
    MovingMove(s.pc, t, pc);
    DatedMove(s.pc, a.taken, a.epoch, a.seen, a.onPending, t, pc, a.epoch, a.seen);
    EnterQuiet(s, a, t, pc);
  }

  /** The thread that makes AllocCount 1 finds no pop in flight. */
  lemma EnterStep(s: State, a: Aux, t: Tid)
    requires Inv(s, a) && t in s.pc && s.pc[t].Enter?
    ensures Inv(Advance(s, t), a)
  {
    var pc := if s.allocCount == 0 && s.pc[t].fl != NULL then Recheck(s.pc[t].keep, s.pc[t].fl) else PopRead;
    LocalHands(s, a, t, pc);
    CarriedMove(s.next, s.pc, a.moved, t, pc, a.moved);
    EnterNotes(s, a, t, pc);
    EnterGuarded(s, a, t, pc);
    Moved(s, a, t, pc, s.next, s.allocCount + 1, s.held, a.place, Advance(s, t), a);
  }

  // ---------------------------------------------------------------- from Pending to Head

  /** Pending was never emptied and shows the same first block, so it is the list that was seen. */
  lemma WholeCopy(seen: seq<Ptr>, onPending: seq<Ptr>)
    requires Suffix(seen, onPending) && Distinct(onPending) && First(seen) == First(onPending) && seen != []
    ensures seen == onPending
  {
    var k := |onPending| - |seen|;
    assert onPending[k] == onPending[k..][0] == seen[0];
    assert k == 0;
  }

  lemma TakeHands(pcs: Pcs, moved: map<Tid, seq<Ptr>>, place: map<Ptr, Place>, l: seq<Ptr>, t: Tid)
    requires moved.Keys == pcs.Keys && Hands(pcs, moved, place) && t in pcs && pcs[t].TakePending? && l != []
    requires forall n :: n in l <==> n in place && place[n] == InPending
    ensures Hands(pcs[t := TakeNext(l[0])], moved[t := l], Relocate(place, l, With(t)))
  {
    assert forall n :: n in place ==> place[n] != With(t);
    HandsMove(pcs, moved, place, t, TakeNext(l[0]), moved[t := l], Relocate(place, l, With(t)));
  }

  lemma TakePlaced(place: map<Ptr, Place>, onHead: seq<Ptr>, onPending: seq<Ptr>, held: set<Ptr>, t: Tid)
    requires Placed(place, onHead, onPending, held)
    ensures Placed(Relocate(place, onPending, With(t)), onHead, [], held)
  {
  }

  /** Emptying Pending starts a new epoch: nobody else's copy counts any more. */
  lemma TakeDated(s: State, a: Aux, t: Tid, fl: Ptr)
    requires Typed(s, a) && Counted(s.pc, s.allocCount) && Epochs(s.pc, s.counter, a.taken)
    requires Dated(s.pc, a.taken, a.epoch, a.seen, a.onPending) && t in s.pc && s.pc[t] == TakePending(fl)
    ensures Epochs(s.pc[t := TakeNext(fl)], s.counter, a.taken + 1)
    ensures Dated(s.pc[t := TakeNext(fl)], a.taken + 1, a.epoch, a.seen, [])
    ensures Quiet(s.pc[t := TakeNext(fl)], a.taken + 1, a.epoch, a.seen)
  {
    var pcs := s.pc[t := TakeNext(fl)];
    assert forall u :: u in s.pc && s.pc[u].Privileged() ==> u == t;
    assert pcs[t].Moving();
    forall u | u in pcs ensures Evidence(pcs[u], a.taken + 1, a.epoch[u], a.seen[u], []) {
      assert u != t ==> Evidence(s.pc[u], a.taken, a.epoch[u], a.seen[u], a.onPending);
    }
  }

  lemma TakeGuarded(s: State, a: Aux, t: Tid, fl: Ptr)
    requires Typed(s, a) && Hands(s.pc, a.moved, a.place) && Guarded(s.next, s.pc, a.place)
    requires Quiet(s.pc, a.taken, a.epoch, a.seen)
    requires t in s.pc && s.pc[t] == TakePending(fl) && a.epoch[t] == a.taken && a.seen[t] == a.onPending
    ensures Guarded(s.next, s.pc[t := TakeNext(fl)], Relocate(a.place, a.onPending, With(t)))
  {
    var pcs, place := s.pc[t := TakeNext(fl)], Relocate(a.place, a.onPending, With(t));
    assert forall n :: n in a.place ==> a.place[n] != With(t);
    forall u | u in pcs && pcs[u].Popping()
      ensures Settled(pcs, place, pcs[u].snapshot)
      ensures pcs[u].PopCas? && place[pcs[u].snapshot] == InHead ==> pcs[u].next == At(s.next, pcs[u].snapshot)
    {
      assert s.pc[u].Popping() && Settled(s.pc, a.place, pcs[u].snapshot);
      assert s.pc[t].Acting() && pcs[u].snapshot !in a.seen[t];
    }
  }

  lemma TakeCopy(s: State, a: Aux, t: Tid)
    requires Typed(s, a) && Dated(s.pc, a.taken, a.epoch, a.seen, a.onPending) && Listed(s.next, s.pending, a.onPending)
    requires t in s.pc && s.pc[t].TakePending? && s.pc[t].fl == s.pending
    ensures a.epoch[t] == a.taken && a.seen[t] == a.onPending && a.onPending != [] && a.onPending[0] == s.pc[t].fl
  {
    assert Evidence(s.pc[t], a.taken, a.epoch[t], a.seen[t], a.onPending);
    WholeCopy(a.seen[t], a.onPending);
  }

  lemma TakeCarried(s: State, a: Aux, t: Tid)
    requires Typed(s, a) && Listed(s.next, s.pending, a.onPending) && AllCarried(s.next, s.pc, a.moved)
    requires t in s.pc && a.onPending != []
    ensures AllCarried(s.next, s.pc[t := TakeNext(s.pending)], a.moved[t := a.onPending])
    ensures Listed(s.next, NULL, [])
  {
    CarriedMove(s.next, s.pc, a.moved, t, TakeNext(s.pending), a.moved[t := a.onPending]);
  }

  lemma TakePendingStep(s: State, a: Aux, t: Tid)
    requires Inv(s, a) && t in s.pc && s.pc[t].TakePending? && s.pc[t].fl == s.pending
    ensures Inv(Advance(s, t), TrackRun(s, a, t))
  {
    TakeCopy(s, a, t);
    TakeHands(s.pc, a.moved, a.place, a.onPending, t);
    TakePlaced(a.place, a.onHead, a.onPending, s.held, t);
    TakeCarried(s, a, t);
    CountedMove(s.pc, s.allocCount, t, TakeNext(s.pending));
    TakeDated(s, a, t, s.pending);
    TakeGuarded(s, a, t, s.pending);
    TakeTyped(s, a, t);
  }

  lemma TakeTyped(s: State, a: Aux, t: Tid)
    requires Typed(s, a) && t in s.pc && s.pc[t].TakePending? && s.pc[t].fl == s.pending
    ensures Typed(Advance(s, t), TrackRun(s, a, t))
    ensures Advance(s, t) == Goto(s.(pending := NULL), t, TakeNext(s.pending))
    ensures TrackRun(s, a, t) == a.(taken := a.taken + 1, moved := a.moved[t := a.onPending], onPending := [],
                                    place := Relocate(a.place, a.onPending, With(t)))
  {
  }

  lemma SegmentRest(next: map<Ptr, Ptr>, l: seq<Ptr>, end: Ptr)
    requires Segment(next, l, end) && l != []
    ensures Segment(next, l[1..], end) && next[l[0]] == if |l| == 1 then end else l[1]
  {
    var m := l[1..];
    forall i | 0 <= i < |m| ensures m[i] in next && m[i] != NULL && next[m[i]] == After(m, i, end) {
      assert m[i] == l[i + 1] && After(m, i, end) == After(l, i + 1, end);
    }
  }

  lemma TakeNextHands(s: State, a: Aux, t: Tid, pc: Pc, rest: seq<Ptr>)
    requires Typed(s, a) && Hands(s.pc, a.moved, a.place) && t in s.pc && s.pc[t].TakeNext?
    requires a.moved[t] == [s.pc[t].res] + rest
    requires (pc == Bump(s.pc[t].res) && rest == []) || (pc.FindTail? && pc.res == s.pc[t].res)
    ensures Hands(s.pc[t := pc], a.moved[t := rest], a.place)
  {
    HandsMove(s.pc, a.moved, a.place, t, pc, a.moved[t := rest], a.place);
  }

  lemma TakeNextCarried(next: map<Ptr, Ptr>, res: Ptr, l: seq<Ptr>)
    requires Carried(next, TakeNext(res), l)
    ensures var rest := l[1..];
      && l == [res] + rest && (At(next, res) == NULL <==> rest == [])
      && (rest != [] ==> Carried(next, FindTail(res, At(next, res), At(next, res)), rest))
      && res != NULL
  {
    SegmentRest(next, l, NULL);
    assert l[0] in next;
    if |l| > 1 { assert l[1] != NULL; }
  }

  lemma TakeNextStep(s: State, a: Aux, t: Tid)
    requires Inv(s, a) && t in s.pc && s.pc[t].TakeNext?
    ensures Inv(Advance(s, t), TrackRun(s, a, t))
  {
    var res, rest := s.pc[t].res, a.moved[t][1..];
    var fl := At(s.next, res);
    var pc := if fl == NULL then Bump(res) else FindTail(res, fl, fl);
    assert Carried(s.next, s.pc[t], a.moved[t]);
    TakeNextCarried(s.next, res, a.moved[t]);
    TakeNextHands(s, a, t, pc, rest);
    CarriedMove(s.next, s.pc, a.moved, t, pc, a.moved[t := rest]);
    PlainMove(s, a, t, pc);
    GuardedMove(s.next, s.pc, a.place, t, pc, s.next, a.place);
    var z, b := Goto(s, t, pc), a.(moved := a.moved[t := rest]);
    assert Inv(z, b);
    assert Advance(s, t) == z && TrackRun(s, a, t) == b;
  }

  lemma SpliceListed(next: map<Ptr, Ptr>, l: seq<Ptr>, head: Ptr, onHead: seq<Ptr>)
    requires l != [] && Distinct(l) && Segment(next, l, head) && Listed(next, head, onHead)
    requires forall n :: n in l ==> n !in onHead
    ensures Listed(next, l[0], l + onHead)
  {
    var m := l + onHead;
    forall i | 0 <= i < |m| ensures m[i] in next && m[i] != NULL && next[m[i]] == After(m, i, NULL) {
      if i >= |l| {
        assert m[i] == onHead[i - |l|] && After(m, i, NULL) == After(onHead, i - |l|, NULL);
      } else {
        assert m[i] == l[i] && After(m, i, NULL) == After(l, i, head);
      }
    }
    forall i, j | 0 <= i < j < |m| ensures m[i] != m[j] {
      if i < |l| <= j { assert l[i] in l && onHead[j - |l|] in onHead; }
    }
  }

  lemma SplicePlaced(s: State, a: Aux, t: Tid)
    requires Typed(s, a) && Placed(a.place, a.onHead, a.onPending, s.held) && Hands(s.pc, a.moved, a.place)
    requires t in s.pc && s.pc[t].SpliceCas? && s.pc[t].res !in a.moved[t]
    ensures var l, res := a.moved[t], s.pc[t].res; var place := Relocate(a.place, l, InHead);
      && (forall n :: n in l ==> n !in a.onHead)
      && Placed(place, l + a.onHead, a.onPending, s.held)
      && Hands(s.pc[t := Bump(res)], a.moved, place)
      && res in a.place
  {
    var l, res := a.moved[t], s.pc[t].res;
    assert Owns(s.pc[t], l, res);
    assert forall n :: n in l ==> Owns(s.pc[t], l, n);
    HandsMove(s.pc, a.moved, a.place, t, Bump(res), a.moved, Relocate(a.place, l, InHead));
  }

  lemma SpliceGuarded(s: State, a: Aux, t: Tid)
    requires Typed(s, a) && Hands(s.pc, a.moved, a.place) && Guarded(s.next, s.pc, a.place)
    requires t in s.pc && s.pc[t].SpliceCas?
    ensures Guarded(s.next, s.pc[t := Bump(s.pc[t].res)], Relocate(a.place, a.moved[t], InHead))
  {
    var l := a.moved[t];
    assert forall n :: n in l ==> Owns(s.pc[t], l, n);
    GuardedMove(s.next, s.pc, a.place, t, Bump(s.pc[t].res), s.next, Relocate(a.place, l, InHead));
  }

  lemma SpliceCasStep(s: State, a: Aux, t: Tid)
    requires Inv(s, a) && t in s.pc && s.pc[t].SpliceCas? && s.pc[t].prev == s.head
    ensures Inv(Advance(s, t), TrackRun(s, a, t))
  {
    var l, res := a.moved[t], s.pc[t].res;
    var place := Relocate(a.place, l, InHead);
    assert Carried(s.next, s.pc[t], l);
    SplicePlaced(s, a, t);
    SpliceListed(s.next, l, s.head, a.onHead);
    SpliceNotes(s, a, t, res);
    SpliceGuarded(s, a, t);
    var z, b := SpliceShape(s, a, t, place);
    assert Inv(z, b);
  }

  lemma SpliceNotes(s: State, a: Aux, t: Tid, res: Ptr)
    requires Typed(s, a) && AllCarried(s.next, s.pc, a.moved)
    requires Counted(s.pc, s.allocCount) && Epochs(s.pc, s.counter, a.taken)
    requires Dated(s.pc, a.taken, a.epoch, a.seen, a.onPending) && Quiet(s.pc, a.taken, a.epoch, a.seen)
    requires t in s.pc && s.pc[t].SpliceCas? && res != NULL
    ensures AllCarried(s.next, s.pc[t := Bump(res)], a.moved)
    ensures Counted(s.pc[t := Bump(res)], s.allocCount) && Epochs(s.pc[t := Bump(res)], s.counter, a.taken)
    ensures Dated(s.pc[t := Bump(res)], a.taken, a.epoch, a.seen, a.onPending)
    ensures Quiet(s.pc[t := Bump(res)], a.taken, a.epoch, a.seen)
  {
    CarriedMove(s.next, s.pc, a.moved, t, Bump(res), a.moved);
    PlainMove(s, a, t, Bump(res));
  }

  lemma SpliceShape(s: State, a: Aux, t: Tid, place: map<Ptr, Place>) returns (z: State, b: Aux)
    requires t in s.pc && s.pc[t].SpliceCas? && s.pc[t].prev == s.head && t in a.moved
    requires place == Relocate(a.place, a.moved[t], InHead)
    ensures z == Goto(s.(head := s.pc[t].fl), t, Bump(s.pc[t].res))
    ensures b == a.(onHead := a.moved[t] + a.onHead, place := place)
    ensures z == Advance(s, t) && b == TrackRun(s, a, t)
  {
    z, b := Advance(s, t), TrackRun(s, a, t);
  }

  lemma BumpEpochs(pcs: Pcs, allocCount: int, counter: nat, taken: nat, t: Tid, pc: Pc)
    requires Counted(pcs, allocCount) && Epochs(pcs, counter, taken) && t in pcs && pcs[t].Bump? && pc.Leave?
    ensures Epochs(pcs[t := pc], counter + 1, taken)
  {
    assert pcs[t].Moving();
    assert forall u :: u in pcs && pcs[u].Privileged() ==> u == t;
  }

  lemma BumpStep(s: State, a: Aux, t: Tid)
    requires Inv(s, a) && t in s.pc && s.pc[t].Bump?
    ensures Inv(Advance(s, t), a)
  {
    var pc := Leave(s.pc[t].res);
    assert Carried(s.next, s.pc[t], a.moved[t]);
    LocalHands(s, a, t, pc);
    CarriedMove(s.next, s.pc, a.moved, t, pc, a.moved);
    CountedMove(s.pc, s.allocCount, t, pc);
    BumpEpochs(s.pc, s.allocCount, s.counter, a.taken, t, pc);
    DatedMove(s.pc, a.taken, a.epoch, a.seen, a.onPending, t, pc, a.epoch, a.seen);
    QuietMove(s.pc, a.taken, a.epoch, a.seen, t, pc, a.epoch, a.seen);
    GuardedMove(s.next, s.pc, a.place, t, pc, s.next, a.place);
    assert Advance(s, t) == Goto(s.(counter := s.counter + 1), t, pc);
  }

  // ---------------------------------------------------------------- taking, returning and freeing a block

  /** The pop's compare-and-swap succeeds only with the true successor in hand. */
  lemma PopIsSafe(s: State, a: Aux, t: Tid)
    requires Inv(s, a) && t in s.pc && s.pc[t].PopCas? && s.pc[t].snapshot == s.head
    ensures a.onHead != [] && a.onHead[0] == s.head && s.head in s.next
    ensures s.pc[t].next == s.next[s.head] == First(a.onHead[1..])
  {
    assert Settled(s.pc, a.place, s.pc[t].snapshot);
    assert s.next[a.onHead[0]] == After(a.onHead, 0, NULL);
  }

  lemma PopListed(next: map<Ptr, Ptr>, head: Ptr, l: seq<Ptr>)
    requires Listed(next, head, l) && l != []
    ensures Listed(next, First(l[1..]), l[1..]) && l[0] !in l[1..]
  {
    SegmentRest(next, l, NULL);
  }

  lemma PopPlaced(place: map<Ptr, Place>, onHead: seq<Ptr>, onPending: seq<Ptr>, held: set<Ptr>, n: Ptr, t: Tid)
    requires Placed(place, onHead, onPending, held) && onHead != [] && onHead[0] == n && n !in onHead[1..]
    ensures Placed(place[n := With(t)], onHead[1..], onPending, held)
  {
    assert n in onHead;
    assert onHead == [n] + onHead[1..];
  }

  lemma PopHands(s: State, a: Aux, t: Tid, n: Ptr)
    requires Typed(s, a) && Hands(s.pc, a.moved, a.place)
    requires t in s.pc && s.pc[t].PopCas? && n in a.place && a.place[n] == InHead
    ensures Hands(s.pc[t := Leave(n)], a.moved, a.place[n := With(t)])
  {
    HandsMove(s.pc, a.moved, a.place, t, Leave(n), a.moved, a.place[n := With(t)]);
  }

  lemma PopGuarded(s: State, a: Aux, t: Tid, n: Ptr)
    requires Typed(s, a) && Guarded(s.next, s.pc, a.place) && t in s.pc && s.pc[t].PopCas? && n in a.place
    requires a.place[n] == InHead
    ensures Guarded(s.next, s.pc[t := Leave(n)], a.place[n := With(t)])
  {
    GuardedMove(s.next, s.pc, a.place, t, Leave(n), s.next, a.place[n := With(t)]);
  }

  lemma PopTyped(s: State, a: Aux, t: Tid, n: Ptr)
    requires Typed(s, a) && t in s.pc && s.pc[t].PopCas? && s.pc[t].snapshot == s.head == n && a.onHead != []
    requires n in a.place
    ensures Typed(Advance(s, t), TrackRun(s, a, t))
    ensures Advance(s, t) == Goto(s.(head := s.pc[t].next), t, Leave(n))
    ensures TrackRun(s, a, t) == a.(onHead := a.onHead[1..], place := a.place[n := With(t)])
  {
  }

  lemma PopNotes(s: State, a: Aux, t: Tid, n: Ptr)
    requires Typed(s, a) && AllCarried(s.next, s.pc, a.moved)
    requires Counted(s.pc, s.allocCount) && Epochs(s.pc, s.counter, a.taken)
    requires Dated(s.pc, a.taken, a.epoch, a.seen, a.onPending) && Quiet(s.pc, a.taken, a.epoch, a.seen)
    requires t in s.pc && s.pc[t].PopCas?
    ensures AllCarried(s.next, s.pc[t := Leave(n)], a.moved)
    ensures Counted(s.pc[t := Leave(n)], s.allocCount) && Epochs(s.pc[t := Leave(n)], s.counter, a.taken)
    ensures Dated(s.pc[t := Leave(n)], a.taken, a.epoch, a.seen, a.onPending)
    ensures Quiet(s.pc[t := Leave(n)], a.taken, a.epoch, a.seen)
  {
    CarriedMove(s.next, s.pc, a.moved, t, Leave(n), a.moved);
    PlainMove(s, a, t, Leave(n));
  }

  lemma PopCasStep(s: State, a: Aux, t: Tid)
    requires Inv(s, a) && t in s.pc && s.pc[t].PopCas? && s.pc[t].snapshot == s.head
    ensures Inv(Advance(s, t), TrackRun(s, a, t))
  {
    var n := s.head;
    PopIsSafe(s, a, t);
    PopListed(s.next, s.head, a.onHead);
    assert n in a.onHead;
    PopPlaced(a.place, a.onHead, a.onPending, s.held, n, t);
    PopHands(s, a, t, n);
    PopNotes(s, a, t, n);
    PopGuarded(s, a, t, n);
    PopTyped(s, a, t, n);
  }

  lemma LeaveWith(s: State, a: Aux, t: Tid, n: Ptr)
    requires Typed(s, a) && Placed(a.place, a.onHead, a.onPending, s.held) && Hands(s.pc, a.moved, a.place)
    requires Guarded(s.next, s.pc, a.place)
    requires t in s.pc && s.pc[t] == Leave(n) && n != NULL
    ensures n in a.place
    ensures Placed(a.place[n := Held], a.onHead, a.onPending, s.held + {n})
    ensures Hands(s.pc[t := Idle], a.moved, a.place[n := Held])
    ensures Guarded(s.next, s.pc[t := Idle], a.place[n := Held])
  {
    assert Owns(s.pc[t], a.moved[t], n);
    LetGo(s, a, t, n, Held);
    LeaveGuarded(s.next, s.pc, a.place, t, n);
  }

  lemma LeaveGuarded(next: map<Ptr, Ptr>, pcs: Pcs, place: map<Ptr, Place>, t: Tid, n: Ptr)
    requires Guarded(next, pcs, place) && t in pcs && pcs[t] == Leave(n) && n in place && place[n] == With(t)
    ensures Guarded(next, pcs[t := Idle], place[n := Held])
  {
    GuardedMove(next, pcs, place, t, Idle, next, place[n := Held]);
  }

  lemma LeaveShape(s: State, a: Aux, t: Tid, n: Ptr) returns (z: State, b: Aux)
    requires t in s.pc && s.pc[t] == Leave(n)
    ensures z == State(s.head, s.pending, s.counter, s.allocCount - 1, s.next, s.pc[t := Idle],
                       if n == NULL then s.held else s.held + {n})
    ensures b == a.(place := if n == NULL then a.place else a.place[n := Held])
    ensures z == Advance(s, t) && b == TrackRun(s, a, t)
  {
    z, b := Advance(s, t), TrackRun(s, a, t);
  }

  lemma LeaveStep(s: State, a: Aux, t: Tid)
    requires Inv(s, a) && t in s.pc && s.pc[t].Leave?
    ensures Inv(Advance(s, t), TrackRun(s, a, t))
  {
    var n := s.pc[t].result;
    var z, b := LeaveShape(s, a, t, n);
    LeaveNotes(s, a, t);
    if n == NULL {
      LeaveEmpty(s, a, t);
      Moved(s, a, t, Idle, s.next, s.allocCount - 1, s.held, a.place, z, b);
    } else {
      LeaveWith(s, a, t, n);
      Moved(s, a, t, Idle, s.next, s.allocCount - 1, s.held + {n}, a.place[n := Held], z, b);
    }
  }

  lemma LeaveNotes(s: State, a: Aux, t: Tid)
    requires Typed(s, a) && AllCarried(s.next, s.pc, a.moved)
    requires Counted(s.pc, s.allocCount) && Epochs(s.pc, s.counter, a.taken)
    requires Dated(s.pc, a.taken, a.epoch, a.seen, a.onPending) && Quiet(s.pc, a.taken, a.epoch, a.seen)
    requires t in s.pc && s.pc[t].Leave?
    ensures AllCarried(s.next, s.pc[t := Idle], a.moved)
    ensures Counted(s.pc[t := Idle], s.allocCount - 1) && Epochs(s.pc[t := Idle], s.counter, a.taken)
    ensures Dated(s.pc[t := Idle], a.taken, a.epoch, a.seen, a.onPending)
    ensures Quiet(s.pc[t := Idle], a.taken, a.epoch, a.seen)
  {
    CarriedMove(s.next, s.pc, a.moved, t, Idle, a.moved);
    PlainMove(s, a, t, Idle);
  }

  lemma LeaveEmpty(s: State, a: Aux, t: Tid)
    requires Typed(s, a) && Hands(s.pc, a.moved, a.place) && Guarded(s.next, s.pc, a.place)
    requires t in s.pc && s.pc[t] == Leave(NULL)
    ensures Hands(s.pc[t := Idle], a.moved, a.place) && Guarded(s.next, s.pc[t := Idle], a.place)
  {
    LocalHands(s, a, t, Idle);
    GuardedMove(s.next, s.pc, a.place, t, Idle, s.next, a.place);
  }

  lemma CallFreeHands(s: State, a: Aux, t: Tid, n: Ptr)
    requires Typed(s, a) && Placed(a.place, a.onHead, a.onPending, s.held) && Hands(s.pc, a.moved, a.place)
    requires Guarded(s.next, s.pc, a.place)
    requires t in s.pc && s.pc[t] == Idle && n in s.held
    ensures Placed(a.place[n := With(t)], a.onHead, a.onPending, s.held - {n})
    ensures Hands(s.pc[t := FreeTest(n)], a.moved, a.place[n := With(t)])
    ensures Guarded(s.next, s.pc[t := FreeTest(n)], a.place[n := With(t)])
  {
    HandsMove(s.pc, a.moved, a.place, t, FreeTest(n), a.moved, a.place[n := With(t)]);
    GuardedMove(s.next, s.pc, a.place, t, FreeTest(n), s.next, a.place[n := With(t)]);
  }

  lemma CallFreeNotes(s: State, a: Aux, t: Tid, n: Ptr)
    requires Typed(s, a) && AllCarried(s.next, s.pc, a.moved)
    requires Counted(s.pc, s.allocCount) && Epochs(s.pc, s.counter, a.taken)
    requires Dated(s.pc, a.taken, a.epoch, a.seen, a.onPending) && Quiet(s.pc, a.taken, a.epoch, a.seen)
    requires t in s.pc && s.pc[t] == Idle
    ensures AllCarried(s.next, s.pc[t := FreeTest(n)], a.moved)
    ensures Counted(s.pc[t := FreeTest(n)], s.allocCount) && Epochs(s.pc[t := FreeTest(n)], s.counter, a.taken)
    ensures Dated(s.pc[t := FreeTest(n)], a.taken, a.epoch, a.seen, a.onPending)
    ensures Quiet(s.pc[t := FreeTest(n)], a.taken, a.epoch, a.seen)
  {
    CarriedMove(s.next, s.pc, a.moved, t, FreeTest(n), a.moved);
    PlainMove(s, a, t, FreeTest(n));
  }

  lemma CallFreeStep(s: State, a: Aux, t: Tid, n: Ptr)
    requires Inv(s, a) && t in s.pc && s.pc[t] == Idle && n in s.held
    ensures Inv(Apply(s, CallFree(t, n)), Track(s, a, CallFree(t, n)))
  {
    CallFreeHands(s, a, t, n);
    CallFreeNotes(s, a, t, n);
    var z, b := CallFreeShape(s, a, t, n);
    Moved(s, a, t, FreeTest(n), s.next, s.allocCount, s.held - {n}, a.place[n := With(t)], z, b);
  }

  lemma CallFreeShape(s: State, a: Aux, t: Tid, n: Ptr) returns (z: State, b: Aux)
    requires t in s.pc && s.pc[t] == Idle && n in s.held
    ensures z == State(s.head, s.pending, s.counter, s.allocCount, s.next, s.pc[t := FreeTest(n)], s.held - {n})
    ensures b == a.(place := a.place[n := With(t)])
    ensures z == Apply(s, CallFree(t, n)) && b == Track(s, a, CallFree(t, n))
  {
    z, b := Apply(s, CallFree(t, n)), Track(s, a, CallFree(t, n));
  }

  lemma CallAllocStep(s: State, a: Aux, t: Tid)
    requires Inv(s, a) && t in s.pc && s.pc[t] == Idle
    ensures Inv(Goto(s, t, ReadCounter), a)
  {
    assert Local(s, a, t, ReadCounter, a);
    LocalInv(s, a, t, ReadCounter, a);
  }

  // ---------------------------------------------------------------- every step, every run

  lemma StepKeepsInv(s: State, a: Aux, e: Event)
    requires Inv(s, a) && Enabled(s, e)
    ensures Inv(Apply(s, e), Track(s, a, e))
  {
    match e
    case CallAlloc(t) => CallAllocStep(s, a, t);
    case CallFree(t, n) => CallFreeStep(s, a, t, n);
    case Scribble(n, v) => ScribbleStep(s, a, n, v);
    case Run(t) => RunKeepsInv(s, a, t);
  }

  lemma RunKeepsInv(s: State, a: Aux, t: Tid)
    requires Inv(s, a) && t in s.pc && s.pc[t] != Idle
    ensures Inv(Advance(s, t), TrackRun(s, a, t))
  {
    if IsLocal(s, t) {
      LocalStep(s, a, t);
    } else {
      match s.pc[t]
      case PushLink(_, _, _) => PushLinkStep(s, a, t);
      case PushCas(h, _, _) => if h { PushHeadStep(s, a, t); } else { PushPendingStep(s, a, t); }
      case Enter(_, _) => EnterStep(s, a, t);
      case TakePending(_) => TakePendingStep(s, a, t);
      case TakeNext(_) => TakeNextStep(s, a, t);
      case SpliceLink(_, _, _, _) => SpliceLinkStep(s, a, t);
      case SpliceCas(_, _, _, _) => SpliceCasStep(s, a, t);
      case Bump(_) => BumpStep(s, a, t);
      case PopCas(_, _) => PopCasStep(s, a, t);
      case Leave(_) => LeaveStep(s, a, t);
    }
  }

  predicate CanRun(s: State, events: seq<Event>)
    decreases |events|
  {
    events == [] || (Enabled(s, events[0]) && CanRun(Apply(s, events[0]), events[1..]))
  }

  function Execute(s: State, events: seq<Event>): State
    requires CanRun(s, events)
    decreases |events|
  {
    if events == [] then s else Execute(Apply(s, events[0]), events[1..])
  }

  function StartAux(s: State): Aux {
    Aux([], [], map n | n in s.next :: Held, 0,
        map t | t in s.pc :: 0, map t | t in s.pc :: [], map t | t in s.pc :: [])
  }

  lemma StartInv(blocks: map<Ptr, Ptr>, threads: set<Tid>)
    requires NULL !in blocks
    ensures Inv(Start(blocks, threads), StartAux(Start(blocks, threads)))
  {
    var pcs := Start(blocks, threads).pc;
    assert forall t :: t in pcs ==> pcs[t] == Idle;
    forall t | t in pcs ensures t !in Flying(pcs) { assert !Idle.InFlight(); }
    assert Flying(pcs) == {};
  }

  lemma {:induction false} RunsKeepInv(s: State, a: Aux, events: seq<Event>) returns (b: Aux)
    requires Inv(s, a) && CanRun(s, events)
    ensures Inv(Execute(s, events), b) && b.place.Keys == a.place.Keys
    decreases |events|
  {
    if events == [] {
      b := a;
    } else {
      var e := events[0];
      StepKeepsInv(s, a, e);
      StepKeepsBlocks(s, a, e);
      b := RunsKeepInv(Apply(s, e), Track(s, a, e), events[1..]);
    }
  }

  lemma StepKeepsBlocks(s: State, a: Aux, e: Event)
    requires Inv(s, a) && Enabled(s, e)
    ensures Track(s, a, e).place.Keys == a.place.Keys
  {
    StepKeepsInv(s, a, e);
    if e.Run? {
      if s.pc[e.t].PushLink? { assert Owns(s.pc[e.t], a.moved[e.t], s.pc[e.t].node); }
    }
  }

  // ---------------------------------------------------------------- what the invariant says to a caller

  /** In every state of every run the blocks are divided between the two lists, the callers and
      the threads; nothing is in two places and nothing is lost. */
  lemma BlocksNeverLostNorShared(blocks: map<Ptr, Ptr>, threads: set<Tid>, events: seq<Event>) returns (a: Aux)
    requires NULL !in blocks && CanRun(Start(blocks, threads), events)
    ensures var s := Execute(Start(blocks, threads), events);
      && Inv(s, a)
      && a.place.Keys == blocks.Keys
      && Listed(s.next, s.head, a.onHead) && Listed(s.next, s.pending, a.onPending)
  {
    StartInv(blocks, threads);
    a := RunsKeepInv(Start(blocks, threads), StartAux(Start(blocks, threads)), events);
  }

  lemma HeldByOne(s: State, a: Aux, t: Tid, u: Tid, n: Ptr)
    requires Typed(s, a) && Placed(a.place, a.onHead, a.onPending, s.held) && Hands(s.pc, a.moved, a.place)
    requires s.head == First(a.onHead) && s.pending == First(a.onPending)
    requires t in s.pc && Owns(s.pc[t], a.moved[t], n) && u in s.pc && u != t
    ensures n in a.place && n != NULL && n !in s.held && n != s.head && n != s.pending && !Owns(s.pc[u], a.moved[u], n)
  {
  }

  /** The block that an Alloc is about to return is held by no caller and by no other call. */
  lemma NeverHandedOutTwice(blocks: map<Ptr, Ptr>, threads: set<Tid>, events: seq<Event>, t: Tid, u: Tid)
    requires NULL !in blocks && CanRun(Start(blocks, threads), events)
    requires var s := Execute(Start(blocks, threads), events);
      t in s.pc && s.pc[t].Leave? && s.pc[t].result != NULL && u in s.pc && u != t
    ensures var s := Execute(Start(blocks, threads), events); var n := s.pc[t].result;
      && n in blocks && n !in s.held && n != s.head && n != s.pending
      && (s.pc[u].Leave? ==> s.pc[u].result != n)
      && (s.pc[u].FreeTest? || s.pc[u].Pushing() ==> s.pc[u].node != n)
  {
    var a := BlocksNeverLostNorShared(blocks, threads, events);
    var s := Execute(Start(blocks, threads), events);
    HeldByOne(s, a, t, u, s.pc[t].result);
  }

  /** A pop's compare-and-swap that succeeds, in any run, installs the true successor. */
  lemma NoStalePop(blocks: map<Ptr, Ptr>, threads: set<Tid>, events: seq<Event>, t: Tid)
    requires NULL !in blocks && CanRun(Start(blocks, threads), events)
    requires var s := Execute(Start(blocks, threads), events);
      t in s.pc && s.pc[t].PopCas? && s.pc[t].snapshot == s.head
    ensures var s := Execute(Start(blocks, threads), events);
      s.head in s.next && s.pc[t].next == s.next[s.head]
  {
    var a := BlocksNeverLostNorShared(blocks, threads, events);
    PopIsSafe(Execute(Start(blocks, threads), events), a, t);
  }

  function Elements(l: seq<Ptr>): set<Ptr> { set n | n in l }

  lemma {:induction false} DistinctSize(l: seq<Ptr>)
    requires Distinct(l)
    ensures |Elements(l)| == |l|
  {
    if l != [] {
      DistinctSize(l[1..]);
      assert Elements(l) == Elements(l[1..]) + {l[0]};
    }
  }

  lemma Accounted(place: map<Ptr, Place>, l: seq<Ptr>, m: seq<Ptr>, held: set<Ptr>)
    requires Placed(place, l, m, held) && Distinct(l) && Distinct(m) && (forall n :: n in place ==> !place[n].With?)
    ensures |place.Keys| == |l| + |m| + |held|
  {
    DistinctSize(l);
    DistinctSize(m);
    assert place.Keys == Elements(l) + Elements(m) + held;
    assert Elements(l) !! Elements(m) && (Elements(l) + Elements(m)) !! held;
  }

  /** When every call has returned, the lists and the callers account for every block. */
  lemma QuiescentConservation(blocks: map<Ptr, Ptr>, threads: set<Tid>, events: seq<Event>)
    requires NULL !in blocks && CanRun(Start(blocks, threads), events)
    requires var s := Execute(Start(blocks, threads), events); forall t :: t in s.pc ==> s.pc[t] == Idle
    ensures var s := Execute(Start(blocks, threads), events);
      exists l, m :: Listed(s.next, s.head, l) && Listed(s.next, s.pending, m) && |blocks| == |l| + |m| + |s.held|
  {
    var s := Execute(Start(blocks, threads), events);
    var a := BlocksNeverLostNorShared(blocks, threads, events);
    assert forall n :: n in a.place ==> !a.place[n].With?;
    Accounted(a.place, a.onHead, a.onPending, s.held);
    assert |blocks| == |blocks.Keys|;
  }

  // ---------------------------------------------------------------- refinement of an atomic pool

  /** What a step does to a pool of free blocks that is taken from and added to atomically. */
  datatype Effect = Nothing | Take(t: Tid, n: Ptr) | Put(n: Ptr)

  function EffectOf(s: State, e: Event): Effect
    requires Enabled(s, e)
  {
    if !e.Run? then Nothing
    else
      match s.pc[e.t]
      case PushCas(h, n, prev) => if prev == (if h then s.head else s.pending) then Put(n) else Nothing
      case TakePending(fl) => if s.pending == fl then Take(e.t, fl) else Nothing
      case PopCas(n, _) => if s.head == n then Take(e.t, n) else Nothing
      case _ => Nothing
  }

  /** Of the blocks in a thread's hands, those in transit from Pending to Head are free. */
  predicate InTransit(pc: Pc, n: Ptr) { pc.Moving() && !pc.Bump? && n != pc.res }

  /** The free blocks: those on either list, and those in transit between them. */
  ghost function Pool(pcs: Pcs, place: map<Ptr, Place>): set<Ptr> {
    set n | n in place && (place[n] == InHead || place[n] == InPending
                           || (place[n].With? && place[n].t in pcs && InTransit(pcs[place[n].t], n)))
  }

  ghost predicate PoolStep(pool: set<Ptr>, eff: Effect, pool': set<Ptr>) {
    match eff
    case Nothing => pool' == pool
    case Take(_, n) => n in pool && pool' == pool - {n}
    case Put(n) => n !in pool && pool' == pool + {n}
  }

  /** Only the moving thread's hands can join or leave the pool without changing place. */
  lemma PoolMove(pcs: Pcs, moved: map<Tid, seq<Ptr>>, place: map<Ptr, Place>, t: Tid, pc: Pc)
    requires moved.Keys == pcs.Keys && Hands(pcs, moved, place) && t in pcs
    requires forall n :: Owns(pcs[t], moved[t], n) ==> InTransit(pc, n) == InTransit(pcs[t], n)
    ensures Pool(pcs[t := pc], place) == Pool(pcs, place)
  {
  }

  lemma PoolLocal(s: State, a: Aux, t: Tid)
    requires Typed(s, a) && Hands(s.pc, a.moved, a.place) && t in s.pc && IsLocal(s, t)
    ensures PoolStep(Pool(s.pc, a.place), EffectOf(s, Run(t)), Pool(Advance(s, t).pc, TrackRun(s, a, t).place))
  {
    PoolMove(s.pc, a.moved, a.place, t, Advance(s, t).pc[t]);
  }

  lemma PoolPush(s: State, a: Aux, t: Tid)
    requires Typed(s, a) && Hands(s.pc, a.moved, a.place) && AllCarried(s.next, s.pc, a.moved)
    requires t in s.pc && s.pc[t].PushCas? && !IsLocal(s, t)
    ensures PoolStep(Pool(s.pc, a.place), EffectOf(s, Run(t)), Pool(Advance(s, t).pc, TrackRun(s, a, t).place))
  {
    PushHand(s, a, t);
    var n := s.pc[t].node;
    assert forall m :: m in a.place && a.place[m] == With(t) ==> m == n;
    assert TrackRun(s, a, t).place == a.place[n := if s.pc[t].toHead then InHead else InPending];
    assert Advance(s, t).pc == s.pc[t := Idle];
  }

  lemma PoolTake(s: State, a: Aux, t: Tid)
    requires Typed(s, a) && Placed(a.place, a.onHead, a.onPending, s.held) && Hands(s.pc, a.moved, a.place)
    requires t in s.pc && s.pc[t].TakePending? && s.pc[t].fl == s.pending == First(a.onPending) && a.onPending != []
    ensures PoolStep(Pool(s.pc, a.place), EffectOf(s, Run(t)), Pool(Advance(s, t).pc, TrackRun(s, a, t).place))
  {
    assert forall n :: n in a.place ==> a.place[n] != With(t);
    assert TrackRun(s, a, t).place == Relocate(a.place, a.onPending, With(t));
    assert Advance(s, t).pc == s.pc[t := TakeNext(s.pending)];
    assert s.pending in a.onPending;
  }

  lemma PopTaken(pcs: Pcs, moved: map<Tid, seq<Ptr>>, place: map<Ptr, Place>, t: Tid, n: Ptr)
    requires moved.Keys == pcs.Keys && Hands(pcs, moved, place) && t in pcs && pcs[t].PopCas?
    requires n in place && place[n] == InHead
    ensures n in Pool(pcs, place) && Pool(pcs[t := Leave(n)], place[n := With(t)]) == Pool(pcs, place) - {n}
  {
    assert forall m :: m in place ==> place[m] != With(t);
  }

  lemma PoolPop(s: State, a: Aux, t: Tid)
    requires Typed(s, a) && Placed(a.place, a.onHead, a.onPending, s.held) && Hands(s.pc, a.moved, a.place)
    requires t in s.pc && s.pc[t].PopCas? && s.pc[t].snapshot == s.head == First(a.onHead) && a.onHead != []
    ensures PoolStep(Pool(s.pc, a.place), EffectOf(s, Run(t)), Pool(Advance(s, t).pc, TrackRun(s, a, t).place))
  {
    assert s.head in a.onHead;
    PopTaken(s.pc, a.moved, a.place, t, s.head);
    assert TrackRun(s, a, t).place == a.place[s.head := With(t)];
    assert Advance(s, t).pc == s.pc[t := Leave(s.head)];
  }

  lemma PoolSpliced(pcs: Pcs, moved: map<Tid, seq<Ptr>>, place: map<Ptr, Place>, t: Tid)
    requires moved.Keys == pcs.Keys && Hands(pcs, moved, place)
    requires t in pcs && pcs[t].SpliceCas? && pcs[t].res !in moved[t]
    ensures Pool(pcs[t := Bump(pcs[t].res)], Relocate(place, moved[t], InHead)) == Pool(pcs, place)
  {
  }

  lemma PoolSplice(s: State, a: Aux, t: Tid)
    requires Typed(s, a) && Hands(s.pc, a.moved, a.place) && AllCarried(s.next, s.pc, a.moved)
    requires t in s.pc && s.pc[t].SpliceCas? && s.pc[t].prev == s.head
    ensures PoolStep(Pool(s.pc, a.place), EffectOf(s, Run(t)), Pool(Advance(s, t).pc, TrackRun(s, a, t).place))
  {
    var l, res := a.moved[t], s.pc[t].res;
    assert Carried(s.next, s.pc[t], l);
    assert forall n :: n in l || n == res <==> Owns(s.pc[t], l, n);
    assert TrackRun(s, a, t).place == Relocate(a.place, l, InHead);
    assert Advance(s, t).pc == s.pc[t := Bump(res)];
    PoolSpliced(s.pc, a.moved, a.place, t);
  }

  lemma PoolLeave(s: State, a: Aux, t: Tid)
    requires Typed(s, a) && Hands(s.pc, a.moved, a.place) && t in s.pc && s.pc[t].Leave?
    ensures PoolStep(Pool(s.pc, a.place), Nothing, Pool(Advance(s, t).pc, TrackRun(s, a, t).place))
  {
    var n := s.pc[t].result;
    if n != NULL { assert Owns(s.pc[t], a.moved[t], n); }
    assert TrackRun(s, a, t).place == if n == NULL then a.place else a.place[n := Held];
    assert Advance(s, t).pc == s.pc[t := Idle];
  }

  lemma PoolHold(s: State, a: Aux, t: Tid)
    requires Typed(s, a) && Hands(s.pc, a.moved, a.place) && t in s.pc && Carried(s.next, s.pc[t], a.moved[t])
    requires s.pc[t].PushLink? || s.pc[t].Enter? || s.pc[t].TakeNext? || s.pc[t].SpliceLink? || s.pc[t].Bump?
    ensures PoolStep(Pool(s.pc, a.place), Nothing, Pool(Advance(s, t).pc, TrackRun(s, a, t).place))
  {
    if s.pc[t].TakeNext? { TakeNextCarried(s.next, s.pc[t].res, a.moved[t]); }
    PoolMove(s.pc, a.moved, a.place, t, Advance(s, t).pc[t]);
    assert Advance(s, t).pc == s.pc[t := Advance(s, t).pc[t]];
  }

  lemma PoolRun(s: State, a: Aux, t: Tid)
    requires Inv(s, a) && t in s.pc && s.pc[t] != Idle
    ensures PoolStep(Pool(s.pc, a.place), EffectOf(s, Run(t)), Pool(Advance(s, t).pc, TrackRun(s, a, t).place))
  {
    if IsLocal(s, t) {
      PoolLocal(s, a, t);
    } else if s.pc[t].PushCas? {
      PoolPush(s, a, t);
    } else if s.pc[t].TakePending? {
      TakeCopy(s, a, t);
      PoolTake(s, a, t);
    } else if s.pc[t].PopCas? {
      PopIsSafe(s, a, t);
      PoolPop(s, a, t);
    } else if s.pc[t].SpliceCas? {
      PoolSplice(s, a, t);
    } else if s.pc[t].Leave? {
      PoolLeave(s, a, t);
    } else {
      PoolHold(s, a, t);
    }
  }

  lemma PoolCall(s: State, a: Aux, t: Tid, n: Ptr)
    requires Typed(s, a) && Placed(a.place, a.onHead, a.onPending, s.held) && Hands(s.pc, a.moved, a.place)
    requires t in s.pc && s.pc[t] == Idle
    ensures Pool(s.pc[t := ReadCounter], a.place) == Pool(s.pc, a.place)
    ensures n in s.held ==> Pool(s.pc[t := FreeTest(n)], a.place[n := With(t)]) == Pool(s.pc, a.place)
  {
    PoolMove(s.pc, a.moved, a.place, t, ReadCounter);
  }

  /** Every step of every thread is one atomic step of the pool, or leaves it alone. */
  lemma StepRefinesPool(s: State, a: Aux, e: Event)
    requires Inv(s, a) && Enabled(s, e)
    ensures PoolStep(Pool(s.pc, a.place), EffectOf(s, e), Pool(Apply(s, e).pc, Track(s, a, e).place))
  {
    match e
    case CallAlloc(t) => PoolCall(s, a, t, NULL);
    case CallFree(t, n) => PoolCall(s, a, t, n);
    case Scribble(n, v) =>
    case Run(t) => PoolRun(s, a, t);
  }

  function Effects(s: State, events: seq<Event>): seq<Effect>
    requires CanRun(s, events)
    decreases |events|
  {
    if events == [] then [] else [EffectOf(s, events[0])] + Effects(Apply(s, events[0]), events[1..])
  }

  /** A history that a pool of free blocks, accessed atomically, can have. */
  ghost predicate Legal(pool: set<Ptr>, effects: seq<Effect>)
    decreases |effects|
  {
    effects == []
    || match effects[0]
       case Nothing => Legal(pool, effects[1..])
       case Take(_, n) => n in pool && Legal(pool - {n}, effects[1..])
       case Put(n) => n !in pool && Legal(pool + {n}, effects[1..])
  }

  lemma {:induction false} RunRefinesPool(s: State, a: Aux, events: seq<Event>)
    requires Inv(s, a) && CanRun(s, events)
    ensures Legal(Pool(s.pc, a.place), Effects(s, events))
    decreases |events|
  {
    if events != [] {
      var e := events[0];
      StepKeepsInv(s, a, e);
      StepRefinesPool(s, a, e);
      RunRefinesPool(Apply(s, e), Track(s, a, e), events[1..]);
      assert Effects(s, events)[1..] == Effects(Apply(s, e), events[1..]);
    }
  }

  /** The takes and puts of any interleaving, in the order of their compare-and-swaps, are a
      history of an atomic pool that starts empty. */
  lemma EveryRunIsAPoolHistory(blocks: map<Ptr, Ptr>, threads: set<Tid>, events: seq<Event>)
    requires NULL !in blocks && CanRun(Start(blocks, threads), events)
    ensures Legal({}, Effects(Start(blocks, threads), events))
  {
    var s := Start(blocks, threads);
    StartInv(blocks, threads);
    assert Pool(s.pc, StartAux(s).place) == {};
    RunRefinesPool(s, StartAux(s), events);
  }

  // ---------------------------------------------------------------- when nothing is handed out

  /** A free block on Pending, or on its way from there. */
  predicate OffHead(pcs: Pcs, place: map<Ptr, Place>, onPending: seq<Ptr>, n: Ptr) {
    n in place && (n in onPending || (place[n].With? && place[n].t in pcs && InTransit(pcs[place[n].t], n)))
  }

  /** The thread's next step decides to return null. */
  predicate GivesUp(s: State, t: Tid) {
    t in s.pc && s.pc[t] != Idle && t in Advance(s, t).pc && Advance(s, t).pc[t] == Leave(NULL)
  }

  /** An Alloc decides to return null only when it reads an empty Head. The blocks that are free at that moment
      are on Pending or on their way from there. */
  lemma NullMeansEmptyHead(s: State, a: Aux, t: Tid)
    requires GivesUp(s, t) && Inv(s, a)
    ensures s.pc[t] == PopRead && s.head == NULL && a.onHead == []
    ensures forall n :: n in Pool(s.pc, a.place) <==> OffHead(s.pc, a.place, a.onPending, n)
  {
    NullFromPopRead(s, a, t);
    if a.onHead != [] { HeadNotNull(s.next, s.head, a.onHead); }
    PoolOffHead(s.pc, a.place, a.onPending, s.held);
  }

  lemma NullFromPopRead(s: State, a: Aux, t: Tid)
    requires Typed(s, a) && AllCarried(s.next, s.pc, a.moved) && Guarded(s.next, s.pc, a.place)
    requires GivesUp(s, t)
    ensures s.pc[t] == PopRead && s.head == NULL
  {
    NotNullYet(s, a, t);
  }

  /** A block that a thread is about to return, or to pop, is one. */
  lemma NotNullYet(s: State, a: Aux, t: Tid)
    requires Typed(s, a) && AllCarried(s.next, s.pc, a.moved) && Guarded(s.next, s.pc, a.place) && t in s.pc
    ensures s.pc[t].Bump? ==> s.pc[t].res != NULL
    ensures s.pc[t].PopCas? ==> s.pc[t].snapshot != NULL
  {
    assert Carried(s.next, s.pc[t], a.moved[t]);
    assert s.pc[t].PopCas? ==> Settled(s.pc, a.place, s.pc[t].snapshot);
  }

  lemma HeadNotNull(next: map<Ptr, Ptr>, head: Ptr, l: seq<Ptr>)
    requires Listed(next, head, l) && l != []
    ensures head != NULL
  {
    assert l[0] in next;
  }

  lemma PoolOffHead(pcs: Pcs, place: map<Ptr, Place>, onPending: seq<Ptr>, held: set<Ptr>)
    requires Placed(place, [], onPending, held)
    ensures forall n :: n in Pool(pcs, place) <==> OffHead(pcs, place, onPending, n)
  {
  }

  ghost predicate Leads(s: State, z: State) { exists events :: CanRun(s, events) && Execute(s, events) == z }

  lemma LeadsStart(z: State)
    ensures Leads(z, z)
  {
    assert CanRun(z, []) && Execute(z, []) == z;
  }

  lemma LeadsStep(s: State, e: Event, s1: State, z: State)
    requires Enabled(s, e) && Apply(s, e) == s1 && Leads(s1, z)
    ensures Leads(s, z)
  {
    var rest :| CanRun(s1, rest) && Execute(s1, rest) == z;
    var events := [e] + rest;
    assert events[1..] == rest;
    assert CanRun(s, events) && Execute(s, events) == z;
  }

  /** Two threads, block 1, and an empty Head. */
  function Race(pending: Ptr, allocCount: int, pc1: Pc, pc2: Pc, held: set<Ptr>): State {
    State(NULL, pending, 0, allocCount, map[1 := NULL], map[1 := pc1, 2 := pc2], held)
  }

  lemma FirstMoves(pending: Ptr, n: int, pc1: Pc, pc2: Pc, held: set<Ptr>, n': int, pc: Pc)
    ensures Goto(Race(pending, n, pc1, pc2, held).(allocCount := n'), 1, pc) == Race(pending, n', pc, pc2, held)
  {
  }

  lemma SecondMoves(pending: Ptr, n: int, pc1: Pc, pc2: Pc, held: set<Ptr>, pending': Ptr, held': set<Ptr>, pc: Pc)
    ensures Goto(Race(pending, n, pc1, pc2, held).(pending := pending', held := held'), 2, pc)
         == Race(pending', n, pc1, pc, held')
  {
  }

  /** The race is over: thread 1 has read an empty Head, and block 1 is on Pending. */
  function Over(): State { Race(1, 1, Leave(NULL), Idle, {}) }

  lemma ReadsEmptyHead()
    ensures Leads(Race(1, 1, PopRead, Idle, {}), Over())
  {
    FirstMoves(1, 1, PopRead, Idle, {}, 1, Leave(NULL));
    LeadsStart(Over());
    LeadsStep(Race(1, 1, PopRead, Idle, {}), Run(1), Over(), Over());
  }

  lemma PutsOnPending()
    ensures Leads(Race(NULL, 1, PopRead, PushLink(false, 1, NULL), {}), Over())
  {
    var s, s1 := Race(NULL, 1, PopRead, PushLink(false, 1, NULL), {}),
      Race(NULL, 1, PopRead, PushCas(false, 1, NULL), {});
    SecondMoves(NULL, 1, PopRead, PushLink(false, 1, NULL), {}, NULL, {}, PushCas(false, 1, NULL));
    SecondMoves(NULL, 1, PopRead, PushCas(false, 1, NULL), {}, 1, {}, Idle);
    assert s.next[1 := NULL] == s.next;
    ReadsEmptyHead();
    LeadsStep(s1, Run(2), Race(1, 1, PopRead, Idle, {}), Over());
    LeadsStep(s, Run(2), s1, Over());
  }

  /** Thread 2 frees block 1 when thread 1 is about to pop. */
  lemma FreesMeanwhile()
    ensures Leads(Race(NULL, 1, PopRead, Idle, {1}), Over())
  {
    var s, s1 := Race(NULL, 1, PopRead, Idle, {1}), Race(NULL, 1, PopRead, FreeTest(1), {});
    var s2, s3 := Race(NULL, 1, PopRead, PushRead(false, 1), {}), Race(NULL, 1, PopRead, PushLink(false, 1, NULL), {});
    SecondMoves(NULL, 1, PopRead, Idle, {1}, NULL, {}, FreeTest(1));
    SecondMoves(NULL, 1, PopRead, FreeTest(1), {}, NULL, {}, PushRead(false, 1));
    SecondMoves(NULL, 1, PopRead, PushRead(false, 1), {}, NULL, {}, PushLink(false, 1, NULL));
    PutsOnPending();
    LeadsStep(s2, Run(2), s3, Over());
    LeadsStep(s1, Run(2), s2, Over());
    LeadsStep(s, CallFree(2, 1), s1, Over());
  }

  /** From the empty list a run leads to where an Alloc returns null although a free block is on Pending. */
  lemma NullDespitePending()
    ensures Leads(Start(map[1 := NULL], {1, 2}), Over())
  {
    var s, s1 := Race(NULL, 0, Idle, Idle, {1}), Race(NULL, 0, ReadCounter, Idle, {1});
    FirstMoves(NULL, 0, Idle, Idle, {1}, 0, ReadCounter);
    EntersPop();
    LeadsStep(s, CallAlloc(1), s1, Over());
    assert Start(map[1 := NULL], {1, 2}) == s;
  }

  /** The same from the Alloc's first read of the counter on. */
  lemma EntersPop()
    ensures Leads(Race(NULL, 0, ReadCounter, Idle, {1}), Over())
  {
    var s1, s2 := Race(NULL, 0, ReadCounter, Idle, {1}), Race(NULL, 0, ReadPending(0), Idle, {1});
    var s3 := Race(NULL, 0, Enter(0, NULL), Idle, {1});
    FirstMoves(NULL, 0, ReadCounter, Idle, {1}, 0, ReadPending(0));
    FirstMoves(NULL, 0, ReadPending(0), Idle, {1}, 0, Enter(0, NULL));
    FirstMoves(NULL, 0, Enter(0, NULL), Idle, {1}, 1, PopRead);
    FreesMeanwhile();
    LeadsStep(s3, Run(1), Race(NULL, 1, PopRead, Idle, {1}), Over());
    LeadsStep(s2, Run(1), s3, Over());
    LeadsStep(s1, Run(1), s2, Over());
  }

  // ---------------------------------------------------------------- one call by one thread alone

  /** Thread t takes n steps with no other thread in between, and its call does not end before. */
  predicate Solo(s: State, t: Tid, n: nat, z: State)
    decreases n
  {
    if n == 0 then s == z else t in s.pc && s.pc[t] != Idle && Solo(Advance(s, t), t, n - 1, z)
  }

  /** One step more in front. */
  lemma Before(s: State, s1: State, t: Tid, x: Pc, y: Pc, n: nat, w: State) returns (m: nat)
    requires t in s.pc && s1.pc == s.pc && x != Idle
    requires Advance(Goto(s, t, x), t) == Goto(s1.(pc := s.pc[t := x]), t, y) && Solo(Goto(s1, t, y), t, n, w)
    ensures Solo(Goto(s, t, x), t, m, w)
  {
    assert s.pc[t := x][t := y] == s.pc[t := y];
    m := n + 1;
  }

  /** DoAlloc. */
  lemma PopAlone(s: State, t: Tid, w: State) returns (n: nat)
    requires t in s.pc
    requires w == Goto(if s.head == NULL then s else s.(head := Load(s, s.head)), t, Leave(s.head))
    ensures Solo(Goto(s, t, PopRead), t, n, w)
  {
    n := 0;
    if s.head == NULL {
      n := Before(s, s, t, PopRead, Leave(NULL), n, w);
    } else {
      n := Pops(s, t, n, w);
      n := Before(s, s, t, PopRead, PopNext(s.head), n, w);
    }
  }

  lemma Pops(s: State, t: Tid, n: nat, w: State) returns (m: nat)
    requires t in s.pc && Solo(Goto(s.(head := Load(s, s.head)), t, Leave(s.head)), t, n, w)
    ensures Solo(Goto(s, t, PopNext(s.head)), t, m, w)
  {
    var res, next := s.head, Load(s, s.head);
    m := Before(s, s.(head := next), t, PopCas(res, next), Leave(res), n, w);
    m := Before(s, s, t, PopNext(res), PopCas(res, next), m, w);
  }

  /** The walk to the end of the list `l`. */
  lemma {:induction false} TailAlone(s: State, t: Tid, res: Ptr, l: seq<Ptr>, i: nat, n: nat, w: State)
    returns (m: nat)
    requires t in s.pc && i < |l| && Segment(s.next, l, NULL)
    requires Solo(Goto(s, t, SpliceRead(res, l[0], l[|l| - 1])), t, n, w)
    ensures Solo(Goto(s, t, FindTail(res, l[0], l[i])), t, m, w)
    decreases |l| - i
  {
    if i + 1 < |l| {
      var k := i + 1;
      assert l[i] in s.next && l[k] in s.next;
      m := TailAlone(s, t, res, l, k, n, w);
      m := FindsNext(s, t, res, l[0], l[i], l[k], m, w);
    } else {
      m := FindsEnd(s, t, res, l[0], l[i], n, w);
    }
  }

  lemma FindsNext(s: State, t: Tid, res: Ptr, fl: Ptr, tail: Ptr, next: Ptr, n: nat, w: State) returns (m: nat)
    requires t in s.pc && Load(s, tail) == next != NULL && Solo(Goto(s, t, FindTail(res, fl, next)), t, n, w)
    ensures Solo(Goto(s, t, FindTail(res, fl, tail)), t, m, w)
  {
    m := Before(s, s, t, FindTail(res, fl, tail), FindTail(res, fl, next), n, w);
  }

  lemma FindsEnd(s: State, t: Tid, res: Ptr, fl: Ptr, tail: Ptr, n: nat, w: State) returns (m: nat)
    requires t in s.pc && Load(s, tail) == NULL && Solo(Goto(s, t, SpliceRead(res, fl, tail)), t, n, w)
    ensures Solo(Goto(s, t, FindTail(res, fl, tail)), t, m, w)
  {
    m := Before(s, s, t, FindTail(res, fl, tail), SpliceRead(res, fl, tail), n, w);
  }

  /** FreeList, for a list `l` that is not empty. */
  lemma SpliceAlone(s: State, t: Tid, res: Ptr, l: seq<Ptr>, n: nat, w: State) returns (m: nat)
    requires t in s.pc && l != [] && Segment(s.next, l, NULL)
    requires Solo(Goto(s.(next := s.next[l[|l| - 1] := s.head], head := l[0]), t, Bump(res)), t, n, w)
    ensures Solo(Goto(s, t, FindTail(res, l[0], l[0])), t, m, w)
  {
    var fl, tail := l[0], l[|l| - 1];
    m := Swings(s.(next := s.next[tail := s.head]), t, res, fl, tail, n, w);
    m := Links(s, t, res, fl, tail, m, w);
    m := TailAlone(s, t, res, l, 0, m, w);
  }

  lemma Swings(s: State, t: Tid, res: Ptr, fl: Ptr, tail: Ptr, n: nat, w: State) returns (m: nat)
    requires t in s.pc && Solo(Goto(s.(head := fl), t, Bump(res)), t, n, w)
    ensures Solo(Goto(s, t, SpliceCas(res, fl, tail, s.head)), t, m, w)
  {
    m := Before(s, s.(head := fl), t, SpliceCas(res, fl, tail, s.head), Bump(res), n, w);
  }

  lemma Links(s: State, t: Tid, res: Ptr, fl: Ptr, tail: Ptr, n: nat, w: State) returns (m: nat)
    requires t in s.pc
    requires Solo(Goto(s.(next := s.next[tail := s.head]), t, SpliceCas(res, fl, tail, s.head)), t, n, w)
    ensures Solo(Goto(s, t, SpliceRead(res, fl, tail)), t, m, w)
  {
    var linked := s.(next := s.next[tail := s.head]);
    m := Before(s, linked, t, SpliceLink(res, fl, tail, s.head), SpliceCas(res, fl, tail, s.head), n, w);
    m := Before(s, s, t, SpliceRead(res, fl, tail), SpliceLink(res, fl, tail, s.head), m, w);
  }

  /** Pending taken, all but its first block in front of Head, and counted. */
  function Took(s: State, l: seq<Ptr>): State
    requires l != []
  {
    s.(pending := NULL, counter := s.counter + 1,
       next := if |l| == 1 then s.next else s.next[l[|l| - 1] := s.head], head := if |l| == 1 then s.head else l[1])
  }

  /** The private path, on a Pending that has not changed since it was read. */
  lemma TakeAlone(s: State, t: Tid, l: seq<Ptr>, w: State) returns (n: nat)
    requires t in s.pc && l != [] && Listed(s.next, s.pending, l) && w == Goto(Took(s, l), t, Leave(l[0]))
    ensures Solo(Goto(s, t, Recheck(s.counter, l[0])), t, n, w)
  {
    var res, rest := l[0], l[1..];
    n := 0;
    RestOf(s.next, l);
    if rest != [] {
      n := Counts(s.(pending := NULL, next := s.next[l[|l| - 1] := s.head], head := l[1]), t, res, n, w);
      HeadNotNull(s.next, rest[0], rest);
      assert rest[|rest| - 1] == l[|l| - 1];
      n := SpliceAlone(s.(pending := NULL), t, res, rest, n, w);
    } else {
      n := Counts(s.(pending := NULL), t, res, n, w);
    }
    n := Takes(s, t, res, First(rest), n, w);
  }

  lemma Counts(s: State, t: Tid, res: Ptr, n: nat, w: State) returns (m: nat)
    requires t in s.pc && Solo(Goto(s.(counter := s.counter + 1), t, Leave(res)), t, n, w)
    ensures Solo(Goto(s, t, Bump(res)), t, m, w)
  {
    m := Before(s, s.(counter := s.counter + 1), t, Bump(res), Leave(res), n, w);
  }

  /** Pending is taken; `fl` comes after its first block. */
  lemma Takes(s: State, t: Tid, res: Ptr, fl: Ptr, n: nat, w: State) returns (m: nat)
    requires t in s.pc && s.pending == res && Load(s, res) == fl
    requires Solo(Goto(s.(pending := NULL), t, if fl == NULL then Bump(res) else FindTail(res, fl, fl)), t, n, w)
    ensures Solo(Goto(s, t, Recheck(s.counter, res)), t, m, w)
  {
    var taken := s.(pending := NULL);
    m := TakesFirst(taken, t, res, fl, n, w);
    m := Before(s, taken, t, TakePending(res), TakeNext(res), m, w);
    m := Before(s, s, t, Recheck(s.counter, res), TakePending(res), m, w);
  }

  lemma TakesFirst(s: State, t: Tid, res: Ptr, fl: Ptr, n: nat, w: State) returns (m: nat)
    requires t in s.pc && Load(s, res) == fl
    requires Solo(Goto(s, t, if fl == NULL then Bump(res) else FindTail(res, fl, fl)), t, n, w)
    ensures Solo(Goto(s, t, TakeNext(res)), t, m, w)
  {
    m := Before(s, s, t, TakeNext(res), if fl == NULL then Bump(res) else FindTail(res, fl, fl), n, w);
  }

  lemma RestOf(next: map<Ptr, Ptr>, l: seq<Ptr>)
    requires l != [] && Distinct(l) && Segment(next, l, NULL)
    ensures Listed(next, First(l[1..]), l[1..]) && next[l[0]] == First(l[1..])
  {
    var rest := l[1..];
    forall i | 0 <= i < |rest|
      ensures rest[i] in next && rest[i] != NULL && next[rest[i]] == After(rest, i, NULL)
    {
      assert rest[i] == l[i + 1];
    }
  }

  lemma JoinLists(next: map<Ptr, Ptr>, l: seq<Ptr>, m: seq<Ptr>)
    requires l != [] && Segment(next, l, NULL) && Segment(next, m, NULL) && Distinct(l + m)
    ensures Listed(next[l[|l| - 1] := First(m)], l[0], l + m)
  {
    var next', whole := next[l[|l| - 1] := First(m)], l + m;
    forall i | 0 <= i < |whole|
      ensures whole[i] in next' && whole[i] != NULL && next'[whole[i]] == After(whole, i, NULL)
    {
      assert i < |l| ==> whole[i] == l[i];
      assert i >= |l| ==> whole[i] == m[i - |l|];
      assert i != |l| - 1 ==> whole[i] != whole[|l| - 1];
    }
  }

  /** A list on which other blocks have been put. */
  lemma Untouched(next: map<Ptr, Ptr>, head: Ptr, l: seq<Ptr>, n: Ptr, v: Ptr)
    requires Listed(next, head, l) && n !in l
    ensures Listed(next[n := v], head, l)
  {
  }

  lemma ListsApart(place: map<Ptr, Place>, onHead: seq<Ptr>, onPending: seq<Ptr>, held: set<Ptr>, l: seq<Ptr>)
    requires Placed(place, onHead, onPending, held) && Distinct(onHead) && Distinct(onPending)
    requires l == if onPending == [] then [] else onPending[1..]
    ensures Distinct(l + onHead)
  {
    forall i, j | 0 <= i < j < |l + onHead| ensures (l + onHead)[i] != (l + onHead)[j] {
      if i < |l| <= j {
        assert onPending[i + 1] in onPending && onHead[j - |l|] in onHead;
      }
    }
  }

  /** An Alloc that is not disturbed ends, wherever the other threads are. With no other in flight it returns
      the first block of Pending, if there is one, and puts the rest in front of Head; otherwise the first
      block of Head, if there is one, and null if not. */
  lemma LoneAlloc(s: State, a: Aux, t: Tid) returns (n: nat, w: State, res: Ptr)
    requires Inv(s, a) && t in s.pc && s.pc[t] == Idle
    ensures Solo(Apply(s, CallAlloc(t)), t, n, w) && t in w.pc && w.pc[t] == Leave(res)
    ensures var z := Advance(w, t);
      && z.pc == s.pc && z.allocCount == s.allocCount && z.held == (if res == NULL then s.held else s.held + {res})
      && (res == NULL ==> z == s)
      && if s.allocCount == 0 && a.onPending != [] then
           res == a.onPending[0] && Listed(z.next, z.head, a.onPending[1..] + a.onHead) && z.pending == NULL
         else if a.onHead != [] then
           res == a.onHead[0] && Listed(z.next, z.head, a.onHead[1..]) && Listed(z.next, z.pending, a.onPending)
         else
           res == NULL && z.head == NULL && Listed(z.next, z.pending, a.onPending)
  {
    var entered := s.(allocCount := s.allocCount + 1);
    if s.allocCount == 0 && a.onPending != [] {
      res := a.onPending[0];
      w := Goto(Took(entered, a.onPending), t, Leave(res));
      n := LoneTake(s, t, a.onPending, w);
      AfterTake(s.next, s.pending, s.head, a.onPending, a.onHead, a.place, s.held);
      Returns(Took(entered, a.onPending), t, res);
    } else {
      if a.onPending != [] { HeadNotNull(s.next, s.pending, a.onPending); }
      res := s.head;
      w := Goto(if res == NULL then entered else entered.(head := Load(s, res)), t, Leave(res));
      n := LonePop(s, t, w);
      AfterPop(s.next, s.head, a.onHead);
      Returns(if res == NULL then entered else entered.(head := Load(s, res)), t, res);
    }
  }

  lemma LoneTake(s: State, t: Tid, l: seq<Ptr>, w: State) returns (n: nat)
    requires t in s.pc && s.pc[t] == Idle && s.allocCount == 0 && Listed(s.next, s.pending, l) && l != []
    requires w == Goto(Took(s.(allocCount := s.allocCount + 1), l), t, Leave(l[0]))
    ensures Solo(Apply(s, CallAlloc(t)), t, n, w)
  {
    HeadNotNull(s.next, s.pending, l);
    n := TakeAlone(s.(allocCount := s.allocCount + 1), t, l, w);
    n := Enters(s, t, n, w);
  }

  lemma LonePop(s: State, t: Tid, w: State) returns (n: nat)
    requires t in s.pc && s.pc[t] == Idle && (s.allocCount != 0 || s.pending == NULL)
    requires var entered := s.(allocCount := s.allocCount + 1);
      w == Goto(if s.head == NULL then entered else entered.(head := Load(s, s.head)), t, Leave(s.head))
    ensures Solo(Apply(s, CallAlloc(t)), t, n, w)
  {
    n := PopAlone(s.(allocCount := s.allocCount + 1), t, w);
    n := Enters(s, t, n, w);
  }

  lemma AfterPop(next: map<Ptr, Ptr>, head: Ptr, m: seq<Ptr>)
    requires Listed(next, head, m)
    ensures head == NULL <==> m == []
    ensures m != [] ==> head == m[0] && Listed(next, At(next, head), m[1..])
  {
    if m != [] {
      HeadNotNull(next, head, m);
      RestOf(next, m);
    }
  }

  /** The last step. */
  lemma Returns(s: State, t: Tid, res: Ptr)
    requires t in s.pc && s.pc[t] == Idle
    ensures Advance(Goto(s, t, Leave(res)), t)
      == s.(allocCount := s.allocCount - 1, held := if res == NULL then s.held else s.held + {res})
  {
    BackToIdle(s.pc, t, Leave(res));
  }

  lemma BackToIdle(pcs: Pcs, t: Tid, pc: Pc)
    requires t in pcs && pcs[t] == Idle
    ensures pcs[t := pc][t := Idle] == pcs
  {
  }

  /** The reads at the start of Alloc, and the increment. */
  lemma Enters(s: State, t: Tid, n: nat, w: State) returns (m: nat)
    requires t in s.pc && s.pc[t] == Idle
    requires Solo(Goto(s.(allocCount := s.allocCount + 1), t,
      if s.allocCount == 0 && s.pending != NULL then Recheck(s.counter, s.pending) else PopRead), t, n, w)
    ensures Solo(Apply(s, CallAlloc(t)), t, m, w)
  {
    var c, fl := s.counter, s.pending;
    m := EntersFrom(s, t, n, w);
    m := Before(s, s, t, ReadPending(c), Enter(c, fl), m, w);
    m := Before(s, s, t, ReadCounter, ReadPending(c), m, w);
  }

  lemma EntersFrom(s: State, t: Tid, n: nat, w: State) returns (m: nat)
    requires t in s.pc
    requires Solo(Goto(s.(allocCount := s.allocCount + 1), t,
      if s.allocCount == 0 && s.pending != NULL then Recheck(s.counter, s.pending) else PopRead), t, n, w)
    ensures Solo(Goto(s, t, Enter(s.counter, s.pending)), t, m, w)
  {
    m := Before(s, s.(allocCount := s.allocCount + 1), t, Enter(s.counter, s.pending),
      if s.allocCount == 0 && s.pending != NULL then Recheck(s.counter, s.pending) else PopRead, n, w);
  }

  /** The lists when the private path has been taken. */
  lemma AfterTake(next: map<Ptr, Ptr>, pending: Ptr, head: Ptr, l: seq<Ptr>, m: seq<Ptr>, place: map<Ptr, Place>,
                  held: set<Ptr>)
    requires Placed(place, m, l, held) && Listed(next, pending, l) && Listed(next, head, m) && l != []
    ensures Listed(if |l| == 1 then next else next[l[|l| - 1] := head], if |l| == 1 then head else l[1], l[1..] + m)
  {
    RestOf(next, l);
    ListsApart(place, m, l, held, l[1..]);
    if |l| > 1 { JoinLists(next, l[1..], m); } else { assert l[1..] + m == m; }
  }

  /** When no call is running, null is returned exactly if both lists are empty. */
  lemma NullWhenIdle(s: State, a: Aux, t: Tid) returns (n: nat, w: State, res: Ptr)
    requires Inv(s, a) && t in s.pc && forall u :: u in s.pc ==> s.pc[u] == Idle
    ensures Solo(Apply(s, CallAlloc(t)), t, n, w) && t in w.pc && w.pc[t] == Leave(res)
    ensures res == NULL <==> s.head == NULL && s.pending == NULL
    ensures res == if s.pending != NULL then s.pending else s.head
  {
    forall u | u in s.pc ensures u !in Flying(s.pc) { assert !Idle.InFlight(); }
    assert Flying(s.pc) == {};
    n, w, res := LoneAlloc(s, a, t);
    if a.onPending != [] { HeadNotNull(s.next, s.pending, a.onPending); }
    if a.onHead != [] { HeadNotNull(s.next, s.head, a.onHead); }
  }

  /** A Free that is not disturbed ends, with the block in front of Head if no Alloc is in flight, and in front
      of Pending otherwise. */
  lemma LoneFree(s: State, a: Aux, t: Tid, b: Ptr) returns (n: nat, z: State)
    requires Inv(s, a) && t in s.pc && s.pc[t] == Idle && b in s.held
    ensures Solo(Apply(s, CallFree(t, b)), t, n, z) && z.pc == s.pc && z.held == s.held - {b}
    ensures z.allocCount == s.allocCount
    ensures Listed(z.next, z.head, if s.allocCount == 0 then [b] + a.onHead else a.onHead)
    ensures Listed(z.next, z.pending, if s.allocCount == 0 then a.onPending else [b] + a.onPending)
  {
    var toHead := s.allocCount == 0;
    var prev := if toHead then s.head else s.pending;
    var freed := s.(held := s.held - {b});
    var linked := freed.(next := s.next[b := prev]);
    var put := if toHead then linked.(head := b) else linked.(pending := b);
    z := Goto(put, t, Idle);
    n := Pushes(freed, t, b, 0, z);
    assert s.pc[t := Idle] == s.pc;
    assert b !in a.onHead && b !in a.onPending && b in s.next;
    Untouched(s.next, s.head, a.onHead, b, prev);
    Untouched(s.next, s.pending, a.onPending, b, prev);
    PutInFront(s.next, prev, if toHead then a.onHead else a.onPending, b);
  }

  lemma Pushes(s: State, t: Tid, b: Ptr, n: nat, z: State) returns (m: nat)
    requires t in s.pc
    requires var prev := if s.allocCount == 0 then s.head else s.pending;
      var linked := s.(next := s.next[b := prev]);
      Solo(Goto(if s.allocCount == 0 then linked.(head := b) else linked.(pending := b), t, Idle), t, n, z)
    ensures Solo(Goto(s, t, FreeTest(b)), t, m, z)
  {
    var toHead := s.allocCount == 0;
    var prev := if toHead then s.head else s.pending;
    var linked := s.(next := s.next[b := prev]);
    var put := if toHead then linked.(head := b) else linked.(pending := b);
    m := Before(linked, put, t, PushCas(toHead, b, prev), Idle, n, z);
    m := Before(s, linked, t, PushLink(toHead, b, prev), PushCas(toHead, b, prev), m, z);
    m := Before(s, s, t, PushRead(toHead, b), PushLink(toHead, b, prev), m, z);
    m := Before(s, s, t, FreeTest(b), PushRead(toHead, b), m, z);
  }

  lemma PutInFront(next: map<Ptr, Ptr>, head: Ptr, l: seq<Ptr>, b: Ptr)
    requires Listed(next, head, l) && b !in l && b != NULL
    ensures Listed(next[b := head], b, [b] + l)
  {
    var next', whole := next[b := head], [b] + l;
    forall i | 0 <= i < |whole|
      ensures whole[i] in next' && whole[i] != NULL && next'[whole[i]] == After(whole, i, NULL)
    {
      assert i > 0 ==> whole[i] == l[i - 1];
    }
  }
}
