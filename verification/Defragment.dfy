/** The loops of defragmentation: count listed blocks by chunk, mark the chunks to free, sweep the lists. */
module Defragment {
  import opened Blocks
  import opened BlockMoves
  import opened DrainedChunks

  predicate InChunks(l: seq<nat>, n: nat) { forall a :: a in l ==> a / CHUNK < n }

  lemma {:induction false} FilledHas(ptrs: seq<nat>, a: nat)
    ensures a in Filled(ptrs) <==> a != 0 && a in ptrs
  {
    if ptrs != [] {
      FilledHas(ptrs[..|ptrs| - 1], a);
      assert ptrs == ptrs[..|ptrs| - 1] + [ptrs[|ptrs| - 1]];
    }
  }

  ghost predicate Counts(counts: seq<int>, done: seq<nat>) {
    forall c :: 0 <= c < |counts| ==> counts[c] == CountIn(done, c)
  }

  lemma CountOne(counts: seq<int>, done: seq<nat>, a: nat)
    requires Counts(counts, done) && a / CHUNK < |counts|
    ensures Counts(counts[a / CHUNK := counts[a / CHUNK] + 1], done + [a])
  {
    assert (done + [a])[..|done|] == done;
  }

  /** One group's pointers. */
  method CountGroup(ptrs: seq<nat>, counts: array<int>, ghost done: seq<nat>)
    requires Counts(counts[..], done) && InChunks(Filled(ptrs), counts.Length)
    modifies counts
    ensures Counts(counts[..], done + Filled(ptrs))
  {
    assert done + Filled(ptrs[..0]) == done;
    for i := 0 to |ptrs|
      invariant Counts(counts[..], done + Filled(ptrs[..i]))
    {
      assert ptrs[..i + 1][..i] == ptrs[..i];
      if ptrs[i] != 0 {
        FilledHas(ptrs, ptrs[i]);
        CountOne(counts[..], done + Filled(ptrs[..i]), ptrs[i]);
        ghost var was := counts[..];
        counts[ptrs[i] / CHUNK] := counts[ptrs[i] / CHUNK] + 1;
        assert counts[..] == was[ptrs[i] / CHUNK := was[ptrs[i] / CHUNK] + 1];
        assert done + Filled(ptrs[..i + 1]) == done + Filled(ptrs[..i]) + [ptrs[i]];
      } else {
        assert Filled(ptrs[..i + 1]) == Filled(ptrs[..i]);
      }
    }
    assert ptrs[..|ptrs|] == ptrs;
  }

  lemma Assoc(x: seq<nat>, y: seq<nat>, z: seq<nat>)
    ensures x + (y + z) == (x + y) + z
  {
  }

  lemma {:induction false} PointersConcat(a: seq<Group>, b: seq<Group>)
    ensures Pointers(a + b) == Pointers(a) + Pointers(b)
  {
    if a == [] {
      assert a + b == b;
    } else {
      var g, rest := a[0], a[1..];
      PointersConcat(rest, b);
      assert a == [g] + rest && a + b == [g] + (rest + b);
      Cons(g, rest);
      Cons(g, rest + b);
      Assoc(Filled(g.ptrs), Pointers(rest), Pointers(b));
    }
  }

  /** One list. */
  method CountList(list: seq<Group>, counts: array<int>, ghost done: seq<nat>)
    requires Counts(counts[..], done) && InChunks(Pointers(list), counts.Length)
    modifies counts
    ensures Counts(counts[..], done + Pointers(list))
  {
    assert done + Pointers(list[..0]) == done;
    for i := 0 to |list|
      invariant Counts(counts[..], done + Pointers(list[..i]))
    {
      PointersNext(list, list[..i], list[i], list[i + 1..], done);
      CountGroup(list[i].ptrs, counts, done + Pointers(list[..i]));
      assert list[..i + 1] == list[..i] + [list[i]];
    }
    assert list[..|list|] == list;
  }

  lemma PointersNext(list: seq<Group>, before: seq<Group>, g: Group, after: seq<Group>, done: seq<nat>)
    requires list == before + [g] + after
    ensures forall a :: a in Filled(g.ptrs) ==> a in Pointers(list)
    ensures done + Pointers(before) + Filled(g.ptrs) == done + Pointers(before + [g])
  {
    PointersConcat(before, [g]);
    assert [g] + [] == [g];
    Cons(g, []);
    PointersConcat(before + [g], after);
    Assoc(done, Pointers(before), Filled(g.ptrs));
  }

  /** The number of free blocks listed, for every chunk. */
  method CountAll(lists: seq<seq<Group>>, n: nat) returns (counts: array<int>)
    requires forall s :: 0 <= s < |lists| ==> InChunks(Pointers(lists[s]), n)
    ensures fresh(counts) && counts.Length == n && Counts(counts[..], Concat(PointerParts(lists)))
  {
    counts := new int[n](_ => 0);
    ghost var parts := PointerParts(lists);
    for s := 0 to |lists|
      invariant counts.Length == n && Counts(counts[..], Concat(parts[..s]))
    {
      assert parts[..s + 1][..s] == parts[..s];
      CountList(lists[s], counts, Concat(parts[..s]));
    }
    assert parts[..|lists|] == parts;
  }

  /** The mark left in place of a count. */
  predicate MarkOf(z: seq<int>, k: int, count: int, mark: int) {
    mark == if 1 <= k < |z| && z[k] > 0 && count == CHUNK / z[k] then 1 else 0
  }

  /** Replaces each count by 1 if it is the number of blocks of the chunk, and by 0 otherwise. */
  method MarkFull(z: seq<int>, kind: seq<int>, counts: array<int>) returns (any: bool)
    requires SizesOk(z) && KindsOk(z, kind) && counts.Length == |kind|
    modifies counts
    ensures forall c :: 0 <= c < |kind| ==> MarkOf(z, kind[c], old(counts[c]), counts[c])
    ensures any <==> exists c :: 0 <= c < |kind| && counts[c] != 0
  {
    any := false;
    for c := 0 to |kind|
      invariant forall i :: 0 <= i < c ==> MarkOf(z, kind[i], old(counts[i]), counts[i])
      invariant forall i :: c <= i < |kind| ==> counts[i] == old(counts[i])
      invariant any <==> exists i :: 0 <= i < c && counts[i] != 0
    {
      assert KindOk(z, kind, c);
      var fc := counts[c];
      counts[c] := 0;
      if kind[c] > 0 {
        var entries := CHUNK / z[kind[c]];
        if fc == entries {
          any := true;
          counts[c] := 1;
        }
      }
    }
  }

  /** One group: the pointers that stay move to the front, the rest becomes empty. */
  method SweepGroup(ptrs: seq<nat>, freed: array<int>) returns (p: seq<nat>, dst: nat)
    requires |ptrs| == GROUP && InChunks(Filled(ptrs), freed.Length)
    ensures dst == |Kept(ptrs, freed[..])| <= GROUP && (dst != 0 ==> p == Padded(Kept(ptrs, freed[..])))
  {
    p, dst := ptrs, 0;
    ghost var marks := freed[..];
    for i := 0 to GROUP
      invariant |p| == GROUP && dst <= i && p[..dst] == Kept(ptrs[..i], marks)
      invariant forall j :: i <= j < GROUP ==> p[j] == ptrs[j]
    {
      var data := p[i];
      assert data == ptrs[i] && ptrs[..i + 1][..i] == ptrs[..i];
      if data != 0 {
        FilledHas(ptrs, data);
        if freed[data / CHUNK] == 0 {
          p := p[dst := data];
          dst := dst + 1;
        }
      }
    }
    assert ptrs[..GROUP] == ptrs;
    if dst != 0 {
      ghost var front := p[..dst];
      for i := dst to GROUP
        invariant |p| == GROUP && p[..dst] == front && forall j :: dst <= j < i ==> p[j] == 0
      {
        p := p[i := 0];
      }
    }
  }

  lemma SweptCons(list: seq<Group>, freed: seq<int>)
    requires Whole(list) && list != []
    ensures |Kept(list[0].ptrs, freed)| <= GROUP
    ensures Swept(list, freed)
         == (if Kept(list[0].ptrs, freed) == [] then [] else [Group(list[0].addr, Padded(Kept(list[0].ptrs, freed)))])
            + Swept(list[1..], freed)
    ensures Dropped(list, freed)
         == (if Kept(list[0].ptrs, freed) == [] then [list[0].addr] else []) + Dropped(list[1..], freed)
  {
    KeptBound(list[0].ptrs, freed);
  }

  /** One list: groups without pointers leave it and become spare. */
  method SweepList(list: seq<Group>, freed: array<int>, spare0: seq<nat>) returns (swept: seq<Group>, spare: seq<nat>)
    requires Whole(list) && InChunks(Pointers(list), freed.Length)
    ensures swept == Swept(list, freed[..])
    ensures multiset(spare) == multiset(spare0) + multiset(Dropped(list, freed[..]))
  {
    swept, spare := [], spare0;
    ghost var marks := freed[..];
    assert list[0..] == list;
    for i := 0 to |list|
      invariant swept + Swept(list[i..], marks) == Swept(list, marks)
      invariant multiset(spare) + multiset(Dropped(list[i..], marks)) == multiset(spare0)
        + multiset(Dropped(list, marks))
    {
      assert list[i..][1..] == list[i + 1..] && list[i..][0] == list[i];
      SweptCons(list[i..], marks);
      OneGroup(list, i, freed.Length);
      var p, dst := SweepGroup(list[i].ptrs, freed);
      SweepStep(swept, list[i..], marks, Swept(list, marks));
      SpareStep(spare, list[i..], marks);
      if dst == 0 {
        spare := [list[i].addr] + spare;
      } else {
        swept := swept + [Group(list[i].addr, p)];
      }
    }
  }

  lemma {:induction false} OneGroup(list: seq<Group>, i: nat, n: nat)
    requires InChunks(Pointers(list), n) && i < |list|
    ensures InChunks(Filled(list[i].ptrs), n)
  {
    assert list == list[..i] + ([list[i]] + list[i + 1..]);
    PointersConcat(list[..i], [list[i]] + list[i + 1..]);
    Cons(list[i], list[i + 1..]);
    forall a | a in Filled(list[i].ptrs) ensures a in Pointers(list) { }
  }

  lemma SweepStep(swept: seq<Group>, rest: seq<Group>, freed: seq<int>, all: seq<Group>)
    requires Whole(rest) && rest != [] && swept + Swept(rest, freed) == all
    ensures |Kept(rest[0].ptrs, freed)| <= GROUP
    ensures (if Kept(rest[0].ptrs, freed) == [] then swept
      else swept + [Group(rest[0].addr, Padded(Kept(rest[0].ptrs, freed)))]) + Swept(rest[1..], freed) == all
  {
    SweptCons(rest, freed);
  }

  lemma SpareStep(spare: seq<nat>, rest: seq<Group>, freed: seq<int>)
    requires Whole(rest) && rest != []
    ensures multiset(if Kept(rest[0].ptrs, freed) == [] then [rest[0].addr] + spare else spare)
      + multiset(Dropped(rest[1..], freed))
         == multiset(spare) + multiset(Dropped(rest, freed))
  {
    SweptCons(rest, freed);
  }

  /** All lists. */
  method SweepAll(lists0: seq<seq<Group>>, freed: array<int>, spare0: seq<nat>)
    returns (lists: seq<seq<Group>>, spare: seq<nat>)
    requires forall s :: 0 <= s < |lists0| ==> Whole(lists0[s]) && InChunks(Pointers(lists0[s]), freed.Length)
    ensures AllSwept(lists0, lists, freed[..])
    ensures multiset(spare) + InGroups(lists) == multiset(spare0) + InGroups(lists0)
  {
    lists, spare := lists0, spare0;
    ghost var marks := freed[..];
    for s := 0 to |lists0|
      invariant |lists| == |lists0|
      invariant forall i :: 0 <= i < s ==> lists[i] == Swept(lists0[i], marks)
      invariant forall i :: s <= i < |lists| ==> lists[i] == lists0[i]
      invariant multiset(spare) + InGroups(lists) == multiset(spare0) + InGroups(lists0)
    {
      var swept, spare' := SweepList(lists[s], freed, spare);
      SweepBalance(lists, s, marks, spare, swept, spare');
      lists, spare := lists[s := swept], spare';
    }
  }

  lemma SweepBalance(lists: seq<seq<Group>>, s: nat, freed: seq<int>, spare: seq<nat>, swept: seq<Group>,
                     spare': seq<nat>)
    requires s < |lists| && Whole(lists[s]) && swept == Swept(lists[s], freed)
    requires multiset(spare') == multiset(spare) + multiset(Dropped(lists[s], freed))
    ensures multiset(spare') + InGroups(lists[s := swept]) == multiset(spare) + InGroups(lists)
  {
    SweptAddresses(lists[s], freed);
    ListUpdate(lists, s, swept);
    var x, y, d := multiset(Addresses(lists[s])), multiset(Addresses(swept)), multiset(Dropped(lists[s], freed));
    forall e ensures (multiset(spare') + InGroups(lists[s := swept]))[e] == (multiset(spare) + InGroups(lists))[e] {
      assert (InGroups(lists[s := swept]) + x)[e] == (InGroups(lists) + y)[e];
      assert (y + d)[e] == x[e];
    }
  }

  /** The marked chunks among the first n, in order. */
  function MarkedChunks(freed: seq<int>, n: nat): (l: seq<nat>)
    requires n <= |freed|
  {
    if n == 0 then [] else MarkedChunks(freed, n - 1) + if freed[n - 1] != 0 then [n - 1] else []
  }

  lemma {:induction false} MarkedHas(freed: seq<int>, n: nat, c: nat)
    requires n <= |freed|
    ensures c in MarkedChunks(freed, n) <==> c < n && freed[c] != 0
  {
    if n == 0 {
      return;
    }
    var m := n - 1;
    MarkedHas(freed, m, c);
  }

  lemma MarkedNext(freed: seq<int>, c: nat, free0: seq<nat>, free: seq<nat>)
    requires c < |freed| && free == free0 + MarkedChunks(freed, c)
    ensures (if freed[c] != 0 then free + [c] else free) == free0 + MarkedChunks(freed, c + 1)
  {
  }

  /** AddFreeChunk for every marked chunk. */
  method FreeMarked(kind0: seq<int>, freed: array<int>, free0: seq<nat>) returns (kind: seq<int>, free: seq<nat>)
    requires freed.Length == |kind0| && FreeOk(kind0, free0)
    requires forall c :: 0 <= c < |kind0| && freed[c] != 0 ==> c > 0 && kind0[c] >= 1
    ensures kind == Cleared(kind0, freed[..], |kind0|) && FreeOk(kind, free)
    ensures free == free0 + MarkedChunks(freed[..], |kind0|)
  {
    kind, free := kind0, free0;
    ghost var marks := freed[..];
    for c := 0 to |kind0|
      invariant kind == Cleared(kind0, marks, c) && FreeOk(kind, free)
      invariant free == free0 + MarkedChunks(marks, c)
    {
      MarkedNext(marks, c, free0, free);
      if freed[c] != 0 {
        FreeSnoc(kind, free, c, kind[c := -1], free + [c]);
        kind := kind[c := -1];
        free := free + [c];
      }
      assert kind == Cleared(kind0, marks, c + 1);
    }
  }

  /** The marks left by the counting are on just the drained chunks. */
  lemma CountsMark(z: seq<int>, h: Heap, out: multiset<nat>, counts: seq<int>, freed: seq<int>)
    requires Inv(z, h, out) && |counts| == |freed| == |h.kind| && Counts(counts, Concat(PointerParts(h.lists)))
    requires forall c :: 0 <= c < |freed| ==> MarkOf(z, h.kind[c], counts[c], freed[c])
    ensures Marked(z, h, freed)
  {
    var l := Concat(PointerParts(h.lists));
    assert multiset(l) == Listed(h.lists);
    forall a ensures multiset(l)[a] <= 1 {
      assert BalancedAt(z, h.kind, h.current, Stock(h) + out, a);
    }
    forall a | a in l ensures IsCarved(z, h.kind, h.current, a) {
      assert a in multiset(l);
      OnlyCarved(z, h.kind, h.current, Stock(h) + out, a);
    }
    forall c | 0 <= c < |freed| ensures freed[c] != 0 <==> Drained(z, h.kind, Listed(h.lists), c) {
      assert KindOk(z, h.kind, c);
      if 1 <= h.kind[c] {
        CountDecides(z, h.kind, h.current, l, c);
      }
    }
  }
}
