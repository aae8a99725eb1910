/** How many more blocks of a size there are to be had without defragmentation. */
module BlockSupply {
  import opened Blocks

  const LARGE: nat := 128 * CHUNK

  /** The system's answer to request n for a region, 0 for a refusal. */
  function Answer(region: seq<nat>, n: nat): nat { if n < |region| then region[n] else 0 }

  /** The whole chunks inside a region. */
  function WholeChunks(place: nat): (n: nat)
    ensures n > 0
  {
    (place + LARGE) / CHUNK - (place + CHUNK - 1) / CHUNK
  }

  /** The chunks of the regions from request n on, up to the first refusal. */
  function ChunksToCome(region: seq<nat>, n: nat): nat
    decreases |region| - n
  {
    if Answer(region, n) == 0 then 0 else WholeChunks(region[n]) + ChunksToCome(region, n + 1)
  }

  /** How many blocks of this size fit. */
  function CellsIn(room: nat, size: nat): nat { if size == 0 || room < size then 0 else 1 + CellsIn(room - size, size) }

  /** They fill the room but for less than a block. */
  lemma {:induction false} CellsFill(room: nat, size: nat)
    requires size > 0
    ensures CellsIn(room, size) * size <= room < CellsIn(room, size) * size + size
  {
    if room >= size {
      var k := CellsIn(room - size, size);
      CellsFill(room - size, size);
      assert (1 + k) * size == size + k * size;
    }
  }

  /** The blocks of this size from `cur` to the end of its chunk. */
  function CellsLeft(cur: nat, size: nat): nat { if cur == 0 then 0 else CellsIn(CHUNK - cur % CHUNK, size) }

  /** The blocks of `chunks` chunks. */
  function CellsOf(chunks: nat, size: nat): nat {
    if chunks == 0 then 0 else CellsOf(chunks - 1, size) + CellsIn(CHUNK, size)
  }

  /** The blocks of size index s in the rest of the current chunk, in the free chunks and in the regions to come. */
  function BlocksLeft(z: seq<int>, region: seq<nat>, h: Heap, s: nat): nat {
    if s < |z| && s < |h.current| && z[s] > 0
    then CellsLeft(h.current[s], z[s]) + CellsOf(|h.free| + ChunksToCome(region, h.mapped), z[s])
    else 0
  }

  /** Carving a block leaves one less. */
  lemma CellCarved(cur: nat, size: nat, next: nat)
    requires size > 0 && cur != 0 && cur % CHUNK + size <= CHUNK
    requires next == if cur % CHUNK + size == CHUNK then 0 else cur + size
    ensures CellsLeft(next, size) + 1 == CellsLeft(cur, size)
  {
    var x := CHUNK - cur % CHUNK;
    assert CellsIn(x, size) == 1 + CellsIn(x - size, size);
    assert next != 0 ==> CHUNK - next % CHUNK == x - size;
  }

  /** A new current chunk has all its blocks but the first. */
  lemma FirstCell(c: nat, size: nat)
    requires 0 < size <= MAX_MEM_PER_SIZE && c > 0
    ensures CellsLeft(c * CHUNK + size, size) + 1 == CellsIn(CHUNK, size)
  {
    assert (c * CHUNK + size) % CHUNK == size;
  }

  /** There is none left exactly when the current chunk has no room, no chunk is free and the next request
      is refused. */
  lemma NoneLeft(z: seq<int>, region: seq<nat>, h: Heap, s: nat)
    requires s < |z| && s < |h.current| && 0 < z[s] <= MAX_MEM_PER_SIZE
    ensures BlocksLeft(z, region, h, s) == 0 <==>
      && (h.current[s] == 0 || h.current[s] % CHUNK + z[s] > CHUNK)
      && h.free == [] && Answer(region, h.mapped) == 0
  {
    var chunks := |h.free| + ChunksToCome(region, h.mapped);
    assert chunks > 0 ==> CellsOf(chunks, z[s]) > 0;
  }

  /** Mapping a region turns chunks to come into free chunks. */
  lemma MappedSame(z: seq<int>, region: seq<nat>, h: Heap, h': Heap, s: nat)
    requires Answer(region, h.mapped) != 0 && h'.mapped == h.mapped + 1 && h'.current == h.current
    requires |h'.free| == |h.free| + WholeChunks(Answer(region, h.mapped))
    ensures BlocksLeft(z, region, h', s) == BlocksLeft(z, region, h, s)
  {
    assert ChunksToCome(region, h.mapped) == WholeChunks(region[h.mapped]) + ChunksToCome(region, h'.mapped);
  }

  lemma CarvedOne(z: seq<int>, region: seq<nat>, h: Heap, h': Heap, s: nat, next: nat)
    requires s < |z| && s < |h.current| && z[s] > 0 && h.current[s] != 0 && h.current[s] % CHUNK + z[s] <= CHUNK
    requires next == if h.current[s] % CHUNK + z[s] == CHUNK then 0 else h.current[s] + z[s]
    requires h' == h.(current := h.current[s := next])
    ensures BlocksLeft(z, region, h', s) + 1 == BlocksLeft(z, region, h, s)
  {
    CellCarved(h.current[s], z[s], next);
  }

  lemma TookChunk(z: seq<int>, region: seq<nat>, h: Heap, h': Heap, s: nat, c: nat)
    requires s < |z| && s < |h.current| && 0 < z[s] <= MAX_MEM_PER_SIZE && c > 0
    requires h.current[s] == 0 || h.current[s] % CHUNK + z[s] > CHUNK
    requires |h'.free| + 1 == |h.free| && h'.current == h.current[s := c * CHUNK + z[s]] && h'.mapped == h.mapped
    ensures BlocksLeft(z, region, h', s) + 1 == BlocksLeft(z, region, h, s)
  {
    FirstCell(c, z[s]);
    var chunks := |h'.free| + ChunksToCome(region, h.mapped);
    assert CellsOf(chunks + 1, z[s]) == CellsOf(chunks, z[s]) + CellsIn(CHUNK, z[s]);
  }

  // ---------------------------------------------------------------- groups

  /** The blocks to be had for new groups. */
  function GroupsLeft(z: seq<int>, region: seq<nat>, h: Heap): nat { |h.spare| + BlocksLeft(z, region, h, GROUP_IDX) }

  /** The groups that this many blocks fill. */
  function Groups(n: nat): nat { if n == 0 then 0 else if n <= GROUP then 1 else 1 + Groups(n - GROUP) }

  lemma {:induction false} GroupsFill(n: nat)
    ensures Groups(n) * GROUP >= n > Groups(n) * GROUP - GROUP
  {
    if n > GROUP { GroupsFill(n - GROUP); }
  }

  /** The number of blocks in a stack. */
  function Held(st: Stack): nat { if st.index <= |st.slots| then |st.slots| - st.index else 0 }

  /** The groups that the blocks in the stacks of sizes 1 to n - 1 fill. */
  function GroupsOf(stacks: seq<Stack>, n: nat): nat
    requires n <= |stacks|
  {
    if n <= 1 then 0 else
      var m := n - 1;
      GroupsOf(stacks, m) + Groups(Held(stacks[m]))
  }

  lemma {:induction false} GroupsOfGrows(stacks: seq<Stack>, m: nat, n: nat)
    requires m <= n <= |stacks|
    ensures GroupsOf(stacks, m) <= GroupsOf(stacks, n)
    decreases n
  {
    if m < n {
      var k := n - 1;
      GroupsOfGrows(stacks, m, k);
    }
  }
}
