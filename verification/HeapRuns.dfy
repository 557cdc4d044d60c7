/**
  Whole runs of `do_malloc` and `do_free` on the linked headers: what module HeapSafety shows of the
  sequences holds in memory, and the headers of all live blocks stay as they were written.
 */
module HeapRuns {
  import opened UserHeap
  import opened HeapSafety

  /** The header in front of every live payload says how large its block is. */
  ghost predicate HeadersOk(hdr: map<nat, Header>, live: set<Block>) {
    forall b {:trigger b in live} | b in live :: b.addr in hdr && hdr[b.addr].size == b.size
  }

  /** The headers of the blocks of `live` have not been touched. */
  ghost predicate HeadersKept(hdr: map<nat, Header>, hdr': map<nat, Header>, live: set<Block>) {
    forall b {:trigger b in live} | b in live :: b.addr in hdr && b.addr in hdr' && hdr'[b.addr] == hdr[b.addr]
  }

  /** The heap holds the free list and, in front of the live payloads, their headers. */
  ghost predicate Holds(h: Heap, list: seq<Block>, live: set<Block>, lo: nat, hi: nat)
    reads h
  {
    h.Valid() && h.list == list && 0 < lo && Safe(list, live, lo, hi) && HeadersOk(h.hdr, live)
  }

  // ---------------------------------------------------------------------------
  // One call

  lemma LiveKept(hdr: map<nat, Header>, hdr': map<nat, Header>, list: seq<Block>, live: set<Block>, b: Block)
    requires Sorted(list) && HeadersOk(hdr, live) && OthersKept(hdr, hdr', list, b.addr)
    requires forall c | c in live :: 0 < c.size && Outside(list, c) && c.addr != b.addr
    ensures HeadersKept(hdr, hdr', live)
  {
    forall c | c in live ensures c.addr in hdr' && hdr'[c.addr] == hdr[c.addr] {
      NotListed(list, c);
    }
  }

  lemma NewIsElsewhere(list: seq<Block>, live: set<Block>, lo: nat, hi: nat, n: nat)
    requires Safe(list, live, lo, hi) && FirstFit(list, n) < |list| && 0 < n
    ensures forall c | c in live :: c.addr != BlockFromMalloc(list, n).addr
  {
    var k := FirstFit(list, n);
    forall c | c in live ensures c.addr != BlockFromMalloc(list, n).addr {
      assert Outside(list, c);
      assert c.End() <= list[k].addr || list[k].End() <= c.addr;
    }
  }

  method ReplayMalloc(h: Heap, size: nat, ghost list: seq<Block>, ghost live: set<Block>, ghost lo: nat, ghost hi: nat)
    returns (payload: nat)
    requires Holds(h, list, live, lo, hi) && Guard(list, live, Malloc(size))
    modifies h
    ensures var (l, v) := Step(list, live, Malloc(size)); Holds(h, l, v, lo, hi)
    ensures payload == BlockFromMalloc(list, Units(size)).addr + 1 && HeadersKept(old(h.hdr), h.hdr, live)
  {
    ghost var hdr, b := h.hdr, BlockFromMalloc(list, Units(size));
    var ok;
    payload, ok := h.DoMalloc(size);
    NewIsElsewhere(list, live, lo, hi, Units(size));
    LiveKept(hdr, h.hdr, list, live, b);
    MallocIsSafe(list, live, lo, hi, Units(size));
  }

  method ReplayFree(h: Heap, b: Block, ghost list: seq<Block>, ghost live: set<Block>, ghost lo: nat, ghost hi: nat)
    requires Holds(h, list, live, lo, hi) && Guard(list, live, Free(b))
    modifies h
    ensures var (l, v) := Step(list, live, Free(b)); Holds(h, l, v, lo, hi)
    ensures HeadersKept(old(h.hdr), h.hdr, live - {b})
  {
    ghost var hdr := h.hdr;
    assert Outside(list, b) && 0 < b.size;
    h.DoFree(b.addr + 1);
    assert forall c | c in live - {b} :: Apart2(c, b);
    LiveKept(hdr, h.hdr, list, live - {b}, b);
    FreeIsSafe(list, live, lo, hi, b);
  }

  /** One guarded call on the linked headers. */
  method Replay(h: Heap, op: Op, ghost list: seq<Block>, ghost live: set<Block>, ghost lo: nat, ghost hi: nat)
    requires Holds(h, list, live, lo, hi) && Guard(list, live, op)
    modifies h
    ensures var (l, v) := Step(list, live, op); Holds(h, l, v, lo, hi) && HeadersKept(old(h.hdr), h.hdr, live * v)
  {
    match op
    case Malloc(size) =>
      var payload := ReplayMalloc(h, size, list, live, lo, hi);
    case Free(b) =>
      ReplayFree(h, b, list, live, lo, hi);
  }

  // ---------------------------------------------------------------------------
  // Runs

  /** Guarded calls on the linked headers, one after the other: the list and the live blocks afterwards are those of the
      run, nothing overlaps, and every live block has its header. */
  method ReplayRun(h: Heap, ops: seq<Op>, ghost list: seq<Block>, ghost live: set<Block>, ghost lo: nat, ghost hi: nat)
    requires Holds(h, list, live, lo, hi) && Guarded(list, live, ops)
    modifies h
    ensures Holds(h, Final(list, live, ops).0, Final(list, live, ops).1, lo, hi)
  {
    ghost var l, v := list, live;
    assert ops[0..] == ops;
    for i := 0 to |ops|
      invariant Holds(h, l, v, lo, hi) && Guarded(l, v, ops[i..])
      invariant Final(l, v, ops[i..]) == Final(list, live, ops)
    {
      assert ops[i..][0] == ops[i] && ops[i..][1..] == ops[i + 1..];
      Replay(h, ops[i], l, v, lo, hi);
      l, v := Step(l, v, ops[i]).0, Step(l, v, ops[i]).1;
    }
  }

  /** From `createheap` on. */
  method RunFreshHeap(h: Heap, heap: nat, ops: seq<Op>)
    requires heap != 0 && h.freelist == 0 && Guarded([Block(heap, 255)], {}, ops)
    modifies h
    ensures var (l, v) := Final([Block(heap, 255)], {}, ops); Holds(h, l, v, heap, heap + 256)
  {
    h.CreateHeap(heap);
    FreshHeapIsSafe(heap);
    ReplayRun(h, ops, [Block(heap, 255)], {}, heap, heap + 256);
  }

  // ---------------------------------------------------------------------------
  // A run that loses most of the heap

  /** The calls are guarded and lead to that list and those live blocks. */
  ghost predicate Yields(list: seq<Block>, live: set<Block>, ops: seq<Op>, l: seq<Block>, v: set<Block>) {
    Guarded(list, live, ops) && Final(list, live, ops) == (l, v)
  }

  ghost predicate OpYields(list: seq<Block>, live: set<Block>, op: Op, l: seq<Block>, v: set<Block>) {
    Guard(list, live, op) && Step(list, live, op) == (l, v)
  }

  lemma OpFirst(list: seq<Block>, live: set<Block>, op: Op, m: seq<Block>, w: set<Block>, ops: seq<Op>, all: seq<Op>,
      l: seq<Block>, v: set<Block>)
    requires OpYields(list, live, op, m, w) && Yields(m, w, ops, l, v) && all == [op] + ops
    ensures Yields(list, live, all, l, v)
  {
    assert all[0] == op && all[1..] == ops;
  }

  /** A block of `n` units is cut off the end of the only free block. */
  lemma CutYields(h: nat, u: nat, n: nat, live: set<Block>, w: set<Block>)
    requires 0 < n < u && n <= 255 && w == live + {Block(h + (u - n), n)}
    ensures OpYields([Block(h, u)], live, Malloc(16 * (n - 1)), [Block(h, u - n)], w)
  {
    var list := [Block(h, u)];
    assert Units(16 * (n - 1)) == n;
    assert FirstFit(list, n) == 0;
    assert ListAfterMalloc(list, n) == [Block(h, u - n)];
    assert BlockFromMalloc(list, n) == Block(h + (u - n), n);
  }

  /** Four blocks of a fresh heap. */
  function Part(h: nat, k: nat): Block {
    match k
    case 0 => Block(h + 245, 10)
    case 1 => Block(h + 243, 2)
    case 2 => Block(h + 238, 5)
    case _ => Block(h + 5, 233)
  }

  function Rest(h: nat): Block {
    Block(h, 5)
  }

  lemma FirstIsFreed(h: nat)
    ensures OpYields([Rest(h)], {Part(h, 0), Part(h, 1), Part(h, 2), Part(h, 3)}, Free(Part(h, 0)),
                       [Rest(h), Part(h, 0)], {Part(h, 1), Part(h, 2), Part(h, 3)})
  {
    assert [Rest(h)][1..] == [];
    assert Below([Rest(h)], h + 245) == 1;
    assert ListAfterFree([Rest(h)], Part(h, 0)) == [Rest(h), Part(h, 0)];
    assert {Part(h, 0), Part(h, 1), Part(h, 2), Part(h, 3)} - {Part(h, 0)} == {Part(h, 1), Part(h, 2), Part(h, 3)};
  }

  lemma ThirdIsFreed(h: nat)
    ensures OpYields([Rest(h), Part(h, 0)], {Part(h, 1), Part(h, 2), Part(h, 3)}, Free(Part(h, 2)),
                       [Rest(h), Part(h, 2), Part(h, 0)], {Part(h, 1), Part(h, 3)})
  {
    var list := [Rest(h), Part(h, 0)];
    assert list[1..] == [Part(h, 0)];
    assert Below(list, h + 238) == 1;
    assert ListAfterFree(list, Part(h, 2)) == [Rest(h), Part(h, 2), Part(h, 0)];
    assert {Part(h, 1), Part(h, 2), Part(h, 3)} - {Part(h, 2)} == {Part(h, 1), Part(h, 3)};
  }

  /** The fit is the third block: the list is reset to the second one. */
  lemma HeadIsDropped(h: nat)
    ensures OpYields([Rest(h), Part(h, 2), Part(h, 0)], {Part(h, 1), Part(h, 3)}, Malloc(144),
                       [Part(h, 2)], {Part(h, 0), Part(h, 1), Part(h, 3)})
  {
    var list := [Rest(h), Part(h, 2), Part(h, 0)];
    assert Units(144) == 10;
    assert list[1..] == [Part(h, 2), Part(h, 0)] && list[1..][1..] == [Part(h, 0)];
    assert FirstFit(list[1..][1..], 10) == 0 && FirstFit(list[1..], 10) == 1;
    assert FirstFit(list, 10) == 2;
    assert ListAfterMalloc(list, 10) == [Part(h, 2)];
    assert BlockFromMalloc(list, 10) == Part(h, 0);
    assert {Part(h, 1), Part(h, 3)} + {Part(h, 0)} == {Part(h, 0), Part(h, 1), Part(h, 3)};
  }

  /** The block below the new head is lost. */
  lemma BlockIsLost(h: nat)
    ensures OpYields([Part(h, 2)], {Part(h, 0), Part(h, 1), Part(h, 3)}, Free(Part(h, 3)),
                       [Part(h, 2)], {Part(h, 0), Part(h, 1)})
  {
    assert Below([Part(h, 2)], h + 5) == 0;
    assert ListAfterFree([Part(h, 2)], Part(h, 3)) == [Part(h, 2)];
    assert {Part(h, 0), Part(h, 1), Part(h, 3)} - {Part(h, 3)} == {Part(h, 0), Part(h, 1)};
  }

  /** The calls of the run: four blocks are taken, two of them freed, one taken again, and the largest freed. */
  function Losing(h: nat): seq<Op> {
    [Malloc(144), Malloc(16), Malloc(64), Malloc(3712), Free(Part(h, 0)), Free(Part(h, 2)), Malloc(144),
     Free(Part(h, 3))]
  }

  lemma FreeingLoses(h: nat)
    ensures Yields([Rest(h)], {Part(h, 0), Part(h, 1), Part(h, 2), Part(h, 3)}, Losing(h)[4..], [Part(h, 2)],
                  {Part(h, 0), Part(h, 1)})
  {
    FirstIsFreed(h);
    ThirdIsFreed(h);
    HeadIsDropped(h);
    BlockIsLost(h);
    var l, v := [Part(h, 2)], {Part(h, 0), Part(h, 1)};
    OpFirst([Part(h, 2)], {Part(h, 0), Part(h, 1), Part(h, 3)}, Free(Part(h, 3)), l, v, [], Losing(h)[7..], l, v);
    OpFirst([Rest(h), Part(h, 2), Part(h, 0)], {Part(h, 1), Part(h, 3)}, Malloc(144), [Part(h, 2)],
      {Part(h, 0), Part(h, 1), Part(h, 3)}, Losing(h)[7..], Losing(h)[6..], l, v);
    OpFirst([Rest(h), Part(h, 0)], {Part(h, 1), Part(h, 2), Part(h, 3)}, Free(Part(h, 2)),
      [Rest(h), Part(h, 2), Part(h, 0)], {Part(h, 1), Part(h, 3)}, Losing(h)[6..], Losing(h)[5..], l, v);
    OpFirst([Rest(h)], {Part(h, 0), Part(h, 1), Part(h, 2), Part(h, 3)}, Free(Part(h, 0)), [Rest(h), Part(h, 0)],
      {Part(h, 1), Part(h, 2), Part(h, 3)}, Losing(h)[5..], Losing(h)[4..], l, v);
  }

  /** A guarded run from a fresh heap after which 5 of its 255 units are free and 12 are in use: 238 are lost. */
  lemma LosingTheHeap(h: nat)
    ensures Yields([Block(h, 255)], {}, Losing(h), [Part(h, 2)], {Part(h, 0), Part(h, 1)})
    ensures Total([Part(h, 2)]) == 5 && Part(h, 0).size + Part(h, 1).size == 12
  {
    FreeingLoses(h);
    var a, b, c, d := Part(h, 0), Part(h, 1), Part(h, 2), Part(h, 3);
    var l, v := [c], {a, b};
    CutYields(h, 238, 233, {a, b, c}, {a, b, c, d});
    OpFirst([Block(h, 238)], {a, b, c}, Malloc(3712), [Rest(h)], {a, b, c, d}, Losing(h)[4..], Losing(h)[3..], l, v);
    CutYields(h, 243, 5, {a, b}, {a, b, c});
    OpFirst([Block(h, 243)], {a, b}, Malloc(64), [Block(h, 238)], {a, b, c}, Losing(h)[3..], Losing(h)[2..], l, v);
    CutYields(h, 245, 2, {a}, {a, b});
    OpFirst([Block(h, 245)], {a}, Malloc(16), [Block(h, 243)], {a, b}, Losing(h)[2..], Losing(h)[1..], l, v);
    CutYields(h, 255, 10, {}, {a});
    OpFirst([Block(h, 255)], {}, Malloc(144), [Block(h, 245)], {a}, Losing(h)[1..], Losing(h), l, v);
  }
}
