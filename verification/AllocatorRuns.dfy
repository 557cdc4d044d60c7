/**
  The frame allocator over whole runs.  Module FrameAllocator shows that the linked list is a
  FIFO queue of pages; here a run of calls acts on that queue.
 */
module AllocatorRuns {
  import opened FrameAllocator
  import opened Wrappers

  // ---------------------------------------------------------------------------
  // Addresses handed to the callers

  const KERNBASE: bv64 := 0xffffffff80000000
  const USERBASE: bv64 := 0xFFFFCCCC00000000

  /** How `kfree` finds the page behind a pointer. */
  function PhysicalOf(pointer: bv64): bv64 {
    if pointer & KERNBASE == KERNBASE then pointer - KERNBASE
    else if pointer & USERBASE == USERBASE then pointer - USERBASE
    else pointer
  }

  /** `kfree` finds the page again from each of the three forms the `bump` functions return, for every page
      below 2 GB; for the kernel form exactly for those. */
  lemma KfreeRecoversThePage(p: bv64)
    ensures p < 0x80000000 ==> PhysicalOf(p) == p && PhysicalOf(p + USERBASE) == p
    ensures PhysicalOf(p + KERNBASE) == p <==> p < 0x80000000
  {
  }

  // ---------------------------------------------------------------------------
  // Runs

  datatype Call = Alloc(pages: nat) | Free(page: nat)

  /** The queue after one call: too large a request takes nothing. */
  function Next(q: seq<nat>, call: Call): seq<nat> {
    match call
    case Alloc(n) => if n <= |q| then q[n..] else q
    case Free(p) => q + [p]
  }

  function After(q: seq<nat>, calls: seq<Call>): seq<nat> {
    if calls == [] then q else Next(After(q, calls[..|calls| - 1]), calls[|calls| - 1])
  }

  function Requested(calls: seq<Call>): nat {
    if calls == [] then 0
    else Requested(calls[..|calls| - 1]) + (match calls[|calls| - 1] case Alloc(n) => n case Free(_) => 0)
  }

  function Returned(calls: seq<Call>): seq<nat> {
    if calls == [] then []
    else Returned(calls[..|calls| - 1]) + (match calls[|calls| - 1] case Alloc(_) => [] case Free(p) => [p])
  }

  /** The pages that have been handed out so far. */
  function Taken(q: seq<nat>, calls: seq<Call>): nat {
    if calls == [] then 0
    else
      var before := calls[..|calls| - 1];
      Taken(q, before) + match calls[|calls| - 1]
        case Alloc(n) => if n <= |After(q, before)| then n else 0
        case Free(_) => 0
  }

  /** Over every run the queue is the initial pages followed by everything that came back, in order, without
      the pages handed out, which are the first ones of all these. */
  lemma {:induction false} QueueIsRestPlusReturned(q: seq<nat>, calls: seq<Call>)
    ensures Taken(q, calls) <= |q| + |Returned(calls)|
    ensures After(q, calls) == (q + Returned(calls))[Taken(q, calls)..]
  {
    if calls != [] {
      QueueIsRestPlusReturned(q, calls[..|calls| - 1]);
    }
  }

  /** As long as the total requested stays within the initial pages, every request is met. */
  lemma {:induction false} EverythingTaken(q: seq<nat>, calls: seq<Call>)
    requires Requested(calls) <= |q|
    ensures Taken(q, calls) == Requested(calls)
  {
    if calls != [] {
      EverythingTaken(q, calls[..|calls| - 1]);
      QueueIsRestPlusReturned(q, calls[..|calls| - 1]);
    }
  }

  /** The first page that has never been handed out. */
  function NextFresh(a: nat, calls: seq<Call>): nat {
    a + 4096 * Requested(calls)
  }

  lemma RunInside(a: nat, total: nat, rest: seq<nat>, k: nat, n: nat)
    requires k + n <= total
    ensures (PageRun(a, total) + rest)[k..][..n] == PageRun(a + 4096 * k, n)
  {
    var all := PageRun(a, total) + rest;
    assert forall i | 0 <= i < n :: all[k..][i] == all[k + i];
  }

  /** Fresh memory is contiguous: as long as the total requested stays within the initial pages, each
      allocation is the next run of consecutive pages, whatever was freed in between. */
  lemma AllocationIsContiguous(a: nat, total: nat, calls: seq<Call>, n: nat)
    requires Requested(calls) + n <= total
    ensures n <= |After(PageRun(a, total), calls)|
    ensures After(PageRun(a, total), calls)[..n] == PageRun(NextFresh(a, calls), n)
  {
    EverythingTaken(PageRun(a, total), calls);
    QueueIsRestPlusReturned(PageRun(a, total), calls);
    RunInside(a, total, Returned(calls), Requested(calls), n);
  }

  lemma {:induction false} RequestedGrows(calls: seq<Call>, i: nat)
    requires i <= |calls|
    ensures Requested(calls[..i]) <= Requested(calls)
  {
    if i < |calls| {
      assert calls[..|calls| - 1][..i] == calls[..i];
      RequestedGrows(calls[..|calls| - 1], i);
    } else {
      assert calls[..i] == calls;
    }
  }

  lemma RunsApart(p: nat, n: nat, r: nat, k: nat)
    requires r + 4096 * k <= p
    ensures Elements(PageRun(p, n)) !! Elements(PageRun(r, k))
  {
  }

  lemma FreshMovesOn(a: nat, calls: seq<Call>, i: nat)
    requires i < |calls| && calls[i].Alloc?
    ensures NextFresh(a, calls[..i]) + 4096 * calls[i].pages <= NextFresh(a, calls)
    ensures Requested(calls[..i]) + calls[i].pages <= Requested(calls)
  {
    RequestedGrows(calls, i + 1);
    assert calls[..i + 1][..i] == calls[..i];
  }

  /** No allocation overlaps an earlier one. */
  lemma AllocationsAreDisjoint(a: nat, total: nat, calls: seq<Call>, n: nat, i: nat)
    requires Requested(calls) + n <= total && i < |calls| && calls[i].Alloc?
    ensures n <= |After(PageRun(a, total), calls)| && calls[i].pages <= |After(PageRun(a, total), calls[..i])|
    ensures Elements(After(PageRun(a, total), calls)[..n])
            !! Elements(After(PageRun(a, total), calls[..i])[..calls[i].pages])
  {
    FreshMovesOn(a, calls, i);
    AllocationIsContiguous(a, total, calls, n);
    AllocationIsContiguous(a, total, calls[..i], calls[i].pages);
    RunsApart(NextFresh(a, calls), n, NextFresh(a, calls[..i]), calls[i].pages);
  }

  // ---------------------------------------------------------------------------
  // Free and handed-out pages

  /** Who holds a page after one call. */
  ghost function Holding(q: seq<nat>, out: set<nat>, call: Call): set<nat> {
    match call
    case Alloc(n) => if n <= |q| then out + Elements(q[..n]) else out
    case Free(p) => out - {p}
  }

  ghost function Held(q: seq<nat>, out: set<nat>, calls: seq<Call>): set<nat> {
    if calls == [] then out
    else
      var before := calls[..|calls| - 1];
      Holding(After(q, before), Held(q, out, before), calls[|calls| - 1])
  }

  /** What the callers and `kfree` need: only a held page is returned, while some page is free; and nobody asks for
      nothing when none is. */
  ghost predicate LegalCall(q: seq<nat>, out: set<nat>, call: Call) {
    match call
    case Alloc(n) => 0 < n || q != []
    case Free(p) => p in out && q != []
  }

  ghost predicate Legal(q: seq<nat>, out: set<nat>, calls: seq<Call>) {
    calls != [] ==>
      var before := calls[..|calls| - 1];
      Legal(q, out, before) && LegalCall(After(q, before), Held(q, out, before), calls[|calls| - 1])
  }

  /** Free and handed-out pages always partition the pages there were, and no page is queued twice. */
  lemma {:induction false} PagesArePartitioned(q: seq<nat>, out: set<nat>, calls: seq<Call>)
    requires Distinct(q) && Elements(q) !! out && Legal(q, out, calls)
    ensures Distinct(After(q, calls)) && Elements(After(q, calls)) !! Held(q, out, calls)
    ensures Elements(After(q, calls)) + Held(q, out, calls) == Elements(q) + out
  {
    if calls != [] {
      var before := calls[..|calls| - 1];
      PagesArePartitioned(q, out, before);
      StepPartitions(After(q, before), Held(q, out, before), calls[|calls| - 1]);
    }
  }

  lemma StepPartitions(q: seq<nat>, out: set<nat>, call: Call)
    requires Distinct(q) && Elements(q) !! out && LegalCall(q, out, call)
    ensures Distinct(Next(q, call)) && Elements(Next(q, call)) !! Holding(q, out, call)
    ensures Elements(Next(q, call)) + Holding(q, out, call) == Elements(q) + out
  {
    match call
    case Alloc(n) =>
      if n <= |q| {
        assert q == q[..n] + q[n..];
        assert Elements(q) == Elements(q[..n]) + Elements(q[n..]);
      }
    case Free(p) =>
      assert p !in Elements(q);
      assert Elements(q + [p]) == Elements(q) + {p};
  }

  // ---------------------------------------------------------------------------
  // The linked list over a whole run

  lemma {:induction false} SizeOfElements(q: seq<nat>)
    ensures |Elements(q)| <= |q|
  {
    if q != [] {
      SizeOfElements(q[1..]);
      assert q == [q[0]] + q[1..];
      assert Elements(q) == {q[0]} + Elements(q[1..]);
    }
  }

  /** No call makes more pages than there are descriptors. */
  lemma PagesFit(q: seq<nat>, out: set<nat>, call: Call, total: nat)
    requires LegalCall(q, out, call) && |q| + |out| <= total
    ensures call.Free? ==> 0 < |q| < total
    ensures |Next(q, call)| + |Holding(q, out, call)| <= total
  {
    match call
    case Alloc(n) =>
      if n <= |q| {
        SizeOfElements(q[..n]);
        assert |out + Elements(q[..n])| <= |out| + |Elements(q[..n])|;
      }
    case Free(p) =>
      assert out == (out - {p}) + {p};
      assert |out - {p}| == |out| - 1;
  }

  lemma {:induction false} LegalPrefix(q: seq<nat>, out: set<nat>, calls: seq<Call>, i: nat)
    requires Legal(q, out, calls) && i <= |calls|
    ensures Legal(q, out, calls[..i])
  {
    if i < |calls| {
      assert calls[..|calls| - 1][..i] == calls[..i];
      LegalPrefix(q, out, calls[..|calls| - 1], i);
    } else {
      assert calls[..i] == calls;
    }
  }

  lemma LegalAt(q: seq<nat>, out: set<nat>, calls: seq<Call>, i: nat)
    requires Legal(q, out, calls) && i < |calls|
    ensures LegalCall(After(q, calls[..i]), Held(q, out, calls[..i]), calls[i])
    ensures Held(q, out, calls[..i + 1]) == Holding(After(q, calls[..i]), Held(q, out, calls[..i]), calls[i])
  {
    LegalPrefix(q, out, calls, i + 1);
    assert calls[..i + 1][..i] == calls[..i];
  }

  lemma AfterOneMore(q: seq<nat>, calls: seq<Call>, i: nat)
    requires i < |calls|
    ensures After(q, calls[..i + 1]) == Next(After(q, calls[..i]), calls[i])
  {
    assert calls[..i + 1][..i] == calls[..i];
  }

  /** One call on the linked list. */
  method Replay(a: Allocator, call: Call)
    requires a.Valid() && !a.boot && (call == Alloc(0) ==> a.Queue() != [])
    requires call.Free? ==> 0 < |a.Queue()| < |a.spine|
    modifies a
    ensures a.Valid() && !a.boot && a.Queue() == Next(old(a.Queue()), call) && |a.spine| == |old(a.spine)|
  {
    ghost var was := a.spine;
    match call
    case Alloc(n) =>
      var first, ok := a.Bump(4096 * n);
      assert |multiset(a.spine)| == |multiset(was)|;
    case Free(p) =>
      var ok := a.Kfree(p);
  }

  /** The list stands where the run stands after `i` calls. */
  ghost predicate Reached(q: seq<nat>, out: set<nat>, calls: seq<Call>, i: nat, now: seq<nat>, total: nat) {
    i <= |calls| && now == After(q, calls[..i]) && |now| + |Held(q, out, calls[..i])| <= total
  }

  lemma ReachesNext(q: seq<nat>, out: set<nat>, calls: seq<Call>, i: nat, now: seq<nat>, total: nat)
    requires Legal(q, out, calls) && Reached(q, out, calls, i, now, total) && i < |calls|
    ensures calls[i].Free? ==> 0 < |now| < total
    ensures calls[i] == Alloc(0) ==> now != []
    ensures Reached(q, out, calls, i + 1, Next(now, calls[i]), total)
  {
    LegalAt(q, out, calls, i);
    AfterOneMore(q, calls, i);
    PagesFit(now, Held(q, out, calls[..i]), calls[i], total);
  }

  lemma ReachedAll(q: seq<nat>, out: set<nat>, calls: seq<Call>, now: seq<nat>, total: nat)
    requires Reached(q, out, calls, |calls|, now, total)
    ensures now == After(q, calls)
  {
    assert calls[..|calls|] == calls;
  }

  /** Legal calls on the linked list, one after the other: none of them follows a NULL pointer, and the queue
      afterwards is that of the run. */
  method ReplayRun(a: Allocator, calls: seq<Call>, ghost out: set<nat>)
    requires a.Valid() && !a.boot && Legal(a.Queue(), out, calls) && |a.Queue()| + |out| <= |a.spine|
    modifies a
    ensures a.Valid() && !a.boot && a.Queue() == After(old(a.Queue()), calls)
  {
    ghost var q, total := a.Queue(), |a.spine|;
    for i := 0 to |calls|
      invariant a.Valid() && !a.boot && |a.spine| == total && Reached(q, out, calls, i, a.Queue(), total)
    {
      ReachesNext(q, out, calls, i, a.Queue(), total);
      Replay(a, calls[i]);
    }
    ReachedAll(q, out, calls, a.Queue(), total);
  }

  /** Once every page has been handed out, none can come back: `kfree` of the first one dereferences NULL. */
  method FreeAfterLastPage(a: Allocator) returns (page: nat, ok: bool)
    requires a.Valid() && !a.boot && a.Queue() != []
    modifies a
    ensures a.Valid() && a.Queue() == [] && page == old(a.Queue())[0] && !ok
  {
    var taken;
    page, taken := a.Bump(4096 * a.numberOfFreePages);
    ok := a.Kfree(page);
  }

  /** The guard of a free is needed: a run that takes every page and returns one holds that page legally and still is
      not legal. */
  lemma LastPageCannotReturn(q: seq<nat>)
    requires q != []
    ensures Legal(q, {}, [Alloc(|q|)]) && q[0] in Held(q, {}, [Alloc(|q|)]) && After(q, [Alloc(|q|)]) == []
    ensures !Legal(q, {}, [Alloc(|q|), Free(q[0])])
  {
    var calls := [Alloc(|q|), Free(q[0])];
    assert calls[..1] == [Alloc(|q|)] && [Alloc(|q|)][..0] == [];
    assert After(q, []) == q && Legal(q, {}, []);
    assert After(q, [Alloc(|q|)]) == Next(After(q, []), Alloc(|q|));
  }

  // ---------------------------------------------------------------------------
  // What exec frees

  /** A VMA descriptor: the page it is in and, for a segment of the program file, the page of its file. */
  datatype Vma = Vma(page: nat, other: bool, file: nat)

  /** The pages `clear_vmas` passes to `kfree`, in order: each descriptor with its file, then the head of
      the list once more, then the `mm_struct`.  An empty list has head NULL. */
  function FreedByClearVmas(vmas: seq<Vma>, mm: nat): seq<nat> {
    FreedByLoop(vmas) + [if vmas == [] then 0 else vmas[0].page, mm]
  }

  function FreedByLoop(vmas: seq<Vma>): seq<nat> {
    if vmas == [] then []
    else (if vmas[0].other then [vmas[0].file] else []) + [vmas[0].page] + FreedByLoop(vmas[1..])
  }

  function DescriptorPages(vmas: seq<Vma>): seq<nat> {
    if vmas == [] then [] else [vmas[0].page] + DescriptorPages(vmas[1..])
  }

  function FilePages(vmas: seq<Vma>): seq<nat> {
    if vmas == [] then [] else (if vmas[0].other then [vmas[0].file] else []) + FilePages(vmas[1..])
  }

  lemma {:induction false} LoopFreesEach(vmas: seq<Vma>)
    ensures multiset(FreedByLoop(vmas)) == multiset(DescriptorPages(vmas)) + multiset(FilePages(vmas))
  {
    if vmas != [] {
      LoopFreesEach(vmas[1..]);
    }
  }

  /** Every descriptor is freed, the file of each area of type OTHER, the first descriptor once more, and the
      `mm_struct`. */
  lemma FreedPages(vmas: seq<Vma>, mm: nat)
    ensures multiset(FreedByClearVmas(vmas, mm))
            == multiset(DescriptorPages(vmas)) + multiset(FilePages(vmas))
               + multiset{if vmas == [] then 0 else vmas[0].page} + multiset{mm}
  {
    LoopFreesEach(vmas);
  }

  /** A memory area in memory; 0 is NULL. */
  datatype VmaNode = VmaNode(next: nat, other: bool, file: nat)

  ghost predicate VmaAt(nodes: map<nat, VmaNode>, vmas: seq<Vma>, i: nat)
    requires i < |vmas|
  {
    && vmas[i].page != 0 && vmas[i].page in nodes && nodes[vmas[i].page].other == vmas[i].other
    && nodes[vmas[i].page].file == vmas[i].file
    && nodes[vmas[i].page].next == if i + 1 < |vmas| then vmas[i + 1].page else 0
  }

  /** The areas are linked in order from `head`. */
  ghost predicate VmaList(nodes: map<nat, VmaNode>, head: nat, vmas: seq<Vma>) {
    && head == (if vmas == [] then 0 else vmas[0].page)
    && forall i: nat {:trigger VmaAt(nodes, vmas, i)} | i < |vmas| :: VmaAt(nodes, vmas, i)
  }

  lemma LoopFromHere(vmas: seq<Vma>, k: nat)
    requires k < |vmas|
    ensures FreedByLoop(vmas[k..])
            == (if vmas[k].other then [vmas[k].file] else []) + [vmas[k].page] + FreedByLoop(vmas[k + 1..])
  {
    assert vmas[k..][1..] == vmas[k + 1..];
  }

  /** `clear_vmas`: what it passes to `kfree`, in order.  A descriptor is left before it is freed. */
  method ClearVmas(nodes: map<nat, VmaNode>, head: nat, mm: nat, ghost vmas: seq<Vma>) returns (freed: seq<nat>)
    requires VmaList(nodes, head, vmas)
    ensures freed == FreedByClearVmas(vmas, mm)
  {
    var temp := head;
    ghost var k := 0;
    freed := [];
    while temp != 0
      invariant k <= |vmas| && temp == (if k < |vmas| then vmas[k].page else 0)
      invariant freed + FreedByLoop(vmas[k..]) == FreedByLoop(vmas)
      decreases |vmas| - k
    {
      assert VmaAt(nodes, vmas, k);
      LoopFromHere(vmas, k);
      if nodes[temp].other {
        freed := freed + [nodes[temp].file];
      }
      var current := temp;
      temp, k := nodes[temp].next, k + 1;
      freed := freed + [current];
    }
    assert k < |vmas| ==> VmaAt(nodes, vmas, k);
    freed := freed + [head];
    freed := freed + [mm];
  }

  ghost predicate LegalFrees(out: set<nat>, pages: seq<nat>) {
    pages != [] ==> pages[0] in out && LegalFrees(out - {pages[0]}, pages[1..])
  }

  lemma {:induction false} LegalFreesAreDistinct(out: set<nat>, pages: seq<nat>)
    ensures LegalFrees(out, pages) <==> Distinct(pages) && forall p | p in pages :: p in out
  {
    if pages != [] {
      LegalFreesAreDistinct(out - {pages[0]}, pages[1..]);
      assert pages == [pages[0]] + pages[1..];
      if Distinct(pages) {
        assert pages[0] !in pages[1..];
      }
      if LegalFrees(out, pages) {
        forall i, j | 0 <= i < j < |pages| ensures pages[i] != pages[j] {
          if i > 0 {
            assert pages[1..][i - 1] != pages[1..][j - 1];
          } else {
            assert pages[1..][j - 1] in pages[1..];
          }
        }
      }
    }
  }

  /** Exec never returns its pages legally: it frees the first descriptor twice or, with no descriptor,
      the page at address 0.  After it the queue holds a page twice, so two owners will share it. */
  lemma ClearVmasFreesTwice(out: set<nat>, q: seq<nat>, vmas: seq<Vma>, mm: nat)
    requires 0 !in out
    ensures !LegalFrees(out, FreedByClearVmas(vmas, mm))
    ensures vmas != [] ==> !Distinct(q + FreedByClearVmas(vmas, mm))
  {
    var pages := FreedByClearVmas(vmas, mm);
    LegalFreesAreDistinct(out, pages);
    var n := |FreedByLoop(vmas)|;
    if vmas == [] {
      assert pages[0] == 0;
    } else {
      var i := if vmas[0].other then 1 else 0;
      assert pages[i] == vmas[0].page && pages[n] == vmas[0].page && i < n;
      assert (q + pages)[|q| + i] == (q + pages)[|q| + n];
    }
  }
}
