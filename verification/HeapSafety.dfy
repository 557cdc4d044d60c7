/**
  What the user heap promises: free and live blocks never overlap, exactly as long as the two
  guards hold that `do_malloc` and `do_free` do not check themselves.
 */
module HeapSafety {
  import opened UserHeap
  import opened Wrappers

  ghost predicate Apart2(a: Block, b: Block) {
    a.End() <= b.addr || b.End() <= a.addr
  }

  /** All blocks lie in `[lo, hi)`; reachable free blocks are sorted and do not touch; live blocks
      overlap neither each other nor a free block. */
  ghost predicate Safe(list: seq<Block>, live: set<Block>, lo: nat, hi: nat) {
    && Sorted(list) && list != []
    && (forall i | 0 <= i < |list| :: lo <= list[i].addr && list[i].End() <= hi)
    && (forall b | b in live :: 0 < b.size && lo <= b.addr && b.End() <= hi && Outside(list, b))
    && (forall a, b | a in live && b in live && a != b :: Apart2(a, b))
  }

  ghost predicate ExactAtHead(list: seq<Block>, n: nat) {
    list != [] && list[0].size == n
  }

  // ---------------------------------------------------------------------------
  // Malloc

  /** Where a block left on the list was before; only the fit has changed, if it is still there. */
  lemma TakenFrom(list: seq<Block>, k: nat, n: nat, i: nat) returns (a: nat)
    requires k < |list| && n <= list[k].size && i < |TakeFrom(list, k, n)| && (k > 0 || list[k].size > n)
    ensures a < |list| && (a == k ==> list[k].size > n)
    ensures TakeFrom(list, k, n)[i] == if a == k then Block(list[k].addr, list[k].size - n) else list[a]
  {
    if list[k].size > n {
      a := i + Before(k);
    } else {
      a := if i == 0 then k - 1 else k + i;
    }
  }

  /** Every block left on the list lies within an old one, and apart from the block handed out. */
  lemma TakenShape(list: seq<Block>, k: nat, n: nat, i: nat) returns (a: nat)
    requires Sorted(list) && 0 < n && k < |list| && n <= list[k].size && i < |TakeFrom(list, k, n)|
    requires k > 0 || list[k].size > n
    ensures var r := TakeFrom(list, k, n);
      a < |list| && list[a].addr <= r[i].addr && r[i].End() <= list[a].End()
    ensures Apart2(TakeFrom(list, k, n)[i], Block(list[k].End() - n, n))
  {
    a := TakenFrom(list, k, n, i);
    Apart(list, a, k);
  }

  /** What is apart from every old block is apart from every block that is left. */
  lemma TakenStaysOutside(list: seq<Block>, k: nat, n: nat, c: Block)
    requires Sorted(list) && 0 < n && k < |list| && n <= list[k].size && (k > 0 || list[k].size > n)
    requires Outside(list, c)
    ensures Outside(TakeFrom(list, k, n), c) && Apart2(c, Block(list[k].End() - n, n))
  {
    forall i: nat | i < |TakeFrom(list, k, n)| ensures Apart2(c, TakeFrom(list, k, n)[i]) {
      var a := TakenShape(list, k, n, i);
    }
  }

  lemma TakenInBounds(list: seq<Block>, lo: nat, hi: nat, k: nat, n: nat)
    requires Sorted(list) && 0 < n && k < |list| && n <= list[k].size && (k > 0 || list[k].size > n)
    requires forall i | 0 <= i < |list| :: lo <= list[i].addr && list[i].End() <= hi
    ensures var r := TakeFrom(list, k, n);
      && (forall i | 0 <= i < |r| :: lo <= r[i].addr && r[i].End() <= hi)
      && Outside(r, Block(list[k].End() - n, n))
  {
    forall i: nat | i < |TakeFrom(list, k, n)|
      ensures lo <= TakeFrom(list, k, n)[i].addr && TakeFrom(list, k, n)[i].End() <= hi
      ensures Apart2(TakeFrom(list, k, n)[i], Block(list[k].End() - n, n))
    {
      var a := TakenShape(list, k, n, i);
    }
  }

  lemma TakeIsSafe(list: seq<Block>, live: set<Block>, lo: nat, hi: nat, k: nat, n: nat)
    requires Safe(list, live, lo, hi) && 0 < n && k < |list| && n <= list[k].size && (k > 0 || list[k].size > n)
    ensures Safe(TakeFrom(list, k, n), live + {Block(list[k].End() - n, n)}, lo, hi)
  {
    TakeKeepsSorted(list, k, n);
    TakenInBounds(list, lo, hi, k, n);
    forall c | c in live ensures Outside(TakeFrom(list, k, n), c) && Apart2(c, Block(list[k].End() - n, n)) {
      TakenStaysOutside(list, k, n, c);
    }
  }

  lemma ExactFitIsUnsafe(list: seq<Block>, live: set<Block>, lo: nat, hi: nat, n: nat)
    requires Safe(list, live, lo, hi) && 0 < n && ExactAtHead(list, n)
    ensures ListAfterMalloc(list, n)[0] == BlockFromMalloc(list, n) == list[0]
            && !Outside(ListAfterMalloc(list, n), list[0])
  {
    assert FirstFit(list, n) == 0;
    assert Block(list[0].End() - n, n) == list[0];
  }

  lemma FitFacts(list: seq<Block>, n: nat)
    requires FirstFit(list, n) < |list|
    ensures var k := FirstFit(list, n);
      && n <= list[k].size && (ExactAtHead(list, n) || k > 0 || list[k].size > n)
      && ListAfterMalloc(list, n) == TakeFrom(list, k, n) && BlockFromMalloc(list, n) == Block(list[k].End() - n, n)
  {
  }

  lemma HeadlessFitIsSafe(list: seq<Block>, live: set<Block>, lo: nat, hi: nat, n: nat)
    requires Safe(list, live, lo, hi) && 0 < n && FirstFit(list, n) < |list| && !ExactAtHead(list, n)
    ensures Safe(ListAfterMalloc(list, n), live + {BlockFromMalloc(list, n)}, lo, hi)
  {
    FitFacts(list, n);
    TakeIsSafe(list, live, lo, hi, FirstFit(list, n), n);
  }

  /** `do_malloc` keeps the heap safe exactly when the first fit is not an exact fit at the head. */
  lemma MallocIsSafe(list: seq<Block>, live: set<Block>, lo: nat, hi: nat, n: nat)
    requires Safe(list, live, lo, hi) && 0 < n && FirstFit(list, n) < |list|
    ensures Safe(ListAfterMalloc(list, n), live + {BlockFromMalloc(list, n)}, lo, hi) <==> !ExactAtHead(list, n)
  {
    if ExactAtHead(list, n) {
      ExactFitIsUnsafe(list, live, lo, hi, n);
    } else {
      HeadlessFitIsSafe(list, live, lo, hi, n);
    }
  }

  /** The payload holds the bytes asked for exactly when the rounding does not wrap; then it is less than one unit
      larger. */
  lemma PayloadIsLargeEnough(size: nat)
    requires size < TWO64
    ensures size <= 16 * (Units(size) - 1) <==> size + 15 < TWO64
    ensures 16 * (Units(size) - 1) < size + 16
  {
    if size + 15 < TWO64 {
      assert (size + 15) % TWO64 == size + 15;
    } else {
      assert (size + 15) % TWO64 == size + 15 - TWO64;
    }
  }

  // ---------------------------------------------------------------------------
  // Free

  /** Every block of the new list is an old one, or `b`, or `b` with a neighbour it touches. */
  lemma FreedShape(list: seq<Block>, b: Block, i: nat)
    requires Sorted(list) && list != [] && Outside(list, b) && 0 < b.size && !TouchesBoth(list, b)
    requires i < |ListAfterFree(list, b)|
    ensures var r := ListAfterFree(list, b);
      || r[i] in list || r[i] == b
      || (exists c :: c in list && c.End() == b.addr && r[i] == Block(c.addr, c.size + b.size))
      || (exists c :: c in list && b.End() == c.addr && r[i] == Block(b.addr, b.size + c.size))
  {
    var k := Below(list, b.addr);
    var r := ListAfterFree(list, b);
    if k > 0 && list[k - 1].End() == b.addr {
      MergedDownwards(list, b, k);
      assert list[k - 1] in list;
    } else if k > 0 && k < |list| && b.End() == list[k].addr {
      MergedUpList(list, b, k);
      InsertedAt(list, k, Block(b.addr, b.size + list[k].size), 1, i);
      assert list[k] in list;
    } else if k > 0 {
      PlainList(list, b, k);
      InsertedAt(list, k, b, 0, i);
    }
  }

  /** `do_free` of a live block keeps the heap safe exactly when the block does not touch free blocks
      on both sides. */
  lemma FreeIsSafe(list: seq<Block>, live: set<Block>, lo: nat, hi: nat, b: Block)
    requires Safe(list, live, lo, hi) && b in live
    ensures Safe(ListAfterFree(list, b), live - {b}, lo, hi) <==> !TouchesBoth(list, b)
  {
    FreeKeepsSorted(list, b);
    var r := ListAfterFree(list, b);
    if !TouchesBoth(list, b) {
      forall i: nat | i < |r|
        ensures lo <= r[i].addr && r[i].End() <= hi
        ensures forall c | c in live && c != b :: Apart2(c, r[i])
      {
        FreedShape(list, b, i);
        FreedBlockIsSafe(list, live, lo, hi, b, r[i]);
      }
      forall c | c in live && c != b ensures Outside(r, c) {
        assert forall i: nat | i < |r| :: Apart2(c, r[i]);
      }
    }
  }

  lemma FreedBlockIsSafe(list: seq<Block>, live: set<Block>, lo: nat, hi: nat, b: Block, d: Block)
    requires Safe(list, live, lo, hi) && b in live
    requires
      || d in list || d == b
      || (exists c :: c in list && c.End() == b.addr && d == Block(c.addr, c.size + b.size))
      || (exists c :: c in list && b.End() == c.addr && d == Block(b.addr, b.size + c.size))
    ensures lo <= d.addr && d.End() <= hi && forall c | c in live && c != b :: Apart2(c, d)
  {
    forall c | c in live && c != b ensures Apart2(c, d) {
      assert Outside(list, c) && Apart2(c, b);
    }
  }

  // ---------------------------------------------------------------------------
  // Units

  function Total(list: seq<Block>): nat {
    if list == [] then 0 else list[0].size + Total(list[1..])
  }

  lemma {:induction false} TotalConcat(a: seq<Block>, b: seq<Block>)
    ensures Total(a + b) == Total(a) + Total(b)
  {
    if a == [] {
      assert a + b == b;
    } else {
      assert (a + b)[1..] == a[1..] + b;
      TotalConcat(a[1..], b);
    }
  }

  lemma TotalSplit(list: seq<Block>, k: nat)
    requires k <= |list|
    ensures Total(list) == Total(list[..k]) + Total(list[k..])
  {
    TotalConcat(list[..k], list[k..]);
    assert list == list[..k] + list[k..];
  }

  lemma TotalInsert(list: seq<Block>, k: nat, b: Block, e: nat)
    requires k + e <= |list| && e <= 1
    ensures Total(list[..k] + [b] + list[k + e..]) + (if e == 1 then list[k].size else 0) == Total(list) + b.size
  {
    TotalSplit(list, k);
    TotalConcat(list[..k] + [b], list[k + e..]);
    TotalConcat(list[..k], [b]);
    TotalOne(b);
    if e == 1 {
      TotalFrom(list, k);
    }
  }

  lemma TotalFrom(list: seq<Block>, k: nat)
    requires k < |list|
    ensures Total(list[k..]) == list[k].size + Total(list[k + 1..])
  {
    assert list[k..][1..] == list[k + 1..];
  }

  lemma TotalOne(b: Block)
    ensures Total([b]) == b.size
  {
  }

  lemma TotalReplace(list: seq<Block>, k: nat, b: Block)
    requires k < |list|
    ensures Total(list[k := b]) + list[k].size == Total(list) + b.size
  {
    TotalInsert(list, k, b, 1);
    assert list[k := b] == list[..k] + [b] + list[k + 1..];
  }

  lemma FreeMergingDown(list: seq<Block>, b: Block)
    requires var k := Below(list, b.addr); 0 < k && list[k - 1].End() == b.addr
    ensures var k := Below(list, b.addr);
            Total(ListAfterFree(list, b)) == Total(list) + b.size + (if TouchesBoth(list, b) then list[k].size else 0)
  {
    var k := Below(list, b.addr);
    var r := ListAfterFree(list, b);
    var size := list[k - 1].size + b.size + (if TouchesBoth(list, b) then list[k].size else 0);
    TotalReplace(list, k - 1, Block(list[k - 1].addr, size));
    assert r == list[k - 1 := Block(list[k - 1].addr, size)];
  }

  lemma FreeNotMergingDown(list: seq<Block>, b: Block)
    requires var k := Below(list, b.addr); 0 < k && list[k - 1].End() != b.addr
    ensures Total(ListAfterFree(list, b)) == Total(list) + b.size
  {
    var k := Below(list, b.addr);
    var r := ListAfterFree(list, b);
    if k < |list| && b.End() == list[k].addr {
      TotalInsert(list, k, Block(b.addr, b.size + list[k].size), 1);
      assert r == list[..k] + [Block(b.addr, b.size + list[k].size)] + list[k + 1..];
    } else {
      TotalInsert(list, k, b, 0);
      assert r == list[..k] + [b] + list[k..];
    }
  }

  /** Freeing adds the units of the block exactly when the block is above the head of the list and
      does not touch free blocks on both sides; below the head it is lost. */
  lemma FreeAddsUnits(list: seq<Block>, b: Block)
    requires Sorted(list) && list != [] && Outside(list, b) && 0 < b.size
    ensures Total(ListAfterFree(list, b)) == Total(list) + b.size <==> list[0].addr < b.addr && !TouchesBoth(list, b)
  {
    var k := Below(list, b.addr);
    NotListed(list, b);
    if k > 0 {
      if list[k - 1].End() == b.addr {
        FreeMergingDown(list, b);
      } else {
        FreeNotMergingDown(list, b);
      }
    }
  }

  /** Allocation takes the units of the block, and loses every free block in front of the predecessor of
      the fit; an exact fit at the head takes nothing off the list. */
  lemma MallocTakesUnits(list: seq<Block>, n: nat)
    requires Sorted(list) && 0 < n && FirstFit(list, n) < |list|
    ensures var k := FirstFit(list, n);
            Total(list) == Total(ListAfterMalloc(list, n)) + Total(list[..Before(k)])
                           + (if ExactAtHead(list, n) then 0 else n)
  {
    var k := FirstFit(list, n);
    var i := Before(k);
    if list[k].size > n {
      var cut := list[k := Block(list[k].addr, list[k].size - n)];
      TotalReplace(list, k, cut[k]);
      TotalSplit(cut, i);
      assert cut[..i] == list[..i];
    } else if k > 0 {
      TotalSplit(list, i);
      assert list[i..][1..] == list[k..] && list[k..][1..] == list[k + 1..];
      TotalConcat([list[i]], list[k + 1..]);
      assert Total([list[i]]) == list[i].size;
    }
  }

  // ---------------------------------------------------------------------------
  // Runs

  datatype Op = Malloc(size: nat) | Free(block: Block)

  /** What the caller must see to before the call: a fit that is not exact at the head; a live block that does
      not touch free blocks on both sides. */
  ghost predicate Guard(list: seq<Block>, live: set<Block>, op: Op) {
    match op
    case Malloc(size) => FirstFit(list, Units(size)) < |list| && !ExactAtHead(list, Units(size))
    case Free(b) => b in live && !TouchesBoth(list, b)
  }

  ghost function Step(list: seq<Block>, live: set<Block>, op: Op): (seq<Block>, set<Block>)
    requires Guard(list, live, op)
  {
    match op
    case Malloc(size) => (ListAfterMalloc(list, Units(size)), live + {BlockFromMalloc(list, Units(size))})
    case Free(b) => (ListAfterFree(list, b), live - {b})
  }

  ghost predicate Guarded(list: seq<Block>, live: set<Block>, ops: seq<Op>)
    decreases |ops|
  {
    ops != [] ==>
      Guard(list, live, ops[0]) && var (l, v) := Step(list, live, ops[0]); Guarded(l, v, ops[1..])
  }

  ghost function Final(list: seq<Block>, live: set<Block>, ops: seq<Op>): (seq<Block>, set<Block>)
    requires Guarded(list, live, ops)
    decreases |ops|
  {
    if ops == [] then (list, live) else var (l, v) := Step(list, live, ops[0]); Final(l, v, ops[1..])
  }

  /** The heap is safe after every guarded run, and so in every state on the way. */
  lemma {:induction false} HeapStaysSafe(list: seq<Block>, live: set<Block>, lo: nat, hi: nat, ops: seq<Op>)
    requires Safe(list, live, lo, hi) && Guarded(list, live, ops)
    ensures Safe(Final(list, live, ops).0, Final(list, live, ops).1, lo, hi)
    decreases |ops|
  {
    if ops != [] {
      match ops[0] {
        case Malloc(size) => MallocIsSafe(list, live, lo, hi, Units(size));
        case Free(b) => FreeIsSafe(list, live, lo, hi, b);
      }
      var (l, v) := Step(list, live, ops[0]);
      HeapStaysSafe(l, v, lo, hi, ops[1..]);
    }
  }

  /** A fresh heap is safe. */
  lemma FreshHeapIsSafe(heap: nat)
    ensures Safe([Block(heap, 255)], {}, heap, heap + 256)
  {
  }

  /** The two guards are needed: a request of 4064 bytes on a fresh heap is an exact fit at the head, and
      filling the hole between two free blocks merges only one of them. */
  lemma GuardsAreNeeded()
    ensures FirstFit([Block(256, 255)], Units(4064)) == 0 && ExactAtHead([Block(256, 255)], Units(4064))
    ensures TouchesBoth([Block(256, 10), Block(276, 10)], Block(266, 10))
    ensures ListAfterFree([Block(256, 10), Block(276, 10)], Block(266, 10)) == [Block(256, 30), Block(276, 10)]
  {
    var list := [Block(256, 10), Block(276, 10)];
    assert list[1..] == [Block(276, 10)];
    assert Below(list[1..], 266) == 0;
    assert Below(list, 266) == 1;
  }
}
