/**
  The user heap: `do_malloc` and `do_free` on a first-fit, address-ordered free list.

  Addresses are counted in units of one 16-byte header, as C pointer arithmetic on
  `malloc_header` does; 0 is NULL.
 */
module UserHeap {
  import opened Wrappers

  datatype Header = Header(next: nat, size: nat)

  /** `size` units starting at `addr`, the header included. */
  datatype Block = Block(addr: nat, size: nat) {
    function End(): nat {
      addr + size
    }
  }

  /** The units `do_malloc` looks for: the addition wraps at 64 bits. */
  function Units(size: nat): (n: nat)
    ensures 1 <= n
  {
    ((size + 15) % TWO64) / 16 + 1
  }

  // ---------------------------------------------------------------------------
  // The free list as a sequence of blocks

  /** The first block of at least `n` units, or the length of the list. */
  function FirstFit(list: seq<Block>, n: nat): (k: nat)
    ensures k <= |list|
    ensures forall i | 0 <= i < k :: list[i].size < n
    ensures k < |list| ==> n <= list[k].size
  {
    if list == [] then 0
    else if n <= list[0].size then 0
    else FirstFit(list[1..], n) + 1
  }

  /** What `do_malloc` leaves reachable from `freelist`, which it resets to the predecessor of the fit. */
  function ListAfterMalloc(list: seq<Block>, n: nat): seq<Block>
    requires FirstFit(list, n) < |list|
  {
    TakeFrom(list, FirstFit(list, n), n)
  }

  function TakeFrom(list: seq<Block>, k: nat, n: nat): seq<Block>
    requires k < |list| && n <= list[k].size
  {
    if list[k].size > n then list[k := Block(list[k].addr, list[k].size - n)][Before(k)..]
    else if k == 0 then list
    else [list[k - 1]] + list[k + 1..]
  }

  /** The index of the predecessor; the head is its own. */
  function Before(k: nat): nat {
    if k == 0 then 0 else k - 1
  }

  /** The block `do_malloc` returns: the tail of the fit. */
  function BlockFromMalloc(list: seq<Block>, n: nat): Block
    requires FirstFit(list, n) < |list|
  {
    var k := FirstFit(list, n);
    Block(list[k].End() - n, n)
  }

  /** How many blocks of the list lie below `addr`. */
  function Below(list: seq<Block>, addr: nat): (k: nat)
    ensures k <= |list|
    ensures forall i | 0 <= i < k :: list[i].addr < addr
    ensures k < |list| ==> addr <= list[k].addr
  {
    if list == [] then 0
    else if addr <= list[0].addr then 0
    else Below(list[1..], addr) + 1
  }

  /** What `do_free` leaves reachable from `freelist`. */
  function ListAfterFree(list: seq<Block>, b: Block): seq<Block> {
    FreeAt(list, Below(list, b.addr), b)
  }

  /** The same, `k` blocks of the list being below `b`. */
  function FreeAt(list: seq<Block>, k: nat, b: Block): seq<Block>
    requires k <= |list|
  {
    if list == [] then [b]
    else if k == 0 then list
    else if k == |list| then
      if list[k - 1].End() == b.addr then list[..k - 1] + [Block(list[k - 1].addr, list[k - 1].size + b.size)]
      else list + [b]
    else if b.End() == list[k].addr then
      if list[k - 1].End() == b.addr
      then list[k - 1 := Block(list[k - 1].addr, list[k - 1].size + b.size + list[k].size)]
      else list[..k] + [Block(b.addr, b.size + list[k].size)] + list[k + 1..]
    else if list[k - 1].End() == b.addr then list[k - 1 := Block(list[k - 1].addr, list[k - 1].size + b.size)]
    else list[..k] + [b] + list[k..]
  }

  // ---------------------------------------------------------------------------
  // The list in memory

  ghost predicate LinkAt(hdr: map<nat, Header>, list: seq<Block>, i: nat)
    requires i < |list|
  {
    && list[i].addr != 0 && list[i].addr in hdr && hdr[list[i].addr].size == list[i].size
    && hdr[list[i].addr].next == if i + 1 < |list| then list[i + 1].addr else 0
  }

  /** The headers of `list` are linked in order from `p` to NULL. */
  ghost predicate Linked(hdr: map<nat, Header>, p: nat, list: seq<Block>) {
    && p == (if list == [] then 0 else list[0].addr)
    && forall i: nat {:trigger LinkAt(hdr, list, i)} | i < |list| :: LinkAt(hdr, list, i)
  }

  /** Sorted by address, non-empty, and neither overlapping nor touching. */
  ghost predicate Sorted(list: seq<Block>) {
    && (forall i | 0 <= i < |list| :: 0 < list[i].size)
    && (forall i, j | 0 <= i < j < |list| :: list[i].End() < list[j].addr)
  }

  class Heap {
    var hdr: map<nat, Header>
    var freelist: nat
    ghost var list: seq<Block>

    ghost predicate Valid()
      reads this
    {
      Linked(hdr, freelist, list) && Sorted(list)
    }

    /** `createheap` on a process without a free list: one block of 255 units in a fresh page. */
    method CreateHeap(heap: nat)
      requires heap != 0
      requires freelist == 0
      modifies this
      ensures Valid() && list == [Block(heap, 255)]
    {
      freelist := heap;
      hdr := hdr[heap := Header(0, (4096 + 15) / 16 - 1)];
      list := [Block(heap, 255)];
    }

    /** The search loop of `do_malloc`: the first fit and its predecessor, or NULL. */
    method FindFit(n: nat) returns (prev: nat, current: nat)
      requires Valid()
      ensures var k := FirstFit(list, n);
              && current == (if k < |list| then list[k].addr else 0)
              && (current == 0 <==> k == |list|) && (k < |list| ==> prev == list[Before(k)].addr)
    {
      prev, current := freelist, freelist;
      ghost var k := 0;
      assert list != [] ==> LinkAt(hdr, list, 0);
      while current != 0 && hdr[current].size < n
        invariant k <= |list| && k <= FirstFit(list, n) && (k < |list| ==> LinkAt(hdr, list, k))
        invariant current == (if k < |list| then list[k].addr else 0)
        invariant prev == (if k == 0 then freelist else list[k - 1].addr)
        decreases |list| - k
      {
        prev, current, k := current, hdr[current].next, k + 1;
        assert k < |list| ==> LinkAt(hdr, list, k);
      }
    }

    /** Cut `n` units off the fit, or unlink it behind `prev`. */
    method TakeFit(prev: nat, fit: nat, n: nat) returns (block: nat)
      requires prev in hdr && fit in hdr && n <= hdr[fit].size
      modifies `hdr
      ensures hdr == AfterTake(old(hdr), prev, fit, n)
      ensures block == fit + old(hdr[fit].size) - n
      ensures freelist == old(freelist) && list == old(list)
    {
      block := fit;
      if hdr[block].size == n {
        hdr := hdr[prev := hdr[prev].(next := hdr[block].next)];
      } else {
        hdr := hdr[block := hdr[block].(size := hdr[block].size - n)];
        block := block + hdr[block].size;
        hdr := hdr[block := Header(NextAt(hdr, block), n)];
      }
    }

    /** First fit, cut, and reset of `freelist` to the predecessor; NULL without a fitting block. */
    method MallocUnits(n: nat) returns (block: nat)
      requires Valid() && 0 < n
      modifies this
      ensures Valid()
      ensures var k := FirstFit(old(list), n);
              if k == |old(list)| then block == 0 && list == old(list) && hdr == old(hdr)
              else
                && block == BlockFromMalloc(old(list), n).addr && list == ListAfterMalloc(old(list), n) && block != 0
                && block in hdr && hdr[block].size == n && OthersKept(old(hdr), hdr, old(list), block)
    {
      var prev, current := FindFit(n);
      if current == 0 {
        return 0;
      }
      ghost var h0, was, k := hdr, list, FirstFit(list, n);
      TakeKeepsList(h0, freelist, was, k, n);
      assert LinkAt(h0, was, k);
      block := TakeFit(prev, current, n);
      freelist := prev;
      list := TakeFrom(was, k, n);
    }

    /** `do_malloc`: the address of the payload.  Without a fitting block the source runs off the list
        and dereferences NULL. */
    method DoMalloc(size: nat) returns (payload: nat, ok: bool)
      requires Valid()
      modifies this
      ensures Valid() && ok == (FirstFit(old(list), Units(size)) < |old(list)|)
      ensures !ok ==> list == old(list) && hdr == old(hdr)
      ensures ok ==>
                var b := BlockFromMalloc(old(list), Units(size));
                && payload == b.addr + 1 && list == ListAfterMalloc(old(list), Units(size))
                && b.addr in hdr && hdr[b.addr].size == Units(size) && OthersKept(old(hdr), hdr, old(list), b.addr)
    {
      var numOfStructs := Units(size);
      var block := MallocUnits(numOfStructs);
      return block + 1, block != 0;
    }

    /** The loop of `do_free`: the last block below `block` or, if there is none, the last of the list. */
    method FindPlace(block: nat) returns (current: nat)
      requires Valid() && list != [] && forall i | 0 <= i < |list| :: list[i].addr != block
      ensures current == list[PlaceOf(list, block)].addr
    {
      current := freelist;
      ghost var k := 0;
      assert LinkAt(hdr, list, 0);
      while !(hdr[current].next == 0 || (current < block < hdr[current].next))
        invariant k <= PlaceOf(list, block) && current == list[k].addr && LinkAt(hdr, list, k)
        decreases |list| - k
      {
        assert LinkAt(hdr, list, k + 1);
        Order(list, k, k + 1);
        current, k := hdr[current].next, k + 1;
      }
      assert k + 1 < |list| ==> LinkAt(hdr, list, k + 1);
    }

    /** The branches of `do_free`. */
    method Insert(current: nat, block: nat)
      requires current in hdr && block in hdr && current != block
      requires hdr[current].next == 0 || (current < block < hdr[current].next && hdr[current].next in hdr)
      modifies `hdr
      ensures hdr == AfterInsert(old(hdr), current, block)
      ensures freelist == old(freelist) && list == old(list)
    {
      if block > current && hdr[current].next == 0 {
        if current + hdr[current].size == block {
          hdr := hdr[current := hdr[current].(size := hdr[current].size + hdr[block].size)];
        } else {
          hdr := hdr[current := hdr[current].(next := block)];
          hdr := hdr[block := hdr[block].(next := 0)];
        }
      } else if block < current && hdr[current].next == 0 {
        if block + hdr[block].size == current {
          hdr := hdr[block := hdr[block].(size := hdr[block].size + hdr[current].size)];
          hdr := hdr[block := hdr[block].(next := 0)];
        } else {
          hdr := hdr[block := hdr[block].(next := current)];
        }
      } else {
        var next := hdr[current].next;
        if block + hdr[block].size == next {
          hdr := hdr[block := hdr[block].(size := hdr[block].size + hdr[next].size)];
          hdr := hdr[block := hdr[block].(next := hdr[next].next)];
        } else {
          hdr := hdr[block := hdr[block].(next := next)];
        }
        if current + hdr[current].size == block {
          hdr := hdr[current := hdr[current].(size := hdr[current].size + hdr[block].size)];
        } else {
          hdr := hdr[current := hdr[current].(next := block)];
        }
      }
    }

    /** `do_free` of a block that is not on the list.  The reachable list stays sorted and coalesced
        exactly when the block does not touch a free block on either side at once.  An empty list
        becomes whatever the header of the block still links to. */
    method DoFree(payload: nat)
      requires Valid() && 1 < payload && payload - 1 in hdr && 0 < hdr[payload - 1].size
      requires var b := Block(payload - 1, hdr[payload - 1].size);
               forall i | 0 <= i < |list| :: b.End() <= list[i].addr || list[i].End() <= b.addr
      modifies this
      ensures var b := Block(payload - 1, old(hdr)[payload - 1].size);
        && list == ListAfterFree(old(list), b)
        && OthersKept(old(hdr), hdr, old(list), b.addr)
        && (old(list) != [] ==> Linked(hdr, freelist, list) && (Valid() <==> !TouchesBoth(old(list), b)))
        && (old(list) == [] ==> (Valid() <==> old(hdr)[b.addr].next == 0))
    {
      var block := payload - 1;
      ghost var b, h0, was := Block(block, hdr[block].size), hdr, list;
      list := ListAfterFree(was, b);
      assert was != [] ==> LinkAt(h0, was, 0);
      if freelist == 0 {
        freelist := block;
        SingleLink(hdr, b);
        return;
      }
      list := was;
      var current := FindPlace(block);
      InsertKeepsLinks(hdr, freelist, was, b);
      Insert(current, block);
      list := ListAfterFree(was, b);
      FreeKeepsSorted(was, b);
    }
  }

  /** Where `do_free` acts: the last block below `addr`, else the last block. */
  function PlaceOf(list: seq<Block>, addr: nat): nat
    requires list != []
  {
    var k := Below(list, addr);
    if k == 0 then |list| - 1 else k - 1
  }

  /** The block touches a free block on either side. */
  predicate TouchesBoth(list: seq<Block>, b: Block) {
    var k := Below(list, b.addr);
    0 < k < |list| && list[k - 1].End() == b.addr && b.End() == list[k].addr
  }

  function AfterInsert(hdr: map<nat, Header>, current: nat, block: nat): map<nat, Header>
    requires current in hdr && block in hdr
    requires hdr[current].next == 0 || hdr[current].next in hdr
  {
    var c, b := hdr[current], hdr[block];
    if c.next == 0 then
      if block > current then
        if current + c.size == block then hdr[current := c.(size := c.size + b.size)]
        else hdr[current := c.(next := block)][block := b.(next := 0)]
      else
        if block + b.size == current then hdr[block := Header(0, b.size + c.size)]
        else hdr[block := b.(next := current)]
    else
      var b' := if block + b.size == c.next then Header(hdr[c.next].next, b.size + hdr[c.next].size)
                else Header(c.next, b.size);
      var c' := if current + c.size == block then c.(size := c.size + b'.size) else c.(next := block);
      hdr[block := b'][current := c']
  }

  function NextAt(hdr: map<nat, Header>, a: nat): nat {
    if a in hdr then hdr[a].next else 0
  }

  function AfterTake(hdr: map<nat, Header>, prev: nat, fit: nat, n: nat): map<nat, Header>
    requires prev in hdr && fit in hdr && n <= hdr[fit].size
  {
    if hdr[fit].size == n then hdr[prev := hdr[prev].(next := hdr[fit].next)]
    else
      var cut := hdr[fit := hdr[fit].(size := hdr[fit].size - n)];
      var block := fit + hdr[fit].size - n;
      cut[block := Header(NextAt(cut, block), n)]
  }

  /** Only headers of free blocks and of the block at `b` may have changed. */
  ghost predicate OthersKept(hdr: map<nat, Header>, hdr': map<nat, Header>, list: seq<Block>, b: nat) {
    forall a {:trigger hdr'[a]} {:trigger a in hdr'} |
      a in hdr && a != b && (forall i | 0 <= i < |list| :: list[i].addr != a) :: a in hdr' && hdr'[a] == hdr[a]
  }

  lemma TakeKeepsList(hdr: map<nat, Header>, p: nat, list: seq<Block>, k: nat, n: nat)
    requires Linked(hdr, p, list) && Sorted(list) && 0 < n && k < |list| && n <= list[k].size
    ensures var prev := list[Before(k)].addr;
      && prev in hdr && list[k].addr in hdr && n <= hdr[list[k].addr].size
      && var hdr' := AfterTake(hdr, prev, list[k].addr, n);
         var b := list[k].End() - n;
         && Linked(hdr', prev, TakeFrom(list, k, n)) && Sorted(TakeFrom(list, k, n))
         && b in hdr' && hdr'[b].size == n && OthersKept(hdr, hdr', list, b)
  {
    assert LinkAt(hdr, list, k) && LinkAt(hdr, list, Before(k));
    TakeKeepsSorted(list, k, n);
    if list[k].size > n {
      SplitLinks(hdr, p, list, k, n);
      var hdr' := AfterTake(hdr, list[Before(k)].addr, list[k].addr, n);
      SuffixLinks(hdr', p, list[k := Block(list[k].addr, list[k].size - n)], Before(k));
    } else if k == 0 {
      assert AfterTake(hdr, list[0].addr, list[0].addr, n) == hdr;
    } else {
      UnlinkLinks(hdr, p, list, k);
    }
  }

  /** Cutting a block in two keeps the first part linked. */
  lemma SplitLinks(hdr: map<nat, Header>, p: nat, list: seq<Block>, k: nat, n: nat)
    requires Linked(hdr, p, list) && Sorted(list) && k < |list| && 0 < n < list[k].size
    requires list[k].addr in hdr && hdr[list[k].addr].size == list[k].size
    ensures var hdr' := AfterTake(hdr, list[k].addr, list[k].addr, n);
      && Linked(hdr', p, list[k := Block(list[k].addr, list[k].size - n)])
      && OthersKept(hdr, hdr', list, list[k].End() - n)
  {
    var hdr' := AfterTake(hdr, list[k].addr, list[k].addr, n);
    var r := list[k := Block(list[k].addr, list[k].size - n)];
    forall i: nat | i < |r| ensures LinkAt(hdr', r, i) {
      assert LinkAt(hdr, list, i);
      assert i != k ==> list[i].addr != list[k].addr && list[i].addr != list[k].End() - n by {
        Apart(list, i, k);
      }
    }
  }

  lemma Apart(list: seq<Block>, i: nat, k: nat)
    requires Sorted(list) && i < |list| && k < |list|
    ensures i != k ==> list[i].End() < list[k].addr || list[k].End() < list[i].addr
    ensures list[i].addr < list[i].End()
  {
  }

  lemma SuffixLinks(hdr: map<nat, Header>, p: nat, list: seq<Block>, i: nat)
    requires Linked(hdr, p, list) && i < |list|
    ensures Linked(hdr, list[i].addr, list[i..])
  {
    forall j: nat | j < |list[i..]| ensures LinkAt(hdr, list[i..], j) {
      assert LinkAt(hdr, list, i + j);
    }
  }

  /** Linking the predecessor past block `k`, and dropping what is in front of the predecessor. */
  lemma UnlinkLinks(hdr: map<nat, Header>, p: nat, list: seq<Block>, k: nat)
    requires Linked(hdr, p, list) && Sorted(list) && 0 < k < |list|
    requires list[k].addr in hdr && list[k - 1].addr in hdr
    ensures var hdr' := hdr[list[k - 1].addr := hdr[list[k - 1].addr].(next := hdr[list[k].addr].next)];
      && Linked(hdr', list[k - 1].addr, [list[k - 1]] + list[k + 1..])
      && OthersKept(hdr, hdr', list, list[k].addr)
  {
    var hdr' := hdr[list[k - 1].addr := hdr[list[k - 1].addr].(next := hdr[list[k].addr].next)];
    var r := [list[k - 1]] + list[k + 1..];
    assert LinkAt(hdr, list, k - 1) && LinkAt(hdr, list, k);
    forall i: nat | i < |r| ensures LinkAt(hdr', r, i) {
      var j := if i == 0 then k - 1 else k + i;
      assert r[i] == list[j] && LinkAt(hdr, list, j);
      assert i + 1 < |r| ==> r[i + 1] == list[k + i + 1];
      Apart(list, j, k - 1);
    }
  }

  /** The old block that a block left by `do_malloc` comes from. */
  function SourceOf(list: seq<Block>, k: nat, n: nat, i: nat): nat
    requires k < |list|
  {
    if list[k].size > n then i + Before(k) else if k == 0 then i else if i == 0 then k - 1 else k + i
  }

  lemma LeftWithin(list: seq<Block>, k: nat, n: nat, i: nat)
    requires 0 < n && k < |list| && n <= list[k].size && i < |TakeFrom(list, k, n)|
    ensures var a := SourceOf(list, k, n, i); var r := TakeFrom(list, k, n);
      a < |list| && r[i].addr == list[a].addr && r[i].size <= list[a].size && (0 < list[a].size ==> 0 < r[i].size)
  {
    var r := TakeFrom(list, k, n);
    if list[k].size > n {
      var cut := list[k := Block(list[k].addr, list[k].size - n)];
      assert r == cut[Before(k)..];
      assert r[i] == cut[i + Before(k)];
    } else if k > 0 {
      assert r == [list[k - 1]] + list[k + 1..];
    }
  }

  lemma TakeKeepsSorted(list: seq<Block>, k: nat, n: nat)
    requires Sorted(list) && 0 < n && k < |list| && n <= list[k].size
    ensures Sorted(TakeFrom(list, k, n))
  {
    var r := TakeFrom(list, k, n);
    forall i: nat | i < |r| ensures 0 < r[i].size {
      LeftWithin(list, k, n, i);
    }
    forall i: nat, j: nat | i < j < |r| ensures r[i].End() < r[j].addr {
      LeftWithin(list, k, n, i);
      LeftWithin(list, k, n, j);
      Order(list, SourceOf(list, k, n, i), SourceOf(list, k, n, j));
    }
  }

  lemma Order(list: seq<Block>, i: nat, j: nat)
    requires Sorted(list) && i < j < |list|
    ensures list[i].addr < list[i].End() < list[j].addr
  {
  }

  lemma SingleLink(hdr: map<nat, Header>, b: Block)
    requires b.addr != 0 && b.addr in hdr && hdr[b.addr].size == b.size
    ensures Linked(hdr, b.addr, [b]) <==> hdr[b.addr].next == 0
  {
    assert LinkAt(hdr, [b], 0) <==> hdr[b.addr].next == 0;
  }

  /** `b` lies outside every block of the list. */
  ghost predicate Outside(list: seq<Block>, b: Block) {
    forall i | 0 <= i < |list| :: b.End() <= list[i].addr || list[i].End() <= b.addr
  }

  /** The neighbours of a block that lies outside the list, as the loop of `do_free` finds them. */
  lemma Neighbours(hdr: map<nat, Header>, p: nat, list: seq<Block>, b: Block)
    requires Linked(hdr, p, list) && Sorted(list) && list != [] && Outside(list, b) && 0 < b.size
    ensures var k, c := Below(list, b.addr), PlaceOf(list, b.addr);
      && list[c].addr in hdr && hdr[list[c].addr].size == list[c].size && list[c].addr != b.addr
      && (0 < k ==> list[k - 1].addr < b.addr && list[k - 1].End() <= b.addr)
      && (k < |list| ==> b.addr < list[k].addr && b.End() <= list[k].addr)
      && hdr[list[c].addr].next == (if 0 < k < |list| then list[k].addr else 0)
      && (0 < k < |list| ==> LinkAt(hdr, list, k))
  {
    var k, c := Below(list, b.addr), PlaceOf(list, b.addr);
    assert LinkAt(hdr, list, c);
    assert k < |list| ==> LinkAt(hdr, list, k);
  }

  lemma {:induction false} AddrsDiffer(list: seq<Block>)
    requires Sorted(list)
    ensures forall i: nat, j: nat | i < |list| && j < |list| && i != j :: list[i].addr != list[j].addr
  {
    forall i: nat, j: nat | i < |list| && j < |list| && i != j ensures list[i].addr != list[j].addr {
      Apart(list, i, j);
      Apart(list, j, i);
    }
  }

  lemma InsertKeepsLinks(hdr: map<nat, Header>, p: nat, list: seq<Block>, b: Block)
    requires Linked(hdr, p, list) && Sorted(list) && list != [] && Outside(list, b)
    requires b.addr != 0 && b.addr in hdr && hdr[b.addr].size == b.size && 0 < b.size
    ensures var current := list[PlaceOf(list, b.addr)].addr;
      && current in hdr && current != b.addr
      && (hdr[current].next == 0 || (current < b.addr < hdr[current].next && hdr[current].next in hdr))
      && Linked(AfterInsert(hdr, current, b.addr), p, ListAfterFree(list, b))
      && OthersKept(hdr, AfterInsert(hdr, current, b.addr), list, b.addr)
  {
    var k := Below(list, b.addr);
    Neighbours(hdr, p, list, b);
    NotListed(list, b);
    if k == 0 {
      InsertBelow(hdr, p, list, b);
    } else if list[k - 1].End() == b.addr {
      InsertMergingDown(hdr, p, list, b, k);
    } else if k < |list| && b.End() == list[k].addr {
      InsertMergingUp(hdr, p, list, b, k);
    } else {
      InsertPlain(hdr, p, list, b, k);
    }
  }

  /** The header that is written when the block merges with the one below it, and perhaps the one above it. */
  lemma MergingDownHeader(hdr: map<nat, Header>, p: nat, list: seq<Block>, b: Block, k: nat)
    requires Linked(hdr, p, list) && Sorted(list) && Outside(list, b) && k == Below(list, b.addr) && 0 < k
    requires b.addr != 0 && b.addr in hdr && hdr[b.addr].size == b.size && 0 < b.size && list[k - 1].End() == b.addr
    ensures var c := list[k - 1].addr;
      && c in hdr && c != b.addr && (hdr[c].next == 0 || hdr[c].next in hdr)
      && var hdr' := AfterInsert(hdr, c, b.addr);
         && c in hdr' && hdr'[c] == hdr[c].(size := MergedSize(list, b, k))
         && (forall a {:trigger hdr'[a]} | a in hdr && a != c && a != b.addr :: a in hdr' && hdr'[a] == hdr[a])
  {
    Neighbours(hdr, p, list, b);
    assert LinkAt(hdr, list, k - 1);
  }

  /** The size of the block below after the merge. */
  function MergedSize(list: seq<Block>, b: Block, k: nat): nat
    requires 0 < k <= |list|
  {
    list[k - 1].size + b.size + if k < |list| && b.End() == list[k].addr then list[k].size else 0
  }

  lemma MergedDownwards(list: seq<Block>, b: Block, k: nat)
    requires 0 < k <= |list| && list[k - 1].End() == b.addr
    ensures FreeAt(list, k, b) == list[k - 1 := Block(list[k - 1].addr, MergedSize(list, b, k))]
  {
  }

  lemma InsertMergingDown(hdr: map<nat, Header>, p: nat, list: seq<Block>, b: Block, k: nat)
    requires Linked(hdr, p, list) && Sorted(list) && Outside(list, b) && k == Below(list, b.addr) && 0 < k
    requires b.addr != 0 && b.addr in hdr && hdr[b.addr].size == b.size && 0 < b.size && list[k - 1].End() == b.addr
    requires list[k - 1].addr in hdr && list[k - 1].addr != b.addr
             && (hdr[list[k - 1].addr].next == 0 || hdr[list[k - 1].addr].next in hdr)
    ensures var hdr' := AfterInsert(hdr, list[k - 1].addr, b.addr);
            Linked(hdr', p, ListAfterFree(list, b)) && OthersKept(hdr, hdr', list, b.addr)
  {
    MergingDownHeader(hdr, p, list, b, k);
    NotListed(list, b);
    AddrsDiffer(list);
    MergedDownwards(list, b, k);
    MergeDown(hdr, AfterInsert(hdr, list[k - 1].addr, b.addr), p, list, k - 1, MergedSize(list, b, k));
  }

  lemma NotListed(list: seq<Block>, b: Block)
    requires Sorted(list) && Outside(list, b) && 0 < b.size
    ensures forall i | 0 <= i < |list| :: list[i].addr != b.addr
  {
  }

  /** Below the head: nothing on the list changes. */
  lemma InsertBelow(hdr: map<nat, Header>, p: nat, list: seq<Block>, b: Block)
    requires Linked(hdr, p, list) && list != [] && b.addr in hdr && Below(list, b.addr) == 0
    requires forall i | 0 <= i < |list| :: list[i].addr != b.addr
    requires var c := list[|list| - 1].addr; c in hdr && hdr[c].next == 0 && b.addr < c
    ensures var hdr' := AfterInsert(hdr, list[|list| - 1].addr, b.addr);
            Linked(hdr', p, list) && OthersKept(hdr, hdr', list, b.addr)
  {
    var hdr' := AfterInsert(hdr, list[|list| - 1].addr, b.addr);
    forall i: nat | i < |list| ensures LinkAt(hdr', list, i) {
      assert LinkAt(hdr, list, i);
    }
  }

  /** `b` comes between two free blocks, or behind the last one, without touching the one below. */
  ghost predicate Between(hdr: map<nat, Header>, p: nat, list: seq<Block>, b: Block, k: nat) {
    && Linked(hdr, p, list) && Sorted(list) && list != [] && Outside(list, b)
    && b.addr != 0 && b.addr in hdr && hdr[b.addr].size == b.size && 0 < b.size
    && k == Below(list, b.addr) && 0 < k && list[k - 1].End() != b.addr
    && list[k - 1].addr in hdr && (hdr[list[k - 1].addr].next == 0 || hdr[list[k - 1].addr].next in hdr)
  }

  lemma MergedUpList(list: seq<Block>, b: Block, k: nat)
    requires 0 < k < |list| && list[k - 1].End() != b.addr && b.End() == list[k].addr
    ensures FreeAt(list, k, b) == list[..k] + [Block(b.addr, b.size + list[k].size)] + list[k + 1..]
  {
  }

  /** The two headers that are written when the block merges with the one above it. */
  lemma MergingUpHeaders(hdr: map<nat, Header>, p: nat, list: seq<Block>, b: Block, k: nat)
    requires Between(hdr, p, list, b, k) && k < |list| && b.End() == list[k].addr
    ensures list[k - 1].addr != b.addr && list[k].addr in hdr
    ensures AfterInsert(hdr, list[k - 1].addr, b.addr)
            == hdr[b.addr := Header(hdr[list[k].addr].next, b.size + list[k].size)]
                  [list[k - 1].addr := hdr[list[k - 1].addr].(next := b.addr)]
    ensures hdr[list[k].addr].next == if k + 1 < |list| then list[k + 1].addr else 0
  {
    Neighbours(hdr, p, list, b);
    assert LinkAt(hdr, list, k) && LinkAt(hdr, list, k - 1);
  }

  lemma InsertMergingUp(hdr: map<nat, Header>, p: nat, list: seq<Block>, b: Block, k: nat)
    requires Between(hdr, p, list, b, k) && k < |list| && b.End() == list[k].addr
    ensures var hdr' := AfterInsert(hdr, list[k - 1].addr, b.addr);
            Linked(hdr', p, ListAfterFree(list, b)) && OthersKept(hdr, hdr', list, b.addr)
  {
    MergingUpHeaders(hdr, p, list, b, k);
    NotListed(list, b);
    AddrsDiffer(list);
    MergedUpList(list, b, k);
    InsertLinks(hdr, AfterInsert(hdr, list[k - 1].addr, b.addr), p, list, k, Block(b.addr, b.size + list[k].size), 1);
  }

  /** The two headers that are written when the block does not merge. */
  lemma PlainHeaders(hdr: map<nat, Header>, p: nat, list: seq<Block>, b: Block, k: nat)
    requires Between(hdr, p, list, b, k) && (k < |list| ==> b.End() != list[k].addr)
    ensures list[k - 1].addr != b.addr
    ensures AfterInsert(hdr, list[k - 1].addr, b.addr)
            == hdr[b.addr := Header(if k < |list| then list[k].addr else 0, b.size)]
                  [list[k - 1].addr := hdr[list[k - 1].addr].(next := b.addr)]
  {
    Neighbours(hdr, p, list, b);
    assert LinkAt(hdr, list, k - 1);
  }

  lemma InsertPlain(hdr: map<nat, Header>, p: nat, list: seq<Block>, b: Block, k: nat)
    requires Between(hdr, p, list, b, k) && (k < |list| ==> b.End() != list[k].addr)
    ensures var hdr' := AfterInsert(hdr, list[k - 1].addr, b.addr);
            Linked(hdr', p, ListAfterFree(list, b)) && OthersKept(hdr, hdr', list, b.addr)
  {
    PlainHeaders(hdr, p, list, b, k);
    NotListed(list, b);
    AddrsDiffer(list);
    PlainList(list, b, k);
    InsertLinks(hdr, AfterInsert(hdr, list[k - 1].addr, b.addr), p, list, k, b, 0);
  }

  /** Only the size of block `k` changes. */
  lemma MergeDown(hdr: map<nat, Header>, hdr': map<nat, Header>, p: nat, list: seq<Block>, k: nat, size: nat)
    requires Linked(hdr, p, list) && Sorted(list) && k < |list|
    requires forall i: nat | i < |list| && i != k ::
               list[i].addr in hdr ==> list[i].addr in hdr' && hdr'[list[i].addr] == hdr[list[i].addr]
    requires list[k].addr in hdr && list[k].addr in hdr' && hdr'[list[k].addr] == hdr[list[k].addr].(size := size)
    ensures Linked(hdr', p, list[k := Block(list[k].addr, size)])
  {
    var r := list[k := Block(list[k].addr, size)];
    forall i: nat | i < |r| ensures LinkAt(hdr', r, i) {
      assert LinkAt(hdr, list, i);
    }
  }

  /** `b` comes in before position `k`, replacing `e` blocks. */
  lemma InsertLinks(hdr: map<nat, Header>, hdr': map<nat, Header>, p: nat, list: seq<Block>, k: nat, b: Block, e: nat)
    requires Linked(hdr, p, list) && Sorted(list) && 0 < k <= |list| && k + e <= |list| && b.addr != 0
    requires forall i: nat | i < |list| && i != k - 1 ::
               list[i].addr in hdr ==> list[i].addr in hdr' && hdr'[list[i].addr] == hdr[list[i].addr]
    requires list[k - 1].addr in hdr && list[k - 1].addr in hdr'
             && hdr'[list[k - 1].addr] == hdr[list[k - 1].addr].(next := b.addr)
    requires b.addr in hdr' && hdr'[b.addr] == Header(if k + e < |list| then list[k + e].addr else 0, b.size)
    ensures Linked(hdr', p, list[..k] + [b] + list[k + e..])
  {
    var r := list[..k] + [b] + list[k + e..];
    forall i: nat | i < |r| ensures LinkAt(hdr', r, i) {
      if i != k {
        var j := if i < k then i else i - 1 + e;
        assert r[i] == list[j] && LinkAt(hdr, list, j);
        assert i + 1 < |r| && i + 1 != k ==> r[i + 1] == list[if i < k then i + 1 else i + e];
      }
    }
  }

  lemma MergedDownList(list: seq<Block>, b: Block, k: nat)
    requires 0 < k <= |list| && list[k - 1].End() == b.addr && (k < |list| ==> b.End() != list[k].addr)
    ensures FreeAt(list, k, b) == list[k - 1 := Block(list[k - 1].addr, list[k - 1].size + b.size)]
  {
  }

  lemma PlainList(list: seq<Block>, b: Block, k: nat)
    requires 0 < k <= |list| && list[k - 1].End() != b.addr && (k < |list| ==> b.End() != list[k].addr)
    ensures FreeAt(list, k, b) == list[..k] + [b] + list[k..]
  {
  }

  /** A merge on both sides leaves the upper block on the list, inside of the merged one. */
  lemma DoubleMergeOverlaps(list: seq<Block>, b: Block)
    requires TouchesBoth(list, b)
    ensures !Sorted(ListAfterFree(list, b))
  {
    var k := Below(list, b.addr);
    var r := ListAfterFree(list, b);
    assert r[k - 1].End() == list[k].End() && r[k] == list[k];
  }

  lemma MergedDownIsSorted(list: seq<Block>, b: Block, k: nat)
    requires Sorted(list) && 0 < k <= |list| && list[k - 1].End() == b.addr && (k < |list| ==> b.End() < list[k].addr)
    ensures Sorted(FreeAt(list, k, b))
  {
    SortedGrow(list, k - 1, list[k - 1].size + b.size);
    MergedDownList(list, b, k);
  }

  lemma MergedUpIsSorted(list: seq<Block>, b: Block, k: nat)
    requires Sorted(list) && 0 < k < |list| && list[k - 1].End() < b.addr && b.End() == list[k].addr && 0 < b.size
    ensures Sorted(FreeAt(list, k, b))
  {
    assert k + 1 < |list| ==> list[k].End() < list[k + 1].addr;
    SortedInsert(list, k, Block(b.addr, b.size + list[k].size), 1);
    MergedUpList(list, b, k);
  }

  lemma FreeStaysSorted(list: seq<Block>, b: Block, k: nat)
    requires Sorted(list) && list != [] && 0 < b.size && k <= |list|
    requires 0 < k ==> list[k - 1].End() <= b.addr
    requires k < |list| ==> b.End() <= list[k].addr
    requires !(0 < k < |list| && list[k - 1].End() == b.addr && b.End() == list[k].addr)
    ensures Sorted(FreeAt(list, k, b))
  {
    if k == 0 {
    } else if list[k - 1].End() == b.addr {
      MergedDownIsSorted(list, b, k);
    } else if k < |list| && b.End() == list[k].addr {
      MergedUpIsSorted(list, b, k);
    } else {
      SortedInsert(list, k, b, 0);
      PlainList(list, b, k);
    }
  }

  lemma FreeKeepsSorted(list: seq<Block>, b: Block)
    requires Sorted(list) && list != [] && Outside(list, b) && 0 < b.size
    ensures Sorted(ListAfterFree(list, b)) <==> !TouchesBoth(list, b)
  {
    if TouchesBoth(list, b) {
      DoubleMergeOverlaps(list, b);
    } else {
      EndsBelow(list, b);
      StartsAbove(list, b);
      FreeStaysSorted(list, b, Below(list, b.addr));
    }
  }

  lemma SortedGrow(list: seq<Block>, k: nat, size: nat)
    requires Sorted(list) && k < |list| && list[k].size <= size
    requires k + 1 < |list| ==> list[k].addr + size < list[k + 1].addr
    ensures Sorted(list[k := Block(list[k].addr, size)])
  {
    var r := list[k := Block(list[k].addr, size)];
    forall i: nat, j: nat | i < j < |r| ensures r[i].End() < r[j].addr {
      Order(list, i, j);
      if i == k && k + 1 < j {
        Order(list, k + 1, j);
      }
    }
  }

  lemma InsertedAt(list: seq<Block>, k: nat, b: Block, e: nat, i: nat)
    requires k + e <= |list| && i < |list[..k] + [b] + list[k + e..]|
    ensures var r := list[..k] + [b] + list[k + e..];
            r[i] == if i < k then list[i] else if i == k then b else list[i - 1 + e]
  {
  }

  lemma AroundInserted(list: seq<Block>, k: nat, b: Block, e: nat, i: nat)
    requires Sorted(list) && k + e <= |list| && i < |list|
    requires k > 0 ==> list[k - 1].End() < b.addr
    requires k + e < |list| ==> b.End() < list[k + e].addr
    ensures i < k ==> list[i].End() < b.addr
    ensures k + e <= i ==> b.End() < list[i].addr
  {
    if i + 1 < k {
      Order(list, i, k - 1);
    }
    if k + e < i {
      Order(list, k + e, i);
    }
  }

  lemma SortedInsert(list: seq<Block>, k: nat, b: Block, e: nat)
    requires Sorted(list) && k + e <= |list| && 0 < b.size
    requires k > 0 ==> list[k - 1].End() < b.addr
    requires k + e < |list| ==> b.End() < list[k + e].addr
    ensures Sorted(list[..k] + [b] + list[k + e..])
  {
    var r := list[..k] + [b] + list[k + e..];
    forall i: nat | i < |r| ensures 0 < r[i].size {
      InsertedAt(list, k, b, e, i);
    }
    forall i: nat, j: nat | i < j < |r| ensures r[i].End() < r[j].addr {
      InsertedAt(list, k, b, e, i);
      InsertedAt(list, k, b, e, j);
      if i == k {
        AroundInserted(list, k, b, e, j - 1 + e);
      } else if j == k {
        AroundInserted(list, k, b, e, i);
      } else {
        Order(list, if i < k then i else i - 1 + e, if j < k then j else j - 1 + e);
      }
    }
  }

  lemma EndsBelow(list: seq<Block>, b: Block)
    requires Sorted(list) && Outside(list, b) && 0 < b.size
    ensures forall i | 0 <= i < Below(list, b.addr) :: list[i].End() <= b.addr
    ensures forall i | 0 <= i < Below(list, b.addr) - 1 :: list[i].End() < b.addr
  {
    var k := Below(list, b.addr);
    forall i: nat | i + 1 < k ensures list[i].End() < b.addr {
      Order(list, i, k - 1);
    }
  }

  lemma StartsAbove(list: seq<Block>, b: Block)
    requires Sorted(list) && Outside(list, b) && 0 < b.size
    ensures forall i | Below(list, b.addr) <= i < |list| :: b.End() <= list[i].addr
    ensures forall i | Below(list, b.addr) < i < |list| :: b.End() < list[i].addr
  {
    var k := Below(list, b.addr);
    forall i | k < i < |list| ensures b.End() < list[i].addr {
      Order(list, k, i);
    }
  }
}
