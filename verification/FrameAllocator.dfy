/**
  The page-frame allocator: one linked list of descriptors with three cursors.

  A descriptor is 16 bytes at some address; `nodes` is the memory they live in and 0 is NULL.
  From `headFree` to `headUnalloc` the descriptors hold free pages; those after it, up to
  `headEnd`, are spares waiting for a page to come back.
 */
module FrameAllocator {
  import opened Wrappers

  datatype FreeNode = FreeNode(current: nat, next: nat)

  function PagesFor(size: nat): (n: nat)
    ensures size <= n * 4096 < size + 4096
  {
    var n := size / 4096;
    if n * 4096 < size then n + 1 else n
  }

  ghost predicate LinkAt(nodes: map<nat, FreeNode>, s: seq<nat>, i: nat)
    requires i < |s| && s[i] in nodes
  {
    nodes[s[i]].next == if i + 1 < |s| then s[i + 1] else 0
  }

  /** The descriptors of `s` are linked in order, starting at `p` and ending at NULL. */
  ghost predicate Chain(nodes: map<nat, FreeNode>, p: nat, s: seq<nat>) {
    && (forall i | 0 <= i < |s| :: s[i] in nodes && s[i] != 0)
    && (p == if s == [] then 0 else s[0])
    && (forall i: nat {:trigger LinkAt(nodes, s, i)} | i < |s| :: LinkAt(nodes, s, i))
  }

  ghost function PagesOf(nodes: map<nat, FreeNode>, s: seq<nat>): (q: seq<nat>)
    requires forall i | 0 <= i < |s| :: s[i] in nodes
    ensures |q| == |s| && forall i | 0 <= i < |s| :: q[i] == nodes[s[i]].current
  {
    seq(|s|, i requires 0 <= i < |s| => nodes[s[i]].current)
  }

  /** The list and its cursors: after boot, `headUnalloc` is the last free descriptor, or the tail
      when no page is free, and `headEnd` is the tail. */
  ghost predicate ListOk(nodes: map<nat, FreeNode>, headFree: nat, headEnd: nat, headUnalloc: nat, free: nat,
      spine: seq<nat>, boot: bool) {
    && Chain(nodes, headFree, spine) && Distinct(spine) && 0 in nodes
    && if boot then headEnd in nodes && headEnd !in spine && free == |spine|
       else
         && 2 <= |spine| && headEnd == spine[|spine| - 1] && free <= |spine|
         && headUnalloc == spine[if free == 0 then |spine| - 1 else free - 1]
  }

  class Allocator {
    var nodes: map<nat, FreeNode>
    var headFree: nat
    var headEnd: nat
    var headUnalloc: nat
    var numberOfFreePages: nat
    /** the descriptors reachable from `headFree` */
    ghost var spine: seq<nat>
    /** between `initbump` and `init_after_paging`: taken descriptors are not linked behind the free ones */
    ghost var boot: bool

    ghost predicate Valid()
      reads this
    {
      ListOk(nodes, headFree, headEnd, headUnalloc, numberOfFreePages, spine, boot)
    }

    /** The free pages, in the order in which they will be handed out. */
    ghost function Queue(): (q: seq<nat>)
      requires Valid()
      reads this
      ensures |q| == numberOfFreePages
    {
      PagesOf(nodes, spine[..numberOfFreePages])
    }

    /** The first loop of `initbump`: one descriptor for each page of `[physfree, physend)`. */
    method BuildList(physfree: nat, physend: nat) returns (k: nat)
      requires 0 < physfree && physfree + 2 * 4096 <= physend && 0 in nodes
      modifies `nodes
      ensures k == (physend - physfree) / 4096 && 0 in nodes
      ensures ListBuilt(nodes, physfree, physend, k)
    {
      var i, j := physfree, physfree;
      k := 0;
      while i <= physend - 4096
        invariant i == physfree + 4096 * k && j == Descriptor(physfree, k) && i <= physend && 0 in nodes
        invariant ListBuilt(nodes, physfree, physend, k)
      {
        OneMoreBuilt(nodes, physfree, physend, k);
        nodes := nodes[j := FreeNode(i, if i != physend - 4096 then j + 16 else 0)];
        i, j, k := i + 4096, j + 16, k + 1;
      }
    }

    /** The second loop of `initbump`: skip the pages the `k` descriptors themselves fill. */
    method SkipDescriptors(ghost physfree: nat, ghost physend: nat, k: nat) returns (ghost n: nat)
      requires 2 <= k && ListBuilt(nodes, physfree, physend, k) && headFree == Descriptor(physfree, 0)
      requires physfree + 4096 * k <= physend
      modifies `headFree, `numberOfFreePages
      ensures n == PagesFor(k * 16) < k
      ensures headFree == Descriptor(physfree, n) && numberOfFreePages == k - n
    {
      var l := (k * 16) / 4096;
      if l * 4096 < k * 16 {
        l := l + 1;
      }
      n := l;
      assert n == PagesFor(k * 16) && n < k;
      numberOfFreePages := k - l;
      while l != 0
        invariant 0 <= l <= n && headFree == Descriptor(physfree, n - l) && numberOfFreePages == k - n
      {
        assert NodeBuilt(nodes, physfree, physend, n - l);
        headFree := nodes[headFree].next;
        l := l - 1;
      }
    }

    /** `initbump`.  The list is terminated exactly when the bounds are a whole number of pages apart;
        then the free pages are all the pages behind the descriptors. */
    method InitBump(physfree: nat, physend: nat)
      requires 0 < physfree && physfree + 2 * 4096 <= physend && 0 in nodes
      modifies this
      ensures var k := (physend - physfree) / 4096;
              && Descriptor(physfree, k - 1) in nodes
              && (nodes[Descriptor(physfree, k - 1)].next == 0 <==> (physend - physfree) % 4096 == 0)
      ensures (physend - physfree) % 4096 == 0 ==>
                var k := (physend - physfree) / 4096;
                var l := PagesFor(k * 16);
                && l < k && Valid() && boot && Queue() == PageRun(physfree + 4096 * l, k - l)
                && DescriptorsApart(physfree, k, Queue())
    {
      boot, headEnd, headFree := true, 0, physfree;
      var k := BuildList(physfree, physend);
      assert NodeBuilt(nodes, physfree, physend, k - 1);
      ghost var n := SkipDescriptors(physfree, physend, k);
      spine := Descriptors(physfree, n, k - n);
      if (physend - physfree) % 4096 == 0 {
        ListIsQueue(nodes, physfree, physend, k, n);
        DescriptorsDiffer(physfree, n, k - n);
        PagesBehindDescriptors(physfree, k, n);
        assert spine[..numberOfFreePages] == spine;
      }
    }

    /** `init_after_paging`: find the tail; every descriptor now holds a free page. */
    method InitAfterPaging()
      requires Valid() && boot && 2 <= |spine|
      modifies `headEnd, `headUnalloc, `boot
      ensures Valid() && !boot && Queue() == old(Queue()) && spine == old(spine)
    {
      var temp := headFree;
      ghost var i := 0;
      assert LinkAt(nodes, spine, 0);
      while nodes[temp].next != 0
        invariant i < |spine| && temp == spine[i] && LinkAt(nodes, spine, i)
        decreases |spine| - i
      {
        assert LinkAt(nodes, spine, i + 1);
        temp, i := nodes[temp].next, i + 1;
      }
      headEnd, headUnalloc, boot := temp, temp, false;
    }

    /** One turn of the loop of the `bump` functions: the first descriptor goes to the tail. */
    method MoveHead()
      requires headFree in nodes && headEnd in nodes && 0 < numberOfFreePages
      modifies `nodes, `headFree, `headEnd, `numberOfFreePages
      ensures nodes == AfterMove(old(nodes), old(headEnd), old(headFree))
      ensures headFree == old(nodes[headFree].next) && headEnd == old(headFree)
      ensures numberOfFreePages == old(numberOfFreePages) - 1
      ensures headUnalloc == old(headUnalloc) && spine == old(spine) && boot == old(boot)
    {
      var temp := headFree;
      headFree := nodes[headFree].next;
      nodes := nodes[headEnd := nodes[headEnd].(next := temp)];
      headEnd := nodes[headEnd].next;
      nodes := nodes[headEnd := nodes[headEnd].(next := 0)];
      numberOfFreePages := numberOfFreePages - 1;
    }

    method TakePage()
      requires Valid() && 0 < numberOfFreePages
      modifies `nodes, `headFree, `headEnd, `numberOfFreePages, `spine
      ensures Valid() && Queue() == old(Queue())[1..]
      ensures !boot ==> multiset(spine) == old(multiset(spine))
    {
      ListMoves(nodes, headEnd, headUnalloc, numberOfFreePages, spine, boot);
      MovedIsPermutation(spine);
      MoveHead();
      spine := Moved(spine, boot);
    }

    /** The loop itself. */
    method TakePages(n: nat)
      requires Valid() && n <= numberOfFreePages
      modifies `nodes, `headFree, `headEnd, `numberOfFreePages, `spine
      ensures Valid() && Queue() == old(Queue())[n..]
      ensures !boot ==> multiset(spine) == old(multiset(spine))
    {
      var numOfPages := n;
      ghost var q, s := Queue(), spine;
      while numOfPages != 0
        invariant 0 <= numOfPages <= n <= |q| && Valid()
        invariant Queue() == q[n - numOfPages..]
        invariant !boot ==> multiset(spine) == multiset(s)
      {
        DropOneMore(q, n - numOfPages);
        TakePage();
        numOfPages := numOfPages - 1;
      }
    }

    /** The body shared by `bump`, `bump_initial`, `bump_user` and `bump_physical`: the first page of the
        run that leaves the queue, or nothing when too few pages are free. */
    method Bump(size: nat) returns (first: nat, ok: bool)
      requires Valid() && (0 < size || 0 < numberOfFreePages)
      modifies `nodes, `headFree, `headEnd, `numberOfFreePages, `spine
      ensures Valid() && ok == (PagesFor(size) <= old(numberOfFreePages))
      ensures ok ==> Queue() == old(Queue())[PagesFor(size)..] && first == old(Queue())[0]
      ensures !ok ==> Queue() == old(Queue())
      ensures !boot ==> multiset(spine) == old(multiset(spine))
    {
      var numOfPages := size / 4096;
      if numOfPages * 4096 < size {
        numOfPages := numOfPages + 1;
      }
      if numOfPages > numberOfFreePages {
        return 0, false;
      }
      ok, first := true, nodes[headFree].current;
      TakePages(numOfPages);
    }

    /** `get_unallocated`: the page that will be handed out next. */
    method Unallocated() returns (page: nat)
      requires Valid() && 0 < numberOfFreePages
      ensures page == Queue()[0]
    {
      page := nodes[headFree].current;
    }

    /** `kfree`, given the address it recovered.  It dereferences NULL exactly when no page is free or
        none is handed out; otherwise the page joins the end of the queue. */
    method Kfree(physAddress: nat) returns (ok: bool)
      requires Valid() && !boot
      modifies `nodes, `headUnalloc, `numberOfFreePages
      ensures ok == (0 < old(numberOfFreePages) < |spine|)
      ensures Valid()
      ensures Queue() == if ok then old(Queue()) + [physAddress] else old(Queue())
    {
      assert LinkAt(nodes, spine, if numberOfFreePages == 0 then |spine| - 1 else numberOfFreePages - 1);
      if nodes[headUnalloc].next == 0 {
        return false;
      }
      FilledChain(nodes, headFree, spine, spine[numberOfFreePages], physAddress);
      FilledQueue(nodes, spine, numberOfFreePages, physAddress);
      headUnalloc := nodes[headUnalloc].next;
      nodes := nodes[headUnalloc := nodes[headUnalloc].(current := physAddress)];
      numberOfFreePages := numberOfFreePages + 1;
      return true;
    }
  }

  // ---------------------------------------------------------------------------
  // Proof steps

  ghost function Moved(s: seq<nat>, boot: bool): seq<nat>
    requires s != []
  {
    if boot then s[1..] else s[1..] + [s[0]]
  }

  lemma MovedIsPermutation(s: seq<nat>)
    requires s != []
    ensures multiset(Moved(s, false)) == multiset(s)
  {
    assert s == [s[0]] + s[1..];
  }

  ghost function AfterMove(nodes: map<nat, FreeNode>, end: nat, head: nat): map<nat, FreeNode>
    requires end in nodes && head in nodes
  {
    var linked := nodes[end := nodes[end].(next := head)];
    linked[head := linked[head].(next := 0)]
  }

  lemma ChainMoves(nodes: map<nat, FreeNode>, end: nat, s: seq<nat>, boot: bool)
    requires s != [] && Chain(nodes, s[0], s) && Distinct(s) && end in nodes
    requires if boot then end !in s else 2 <= |s| && end == s[|s| - 1]
    ensures var m := Moved(s, boot);
      && Distinct(m) && Chain(AfterMove(nodes, end, s[0]), if m == [] then 0 else m[0], m)
      && (boot ==> s[0] !in m)
  {
    var m := Moved(s, boot);
    var nodes' := AfterMove(nodes, end, s[0]);
    assert forall i | 0 <= i < |s| - 1 :: m[i] == s[i + 1];
    forall i: nat | i < |m| ensures LinkAt(nodes', m, i) {
      if i < |s| - 1 {
        assert LinkAt(nodes, s, i + 1);
      }
    }
  }

  lemma DropOneMore(q: seq<nat>, k: nat)
    requires k < |q|
    ensures q[k..][1..] == q[k + 1..]
  {
  }

  function HeadOf(s: seq<nat>): nat {
    if s == [] then 0 else s[0]
  }

  lemma ListMoves(nodes: map<nat, FreeNode>, end: nat, unalloc: nat, f: nat, s: seq<nat>, boot: bool)
    requires 0 < f && ListOk(nodes, HeadOf(s), end, unalloc, f, s, boot)
    ensures ListOk(AfterMove(nodes, end, s[0]), nodes[s[0]].next, s[0], unalloc, f - 1, Moved(s, boot), boot)
    ensures PagesOf(AfterMove(nodes, end, s[0]), Moved(s, boot)[..f - 1]) == PagesOf(nodes, s[..f])[1..]
  {
    ChainMoves(nodes, end, s, boot);
    assert LinkAt(nodes, s, 0);
    CursorsMove(s, f);
    QueueMoves(nodes, AfterMove(nodes, end, s[0]), s, boot, f);
  }

  lemma CursorsMove(s: seq<nat>, f: nat)
    requires 0 < f <= |s|
    ensures Moved(s, false)[if f == 1 then |s| - 1 else f - 2] == s[f - 1]
    ensures Moved(s, false)[|s| - 1] == s[0] && |Moved(s, false)| == |s|
  {
  }

  lemma QueueMoves(nodes: map<nat, FreeNode>, nodes': map<nat, FreeNode>, s: seq<nat>, boot: bool, f: nat)
    requires 0 < f <= |s| && (boot ==> f == |s|) && (forall i | 0 <= i < |s| :: s[i] in nodes)
    requires nodes'.Keys == nodes.Keys && forall a | a in nodes :: nodes'[a].current == nodes[a].current
    ensures forall i | 0 <= i < |Moved(s, boot)| :: Moved(s, boot)[i] in nodes'
    ensures PagesOf(nodes', Moved(s, boot)[..f - 1]) == PagesOf(nodes, s[..f])[1..]
  {
    var m := Moved(s, boot);
    assert forall i | 0 <= i < |s| - 1 :: m[i] == s[i + 1];
  }

  lemma FilledChain(nodes: map<nat, FreeNode>, p: nat, s: seq<nat>, a: nat, page: nat)
    requires Chain(nodes, p, s) && a in nodes
    ensures Chain(nodes[a := nodes[a].(current := page)], p, s)
  {
    var nodes' := nodes[a := nodes[a].(current := page)];
    forall i: nat | i < |s| ensures LinkAt(nodes', s, i) {
      assert LinkAt(nodes, s, i);
    }
  }

  lemma FilledQueue(nodes: map<nat, FreeNode>, s: seq<nat>, f: nat, page: nat)
    requires f < |s| && Distinct(s) && forall i | 0 <= i < |s| :: s[i] in nodes
    ensures var nodes' := nodes[s[f] := nodes[s[f]].(current := page)];
            PagesOf(nodes', s[..f + 1]) == PagesOf(nodes, s[..f]) + [page]
  {
  }

  ghost function Descriptors(physfree: nat, n: nat, len: nat): (s: seq<nat>)
    ensures |s| == len && forall a | 0 <= a < len :: s[a] == Descriptor(physfree, n + a)
  {
    seq<nat>(len, (a: nat) => Descriptor(physfree, n + a))
  }

  ghost predicate NodeBuilt(nodes: map<nat, FreeNode>, physfree: nat, physend: nat, m: nat) {
    Descriptor(physfree, m) in nodes && nodes[Descriptor(physfree, m)] == Built(physfree, physend, m)
  }

  ghost predicate ListBuilt(nodes: map<nat, FreeNode>, physfree: nat, physend: nat, k: nat) {
    forall m: nat {:trigger NodeBuilt(nodes, physfree, physend, m)} | m < k :: NodeBuilt(nodes, physfree, physend, m)
  }

  lemma OneMoreBuilt(nodes: map<nat, FreeNode>, physfree: nat, physend: nat, k: nat)
    requires ListBuilt(nodes, physfree, physend, k)
    ensures ListBuilt(nodes[Descriptor(physfree, k) := Built(physfree, physend, k)], physfree, physend, k + 1)
  {
    var nodes' := nodes[Descriptor(physfree, k) := Built(physfree, physend, k)];
    forall m: nat | m < k + 1 ensures NodeBuilt(nodes', physfree, physend, m) {
      assert m < k ==> NodeBuilt(nodes, physfree, physend, m);
    }
  }

  ghost predicate PageAt(nodes: map<nat, FreeNode>, s: seq<nat>, i: nat, page: nat) {
    i < |s| && s[i] in nodes && s[i] != 0 && nodes[s[i]].current == page && LinkAt(nodes, s, i)
  }

  lemma ListIsQueue(nodes: map<nat, FreeNode>, physfree: nat, physend: nat, k: nat, n: nat)
    requires ListBuilt(nodes, physfree, physend, k) && physend == physfree + 4096 * k && n < k && 0 < physfree
    ensures Chain(nodes, Descriptor(physfree, n), Descriptors(physfree, n, k - n))
    ensures PagesOf(nodes, Descriptors(physfree, n, k - n)) == PageRun(physfree + 4096 * n, k - n)
  {
    var s, q := Descriptors(physfree, n, k - n), PageRun(physfree + 4096 * n, k - n);
    forall i: nat | i < |s| ensures PageAt(nodes, s, i, q[i]) {
      DescriptorAt(nodes, physfree, physend, k, n, i);
    }
    PagesInOrder(nodes, s, q);
  }

  lemma PagesInOrder(nodes: map<nat, FreeNode>, s: seq<nat>, q: seq<nat>)
    requires |s| == |q| && s != []
    requires forall i: nat {:trigger PageAt(nodes, s, i, q[i])} | i < |s| :: PageAt(nodes, s, i, q[i])
    ensures Chain(nodes, s[0], s) && PagesOf(nodes, s) == q
  {
    forall i: nat | i < |s| ensures s[i] in nodes && s[i] != 0 && nodes[s[i]].current == q[i] {
      assert PageAt(nodes, s, i, q[i]);
    }
    forall i: nat | i < |s| ensures LinkAt(nodes, s, i) {
      assert PageAt(nodes, s, i, q[i]);
    }
  }

  lemma DescriptorsDiffer(physfree: nat, n: nat, len: nat)
    ensures Distinct(Descriptors(physfree, n, len))
  {
  }

  /** The free pages start behind the array of descriptors. */
  lemma PagesBehindDescriptors(physfree: nat, k: nat, n: nat)
    requires n == PagesFor(k * 16) < k
    ensures DescriptorsApart(physfree, k, PageRun(physfree + 4096 * n, k - n))
  {
  }

  lemma DescriptorAt(nodes: map<nat, FreeNode>, physfree: nat, physend: nat, k: nat, n: nat, i: nat)
    requires ListBuilt(nodes, physfree, physend, k) && physend == physfree + 4096 * k && i < k - n && 0 < physfree
    ensures PageAt(nodes, Descriptors(physfree, n, k - n), i, physfree + 4096 * (n + i))
  {
    assert NodeBuilt(nodes, physfree, physend, n + i);
  }

  /** The address of descriptor `m`, and what `initbump` stores there. */
  function Descriptor(physfree: nat, m: nat): nat {
    physfree + 16 * m
  }

  function Built(physfree: nat, physend: nat, m: nat): FreeNode {
    FreeNode(physfree + 4096 * m, if physfree + 4096 * (m + 1) != physend then Descriptor(physfree, m + 1) else 0)
  }

  /** `n` consecutive pages from `p`. */
  function PageRun(p: nat, n: nat): (q: seq<nat>)
    ensures |q| == n && forall i | 0 <= i < n :: q[i] == p + 4096 * i
  {
    seq(n, (i: nat) => p + 4096 * i)
  }

  /** No free page overlaps the array of `k` descriptors at `base`. */
  ghost predicate DescriptorsApart(base: nat, k: nat, q: seq<nat>) {
    forall i, d: nat {:trigger q[i], Descriptor(base, d)} | 0 <= i < |q| && d < k :: Descriptor(base, d) + 16 <= q[i]
  }
}
