/**
  `map_user_address` inside one 1 GB region: which pages it maps, and what it does to the pages
  that were mapped before.
 */
module UserMap {
  import opened PageEntries
  import opened PageTables
  import opened BootMap
  import opened Wrappers

  /** Pages of one page directory. */
  const REGION: nat := 512 * 512

  /** Where page `x` of the region of `pd` leads. */
  function Leaf(m: Memory, pd: Frame, x: nat): Option<Frame> {
    Follow(m, Follow(m, Some(pd), x / 512), x % 512)
  }

  ghost predicate PtOk(m: Memory, pd: Frame, t: Frame) {
    t != pd && t in m && |m[t]| == 512
  }

  /** The page directory and the tables it leads to are a tree. */
  ghost predicate DirectoryOk(m: Memory, pd: Frame) {
    && pd in m && |m[pd]| == 512
    && (forall j {:trigger m[pd][j]} | 0 <= j < 512 && m[pd][j].present :: PtOk(m, pd, m[pd][j].frame))
    && (forall j, k {:trigger m[pd][j], m[pd][k]} | 0 <= j < 512 && 0 <= k < 512 && m[pd][j].present
        && m[pd][k].present ::
          m[pd][j].frame == m[pd][k].frame ==> j == k)
  }

  /** No part of the directory. */
  ghost predicate Spare(m: Memory, pd: Frame, t: Frame)
    requires pd in m && |m[pd]| == 512
  {
    && t != pd && t in m && |m[t]| == 512
    && forall j {:trigger m[pd][j]} | 0 <= j < 512 && m[pd][j].present :: m[pd][j].frame != t
  }

  function WithPt(m: Memory, pd: Frame, j: nat, t: Frame): Memory
    requires pd in m && j < |m[pd]|
  {
    m[t := Zeros()][pd := m[pd][j := User(t)]]
  }

  /** A fresh table in slot `j` hides whatever the old one mapped. */
  lemma ReplacePt(m: Memory, pd: Frame, j: nat, t: Frame)
    requires DirectoryOk(m, pd) && Spare(m, pd, t) && j < 512
    ensures DirectoryOk(WithPt(m, pd, j, t), pd)
    ensures forall x: nat {:trigger Leaf(WithPt(m, pd, j, t), pd, x)} | x < REGION ::
              Leaf(WithPt(m, pd, j, t), pd, x) == if x / 512 == j then None else Leaf(m, pd, x)
  {
    var m' := WithPt(m, pd, j, t);
    forall x: nat | x < REGION ensures Leaf(m', pd, x) == if x / 512 == j then None else Leaf(m, pd, x) {
      assert m'[pd][x / 512] == if x / 512 == j then User(t) else m[pd][x / 512];
    }
  }

  function WithPage(m: Memory, pt: Frame, k: nat, f: Frame): Memory
    requires pt in m && k < |m[pt]|
  {
    m[pt := m[pt][k := User(f)]]
  }

  lemma PutLeaf(m: Memory, pd: Frame, j: nat, k: nat, f: Frame)
    requires DirectoryOk(m, pd) && j < 512 && k < 512 && m[pd][j].present
    ensures PtOk(m, pd, m[pd][j].frame)
    ensures var m' := WithPage(m, m[pd][j].frame, k, f);
      && DirectoryOk(m', pd) && m'[pd] == m[pd]
      && forall x: nat {:trigger Leaf(m', pd, x)} | x < REGION ::
           Leaf(m', pd, x) == if x == 512 * j + k then Some(f) else Leaf(m, pd, x)
  {
    var pt := m[pd][j].frame;
    var m' := WithPage(m, pt, k, f);
    forall x: nat | x < REGION ensures Leaf(m', pd, x) == if x == 512 * j + k then Some(f) else Leaf(m, pd, x) {
      assert m[pd][x / 512].present ==> (m[pd][x / 512].frame == pt <==> x / 512 == j);
      assert x == 512 * (x / 512) + x % 512;
    }
  }

  /** What `Open` makes of entry `j` of `dir`: the memory, the queue and the table it leads to. */
  function OpenTable(m: Memory, free: seq<Frame>, dir: Frame, j: nat): (Memory, seq<Frame>, Frame) {
    if dir !in m || |m[dir]| <= j then (m, free, 0)
    else if m[dir][j].present then (m, free, m[dir][j].frame)
    else if free == [] then (m, free, 0)
    else (WithPt(m, dir, j, free[0]), free[1..], free[0])
  }

  /** The three tables on the way to a page: the memory, the queue, the directory and the page table. */
  function OpenTables(m: Memory, free: seq<Frame>, root: Frame, i4: nat, i3: nat, i2: nat)
    : (Memory, seq<Frame>, Frame, Frame)
  {
    var (m1, f1, p) := OpenTable(m, free, root, i4);
    var (m2, f2, pd) := OpenTable(m1, f1, p, i3);
    var (m3, f3, pt) := OpenTable(m2, f2, pd, i2);
    (m3, f3, pd, pt)
  }

  /** The entry of one page, unless it is present. */
  function PutEntry(m: Memory, pt: Frame, k: nat, f: Frame): Memory {
    if pt in m && k < |m[pt]| && !m[pt][k].present then WithPage(m, pt, k, f) else m
  }

  /** The tables and the entry for the page `i` places behind page `x0`. */
  function PtIndex(x0: nat, i: nat): nat {
    (x0 + i) / 512
  }

  function EntryIndex(x0: nat, i: nat): (k: nat)
    ensures k < 512
  {
    (x0 + i) % 512
  }

  /** A new page table is needed in front of this page. */
  predicate NeedsTable(x0: nat, i: nat) {
    0 < i && EntryIndex(x0, i) == 0
  }

  /** The loop from page `i` on, `pt` being the table of the page before. */
  function PutPages(m: Memory, free: seq<Frame>, pd: Frame, pt: Frame, x0: nat, i: nat, n: nat, p0: nat): Memory
    decreases n - i
  {
    if n <= i then m
    else if NeedsTable(x0, i) && free != [] && pd in m && PtIndex(x0, i) < |m[pd]| then
      var m' := WithPt(m, pd, PtIndex(x0, i), free[0]);
      PutPages(PutEntry(m', free[0], EntryIndex(x0, i), p0 + i), free[1..], pd, free[0], x0, i + 1, n, p0)
    else PutPages(PutEntry(m, pt, EntryIndex(x0, i), p0 + i), free, pd, pt, x0, i + 1, n, p0)
  }

  // ---------------------------------------------------------------------------
  // What is mapped

  /** Where page `x` leads after `n` pages from `x0` on have been mapped to `p0` and up, if it led to `was` before.
      In the first table pages that are present stay; every later table is new. */
  function Mapped(was: Option<Frame>, x0: nat, n: nat, p0: nat, x: nat): Option<Frame> {
    if n == 0 || x / 512 < x0 / 512 || (x0 + n - 1) / 512 < x / 512 then was
    else if x0 <= x < x0 + n then (if x / 512 == x0 / 512 && was.Some? then was else Some(p0 + (x - x0)))
    else if x / 512 == x0 / 512 then was
    else None
  }

  lemma MappedOneMore(was: Option<Frame>, x0: nat, n: nat, p0: nat, y: nat)
    ensures var x := x0 + n;
            var carried := if n > 0 && x % 512 == 0 && y / 512 == x / 512 then None else Mapped(was, x0, n, p0, y);
            Mapped(was, x0, n + 1, p0, y) == if y == x && carried.None? then Some(p0 + n) else carried
  {
    var x := x0 + n;
    assert n > 0 ==> (x - 1) / 512 == if x % 512 == 0 then x / 512 - 1 else x / 512;
  }

  ghost predicate MappedAll(m: Memory, m': Memory, pd: Frame, x0: nat, n: nat, p0: nat) {
    forall x: nat {:trigger Leaf(m', pd, x)} | x < REGION :: Leaf(m', pd, x) == Mapped(Leaf(m, pd, x), x0, n, p0, x)
  }

  /** Before page `x0 + i`, its table has been emptied if it is not that of the page before. */
  ghost predicate CarriedOver(m1: Memory, m2: Memory, pd: Frame, x0: nat, i: nat) {
    if i > 0 && (x0 + i) % 512 == 0
    then forall y: nat {:trigger Leaf(m2, pd, y)} | y < REGION ::
           Leaf(m2, pd, y) == if y / 512 == (x0 + i) / 512 then None else Leaf(m1, pd, y)
    else m2 == m1
  }

  /** The page that the loop maps next, and the carry in front of it. */
  lemma MappedNext(m: Memory, m1: Memory, m2: Memory, m3: Memory, pd: Frame, x0: nat, n: nat, p0: nat)
    requires x0 + n < REGION && MappedAll(m, m1, pd, x0, n, p0)
    requires CarriedOver(m1, m2, pd, x0, n)
    requires forall y: nat {:trigger Leaf(m3, pd, y)} | y < REGION ::
               Leaf(m3, pd, y) == if y == x0 + n && Leaf(m2, pd, y).None? then Some(p0 + n) else Leaf(m2, pd, y)
    ensures MappedAll(m, m3, pd, x0, n + 1, p0)
  {
    var x := x0 + n;
    forall y: nat | y < REGION ensures Leaf(m3, pd, y) == Mapped(Leaf(m, pd, y), x0, n + 1, p0, y) {
      assert Leaf(m1, pd, y) == Mapped(Leaf(m, pd, y), x0, n, p0, y);
      MappedOneMore(Leaf(m, pd, y), x0, n, p0, y);
      assert Leaf(m2, pd, y) == if n > 0 && x % 512 == 0 && y / 512 == x / 512 then None else Leaf(m1, pd, y);
    }
  }

  // ---------------------------------------------------------------------------
  // The size

  /** The pages that the loop maps for `size` bytes: one for every 512 pages is added, and one more at the end. */
  function MappedPages(size: nat): nat {
    var entries := size / 4096 + if size % 512 > 0 then 1 else 0;
    var structs := entries / 512 + if entries % 512 > 0 then 1 else 0;
    var rest := size + (structs - 1) * 4096;
    if rest < 0 then 0 else rest / 4096 + 1
  }

  /** The pages cover the bytes, except for less than a page of a whole number of 512 bytes, which map nothing. */
  lemma PagesCover(size: nat)
    ensures 4096 * MappedPages(size) >= size <==> !(0 < size < 4096 && size % 512 == 0)
    ensures 0 < size < 4096 && size % 512 == 0 ==> MappedPages(size) == 0
    ensures size == 4096 ==> MappedPages(size) == 2
  {
    var entries := size / 4096 + if size % 512 > 0 then 1 else 0;
    var structs := entries / 512 + if entries % 512 > 0 then 1 else 0;
    if size < 4096 {
      assert entries == if size % 512 > 0 then 1 else 0;
    } else {
      assert structs >= 1;
    }
  }

  // ---------------------------------------------------------------------------
  // The method

  ghost predicate FreeOk(m: Memory, pd: Frame, free: seq<Frame>)
    requires pd in m && |m[pd]| == 512
  {
    && (forall i | 0 <= i < |free| :: Spare(m, pd, free[i]))
    && (forall i, j | 0 <= i < j < |free| :: free[i] != free[j])
  }

  /** No frame outside of `touched` has changed. */
  ghost predicate KeptOutside(m: Memory, m': Memory, touched: set<Frame>) {
    forall f {:trigger f in m} | f in m && f !in touched :: f in m' && m'[f] == m[f]
  }

  lemma KeptChain(a: Memory, b: Memory, c: Memory, touched: set<Frame>, more: set<Frame>)
    requires KeptOutside(a, b, touched) && KeptOutside(b, c, more) && more <= touched
    ensures KeptOutside(a, c, touched)
  {
    assert forall f | f in a && f !in touched :: f in b;
  }

  ghost predicate SameEntry(m: Memory, m': Memory, t: Frame, i: nat) {
    t in m && t in m' && i < |m[t]| && i < |m'[t]| && m'[t][i] == m[t][i]
  }

  class UserMapper {
    var mem: Memory
    var free: seq<Frame>

    constructor (mem: Memory, free: seq<Frame>)
      ensures this.mem == mem && this.free == free
    {
      this.mem, this.free := mem, free;
    }

    method Bump() returns (f: Frame)
      requires free != []
      modifies `free
      ensures f == old(free[0]) && free == old(free)[1..]
    {
      f := free[0];
      free := free[1..];
    }

    /** The carry out of the PT index. */
    method NextPt(pd: Frame, i2: nat) returns (pt: Frame)
      requires DirectoryOk(mem, pd) && free != [] && FreeOk(mem, pd, free) && i2 < 512
      modifies `mem, `free
      ensures pt == old(free[0]) && free == old(free)[1..] && mem == WithPt(old(mem), pd, i2, pt)
      ensures DirectoryOk(mem, pd) && FreeOk(mem, pd, free)
    {
      assert Spare(mem, pd, free[0]);
      ReplacePt(mem, pd, i2, free[0]);
      FreeAfterPt(mem, pd, free, i2);
      pt := Bump();
      mem := ZeroTable(mem, pt);
      mem := mem[pd := mem[pd][i2 := User(pt)]];
    }

    /** The entry of one page, unless it is present. */
    method PutPage(pd: Frame, i2: nat, pt: Frame, i1: nat, f: Frame)
      requires DirectoryOk(mem, pd) && FreeOk(mem, pd, free) && i2 < 512 && i1 < 512 && mem[pd][i2].present
               && pt == mem[pd][i2].frame
      modifies `mem
      ensures DirectoryOk(mem, pd) && FreeOk(mem, pd, free) && pd in old(mem) && mem[pd] == old(mem)[pd]
      ensures KeptOutside(old(mem), mem, {pt}) && mem == PutEntry(old(mem), pt, i1, f)
      ensures forall x: nat {:trigger Leaf(mem, pd, x)} | x < REGION ::
                Leaf(mem, pd, x) == if x == 512 * i2 + i1 && Leaf(old(mem), pd, x).None? then Some(f)
                                    else Leaf(old(mem), pd, x)
    {
      PutLeaf(mem, pd, i2, i1, f);
      FreeAfterPage(mem, pd, free, i2, i1, f);
      if !mem[pt][i1].present {
        mem := mem[pt := mem[pt][i1 := User(f)]];
      }
    }

    /** The carry before page `x0 + i`, if there is one. */
    method Carry(pd: Frame, i2: nat, i1: nat, pt: Frame, ghost m0: Memory, ghost f0: seq<Frame>, ghost x0: nat,
        ghost i: nat, ghost i': nat, ghost n: nat, ghost p0: nat, ghost touched: set<Frame>)
      returns (j2: nat, j1: nat, pt': Frame)
      requires Looping(m0, pd, x0, i, p0, i2, i1, pt) && i < n && i' == i + 1 && x0 + n <= REGION
      requires Took(f0, x0, i) && NewTables(x0, n) <= |f0| && Touched(m0, pd, pt, touched)
      modifies `mem, `free
      ensures j2 == PtIndex(x0, i) < 512 && j1 == EntryIndex(x0, i)
      ensures DirectoryOk(mem, pd) && FreeOk(mem, pd, free) && mem[pd][j2].present && pt' == mem[pd][j2].frame
      ensures Touched(m0, pd, pt', touched) && Took(f0, x0, i') && SameEntry(m0, mem, pd, x0 / 512)
      ensures CarriedOver(old(mem), mem, pd, x0, i)
      ensures PutPages(old(mem), old(free), pd, pt, x0, i, n, p0)
              == PutPages(PutEntry(mem, pt', j1, p0 + i), free, pd, pt', x0, i', n, p0)
    {
      ghost var m1 := mem;
      j2, j1, pt' := i2, i1, pt;
      NewTablesStep(x0, i, n);
      CarryIsSeen(x0, i, i2, i1);
      DropTwice(f0, NewTables(x0, i), NewTables(x0, i + 1) - NewTables(x0, i));
      if j1 == 512 {
        j1, j2 := 0, j2 + 1;
        ReplacePt(mem, pd, j2, free[0]);
        pt' := NextPt(pd, j2);
        assert KeptOutside(m1, mem, {pd, pt'});
        KeptChain(m0, m1, mem, touched, {pd, pt'});
      }
    }

    /** Page `i`, of which `m1` is the memory before the carry. */
    method PutMapped(pd: Frame, i2: nat, i1: nat, pt: Frame, f: Frame, ghost m0: Memory, ghost m1: Memory,
        ghost x0: nat, ghost i: nat, ghost i': nat, ghost p0: nat, ghost touched: set<Frame>)
      requires x0 + i < REGION && f == p0 + i && i' == i + 1 && i2 == PtIndex(x0, i) < 512 && i1 == EntryIndex(x0, i)
      requires DirectoryOk(mem, pd) && FreeOk(mem, pd, free) && mem[pd][i2].present && pt == mem[pd][i2].frame
      requires MappedAll(m0, m1, pd, x0, i, p0) && CarriedOver(m1, mem, pd, x0, i)
      requires Touched(m0, pd, pt, touched) && SameEntry(m0, mem, pd, x0 / 512)
      modifies `mem
      ensures Looping(m0, pd, x0, i', p0, i2, i1 + 1, pt) && Touched(m0, pd, pt, touched)
      ensures mem == PutEntry(old(mem), pt, i1, f)
    {
      ghost var m2 := mem;
      PutPage(pd, i2, pt, i1, f);
      KeptChain(m0, m2, mem, touched, {pt});
      MappedNext(m0, m1, m2, mem, pd, x0, i, p0);
    }

    /** One round of the loop, for page `x0 + i`. */
    method MapPage(pd: Frame, i2: nat, i1: nat, pt: Frame, f: Frame, ghost m0: Memory, ghost f0: seq<Frame>,
        ghost pt0: Frame, ghost x0: nat, ghost i: nat, ghost n: nat, ghost p0: nat, ghost touched: set<Frame>)
      returns (j2: nat, j1: nat, pt': Frame, ghost i': nat)
      requires Looping(m0, pd, x0, i, p0, i2, i1, pt) && i < n && x0 + n <= REGION && f == p0 + i
      requires Took(f0, x0, i) && NewTables(x0, n) <= |f0| && Touched(m0, pd, pt, touched)
      requires StillToPut(m0, f0, pd, pt0, pt, x0, i, n, p0)
      modifies `mem, `free
      ensures i' == i + 1 && Touched(m0, pd, pt', touched) && Took(f0, x0, i')
      ensures Looping(m0, pd, x0, i', p0, j2, j1, pt')
      ensures StillToPut(m0, f0, pd, pt0, pt', x0, i', n, p0)
    {
      ghost var m1 := mem;
      i' := i + 1;
      j2, j1, pt' := Carry(pd, i2, i1, pt, m0, f0, x0, i, i', n, p0, touched);
      PutMapped(pd, j2, j1, pt', f, m0, m1, x0, i, i', p0, touched);
      j1 := j1 + 1;
    }

    /** Putting the other pages completes the whole range. */
    ghost predicate StillToPut(m0: Memory, f0: seq<Frame>, pd: Frame, pt0: Frame, pt: Frame, x0: nat, i: nat, n: nat,
        p0: nat)
      reads this
    {
      PutPages(mem, free, pd, pt, x0, i, n, p0) == PutPages(m0, f0, pd, pt0, x0, 0, n, p0)
    }

    /** The tables for the first `i` pages have been taken from the queue. */
    ghost predicate Took(f0: seq<Frame>, x0: nat, i: nat)
      reads this
    {
      NewTables(x0, i) <= |f0| && free == f0[NewTables(x0, i)..]
    }

    /** `i` pages have been mapped; `pt` is the table of the last one, and `i1` the PT index after it. */
    ghost predicate Looping(m0: Memory, pd: Frame, x0: nat, i: nat, p0: nat, i2: nat, i1: nat, pt: Frame)
      reads this
    {
      && DirectoryOk(mem, pd) && FreeOk(mem, pd, free) && MappedAll(m0, mem, pd, x0, i, p0)
      && i2 == (if i == 0 then x0 else x0 + i - 1) / 512 && i1 == x0 + i - 512 * i2 && i1 <= 512 && i2 < 512
      && mem[pd][i2].present && pt == mem[pd][i2].frame
      && SameEntry(m0, mem, pd, x0 / 512)
    }

    /** Everything that has changed since `m0` is in `touched`, and so is what may still change. */
    ghost predicate Touched(m0: Memory, pd: Frame, pt: Frame, touched: set<Frame>)
      reads this
    {
      KeptOutside(m0, mem, touched) && pd in touched && pt in touched && forall f | f in free :: f in touched
    }

    /** The loop of `map_user_address`, and where it stands at the end. */
    method MapLoop(pd: Frame, x0: nat, pt0: Frame, p0: nat, size0: int, ghost n: nat, ghost touched: set<Frame>)
      returns (ghost i: nat, i2: nat, i1: nat, pt: Frame)
      requires Looping(mem, pd, x0, 0, p0, x0 / 512, x0 % 512, pt0) && Took(free, x0, 0)
      requires Touched(mem, pd, pt0, touched) && x0 + n <= REGION
      requires n == (if size0 < 0 then 0 else size0 / 4096 + 1) && |free| >= NewTables(x0, n)
      modifies `mem, `free
      ensures i == n && Looping(old(mem), pd, x0, i, p0, i2, i1, pt) && Took(old(free), x0, i)
      ensures Touched(old(mem), pd, pt, touched) && StillToPut(old(mem), old(free), pd, pt0, pt, x0, i, n, p0)
    {
      var size, phy := size0, 4096 * p0;
      i2, i1, pt, i := x0 / 512, x0 % 512, pt0, 0;
      ghost var m0, f0 := mem, free;
      while size >= 0
        invariant i <= n && size == size0 - 4096 * i && phy == 4096 * (p0 + i)
        invariant Looping(m0, pd, x0, i, p0, i2, i1, pt) && Touched(m0, pd, pt, touched) && Took(f0, x0, i)
        invariant StillToPut(m0, f0, pd, pt0, pt, x0, i, n, p0)
        decreases size
      {
        i2, i1, pt, i := MapPage(pd, i2, i1, pt, phy / 4096, m0, f0, pt0, x0, i, n, p0, touched);
        phy, size := phy + 4096, size - 4096;
      }
      AllCounted(size0, size, i, n);
    }

    method MapPages(pd: Frame, x0: nat, pt0: Frame, p0: nat, size0: int, ghost n: nat, ghost touched: set<Frame>)
      requires DirectoryOk(mem, pd) && FreeOk(mem, pd, free) && x0 + n <= REGION && x0 < REGION
      requires mem[pd][x0 / 512].present && pt0 == mem[pd][x0 / 512].frame
      requires n == (if size0 < 0 then 0 else size0 / 4096 + 1) && |free| >= NewTables(x0, n)
      requires pd in touched && pt0 in touched && forall f | f in free :: f in touched
      modifies `mem, `free
      ensures DirectoryOk(mem, pd) && MappedAll(old(mem), mem, pd, x0, n, p0) && SameEntry(old(mem), mem, pd, x0 / 512)
      ensures Took(old(free), x0, n)
      ensures KeptOutside(old(mem), mem, touched)
      ensures mem == PutPages(old(mem), old(free), pd, pt0, x0, 0, n, p0)
    {
      ghost var i;
      var i2, i1, pt;
      i, i2, i1, pt := MapLoop(pd, x0, pt0, p0, size0, n, touched);
    }

    // -------------------------------------------------------------------------
    // The path to the first page

    /** A table that is present is taken over; else a new one is linked and emptied. */
    method Open(dir: Frame, j: nat) returns (t: Frame)
      requires dir in mem && j < |mem[dir]|
      requires !mem[dir][j].present ==> free != [] && free[0] in mem && |mem[free[0]]| == 512 && dir != free[0]
      modifies `mem, `free
      ensures old(mem[dir][j]).present ==> t == old(mem[dir][j]).frame && mem == old(mem) && free == old(free)
      ensures !old(mem[dir][j]).present ==>
                t == old(free)[0] && free == old(free)[1..] && mem == WithPt(old(mem), dir, j, t)
      ensures (mem, free, t) == OpenTable(old(mem), old(free), dir, j)
    {
      if !mem[dir][j].present {
        t := Bump();
        mem := mem[dir := mem[dir][j := User(t)]];
        mem := ZeroTable(mem, t);
        assert mem == WithPt(old(mem), dir, j, t);
      } else {
        t := mem[dir][j].frame;
      }
    }

    /** The tables that the first address needs. */
    method OpenPath(root: Frame, i4: nat, i3: nat, i2: nat) returns (pdpt: Frame, pd: Frame, pt: Frame)
      requires RegionOk(mem, root, i4, i3, free) && i4 < 512 && i3 < 512 && i2 < 512
      requires MissingTables(mem, root, i4, i3, i2) <= |free|
      modifies `mem, `free
      ensures Opened(mem, root, pdpt, pd, pt, i4, i3, i2, free)
      ensures SameRegion(old(mem), mem, root, i4, i3) && KeptOutside(old(mem), mem, {root, pdpt, pd, pt})
      ensures free == old(free)[MissingTables(old(mem), root, i4, i3, i2)..]
      ensures WayOpened(old(mem), mem, root, pdpt, pd, pt, i4, i3, i2, old(free))
      ensures (mem, free, pd, pt) == OpenTables(old(mem), old(free), root, i4, i3, i2)
    {
      ghost var m0, f0 := mem, free;
      OpenPdpt(mem, root, i4, i3, free);
      pdpt := Open(root, i4);
      ghost var m1 := mem;
      OpenPd(mem, root, pdpt, i4, i3, free);
      pd := Open(pdpt, i3);
      ghost var m2 := mem;
      OpenPt(mem, root, pdpt, pd, i4, i3, i2, free);
      pt := Open(pd, i2);
      PathIsOpen(m0, m1, m2, mem, root, pdpt, pd, pt, i4, i3, i2, f0, free);
      SameRegionChain(m0, m1, m2, mem, root, i4, i3);
      KeptChain(m0, m1, m2, {root, pdpt, pd, pt}, {pdpt, pd});
      KeptChain(m0, m2, mem, {root, pdpt, pd, pt}, {pd, pt});
    }

    /** The bytes that the loop counts down. */
    method SizeToCount(sizeToMap: nat) returns (size: int)
      ensures MappedPages(sizeToMap) == if size < 0 then 0 else size / 4096 + 1
    {
      var numOfEntries := sizeToMap / 4096;
      if sizeToMap % 512 > 0 {
        numOfEntries := numOfEntries + 1;
      }
      var numOfStructs: int := numOfEntries / 512;
      if numOfEntries % 512 > 0 {
        numOfStructs := numOfStructs + 1;
      }
      size := sizeToMap + (numOfStructs - 1) * 4096;
    }

    /** `map_user_address(4096 * v0, physical, sizeToMap, root, 7)` within the 1 GB of the first page. */
    method MapUserAddress(root: Frame, v0: nat, physical: nat, sizeToMap: nat)
      returns (ghost n: nat, ghost pdpt: Frame, ghost pd: Frame, ghost pt: Frame)
      requires v0 < 512 * REGION * 512 && v0 % REGION + MappedPages(sizeToMap) <= REGION
      requires RegionOk(mem, root, Digits(v0).i4, Digits(v0).i3, free)
      requires TablesFor(mem, root, v0, MappedPages(sizeToMap)) <= |free|
      modifies this
      ensures n == MappedPages(sizeToMap)
      ensures RangeMapped(old(mem), old(free), mem, free, root, v0, n, physical % 0x1_0000_0000 / 4096, pdpt, pd, pt)
    {
      var page := Digits(v0);
      RegionDigits(v0);
      n := MappedPages(sizeToMap);
      ghost var m0, f0 := mem, free;
      var p3, p2, p1 := OpenPath(root, page.i4, page.i3, page.i2);
      pdpt, pd, pt := p3, p2, p1;
      ghost var m1, f1 := mem, free;
      DropTwice(f0, MissingTables(m0, root, page.i4, page.i3, page.i2), NewTables(v0 % REGION, n));
      var size := SizeToCount(sizeToMap);
      var x0, p0 := v0 % REGION, physical % 0x1_0000_0000 / 4096;
      DirectoryIsOk(m1, root, p3, p2, p1, page.i4, page.i3, page.i2, f1);
      MapPages(p2, x0, p1, p0, size, n, {pd, pt} + Elements(free));
      RangeIsDone(m0, m1, mem, f0, f1, free, root, v0, n, p0, pdpt, pd, pt);
    }
  }

  /** `n` pages from `v0` on have been mapped to the frames from `p0` on: where every page of the gigabyte leads, the
      tables on the way and what has changed in them, the queue, the frames that may have changed at all, and the
      exact memory. */
  ghost predicate RangeMapped(m: Memory, free: seq<Frame>, m': Memory, free': seq<Frame>, root: Frame, v0: nat,
      n: nat, p0: nat, pdpt: Frame, pd: Frame, pt: Frame) {
    && RegionMapped(m, m', root, Digits(v0).i4, Digits(v0).i3, v0 % REGION, n, p0)
    && WayOpened(m, m', root, pdpt, pd, pt, Digits(v0).i4, Digits(v0).i3, Digits(v0).i2, free)
    && TablesFor(m, root, v0, n) <= |free| && free' == free[TablesFor(m, root, v0, n)..]
    && KeptOutside(m, m', {root, pdpt, pd, pt} + Elements(free))
    && m' == MappedMemory(m, free, root, v0, n, p0)
  }

  lemma RangeIsDone(m0: Memory, m1: Memory, m2: Memory, f0: seq<Frame>, f1: seq<Frame>, f2: seq<Frame>, root: Frame,
      v0: nat, n: nat, p0: nat, p: Frame, pd: Frame, pt: Frame)
    requires var d := Digits(v0);
      && SameRegion(m0, m1, root, d.i4, d.i3) && Opened(m1, root, p, pd, pt, d.i4, d.i3, d.i2, f1)
      && WayOpened(m0, m1, root, p, pd, pt, d.i4, d.i3, d.i2, f0) && KeptOutside(m0, m1, {root, p, pd, pt})
      && (m1, f1, pd, pt) == OpenTables(m0, f0, root, d.i4, d.i3, d.i2)
      && MissingTables(m0, root, d.i4, d.i3, d.i2) <= |f0| && f1 == f0[MissingTables(m0, root, d.i4, d.i3, d.i2)..]
    requires MappedAll(m1, m2, pd, v0 % REGION, n, p0) && KeptOutside(m1, m2, {pd, pt} + Elements(f1))
    requires DirectoryOk(m2, pd) && SameEntry(m1, m2, pd, v0 % REGION / 512)
    requires NewTables(v0 % REGION, n) <= |f1| && f2 == f1[NewTables(v0 % REGION, n)..]
    requires m2 == PutPages(m1, f1, pd, pt, v0 % REGION, 0, n, p0)
    ensures RangeMapped(m0, f0, m2, f2, root, v0, n, p0, p, pd, pt)
  {
    var d, x0 := Digits(v0), v0 % REGION;
    RegionDigits(v0);
    DropTwice(f0, MissingTables(m0, root, d.i4, d.i3, d.i2), NewTables(x0, n));
    RegionAfter(m0, m1, m2, root, p, pd, pt, d.i4, d.i3, d.i2, f1, x0, n, p0);
    PathStaysOpen(m0, m1, m2, root, p, pd, pt, d.i4, d.i3, d.i2, f0, f1);
    var touched := {root, p, pd, pt} + Elements(f0);
    KeptChain(m0, m1, m2, touched, {pd, pt} + Elements(f1));
  }

  /** Every page of the region leads where `Mapped` says. */
  ghost predicate RegionMapped(m: Memory, m': Memory, root: Frame, i4: nat, i3: nat, x0: nat, n: nat, p0: nat) {
    forall x: nat {:trigger RegionLeaf(m', root, i4, i3, x)} | x < REGION ::
      RegionLeaf(m', root, i4, i3, x) == Mapped(RegionLeaf(m, root, i4, i3, x), x0, n, p0, x)
  }

  lemma DirectoryIsOk(m: Memory, root: Frame, p: Frame, pd: Frame, pt: Frame, i4: nat, i3: nat, i2: nat,
      free: seq<Frame>)
    requires Opened(m, root, p, pd, pt, i4, i3, i2, free)
    ensures DirectoryOk(m, pd) && FreeOk(m, pd, free)
    ensures root !in free && p !in free && root != pd && root != pt && p != pd && p != pt
  {
    assert PdOk(m, root, p, pd, free);
  }

  lemma RegionAfter(m0: Memory, m1: Memory, m2: Memory, root: Frame, p: Frame, pd: Frame, pt: Frame, i4: nat, i3: nat,
      i2: nat, free: seq<Frame>, x0: nat, n: nat, p0: nat)
    requires SameRegion(m0, m1, root, i4, i3) && Opened(m1, root, p, pd, pt, i4, i3, i2, free)
    requires MappedAll(m1, m2, pd, x0, n, p0) && KeptOutside(m1, m2, {pd, pt} + Elements(free))
    ensures RegionMapped(m0, m2, root, i4, i3, x0, n, p0)
  {
    DirectoryIsOk(m1, root, p, pd, pt, i4, i3, i2, free);
    assert m2[root] == m1[root] && m2[p] == m1[p];
    forall x: nat | x < REGION
      ensures RegionLeaf(m2, root, i4, i3, x) == Mapped(RegionLeaf(m0, root, i4, i3, x), x0, n, p0, x)
    {
      assert RegionLeaf(m2, root, i4, i3, x) == Leaf(m2, pd, x) && RegionLeaf(m1, root, i4, i3, x) == Leaf(m1, pd, x);
    }
  }

  /** The way to the PT of the first page is there. */
  ghost predicate Opened(m: Memory, root: Frame, p: Frame, pd: Frame, pt: Frame, i4: nat, i3: nat, i2: nat,
      free: seq<Frame>) {
    && RegionOk(m, root, i4, i3, free) && i4 < 512 && i3 < 512 && i2 < 512
    && m[root][i4].present && m[root][i4].frame == p && m[p][i3].present && m[p][i3].frame == pd
    && m[pd][i2].present && m[pd][i2].frame == pt
  }

  /** The table `t`, which is empty if it is a free frame. */
  function Row(m: Memory, free: seq<Frame>, t: Frame): seq<Word> {
    if t in m && t !in free then m[t] else Zeros()
  }

  /** Entry `i` of `dir` now leads to `t`: where it led before, or else to a frame that was free. */
  ghost predicate Entered(m: Memory, m': Memory, free: seq<Frame>, dir: Frame, i: nat, t: Frame) {
    && IsTable(m', dir) && |Row(m, free, dir)| == 512 && i < 512 && m'[dir][i].present && m'[dir][i].frame == t
    && (if Row(m, free, dir)[i].present then m'[dir][i] == Row(m, free, dir)[i] else t in free && m'[dir][i] == User(t))
  }

  ghost predicate OnlyEntry(m: Memory, m': Memory, free: seq<Frame>, dir: Frame, i: nat) {
    dir in m' && i < |m'[dir]| && i < |Row(m, free, dir)| && m'[dir] == Row(m, free, dir)[i := m'[dir][i]]
  }

  /** The tables on the way to the first page.  Above the directory only the entries of that way have changed. */
  ghost predicate WayOpened(m: Memory, m': Memory, root: Frame, p: Frame, pd: Frame, pt: Frame, i4: nat, i3: nat,
      i2: nat, free: seq<Frame>) {
    && root !in free
    && Entered(m, m', free, root, i4, p) && OnlyEntry(m, m', free, root, i4)
    && Entered(m, m', free, p, i3, pd) && OnlyEntry(m, m', free, p, i3)
    && Entered(m, m', free, pd, i2, pt)
  }

  /** What `Open` does. */
  ghost predicate OpensTable(m: Memory, m': Memory, free: seq<Frame>, dir: Frame, j: nat, t: Frame) {
    && dir in m && j < |m[dir]|
    && if m[dir][j].present then t == m[dir][j].frame && m' == m else t in free && m' == WithPt(m, dir, j, t)
  }

  lemma PathIsOpen(m0: Memory, m1: Memory, m2: Memory, m3: Memory, root: Frame, p: Frame, pd: Frame, pt: Frame,
      i4: nat, i3: nat, i2: nat, f0: seq<Frame>, free: seq<Frame>)
    requires RegionOk(m0, root, i4, i3, f0) && Opened(m3, root, p, pd, pt, i4, i3, i2, free)
    requires OpensTable(m0, m1, f0, root, i4, p) && OpensTable(m1, m2, f0, p, i3, pd)
    requires OpensTable(m2, m3, f0, pd, i2, pt)
    ensures WayOpened(m0, m3, root, p, pd, pt, i4, i3, i2, f0)
  {
    DirectoryIsOk(m3, root, p, pd, pt, i4, i3, i2, free);
    assert root != p;
  }

  lemma PathStaysOpen(m0: Memory, m1: Memory, m2: Memory, root: Frame, p: Frame, pd: Frame, pt: Frame, i4: nat,
      i3: nat, i2: nat, f0: seq<Frame>, free: seq<Frame>)
    requires WayOpened(m0, m1, root, p, pd, pt, i4, i3, i2, f0) && Opened(m1, root, p, pd, pt, i4, i3, i2, free)
    requires KeptOutside(m1, m2, {pd, pt} + Elements(free)) && DirectoryOk(m2, pd) && SameEntry(m1, m2, pd, i2)
    ensures WayOpened(m0, m2, root, p, pd, pt, i4, i3, i2, f0)
  {
    DirectoryIsOk(m1, root, p, pd, pt, i4, i3, i2, free);
    assert m2[root] == m1[root] && m2[p] == m1[p];
  }

  lemma SameRegionChain(m0: Memory, m1: Memory, m2: Memory, m3: Memory, root: Frame, i4: nat, i3: nat)
    requires SameRegion(m0, m1, root, i4, i3) && SameRegion(m1, m2, root, i4, i3) && SameRegion(m2, m3, root, i4, i3)
    ensures SameRegion(m0, m3, root, i4, i3)
  {
    forall x: nat | x < REGION ensures RegionLeaf(m3, root, i4, i3, x) == RegionLeaf(m0, root, i4, i3, x) {
      assert RegionLeaf(m2, root, i4, i3, x) == RegionLeaf(m1, root, i4, i3, x);
    }
  }

  // ---------------------------------------------------------------------------
  // The tables above the region

  ghost predicate IsTable(m: Memory, t: Frame) {
    t in m && |m[t]| == 512
  }

  ghost predicate Fresh(m: Memory, free: seq<Frame>) {
    && (forall i | 0 <= i < |free| :: IsTable(m, free[i]))
    && (forall i, j | 0 <= i < j < |free| :: free[i] != free[j])
  }

  /** The directory `d` below `root` and `p`. */
  ghost predicate PdOk(m: Memory, root: Frame, p: Frame, d: Frame, free: seq<Frame>) {
    d != root && d != p && d !in free && DirectoryOk(m, d) && FreeOk(m, d, free) && Spare(m, d, root) && Spare(m, d, p)
  }

  /** The PDPT `p` below `root`. */
  ghost predicate PdptOk(m: Memory, root: Frame, p: Frame, i3: nat, free: seq<Frame>) {
    && p != root && p !in free && IsTable(m, p)
    && (i3 < 512 && m[p][i3].present ==> PdOk(m, root, p, m[p][i3].frame, free))
  }

  /** As far as there are tables on the way to the region, they are a tree apart from the free frames. */
  ghost predicate RegionOk(m: Memory, root: Frame, i4: nat, i3: nat, free: seq<Frame>) {
    && IsTable(m, root) && root !in free && Fresh(m, free)
    && (i4 < 512 && m[root][i4].present ==> PdptOk(m, root, m[root][i4].frame, i3, free))
  }

  /** Where page `x` of the region leads. */
  function RegionLeaf(m: Memory, root: Frame, i4: nat, i3: nat, x: nat): Option<Frame> {
    Follow(m, Follow(m, Follow(m, Follow(m, Some(root), i4), i3), x / 512), x % 512)
  }

  lemma RegionIsWalk(m: Memory, root: Frame, v: nat)
    ensures Walk(m, root, v) == RegionLeaf(m, root, v / 512 / 512 / 512, v / 512 / 512 % 512, v % REGION)
  {
    FourSteps(m, root, v);
    RegionDigits(v);
  }

  lemma Quotient512(x: nat, q: nat, r: nat)
    requires x == 512 * q + r && r < 512
    ensures x / 512 == q && x % 512 == r
  {
  }

  lemma QuotientRegion(x: nat, q: nat, r: nat)
    requires x == REGION * q + r && r < REGION
    ensures x / REGION == q && x % REGION == r
  {
  }

  lemma RegionDigits(v: nat)
    ensures v % REGION / 512 == v / 512 % 512 && v % REGION % 512 == v % 512 && v / REGION == v / 512 / 512
  {
    var q, i2, i1 := v / 512 / 512, v / 512 % 512, v % 512;
    assert v == 512 * (v / 512) + i1 && v / 512 == 512 * q + i2;
    QuotientRegion(v, q, 512 * i2 + i1);
    Quotient512(512 * i2 + i1, i2, i1);
  }

  ghost predicate SameRegion(m: Memory, m': Memory, root: Frame, i4: nat, i3: nat) {
    forall x: nat {:trigger RegionLeaf(m', root, i4, i3, x)} | x < REGION ::
      RegionLeaf(m', root, i4, i3, x) == RegionLeaf(m, root, i4, i3, x)
  }

  lemma OpenPdpt(m: Memory, root: Frame, i4: nat, i3: nat, free: seq<Frame>)
    requires RegionOk(m, root, i4, i3, free) && i4 < 512 && i3 < 512 && (m[root][i4].present || free != [])
    ensures m[root][i4].present ==> SameRegion(m, m, root, i4, i3)
    ensures !m[root][i4].present ==> root != free[0] && IsTable(m, free[0])
    ensures !m[root][i4].present ==> var m' := WithPt(m, root, i4, free[0]);
      RegionOk(m', root, i4, i3, free[1..]) && m'[root][i4] == User(free[0]) && SameRegion(m, m', root, i4, i3)
  {
    if !m[root][i4].present {
      assert IsTable(m, free[0]);
    }
  }

  lemma OpenPd(m: Memory, root: Frame, p: Frame, i4: nat, i3: nat, free: seq<Frame>)
    requires RegionOk(m, root, i4, i3, free) && i4 < 512 && i3 < 512
    requires m[root][i4].present && m[root][i4].frame == p && IsTable(m, p) && (m[p][i3].present || free != [])
    ensures !m[p][i3].present ==> p != free[0] && IsTable(m, free[0])
    ensures !m[p][i3].present ==> var m' := WithPt(m, p, i3, free[0]);
      RegionOk(m', root, i4, i3, free[1..]) && m'[root] == m[root] && m'[p][i3] == User(free[0])
          && SameRegion(m, m', root, i4, i3)
  {
    if !m[p][i3].present {
      assert IsTable(m, free[0]);
      var m' := WithPt(m, p, i3, free[0]);
      assert m'[free[0]] == Zeros();
      assert DirectoryOk(m', free[0]);
      assert PdOk(m', root, p, free[0], free[1..]);
    }
  }

  lemma OpenPt(m: Memory, root: Frame, p: Frame, pd: Frame, i4: nat, i3: nat, i2: nat, free: seq<Frame>)
    requires RegionOk(m, root, i4, i3, free) && i4 < 512 && i3 < 512 && i2 < 512
    requires m[root][i4].present && m[root][i4].frame == p && IsTable(m, p) && m[p][i3].present && m[p][i3].frame == pd
    ensures IsTable(m, pd)
    ensures !m[pd][i2].present && free != [] ==> pd != free[0] && IsTable(m, free[0])
    ensures !m[pd][i2].present && free != [] ==> var m' := WithPt(m, pd, i2, free[0]);
      && RegionOk(m', root, i4, i3, free[1..]) && m'[root] == m[root] && m'[p] == m[p] && m'[pd][i2] == User(free[0])
      && SameRegion(m, m', root, i4, i3)
  {
    assert PdOk(m, root, p, pd, free);
    if !m[pd][i2].present && free != [] {
      assert Spare(m, pd, free[0]);
      var m' := WithPt(m, pd, i2, free[0]);
      ReplacePt(m, pd, i2, free[0]);
      FreeAfterPt(m, pd, free, i2);
      assert PdOk(m', root, p, pd, free[1..]);
      forall x: nat | x < REGION ensures RegionLeaf(m', root, i4, i3, x) == RegionLeaf(m, root, i4, i3, x) {
        assert RegionLeaf(m', root, i4, i3, x) == Leaf(m', pd, x) && RegionLeaf(m, root, i4, i3, x) == Leaf(m, pd, x);
      }
    }
  }

  /** The tables that the loop allocates. */
  function NewTables(x0: nat, n: nat): (k: nat)
  {
    if n == 0 then 0 else (x0 + n - 1) / 512 - x0 / 512
  }

  /** The tables missing on the way to the PT of the first page. */
  function MissingTables(m: Memory, root: Frame, i4: nat, i3: nat, i2: nat): (k: nat)
    ensures k <= 3
  {
    var p := Follow(m, Some(root), i4);
    var pd := Follow(m, p, i3);
    if p.None? then 3 else if pd.None? then 2 else if Follow(m, pd, i2).None? then 1 else 0
  }

  lemma DropTwice(free: seq<Frame>, k: nat, j: nat)
    requires k + j <= |free|
    ensures |free[k..]| == |free| - k && free[k..][j..] == free[k + j..] && Elements(free[k..]) <= Elements(free)
  {
  }

  /** The memory after `n` pages from `v0` on have been mapped. */
  function MappedMemory(m: Memory, free: seq<Frame>, root: Frame, v0: nat, n: nat, p0: nat): Memory {
    var d := Digits(v0);
    var (m', free', pd, pt) := OpenTables(m, free, root, d.i4, d.i3, d.i2);
    PutPages(m', free', pd, pt, v0 % REGION, 0, n, p0)
  }

  /** All frames that mapping `n` pages from `v0` on takes from the queue. */
  function TablesFor(m: Memory, root: Frame, v0: nat, n: nat): nat {
    MissingTables(m, root, Digits(v0).i4, Digits(v0).i3, Digits(v0).i2) + NewTables(v0 % REGION, n)
  }

  lemma AllCounted(size0: int, size: int, i: nat, n: nat)
    requires n == (if size0 < 0 then 0 else size0 / 4096 + 1) && i <= n && size == size0 - 4096 * i && size < 0
    ensures i == n
  {
  }

  /** The PT index is 512 exactly when a new table is needed. */
  lemma CarryIsSeen(x0: nat, i: nat, i2: nat, i1: int)
    requires i2 == (if i == 0 then x0 else x0 + i - 1) / 512 && i1 == x0 + i - 512 * i2 && i1 <= 512
    ensures i1 == 512 <==> NeedsTable(x0, i)
    ensures if i1 == 512 then EntryIndex(x0, i) == 0 && PtIndex(x0, i) == i2 + 1
            else i1 == EntryIndex(x0, i) && PtIndex(x0, i) == i2
  {
    if i1 == 512 {
      Quotient512(x0 + i, i2 + 1, 0);
    } else {
      Quotient512(x0 + i, i2, i1);
    }
  }

  lemma NewTablesStep(x0: nat, i: nat, n: nat)
    requires i < n
    ensures NewTables(x0, i + 1) <= NewTables(x0, n)
    ensures NewTables(x0, i + 1) == NewTables(x0, i) + if i > 0 && (x0 + i) % 512 == 0 then 1 else 0
  {
  }

  lemma FreeAfterPt(m: Memory, pd: Frame, free: seq<Frame>, i2: nat)
    requires DirectoryOk(m, pd) && free != [] && FreeOk(m, pd, free) && i2 < 512
    ensures FreeOk(WithPt(m, pd, i2, free[0]), pd, free[1..])
  {
    assert Spare(m, pd, free[0]);
    forall i | 0 <= i < |free[1..]| ensures Spare(WithPt(m, pd, i2, free[0]), pd, free[1..][i]) {
      assert Spare(m, pd, free[i + 1]);
    }
  }

  lemma FreeAfterPage(m: Memory, pd: Frame, free: seq<Frame>, i2: nat, i1: nat, f: Frame)
    requires DirectoryOk(m, pd) && FreeOk(m, pd, free) && i2 < 512 && i1 < 512 && m[pd][i2].present
    ensures PtOk(m, pd, m[pd][i2].frame) && FreeOk(WithPage(m, m[pd][i2].frame, i1, f), pd, free)
  {
    var pt := m[pd][i2].frame;
    forall i | 0 <= i < |free| ensures Spare(WithPage(m, pt, i1, f), pd, free[i]) {
      assert Spare(m, pd, free[i]);
    }
  }

  // ---------------------------------------------------------------------------
  // What that means for the caller

  /** The whole range is mapped afterwards: to the frames from `p0` on, except for pages of the first table that were
      mapped before.  The pages that were mapped before are as they were, and no page outside the
      range is mapped or unmapped, exactly when every page behind the first table, up to the last, was unmapped or
      already led to where the range puts it. */
  lemma RangeIsMapped(m: Memory, m': Memory, root: Frame, i4: nat, i3: nat, x0: nat, n: nat, p0: nat)
    requires RegionMapped(m, m', root, i4, i3, x0, n, p0) && x0 + n <= REGION
    ensures forall x: nat {:trigger RegionLeaf(m', root, i4, i3, x)} | x0 <= x < x0 + n ::
              var was := RegionLeaf(m, root, i4, i3, x);
              RegionLeaf(m', root, i4, i3, x) == if x / 512 == x0 / 512 && was.Some? then was else Some(p0 + (x - x0))
    ensures Undisturbed(m, m', root, i4, i3, x0, n) <==> Behind(m, root, i4, i3, x0, n, p0)
  {
    forall x: nat | x < REGION
      ensures (Kept(m, m', root, i4, i3, x0, n, x) <==> Harmless(m, root, i4, i3, x0, n, p0, x))
    {
      assert RegionLeaf(m', root, i4, i3, x) == Mapped(RegionLeaf(m, root, i4, i3, x), x0, n, p0, x);
    }
    if Undisturbed(m, m', root, i4, i3, x0, n) {
      forall x: nat | x < REGION ensures Harmless(m, root, i4, i3, x0, n, p0, x) {
        assert Kept(m, m', root, i4, i3, x0, n, x);
      }
    }
    if Behind(m, root, i4, i3, x0, n, p0) {
      forall x: nat | x < REGION ensures Kept(m, m', root, i4, i3, x0, n, x) {
        assert Harmless(m, root, i4, i3, x0, n, p0, x);
      }
    }
  }

  /** A page that was mapped, or is outside of the range, leads where it led. */
  ghost predicate Kept(m: Memory, m': Memory, root: Frame, i4: nat, i3: nat, x0: nat, n: nat, x: nat) {
    RegionLeaf(m, root, i4, i3, x).Some? || !(x0 <= x < x0 + n) ==>
      RegionLeaf(m', root, i4, i3, x) == RegionLeaf(m, root, i4, i3, x)
  }

  ghost predicate Undisturbed(m: Memory, m': Memory, root: Frame, i4: nat, i3: nat, x0: nat, n: nat) {
    forall x: nat {:trigger Kept(m, m', root, i4, i3, x0, n, x)} | x < REGION :: Kept(m, m', root, i4, i3, x0, n, x)
  }

  /** A page of a later table of the range was unmapped, or led to where the range puts it. */
  ghost predicate Harmless(m: Memory, root: Frame, i4: nat, i3: nat, x0: nat, n: nat, p0: nat, x: nat) {
    0 < n && x0 / 512 < x / 512 <= (x0 + n - 1) / 512 ==>
      || RegionLeaf(m, root, i4, i3, x).None?
      || (x < x0 + n && RegionLeaf(m, root, i4, i3, x) == Some(p0 + (x - x0)))
  }

  ghost predicate Behind(m: Memory, root: Frame, i4: nat, i3: nat, x0: nat, n: nat, p0: nat) {
    forall x: nat {:trigger Harmless(m, root, i4, i3, x0, n, p0, x)} | x < REGION ::
      Harmless(m, root, i4, i3, x0, n, p0, x)
  }
}
