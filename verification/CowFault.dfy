/**
  The copy-on-write fault: `copy_page` moves the faulting page to a fresh writable frame
  with the same contents and changes no other page of any process.
 */
module CowFault {
  import opened PageEntries
  import opened PageTables
  import opened ForkCopy
  import opened ForkMeaning
  import opened Wrappers

  /** The entries `copy_page` opens above the leaf. */
  ghost predicate OnPath(k: Loc, j: nat, r: Frame, p: Page) {
    Sub(k, j) == Sub(Root(r), p.i4) || Sub(k, j) == Sub(Sub(Root(r), p.i4), p.i3) || Sub(k, j) == PtLoc(r, p)
  }

  ghost function EntryAfter(b: Space, r: Frame, p: Page, f: Frame, k: Loc, j: nat): Word {
    if Sub(k, j) == PageLoc(r, p) then Grant(Base(f))
    else if OnPath(k, j, r, p) then Grant(Ent(b, k, j))
    else Ent(b, k, j)
  }

  /** `copy_page` puts the first free frame, writable at every level, under the page. */
  ghost predicate Moved(b: Space, s: Space, r: Frame, p: Page) {
    && UserPage(p) && PtLoc(r, p) in b.at && b.free != []
    && TablesOk(s) && s.at == b.at && s.loc == b.loc && s.mem.Keys == b.mem.Keys
    && s.owner == b.owner[b.free[0] := PageLoc(r, p)]
    && (forall k, j: nat {:trigger Ent(s, k, j)} :: k in b.at ==> Ent(s, k, j) == EntryAfter(b, r, p, b.free[0], k, j))
  }

  /** The page was mapped: its contents move along, through a second frame that buffers the copy
      and goes back to the end of the queue. */
  ghost predicate Faulted(b: Space, s: Space, r: Frame, p: Page) {
    && Moved(b, s, r, p)
    && Ent(b, PtLoc(r, p), p.i1).present && Ent(b, PtLoc(r, p), p.i1).frame in b.mem
    && 3 <= |b.free| && s.free == b.free[2..] + [b.free[1]]
    && b.free[0] in s.mem && s.mem[b.free[0]] == b.mem[Ent(b, PtLoc(r, p), p.i1).frame]
    && (forall f {:trigger s.mem[f]} | f in b.mem && f !in b.loc && f != b.free[0]
        && f != b.free[1] :: s.mem[f] == b.mem[f])
  }

  /** The page was not mapped: it shows whatever the fresh frame held. */
  ghost predicate Touched(b: Space, s: Space, r: Frame, p: Page) {
    && Moved(b, s, r, p)
    && !Ent(b, PtLoc(r, p), p.i1).present
    && s.free == b.free[1..]
    && (forall f {:trigger s.mem[f]} | f in b.mem && f !in b.loc :: s.mem[f] == b.mem[f])
  }

  lemma {:induction false} FaultTopCow(b: Space, s: Space, r: Frame, p: Page, z: Loc)
    requires Wf(b) && Moved(b, s, r, p) && z.Sub? && z.parent in b.at
    ensures TopCow(s, z) == TopCow(b, z)
  {
    assert Ent(s, z.parent, z.index) == EntryAfter(b, r, p, b.free[0], z.parent, z.index);
    if z.parent.Sub? {
      assert LinkOk(b, z.parent);
      FaultTopCow(b, s, r, p, z.parent);
    }
  }

  /** The frame is gone from the queue, and nothing came in that was not there. */
  ghost predicate QueueShrinks(b: Space, s: Space) {
    b.free != [] && b.free[0] !in s.free && (forall f | f in s.free :: f in b.free) && |s.free| == |b.free| - 1
  }

  lemma FaultQueue(b: Space, s: Space, r: Frame, p: Page)
    requires Wf(b) && (Faulted(b, s, r, p) || Touched(b, s, r, p))
    ensures QueueShrinks(b, s)
  {
    forall f | f in s.free ensures f in b.free && f != b.free[0] {
      var i :| 0 <= i < |s.free| && s.free[i] == f;
      assert Faulted(b, s, r, p) ==> f == if i < |b.free| - 2 then b.free[i + 2] else b.free[1];
      assert Touched(b, s, r, p) ==> f == b.free[i + 1];
    }
  }

  lemma FaultEntryOk(b: Space, s: Space, r: Frame, p: Page, l: Loc, i: nat)
    requires Wf(b) && Moved(b, s, r, p) && QueueShrinks(b, s) && l in b.at && i < Width(l) && Ent(s, l, i) != ZERO
    ensures EntryOk(s, l, i)
  {
    assert Ent(s, l, i) == EntryAfter(b, r, p, b.free[0], l, i);
    assert LinkOk(b, l);
    FaultTopCow(b, s, r, p, Sub(l, i));
    PtLocFacts(r, p);
    if OnPath(l, i, r, p) {
      PathIsLinked(b, r, p, l, i);
    }
    if Sub(l, i) != PageLoc(r, p) {
      assert EntryOk(b, l, i);
    }
  }

  lemma PathIsLinked(b: Space, r: Frame, p: Page, l: Loc, i: nat)
    requires Wf(b) && PtLoc(r, p) in b.at && OnPath(l, i, r, p)
    ensures l in b.at && Depth(l) < 3 && Ent(b, l, i) != ZERO
  {
    assert LinkOk(b, PtLoc(r, p));
    assert LinkOk(b, PtLoc(r, p).parent);
    assert LinkOk(b, PtLoc(r, p).parent.parent);
  }

  lemma FaultKeepsWf(b: Space, s: Space, r: Frame, p: Page)
    requires Wf(b) && (Faulted(b, s, r, p) || Touched(b, s, r, p))
    ensures Wf(s)
  {
    FaultQueue(b, s, r, p);
    forall l | l in s.at ensures LinkOk(s, l) {
      assert LinkOk(b, l);
      if l.Sub? {
        assert Ent(s, l.parent, l.index) == EntryAfter(b, r, p, b.free[0], l.parent, l.index);
      }
    }
    forall l, i: nat | l in s.at && i < Width(l) && Ent(s, l, i) != ZERO ensures EntryOk(s, l, i) {
      FaultEntryOk(b, s, r, p, l, i);
    }
  }

  /** The faulting page: a fresh frame, writable at every level, with the old contents. */
  lemma FaultedPage(b: Space, s: Space, r: Frame, p: Page)
    requires Wf(b) && Faulted(b, s, r, p)
    ensures Root(r) in b.at && FrameAt(b.mem, PageLoc(r, p)).Some? && FrameAt(b.mem, PageLoc(r, p)).value in b.mem
    ensures FrameAt(s.mem, PageLoc(r, p)) == Some(b.free[0]) && b.free[0] in s.mem
    ensures s.mem[b.free[0]] == b.mem[FrameAt(b.mem, PageLoc(r, p)).value]
    ensures WritableAt(s.mem, PageLoc(r, p)) && Ent(s, PtLoc(r, p), p.i1) == User(b.free[0])
    ensures |s.free| == |b.free| - 1
  {
    MovedPage(b, s, r, p);
    WalkToPage(b, r, p);
  }

  /** A page that was not mapped: the fresh frame as it is. */
  lemma TouchedPage(b: Space, s: Space, r: Frame, p: Page)
    requires Wf(b) && Touched(b, s, r, p)
    ensures Root(r) in b.at && FrameAt(b.mem, PageLoc(r, p)) == None
    ensures FrameAt(s.mem, PageLoc(r, p)) == Some(b.free[0]) && b.free[0] in b.mem && b.free[0] in s.mem
    ensures s.mem[b.free[0]] == b.mem[b.free[0]]
    ensures WritableAt(s.mem, PageLoc(r, p)) && Ent(s, PtLoc(r, p), p.i1) == User(b.free[0])
    ensures |s.free| == |b.free| - 1
  {
    MovedPage(b, s, r, p);
    WalkToPage(b, r, p);
    PtLocFacts(r, p);
    assert Ent(b, PtLoc(r, p), p.i1) != ZERO ==> EntryOk(b, PtLoc(r, p), p.i1);
  }

  lemma MovedPage(b: Space, s: Space, r: Frame, p: Page)
    requires Wf(b) && (Faulted(b, s, r, p) || Touched(b, s, r, p))
    ensures Root(r) in b.at && Wf(s) && QueueShrinks(b, s)
    ensures FrameAt(s.mem, PageLoc(r, p)) == Some(b.free[0]) && WritableAt(s.mem, PageLoc(r, p))
    ensures Ent(s, PtLoc(r, p), p.i1) == User(b.free[0])
  {
    PtLocFacts(r, p);
    RootIsPresent(b, PtLoc(r, p));
    FaultKeepsWf(b, s, r, p);
    WalkToPage(s, r, p);
    FaultQueue(b, s, r, p);
    assert Ent(s, PtLoc(r, p), p.i1) == EntryAfter(b, r, p, b.free[0], PtLoc(r, p), p.i1);
    FaultedPathIsWritable(b, s, r, p);
  }

  lemma FaultedPathIsWritable(b: Space, s: Space, r: Frame, p: Page)
    requires Wf(b) && Wf(s) && Moved(b, s, r, p) && Root(r) in b.at
    ensures WritableAt(s.mem, PageLoc(r, p))
  {
    var l3 := Sub(Root(r), p.i4);
    var l2 := Sub(l3, p.i3);
    var l1 := Sub(l2, p.i2);
    assert LinkOk(b, l1) && LinkOk(b, l2) && LinkOk(b, l3);
    WritableStep(b, s, r, p, Root(r), p.i4);
    WritableStep(b, s, r, p, l3, p.i3);
    WritableStep(b, s, r, p, l2, p.i2);
    PtLocFacts(r, p);
    WritableStep(b, s, r, p, l1, p.i1);
  }

  lemma WritableStep(b: Space, s: Space, r: Frame, p: Page, l: Loc, i: nat)
    requires Wf(b) && Wf(s) && Moved(b, s, r, p) && l in b.at && i < Width(l) && RootOf(l) == r && Root(r) in b.at
    requires WritableAt(s.mem, l) && (OnPath(l, i, r, p) || Sub(l, i) == PageLoc(r, p))
    ensures WritableAt(s.mem, Sub(l, i))
  {
    assert LinkOk(s, l);
    WalkFollowsTree(s, l);
    assert Ent(s, l, i) == EntryAfter(b, r, p, b.free[0], l, i);
    assert Ent(s, l, i) == s.mem[s.at[l]][i];
  }

  /** Every other page of every process keeps its frame, its leaf entry and its contents. */
  lemma FaultLeavesOthers(b: Space, s: Space, r: Frame, p: Page, q: Frame, u: Page)
    requires Wf(b) && (Faulted(b, s, r, p) || Touched(b, s, r, p))
    requires Root(q) in b.at && UserPage(u) && (q, u) != (r, p)
    ensures FrameAt(s.mem, PageLoc(q, u)) == FrameAt(b.mem, PageLoc(q, u))
    ensures Ent(s, PtLoc(q, u), u.i1) == Ent(b, PtLoc(q, u), u.i1)
    ensures var f := FrameAt(b.mem, PageLoc(q, u));
            f.Some? ==> f.value in b.mem && f.value in s.mem && s.mem[f.value] == b.mem[f.value]
  {
    var l := PtLoc(q, u);
    FaultKeepsWf(b, s, r, p);
    PtLocFacts(q, u);
    WalkToPage(b, q, u);
    WalkToPage(s, q, u);
    assert PageLoc(q, u) != PageLoc(r, p);
    if l in b.at {
      PathIsShallow(l, u.i1, r, p);
      assert Ent(s, l, u.i1) == EntryAfter(b, r, p, b.free[0], l, u.i1);
    }
    if Ent(b, l, u.i1) != ZERO {
      assert EntryOk(b, l, u.i1);
    }
  }

  /** What the fault writes: the way to the page gets the three permission bits and keeps the rest, marks included;
      the page gets its new entry; no other entry of any process changes. */
  lemma FaultChangesThePath(b: Space, s: Space, r: Frame, p: Page, l: Loc, i: nat)
    requires Wf(b) && (Faulted(b, s, r, p) || Touched(b, s, r, p)) && l in b.at && i < 512
    ensures var e := Ent(b, l, i);
      Ent(s, l, i) == if Sub(l, i) == PageLoc(r, p) then Word(b.free[0], true, true, true, false, 0)
                      else if AtOrBelow(PageLoc(r, p), Sub(l, i)) then Word(e.frame, true, true, true, e.cow, e.rest)
                      else e
  {
    var l3 := Sub(Root(r), p.i4);
    var l2 := Sub(l3, p.i3);
    var z := Sub(l, i);
    assert AtOrBelow(l3, z) <==> z == l3;
    assert AtOrBelow(l2, z) <==> z == l2 || z == l3;
    assert AtOrBelow(PtLoc(r, p), z) <==> OnPath(l, i, r, p);
    assert Ent(s, l, i) == EntryAfter(b, r, p, b.free[0], l, i);
  }

  lemma PathIsShallow(l: Loc, i: nat, r: Frame, p: Page)
    requires Depth(l) == 3
    ensures !OnPath(l, i, r, p)
  {
    assert Depth(Sub(Root(r), p.i4)) == 1;
    assert Depth(Sub(Sub(Root(r), p.i4), p.i3)) == 2;
    assert Depth(PtLoc(r, p)) == 3;
  }

  // ---------------------------------------------------------------------------
  // The steps of `copy_page`

  ghost function OpenEntry(s: Space, l: Loc, i: nat): Space
    requires TablesOk(s) && l in s.at && i < 512
  {
    WriteEntry(s, l, i, Grant(Ent(s, l, i)))
  }

  /** The three upper entries are open and nothing else has changed. */
  ghost predicate UpperOpen(b: Space, s: Space, r: Frame, p: Page) {
    && TablesOk(s) && s.at == b.at && s.loc == b.loc && s.mem.Keys == b.mem.Keys
    && s.free == b.free && s.owner == b.owner
    && (forall k, j: nat {:trigger Ent(s, k, j)} :: k in b.at ==>
          Ent(s, k, j) == if OnPath(k, j, r, p) then Grant(Ent(b, k, j)) else Ent(b, k, j))
    && (forall f {:trigger s.mem[f]} | f in b.mem && f !in b.loc :: s.mem[f] == b.mem[f])
  }

  /** One entry has been opened. */
  ghost predicate OpensEntry(s: Space, s': Space, l: Loc, i: nat) {
    && TablesOk(s') && s'.at == s.at && s'.loc == s.loc && s'.mem.Keys == s.mem.Keys && s'.free == s.free
    && s'.owner == s.owner
    && (forall k, j: nat {:trigger Ent(s', k, j)} ::
          Ent(s', k, j) == if k == l && j == i then Grant(Ent(s, l, i)) else Ent(s, k, j))
    && (forall f {:trigger s'.mem[f]} | f in s.mem && f !in s.loc :: s'.mem[f] == s.mem[f])
  }

  lemma OpenOne(s: Space, l: Loc, i: nat)
    requires TablesOk(s) && l in s.at && i < 512
    ensures OpensEntry(s, OpenEntry(s, l, i), l, i)
  {
    WriteFacts(s, l, i, Grant(Ent(s, l, i)));
  }

  lemma OpenThree(b: Space, s1: Space, s2: Space, s3: Space, r: Frame, p: Page)
    requires OpensEntry(b, s1, Root(r), p.i4) && OpensEntry(s1, s2, Sub(Root(r), p.i4), p.i3)
    requires OpensEntry(s2, s3, PtLoc(r, p).parent, p.i2)
    ensures UpperOpen(b, s3, r, p)
  {
    forall k, j: nat | k in b.at
      ensures Ent(s3, k, j) == if OnPath(k, j, r, p) then Grant(Ent(b, k, j)) else Ent(b, k, j)
    {
      OpenedEntry(b, s1, s2, s3, r, p, k, j);
    }
  }

  lemma OpenedEntry(b: Space, s1: Space, s2: Space, s3: Space, r: Frame, p: Page, k: Loc, j: nat)
    requires OpensEntry(b, s1, Root(r), p.i4) && OpensEntry(s1, s2, Sub(Root(r), p.i4), p.i3)
    requires OpensEntry(s2, s3, PtLoc(r, p).parent, p.i2)
    ensures Ent(s3, k, j) == if OnPath(k, j, r, p) then Grant(Ent(b, k, j)) else Ent(b, k, j)
  {
  }

  lemma OpenUpper(b: Space, s1: Space, s2: Space, s3: Space, r: Frame, p: Page)
    requires Wf(b) && UserPage(p) && PtLoc(r, p) in b.at
    requires Root(r) in b.at && s1 == OpenEntry(b, Root(r), p.i4)
    requires TablesOk(s1) && Sub(Root(r), p.i4) in s1.at && s2 == OpenEntry(s1, Sub(Root(r), p.i4), p.i3)
    requires TablesOk(s2) && PtLoc(r, p).parent in s2.at && s3 == OpenEntry(s2, PtLoc(r, p).parent, p.i2)
    ensures UpperOpen(b, s3, r, p)
  {
    OpenOne(b, Root(r), p.i4);
    OpenOne(s1, Sub(Root(r), p.i4), p.i3);
    OpenOne(s2, PtLoc(r, p).parent, p.i2);
    OpenThree(b, s1, s2, s3, r, p);
  }

  /** The directories on the way to a page table, and where their entries lead. */
  lemma PathTables(b: Space, r: Frame, p: Page)
    requires Wf(b) && UserPage(p) && PtLoc(r, p) in b.at
    ensures Root(r) in b.at && b.at[Root(r)] == r
    ensures Sub(Root(r), p.i4) in b.at && b.at[Sub(Root(r), p.i4)] == Ent(b, Root(r), p.i4).frame
    ensures PtLoc(r, p).parent in b.at && b.at[PtLoc(r, p).parent] == Ent(b, Sub(Root(r), p.i4), p.i3).frame
    ensures b.at[PtLoc(r, p)] == Ent(b, PtLoc(r, p).parent, p.i2).frame
  {
    var l3 := Sub(Root(r), p.i4);
    var l2 := Sub(l3, p.i3);
    assert LinkOk(b, PtLoc(r, p)) && LinkOk(b, l2) && LinkOk(b, l3) && LinkOk(b, Root(r));
    PtLocFacts(r, p);
    assert Depth(l2) == 2 && Depth(l3) == 1;
    assert EntryOk(b, l2, p.i2) && EntryOk(b, l3, p.i3) && EntryOk(b, Root(r), p.i4);
  }

  lemma MoveDone(b: Space, s: Space, s': Space, r: Frame, p: Page, m: Memory)
    requires Wf(b) && UserPage(p) && UpperOpen(b, s, r, p) && PtLoc(r, p) in b.at && b.free != []
    requires s'.at == s.at && s'.loc == s.loc && s'.owner == b.owner[b.free[0] := PageLoc(r, p)] && TablesOk(s')
    requires s'.mem.Keys == s.mem.Keys
    requires m == WriteEntry(s, PtLoc(r, p), p.i1, Grant(Base(b.free[0]))).mem
    requires forall f {:trigger s'.mem[f]} | f in s.loc && f in s.mem :: s'.mem[f] == m[f]
    ensures Moved(b, s', r, p)
  {
    WriteFacts(s, PtLoc(r, p), p.i1, Grant(Base(b.free[0])));
    PtLocFacts(r, p);
    PathIsShallow(PtLoc(r, p), p.i1, r, p);
    var w := WriteEntry(s, PtLoc(r, p), p.i1, Grant(Base(b.free[0])));
    forall k, j: nat | k in b.at ensures Ent(s', k, j) == EntryAfter(b, r, p, b.free[0], k, j) {
      assert s'.mem[s'.at[k]] == m[s'.at[k]];
      assert Ent(s', k, j) == Ent(w, k, j);
    }
  }

  // ---------------------------------------------------------------------------
  // Absent directories

  function WordAt(m: Memory, f: Frame, i: nat): Word {
    if f in m && i < |m[f]| then m[f][i] else ZERO
  }

  /** The tables `copy_page` walks through.  It sets the present bit of each entry before it looks
      at it, so it never finds an entry absent and follows whatever frame number is there. */
  function PdptOf(m: Memory, r: Frame, p: Page): Frame {
    WordAt(m, r, p.i4).frame
  }

  function PdOf(m: Memory, r: Frame, p: Page): Frame {
    WordAt(m, PdptOf(m, r, p), p.i3).frame
  }

  function PtOf(m: Memory, r: Frame, p: Page): Frame {
    WordAt(m, PdOf(m, r, p), p.i2).frame
  }

  /** `copy_page` stays inside the tables of its process exactly when the three upper levels are present;
      otherwise it takes frame 0 for a table. */
  lemma CopyPageStaysInTree(b: Space, r: Frame, p: Page)
    requires Wf(b) && Root(r) in b.at && UserPage(p) && 0 !in b.loc
    ensures PtLoc(r, p) in b.at <==>
              PdptOf(b.mem, r, p) in b.loc && PdOf(b.mem, r, p) in b.loc && PtOf(b.mem, r, p) in b.loc
    ensures PtLoc(r, p) !in b.at ==> PdptOf(b.mem, r, p) == 0 || PdOf(b.mem, r, p) == 0 || PtOf(b.mem, r, p) == 0
  {
    var l3 := Sub(Root(r), p.i4);
    var l2 := Sub(l3, p.i3);
    var l1 := Sub(l2, p.i2);
    assert LinkOk(b, Root(r));
    assert l1 in b.at ==> LinkOk(b, l1);
    assert l2 in b.at ==> LinkOk(b, l2);
    assert Ent(b, Root(r), p.i4) != ZERO ==> EntryOk(b, Root(r), p.i4);
    if l3 in b.at {
      assert LinkOk(b, l3);
      assert Ent(b, l3, p.i3) != ZERO ==> EntryOk(b, l3, p.i3);
      if l2 in b.at {
        assert Ent(b, l2, p.i2) != ZERO ==> EntryOk(b, l2, p.i2);
      }
    }
  }

  /** A process that passes the copy-on-write test although the directory of the page is absent. */
  function AbsentDirectory(): Space {
    Space(map[1 := Zeros()[0 := Word(2, true, true, true, true, 0)], 2 := Zeros()], [],
          map[Root(1) := 1, Sub(Root(1), 0) := 2], map[1 := Root(1), 2 := Sub(Root(1), 0)], map[])
  }

  lemma CowTestIsNotEnough()
    ensures var b, p := AbsentDirectory(), Page(0, 0, 0, 0);
      && Wf(b) && UserPage(p) && PassesCowTest(b, 1, p)
      && FrameAt(b.mem, PageLoc(1, p)) == None
      && PtLoc(1, p) !in b.at && PdOf(b.mem, 1, p) == 0
  {
    var b, p := AbsentDirectory(), Page(0, 0, 0, 0);
    var l3 := Sub(Root(1), 0);
    assert Ent(b, Root(1), 0) == Word(2, true, true, true, true, 0);
    assert forall i: nat | 0 < i < 512 :: Ent(b, Root(1), i) == ZERO;
    assert forall i: nat | i < 512 :: Ent(b, l3, i) == ZERO;
    assert Depth(l3) == 1 && UserLoc(l3) && RootOf(l3) == 1;
    forall l | l in b.at ensures LinkOk(b, l) {}
    forall l, i: nat | l in b.at && i < Width(l) && Ent(b, l, i) != ZERO ensures EntryOk(b, l, i) {
      assert l == Root(1) && i == 0;
    }
    WalkFollowsTree(b, l3);
    WalkToPage(b, 1, p);
  }

  lemma ForkedTables(b: Space, s: Space, r: Frame, c: Frame, p: Page)
    requires Wf(b) && Forked(b, s, r, c) && Root(r) in b.at && UserPage(p)
    ensures PtLoc(r, p) in s.at <==> PtLoc(r, p) in b.at
    ensures PtLoc(c, p) in s.at <==> PtLoc(r, p) in b.at
  {
    PtLocFacts(r, p);
    PtLocFacts(c, p);
    RebaseFacts(PtLoc(r, p), c);
    PtLocRebase(r, c, p);
    PtLocRebase(c, r, p);
    NoForeignTables(b, c);
    if PtLoc(r, p) in b.at {
      EveryTableCopied(b, s, r, c, PtLoc(r, p));
      ParentAfterFork(b, s, r, c, PtLoc(r, p), 0);
    }
    if PtLoc(c, p) in s.at {
      ChildAfterFork(b, s, r, c, PtLoc(c, p), 0);
    }
    if PtLoc(r, p) in s.at && PtLoc(r, p) !in b.at {
      ChildAfterFork(b, s, r, c, PtLoc(r, p), 0);
    }
  }

  /** After every fork the copy-on-write test passes in parent and child for all addresses below a used PML4 entry of
      the parent, and only for those; but `copy_page` finds a page table exactly where the parent had one.  So the
      first access to an address of a used 512 GB without a page table leads it astray. */
  lemma CowTestAfterFork(b: Space, s: Space, r: Frame, c: Frame, p: Page)
    requires Wf(b) && Forked(b, s, r, c) && Root(r) in b.at && UserPage(p)
    ensures PassesCowTest(s, r, p) <==> Ent(b, Root(r), p.i4) != ZERO
    ensures PassesCowTest(s, c, p) <==> Ent(b, Root(r), p.i4) != ZERO
    ensures PtLoc(r, p) in s.at <==> PtLoc(r, p) in b.at
    ensures PtLoc(c, p) in s.at <==> PtLoc(r, p) in b.at
  {
    ForkedTables(b, s, r, c, p);
    EveryTableCopied(b, s, r, c, Root(r));
    ParentAfterFork(b, s, r, c, Root(r), p.i4);
    ChildAfterFork(b, s, r, c, Root(c), p.i4);
    assert Ent(b, Root(r), p.i4) != ZERO ==> EntryOk(b, Root(r), p.i4);
  }

  /** The PML4 entry of the page passes the test of the fault handler. */
  ghost predicate PassesCowTest(s: Space, r: Frame, p: Page) {
    CowEnabled(Ent(s, Root(r), p.i4))
  }
}
