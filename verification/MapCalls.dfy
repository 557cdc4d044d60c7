/**
  A call of `map_user_address` among the steps of the copy-on-write machine: it leaves the memory of
  those steps, and it keeps the invariant and is a run of the machine exactly when its frames allow.
 */
module MapCalls {
  import opened PageEntries
  import opened PageTables
  import opened BootMap
  import opened UserMap
  import opened UserMapTree
  import opened PageMaps
  import opened RangeMaps
  import opened CowRefinement

  // ---------------------------------------------------------------------------
  // The state after a call

  /** Page `x0` of the gigabyte of entries `i4` and `i3`. */
  function FirstPage(i4: nat, i3: nat, x0: nat): Page {
    Page(i4, i3, PtIndex(x0, 0), EntryIndex(x0, 0))
  }

  lemma FirstPageIs(v0: nat)
    ensures FirstPage(Digits(v0).i4, Digits(v0).i3, v0 % REGION) == Digits(v0)
  {
    RegionDigits(v0);
  }

  /** The range is in the user half and stays within its gigabyte, and there are frames for its tables. */
  ghost predicate CanCall(b: Space, r: Frame, i4: nat, i3: nat, x0: nat, n: nat) {
    && Wf(b) && Root(r) in b.at && i4 < 510 && i3 < 512 && InRegion(x0, n)
    && Lacking(b, r, FirstPage(i4, i3, x0)) + NewTables(x0, n) <= |b.free|
  }

  /** What opening one table takes from the queue. */
  function Popped(free: seq<Frame>, there: bool): seq<Frame> {
    if there || free == [] then free else free[1..]
  }

  lemma PoppedAll(free: seq<Frame>, a: bool, b: bool, c: bool)
    requires (c ==> b) && (b ==> a) && (if a then if b then if c then 0 else 1 else 2 else 3) <= |free|
    ensures Popped(Popped(Popped(free, a), b), c) == free[if a then if b then if c then 0 else 1 else 2 else 3..]
  {
  }

  lemma WayTakes(b: Space, r: Frame, p: Page)
    requires CanReach(b, r, p)
    ensures OpenWay(b, r, p).free == b.free[Lacking(b, r, p)..]
  {
    var l2 := Sub(Sub(Root(r), p.i4), p.i3);
    var s1, s2 := OpenPdptOf(b, r, p), OpenPdOf(b, r, p);
    ClosedUpwards(b, r, p);
    assert l2 in b.at <==> l2 in s1.at;
    assert PtLoc(r, p) in b.at <==> PtLoc(r, p) in s2.at;
    PoppedAll(b.free, Sub(Root(r), p.i4) in b.at, l2 in b.at, PtLoc(r, p) in b.at);
    assert s1.free == Popped(b.free, Sub(Root(r), p.i4) in b.at);
  }

  lemma CallReaches(b: Space, r: Frame, i4: nat, i3: nat, x0: nat, n: nat)
    requires CanCall(b, r, i4, i3, x0, n)
    ensures CanReach(b, r, FirstPage(i4, i3, x0))
    ensures PtLoc(r, FirstPage(i4, i3, x0)) == Sub(PdLoc(r, i4, i3), PtIndex(x0, 0))
    ensures Depth(PdLoc(r, i4, i3)) == 2 && PtIndex(x0, 0) + 1 + NewTables(x0, n) <= 512
  {
    assert PtIndex(x0, 0) < 512;
    LastTableFits(x0, n);
    PtLocFacts(r, FirstPage(i4, i3, x0));
  }

  lemma LastTableFits(x0: nat, n: nat)
    requires InRegion(x0, n)
    ensures PtIndex(x0, 0) + 1 + NewTables(x0, n) <= 512
  {
  }

  /** The tables on the way to the first page. */
  ghost function Way(b: Space, r: Frame, i4: nat, i3: nat, x0: nat, n: nat): (s: Space)
    requires CanCall(b, r, i4, i3, x0, n)
    ensures CanPut(s, PdLoc(r, i4, i3), x0, 0, n)
    ensures CanRenewAll(s, PdLoc(r, i4, i3), PtIndex(x0, 0) + 1, NewTables(x0, n))
  {
    CallReaches(b, r, i4, i3, x0, n);
    WayIsReady(b, OpenWay(b, r, FirstPage(i4, i3, x0)), r, i4, i3, x0, n);
    OpenWay(b, r, FirstPage(i4, i3, x0))
  }

  lemma WayIsReady(b: Space, s: Space, r: Frame, i4: nat, i3: nat, x0: nat, n: nat)
    requires CanCall(b, r, i4, i3, x0, n) && CanReach(b, r, FirstPage(i4, i3, x0))
    requires s == OpenWay(b, r, FirstPage(i4, i3, x0))
    ensures CanPut(s, PdLoc(r, i4, i3), x0, 0, n)
    ensures CanRenewAll(s, PdLoc(r, i4, i3), PtIndex(x0, 0) + 1, NewTables(x0, n))
  {
    CallReaches(b, r, i4, i3, x0, n);
    WayTakes(b, r, FirstPage(i4, i3, x0));
    ReadyToPut(s, PdLoc(r, i4, i3), x0, n);
  }

  lemma ReadyToPut(s: Space, l: Loc, x0: nat, n: nat)
    requires Wf(s) && Sub(l, PtIndex(x0, 0)) in s.at && Depth(l) == 2 && InRegion(x0, n) && NewTables(x0, n) <= |s.free|
    ensures CanPut(s, l, x0, 0, n) && CanRenewAll(s, l, PtIndex(x0, 0) + 1, NewTables(x0, n))
  {
    assert LinkOk(s, Sub(l, PtIndex(x0, 0)));
    LastTableFits(x0, n);
  }

  ghost function AfterCall(b: Space, r: Frame, i4: nat, i3: nat, x0: nat, n: nat, p0: nat): Space
    requires CanCall(b, r, i4, i3, x0, n)
  {
    PutFrom(Way(b, r, i4, i3, x0, n), PdLoc(r, i4, i3), x0, 0, n, p0)
  }

  // ---------------------------------------------------------------------------
  // The method leaves that state

  /** Opening an entry of the tree, and what the code does about it. */
  lemma OpenIsOpenTable(b: Space, l: Loc, i: nat)
    requires CanOpen(b, l, i)
    ensures var s := OpenAt(b, l, i);
      Sub(l, i) in s.at && OpenTable(b.mem, b.free, b.at[l], i) == (s.mem, s.free, s.at[Sub(l, i)])
  {
    PresentIsUsed(b, l, i);
    OpenEffect(b, l, i);
    assert Ent(b, l, i) == b.mem[b.at[l]][i];
  }

  lemma WayIsOpenTables(b: Space, r: Frame, p: Page)
    requires CanReach(b, r, p)
    ensures b.at[Root(r)] == r && PtLoc(r, p).parent in OpenWay(b, r, p).at
    ensures var s := OpenWay(b, r, p);
            OpenTables(b.mem, b.free, r, p.i4, p.i3, p.i2)
            == (s.mem, s.free, s.at[PtLoc(r, p).parent], s.at[PtLoc(r, p)])
  {
    var l3 := Sub(Root(r), p.i4);
    assert LinkOk(b, Root(r));
    assert Depth(l3) == 1;
    assert Depth(Sub(l3, p.i3)) == 2;
    OpenPdptFacts(b, r, p);
    OpenIsOpenTable(b, Root(r), p.i4);
    OpenIsOpenTable(OpenPdptOf(b, r, p), l3, p.i3);
    OpenIsOpenTable(OpenPdOf(b, r, p), Sub(l3, p.i3), p.i2);
  }

  lemma PutIsPutEntry(s: Space, l: Loc, u: nat, f: Frame)
    requires Sound(s) && l in s.at && u < 512
    ensures HasTable(s, l) && PutAt(s, l, u, f).mem == PutEntry(s.mem, s.at[l], u, f)
    ensures PutAt(s, l, u, f).at == s.at && PutAt(s, l, u, f).free == s.free
  {
    assert Ent(s, l, u) == s.mem[s.at[l]][u];
  }

  /** One round of the code's loop. */
  lemma PutPagesStep(m: Memory, free: seq<Frame>, pd: Frame, pt: Frame, x0: nat, i: nat, n: nat, p0: nat)
    requires i < n
    ensures !NeedsTable(x0, i) ==>
              PutPages(m, free, pd, pt, x0, i, n, p0)
              == PutPages(PutEntry(m, pt, EntryIndex(x0, i), p0 + i), free, pd, pt, x0, i + 1, n, p0)
    ensures NeedsTable(x0, i) && free != [] && pd in m && PtIndex(x0, i) < |m[pd]| ==>
              PutPages(m, free, pd, pt, x0, i, n, p0)
              == PutPages(PutEntry(WithPt(m, pd, PtIndex(x0, i), free[0]), free[0], EntryIndex(x0, i), p0 + i),
                          free[1..], pd, free[0], x0, i + 1, n, p0)
  {
  }

  /** The memory, the queue and the two tables after one round of the machine's loop. */
  lemma PageMemory(s: Space, l: Loc, x0: nat, i: nat, n: nat, p0: nat)
    requires CanPut(s, l, x0, i, n) && i < n
    ensures var t, k := AfterPage(s, l, x0, i, n, p0), Sub(l, PtIndex(x0, i));
      && k in t.at && t.at[l] == s.at[l] && TableOf(x0, i + 1) == PtIndex(x0, i)
      && (!NeedsTable(x0, i) ==>
            && TableOf(x0, i) == PtIndex(x0, i) && t.free == s.free && t.at == s.at
            && t.mem == PutEntry(s.mem, s.at[k], EntryIndex(x0, i), p0 + i))
      && (NeedsTable(x0, i) ==>
            && s.free != [] && s.at[l] in s.mem && PtIndex(x0, i) < |s.mem[s.at[l]]|
            && t.free == s.free[1..] && t.at[k] == s.free[0]
            && t.mem == PutEntry(WithPt(s.mem, s.at[l], PtIndex(x0, i), s.free[0]), s.free[0], EntryIndex(x0, i),
                                 p0 + i))
  {
    NextPage(x0, i, n);
    PutIsPutEntry(BeforePage(s, l, x0, i, n), Sub(l, PtIndex(x0, i)), EntryIndex(x0, i), p0 + i);
    if NeedsTable(x0, i) {
      RenewIsSound(s, l, PtIndex(x0, i));
    }
  }

  /** The loop body of the machine and of the code. */
  lemma PageIsPutPage(s: Space, l: Loc, x0: nat, i: nat, n: nat, p0: nat)
    requires CanPut(s, l, x0, i, n) && i < n
    ensures var t, pt := AfterPage(s, l, x0, i, n, p0), s.at[Sub(l, TableOf(x0, i))];
            PutPages(s.mem, s.free, s.at[l], pt, x0, i, n, p0)
            == PutPages(t.mem, t.free, t.at[l], t.at[Sub(l, TableOf(x0, i + 1))], x0, i + 1, n, p0)
  {
    PageMemory(s, l, x0, i, n, p0);
    PutPagesStep(s.mem, s.free, s.at[l], s.at[Sub(l, TableOf(x0, i))], x0, i, n, p0);
  }

  lemma {:induction false} RangeIsPutPages(s: Space, l: Loc, x0: nat, i: nat, n: nat, p0: nat)
    requires CanPut(s, l, x0, i, n)
    ensures PutFrom(s, l, x0, i, n, p0).mem
            == PutPages(s.mem, s.free, s.at[l], s.at[Sub(l, TableOf(x0, i))], x0, i, n, p0)
    decreases n - i
  {
    if i < n {
      PageIsPutPage(s, l, x0, i, n, p0);
      RangeIsPutPages(AfterPage(s, l, x0, i, n, p0), l, x0, i + 1, n, p0);
    }
  }

  /** The frames that are missing on the way, as the code finds them and as the tree has them. */
  lemma MissingIsLacking(b: Space, r: Frame, p: Page)
    requires Wf(b) && Root(r) in b.at && UserPage(p)
    ensures MissingTables(b.mem, r, p.i4, p.i3, p.i2) == Lacking(b, r, p)
  {
    var l3 := Sub(Root(r), p.i4);
    var l2 := Sub(l3, p.i3);
    assert LinkOk(b, Root(r));
    EntryLeads(b, Root(r), p.i4);
    ClosedUpwards(b, r, p);
    if l3 in b.at {
      assert Depth(l3) == 1;
      EntryLeads(b, l3, p.i3);
      if l2 in b.at {
        assert Depth(l2) == 2;
        EntryLeads(b, l2, p.i2);
      }
    }
  }

  lemma CallMemory(b: Space, r: Frame, i4: nat, i3: nat, x0: nat, n: nat, p0: nat)
    requires CanCall(b, r, i4, i3, x0, n)
    ensures var d := FirstPage(i4, i3, x0);
            var (m', free', pd, pt) := OpenTables(b.mem, b.free, r, d.i4, d.i3, d.i2);
            AfterCall(b, r, i4, i3, x0, n, p0).mem == PutPages(m', free', pd, pt, x0, 0, n, p0)
  {
    CallReaches(b, r, i4, i3, x0, n);
    WayIsOpenTables(b, r, FirstPage(i4, i3, x0));
    RangeIsPutPages(Way(b, r, i4, i3, x0, n), PdLoc(r, i4, i3), x0, 0, n, p0);
  }

  lemma RangeQueue(s: Space, l: Loc, x0: nat, n: nat, p0: nat)
    requires CanPut(s, l, x0, 0, n) && CanRenewAll(s, l, PtIndex(x0, 0) + 1, NewTables(x0, n))
    ensures PutFrom(s, l, x0, 0, n, p0).free == s.free[NewTables(x0, n)..]
  {
    StartIsPutOver(s, l, x0, p0);
    RangeEffect(s, s, l, x0, 0, n, p0);
  }

  lemma TakenTwice(free: seq<Frame>, left: seq<Frame>, rest: seq<Frame>, u: nat, v: nat, w: nat)
    requires w == u + v && w <= |free| && left == free[u..] && rest == left[v..]
    ensures rest == free[w..]
  {
  }

  lemma WayQueue(b: Space, r: Frame, i4: nat, i3: nat, x0: nat, n: nat)
    requires CanCall(b, r, i4, i3, x0, n)
    ensures Way(b, r, i4, i3, x0, n).free == b.free[Lacking(b, r, FirstPage(i4, i3, x0))..]
  {
    CallReaches(b, r, i4, i3, x0, n);
    WayTakes(b, r, FirstPage(i4, i3, x0));
  }

  lemma CallQueue(b: Space, s: Space, t: Space, r: Frame, i4: nat, i3: nat, x0: nat, n: nat, p0: nat, w: nat)
    requires CanCall(b, r, i4, i3, x0, n) && s == Way(b, r, i4, i3, x0, n) && t == AfterCall(b, r, i4, i3, x0, n, p0)
    requires w == Lacking(b, r, FirstPage(i4, i3, x0)) + NewTables(x0, n)
    ensures t.free == b.free[w..]
  {
    WayQueue(b, r, i4, i3, x0, n);
    RangeQueue(s, PdLoc(r, i4, i3), x0, n, p0);
    TakenTwice(b.free, s.free, t.free, Lacking(b, r, FirstPage(i4, i3, x0)), NewTables(x0, n), w);
  }

  /** What the contract of the method says about the memory and the queue as a whole. */
  ghost predicate Leaves(m: Memory, free: seq<Frame>, m': Memory, free': seq<Frame>, r: Frame, v0: nat, n: nat,
      p0: nat) {
    && TablesFor(m, r, v0, n) <= |free| && free' == free[TablesFor(m, r, v0, n)..]
    && m' == MappedMemory(m, free, r, v0, n, p0)
  }

  lemma CallLeaves(b: Space, m': Memory, free': seq<Frame>, r: Frame, v0: nat, n: nat, p0: nat)
    requires Target(b, r, v0, n) && Leaves(b.mem, b.free, m', free', r, v0, n, p0)
    ensures CanCall(b, r, Digits(v0).i4, Digits(v0).i3, v0 % REGION, n)
    ensures var s := AfterCall(b, r, Digits(v0).i4, Digits(v0).i3, v0 % REGION, n, p0); s.mem == m' && s.free == free'
  {
    MissingIsLacking(b, r, Digits(v0));
    FirstPageIs(v0);
    CallMemory(b, r, Digits(v0).i4, Digits(v0).i3, v0 % REGION, n, p0);
    CallQueue(b, Way(b, r, Digits(v0).i4, Digits(v0).i3, v0 % REGION, n),
      AfterCall(b, r, Digits(v0).i4, Digits(v0).i3, v0 % REGION, n, p0), r, Digits(v0).i4, Digits(v0).i3, v0 % REGION,
      n, p0, TablesFor(b.mem, r, v0, n));
  }

  /** The method leaves the memory and the queue of that state. */
  lemma CallIsMachineStep(b: Space, m': Memory, free': seq<Frame>, r: Frame, v0: nat, n: nat, p0: nat, pdpt: Frame,
      pd: Frame, pt: Frame)
    requires Target(b, r, v0, n) && RangeMapped(b.mem, b.free, m', free', r, v0, n, p0, pdpt, pd, pt)
    ensures CanCall(b, r, Digits(v0).i4, Digits(v0).i3, v0 % REGION, n)
    ensures var s := AfterCall(b, r, Digits(v0).i4, Digits(v0).i3, v0 % REGION, n, p0); s.mem == m' && s.free == free'
  {
    assert Leaves(b.mem, b.free, m', free', r, v0, n, p0);
    CallLeaves(b, m', free', r, v0, n, p0);
  }

  // ---------------------------------------------------------------------------
  // When a call keeps the invariant

  /** Page `j` of the range is in the first table and was mapped. */
  ghost predicate WasMapped(b: Space, l: Loc, x0: nat, j: nat) {
    PtIndex(x0, j) == PtIndex(x0, 0) && Ent(b, Sub(l, PtIndex(x0, 0)), EntryIndex(x0, j)) != ZERO
  }

  /** Page `j` was mapped there, or nobody uses its frame but the `c` page tables behind the first one, which are
      replaced, and their pages. */
  ghost predicate PageIsFine(b: Space, l: Loc, x0: nat, c: nat, p0: nat, j: nat) {
    WasMapped(b, l, x0, j) || UnusedBut(b, l, PtIndex(x0, 0) + 1, c, p0 + j)
  }

  ghost predicate AllFine(b: Space, l: Loc, x0: nat, n: nat, p0: nat) {
    forall j: nat {:trigger PageIsFine(b, l, x0, NewTables(x0, n), p0, j)} | j < n ::
      PageIsFine(b, l, x0, NewTables(x0, n), p0, j)
  }

  lemma WayPlaces(b: Space, r: Frame, p: Page, k: Loc)
    requires CanReach(b, r, p) && k in OpenWay(b, r, p).at && k !in b.at
    ensures k == Sub(Root(r), p.i4) || k == PtLoc(r, p).parent || k == PtLoc(r, p)
  {
  }

  /** Opening the way moves frames from the queue to tables that are not replaced. */
  lemma UnusedBeforeWay(b: Space, s: Space, l: Loc, j: nat, c: nat, f: Frame)
    requires Wf(b) && Wf(s) && SameLeaves(b, s)
    requires forall k | k in s.at && k !in b.at :: !Later(l, j, c, k)
    ensures UnusedBut(s, l, j, c, f) <==> UnusedBut(b, l, j, c, f)
  {
    forall k, u: nat ensures BacksPage(s, f, k, u) <==> BacksPage(b, f, k, u) {
      assert Depth(k) == 3 ==> Ent(s, k, u) == Ent(b, k, u);
    }
    if f in b.loc {
      assert b.loc[f] in b.at && s.loc[f] == b.loc[f];
    } else if f in s.loc {
      assert s.at[s.loc[f]] == f && s.loc[f] !in b.at;
    }
  }

  lemma WayIsNotReplaced(b: Space, r: Frame, p: Page, c: nat, k: Loc)
    requires CanReach(b, r, p) && k in OpenWay(b, r, p).at && k !in b.at
    ensures !Later(PtLoc(r, p).parent, p.i2 + 1, c, k)
  {
    WayPlaces(b, r, p, k);
    assert Depth(Sub(Root(r), p.i4)) == 1;
    assert Depth(PtLoc(r, p).parent) == 2;
  }

  lemma NewIsUnmapped(b: Space, s: Space, t: Space, l: Loc, x0: nat, n: nat, j: nat)
    requires Wf(b) && SameLeaves(b, s) && Depth(l) == 2 && InRegion(x0, n) && j < n
    requires RenewedAll(s, t, l, PtIndex(x0, 0) + 1, NewTables(x0, n))
    ensures IsNew(t, l, x0, j) <==> !WasMapped(b, l, x0, j)
  {
    TableOfPage(x0, j, n);
    FreshIsUnmapped(b, s, t, l, PtIndex(x0, 0), NewTables(x0, n), PtIndex(x0, j), EntryIndex(x0, j));
  }

  lemma UnusedInB(b: Space, s: Space, t: Space, l: Loc, i: nat, c: nat, f: Frame)
    requires Wf(b) && Wf(s) && Wf(t) && SameLeaves(b, s) && RenewedAll(s, t, l, i, c)
    requires forall k | k in s.at && k !in b.at :: !Later(l, i, c, k)
    ensures Unused(t, f) <==> UnusedBut(b, l, i, c, f)
  {
    UnusedAfterRenewing(s, t, l, i, c, f);
    UnusedBeforeWay(b, s, l, i, c, f);
  }

  /** Whether page `j` is fine, as the tables after all replacements show it. */
  lemma FineIsFit(b: Space, s: Space, t: Space, l: Loc, x0: nat, n: nat, p0: nat, j: nat, i: nat, c: nat, f: Frame)
    requires Wf(b) && Wf(s) && Wf(t) && SameLeaves(b, s) && Depth(l) == 2 && InRegion(x0, n) && j < n
    requires i == PtIndex(x0, 0) + 1 && c == NewTables(x0, n) && f == p0 + j
    requires RenewedAll(s, t, l, i, c) && forall k | k in s.at && k !in b.at :: !Later(l, i, c, k)
    ensures PageFits(t, l, x0, p0, j) <==> PageIsFine(b, l, x0, c, p0, j)
  {
    NewIsUnmapped(b, s, t, l, x0, n, j);
    UnusedInB(b, s, t, l, i, c, f);
    EitherWay(b, t, l, x0, c, p0, j, i, f);
  }

  lemma EitherWay(b: Space, t: Space, l: Loc, x0: nat, c: nat, p0: nat, j: nat, i: nat, f: Frame)
    requires IsNew(t, l, x0, j) <==> !WasMapped(b, l, x0, j)
    requires Unused(t, f) <==> UnusedBut(b, l, i, c, f)
    requires i == PtIndex(x0, 0) + 1 && f == p0 + j
    ensures PageFits(t, l, x0, p0, j) <==> PageIsFine(b, l, x0, c, p0, j)
  {
  }

  lemma AllEitherWay(b: Space, t: Space, l: Loc, x0: nat, n: nat, p0: nat)
    requires forall j: nat {:trigger PageIsFine(b, l, x0, NewTables(x0, n), p0, j)}
                           {:trigger PageFits(t, l, x0, p0, j)} | j < n ::
               PageFits(t, l, x0, p0, j) <==> PageIsFine(b, l, x0, NewTables(x0, n), p0, j)
    ensures PagesFit(t, l, x0, n, p0) <==> AllFine(b, l, x0, n, p0)
  {
  }

  lemma FreshIsUnmapped(b: Space, s: Space, t: Space, l: Loc, first: nat, c: nat, i: nat, u: nat)
    requires Wf(b) && SameLeaves(b, s) && Depth(l) == 2 && u < 512 && first <= i <= first + c
    requires RenewedAll(s, t, l, first + 1, c)
    ensures !Ent(t, Sub(l, i), u).present <==> !(i == first && Ent(b, Sub(l, first), u) != ZERO)
  {
    var k := Sub(l, i);
    assert Depth(k) == 3;
    assert Ent(t, k, u) == if Later(l, first + 1, c, k) then ZERO else Ent(s, k, u);
    assert Ent(s, k, u) == Ent(b, k, u);
    PresentOfLeaf(b, k, u);
  }

  lemma PresentOfLeaf(b: Space, k: Loc, u: nat)
    requires Wf(b) && u < 512 && Depth(k) == 3
    ensures Ent(b, k, u).present <==> Ent(b, k, u) != ZERO
  {
    if k in b.at {
      PresentIsUsed(b, k, u);
    }
  }

  lemma TableOfPage(x0: nat, j: nat, n: nat)
    requires InRegion(x0, n) && j < n
    ensures PtIndex(x0, 0) <= PtIndex(x0, j) <= PtIndex(x0, 0) + NewTables(x0, n)
  {
    NextPage(x0, j, n);
  }

  /** A call keeps the invariant exactly when every page of the range was mapped in the first table, or gets a frame
      that nobody uses, not counting the page tables that the call replaces and their pages. */
  lemma CallKeepsWf(b: Space, r: Frame, i4: nat, i3: nat, x0: nat, n: nat, p0: nat)
    requires CanCall(b, r, i4, i3, x0, n)
    ensures Wf(AfterCall(b, r, i4, i3, x0, n, p0)) <==> AllFine(b, PdLoc(r, i4, i3), x0, n, p0)
  {
    CallReaches(b, r, i4, i3, x0, n);
    WayChangesNoLeaf(b, r, FirstPage(i4, i3, x0));
    forall k | k in Way(b, r, i4, i3, x0, n).at && k !in b.at
      ensures !Later(PdLoc(r, i4, i3), PtIndex(x0, 0) + 1, NewTables(x0, n), k)
    {
      WayIsNotReplaced(b, r, FirstPage(i4, i3, x0), NewTables(x0, n), k);
    }
    RangeFromWay(b, Way(b, r, i4, i3, x0, n), PdLoc(r, i4, i3), x0, n, p0);
  }

  lemma RangeFromWay(b: Space, s: Space, l: Loc, x0: nat, n: nat, p0: nat)
    requires Wf(b) && Wf(s) && SameLeaves(b, s) && CanPut(s, l, x0, 0, n)
    requires CanRenewAll(s, l, PtIndex(x0, 0) + 1, NewTables(x0, n))
    requires forall k | k in s.at && k !in b.at :: !Later(l, PtIndex(x0, 0) + 1, NewTables(x0, n), k)
    ensures Wf(PutFrom(s, l, x0, 0, n, p0)) <==> AllFine(b, l, x0, n, p0)
  {
    var t, i, c := AllTables(s, l, x0, n), PtIndex(x0, 0) + 1, NewTables(x0, n);
    RenewAllKeepsWf(s, t, l, i, c);
    RangeIsPut(s, t, PutFrom(s, l, x0, 0, n, p0), l, x0, n, p0);
    forall j: nat | j < n ensures PageFits(t, l, x0, p0, j) <==> PageIsFine(b, l, x0, c, p0, j) {
      FineIsFit(b, s, t, l, x0, n, p0, j, i, c, p0 + j);
    }
    AllEitherWay(b, t, l, x0, n, p0);
  }

  lemma RangeIsPut(s: Space, t: Space, u: Space, l: Loc, x0: nat, n: nat, p0: nat)
    requires CanPut(s, l, x0, 0, n) && CanRenewAll(s, l, PtIndex(x0, 0) + 1, NewTables(x0, n))
    requires t == AllTables(s, l, x0, n) && u == PutFrom(s, l, x0, 0, n, p0) && Wf(t)
    requires RenewedAll(s, t, l, PtIndex(x0, 0) + 1, NewTables(x0, n))
    ensures PutOver(t, u, l, x0, n, p0) && (Wf(u) <==> PagesFit(t, l, x0, n, p0))
  {
    StartIsPutOver(s, l, x0, p0);
    RangeEffect(s, s, l, x0, 0, n, p0);
    TablesAreThere(s, t, l, x0, n);
    RangeKeepsWf(t, u, l, x0, n, p0);
  }

  lemma StartIsPutOver(s: Space, l: Loc, x0: nat, p0: nat)
    requires Sound(s) && CanRenewAll(s, l, PtIndex(x0, 0) + 1, 0)
    ensures NewTables(x0, 0) == 0 && PutOver(AllTables(s, l, x0, 0), s, l, x0, 0, p0)
  {
    assert AllTables(s, l, x0, 0) == s;
    forall f: Frame ensures OwnerAfter(s, s, l, x0, 0, p0, f) {
    }
  }

  lemma TablesAreThere(s: Space, t: Space, l: Loc, x0: nat, n: nat)
    requires InRegion(x0, n) && Sub(l, TableOf(x0, 0)) in s.at
    requires RenewedAll(s, t, l, PtIndex(x0, 0) + 1, NewTables(x0, n))
    ensures TablesThere(t, l, x0, n)
  {
    forall j: nat | j < n ensures Sub(l, PtIndex(x0, j)) in t.at {
      TableOfPage(x0, j, n);
    }
  }

  // ---------------------------------------------------------------------------
  // A call as a run of the machine

  /** A run of the machine from one state to another. */
  ghost predicate RunTo(b: Space, s: Space, states: seq<Space>, events: seq<Event>) {
    Run(states, events) && states[0] == b && states[|states| - 1] == s
  }

  lemma NoStep(b: Space) returns (states: seq<Space>, events: seq<Event>)
    ensures RunTo(b, b, states, events)
  {
    states, events := [b], [];
  }

  lemma PrependStep(b: Space, ev: Event, m: Space, s: Space, states: seq<Space>, events: seq<Event>)
    returns (states': seq<Space>, events': seq<Event>)
    requires RunTo(m, s, states, events) && Step(b, ev, m)
    ensures RunTo(b, s, states', events')
  {
    states', events' := [b] + states, [ev] + events;
    assert states'[1..] == states && events'[1..] == events;
  }

  /** When page `j` is put, only the page tables up to its own have been replaced. */
  ghost predicate FineInTime(b: Space, l: Loc, x0: nat, p0: nat, j: nat) {
    PageIsFine(b, l, x0, NewTables(x0, j + 1), p0, j)
  }

  /** Pages put before have other frames. */
  lemma UnusedOver(t: Space, s: Space, l: Loc, x0: nat, i: nat, p0: nat)
    requires Sound(t) && PutOver(t, s, l, x0, i, p0) && Unused(t, p0 + i)
    ensures Unused(s, p0 + i)
  {
    var f := p0 + i;
    forall k, u: nat ensures !BacksPage(s, f, k, u) {
      assert Ent(s, k, u) == RangeEnt(t, l, x0, i, p0, k, u);
      assert !BacksPage(t, f, k, u);
    }
  }

  /** The way to the first page is open, and its tables are not replaced. */
  ghost predicate WayOf(b: Space, s0: Space, l: Loc, x0: nat, n: nat) {
    && Wf(b) && Wf(s0) && SameLeaves(b, s0) && CanRenewAll(s0, l, PtIndex(x0, 0) + 1, NewTables(x0, n))
    && (forall k | k in s0.at && k !in b.at :: !Later(l, PtIndex(x0, 0) + 1, 512, k))
  }

  /** The state of the loop before page `i`. */
  ghost predicate AtPage(s0: Space, s: Space, l: Loc, x0: nat, i: nat, n: nat, p0: nat) {
    && Wf(s) && CanPut(s, l, x0, i, n) && CanRenewAll(s0, l, PtIndex(x0, 0) + 1, NewTables(x0, i))
    && PutOver(AllTables(s0, l, x0, i), s, l, x0, i, p0)
  }

  lemma BeforePageIsWf(s: Space, l: Loc, x0: nat, i: nat, n: nat)
    requires Wf(s) && CanPut(s, l, x0, i, n) && i < n
    ensures Wf(BeforePage(s, l, x0, i, n)) && IsPt(BeforePage(s, l, x0, i, n), Sub(l, PtIndex(x0, i)))
  {
    NextPage(x0, i, n);
    if NeedsTable(x0, i) {
      RenewKeepsWf(s, l, PtIndex(x0, i));
    }
    assert Depth(Sub(l, PtIndex(x0, i))) == 3;
  }

  /** The frame of page `i` is used by nobody when it is needed. */
  ghost predicate FrameReady(s: Space, l: Loc, x0: nat, i: nat, n: nat, p0: nat)
    requires CanPut(s, l, x0, i, n) && i < n
  {
    var m := BeforePage(s, l, x0, i, n);
    Ent(m, Sub(l, PtIndex(x0, i)), EntryIndex(x0, i)) == ZERO ==> Unused(m, p0 + i)
  }

  lemma NotLater(b: Space, s0: Space, l: Loc, i2: nat, c: nat)
    requires c <= 512 && forall k | k in s0.at && k !in b.at :: !Later(l, i2, 512, k)
    ensures forall k | k in s0.at && k !in b.at :: !Later(l, i2, c, k)
  {
  }

  lemma FrameInTime(b: Space, s0: Space, t: Space, l: Loc, x0: nat, i: nat, p0: nat, i2: nat, c: nat)
    requires Wf(b) && Wf(s0) && SameLeaves(b, s0) && Wf(t) && Depth(l) == 2 && InRegion(x0, i + 1)
    requires i2 == PtIndex(x0, 0) + 1 && c == NewTables(x0, i + 1) && RenewedAll(s0, t, l, i2, c)
    requires (forall k | k in s0.at && k !in b.at :: !Later(l, i2, c, k)) && PageIsFine(b, l, x0, c, p0, i)
    ensures PageFits(t, l, x0, p0, i)
  {
    FineIsFit(b, s0, t, l, x0, i + 1, p0, i, i2, c, p0 + i);
  }

  lemma FitIsUnused(t: Space, m: Space, l: Loc, x0: nat, i: nat, p0: nat)
    requires Sound(t) && PutOver(t, m, l, x0, i, p0) && PageFits(t, l, x0, p0, i)
    ensures Ent(m, Sub(l, PtIndex(x0, i)), EntryIndex(x0, i)) == ZERO ==> Unused(m, p0 + i)
  {
    FreshStill(t, m, l, x0, i, p0);
    if Unused(t, p0 + i) {
      UnusedOver(t, m, l, x0, i, p0);
    }
  }

  lemma TablesAreWf(s0: Space, l: Loc, x0: nat, i: nat, n: nat, i2: nat, c: nat) returns (t: Space)
    requires Wf(s0) && i2 == PtIndex(x0, 0) + 1 && CanRenewAll(s0, l, i2, NewTables(x0, n)) && InRegion(x0, n) && i < n
    requires c == NewTables(x0, i + 1)
    ensures CanRenewAll(s0, l, i2, c) && t == AllTables(s0, l, x0, i + 1) && Wf(t) && RenewedAll(s0, t, l, i2, c)
  {
    NextPage(x0, i, n);
    t := AllTables(s0, l, x0, i + 1);
    RenewAllKeepsWf(s0, t, l, i2, c);
  }

  /** Page `j` fits when all tables up to its own have been replaced. */
  ghost predicate FitsInTime(s0: Space, l: Loc, x0: nat, p0: nat, j: nat) {
    && CanRenewAll(s0, l, PtIndex(x0, 0) + 1, NewTables(x0, j + 1))
    && PageFits(AllTables(s0, l, x0, j + 1), l, x0, p0, j)
  }

  ghost predicate AllFitInTime(s0: Space, l: Loc, x0: nat, n: nat, p0: nat) {
    forall j: nat {:trigger FitsInTime(s0, l, x0, p0, j)} | j < n :: FitsInTime(s0, l, x0, p0, j)
  }

  lemma FineFitsInTime(b: Space, s0: Space, l: Loc, x0: nat, n: nat, p0: nat, j: nat)
    requires WayOf(b, s0, l, x0, n) && InRegion(x0, n) && j < n && FineInTime(b, l, x0, p0, j)
    ensures FitsInTime(s0, l, x0, p0, j)
  {
    var i2, c := PtIndex(x0, 0) + 1, NewTables(x0, j + 1);
    var t := TablesAreWf(s0, l, x0, j, n, i2, c);
    NotLater(b, s0, l, i2, c);
    FrameInTime(b, s0, t, l, x0, j, p0, i2, c);
  }

  lemma PageFrame(s0: Space, s: Space, l: Loc, x0: nat, i: nat, n: nat, p0: nat)
    requires CanRenewAll(s0, l, PtIndex(x0, 0) + 1, NewTables(x0, n)) && AtPage(s0, s, l, x0, i, n, p0) && i < n
    requires FitsInTime(s0, l, x0, p0, i)
    ensures FrameReady(s, l, x0, i, n, p0)
  {
    TablesBefore(s0, AllTables(s0, l, x0, i), s, l, x0, i, n, p0);
    FitIsUnused(AllTables(s0, l, x0, i + 1), BeforePage(s, l, x0, i, n), l, x0, i, p0);
  }

  lemma NextAtPage(s0: Space, s: Space, l: Loc, x0: nat, i: nat, n: nat, p0: nat)
    requires AtPage(s0, s, l, x0, i, n, p0) && i < n && FrameReady(s, l, x0, i, n, p0)
    requires CanRenewAll(s0, l, PtIndex(x0, 0) + 1, NewTables(x0, n))
    ensures AtPage(s0, AfterPage(s, l, x0, i, n, p0), l, x0, i + 1, n, p0)
  {
    AfterPageIsWf(s, l, x0, i, n, p0);
    PageEffect(s0, AllTables(s0, l, x0, i), s, l, x0, i, n, p0);
  }

  lemma AfterPageIsWf(s: Space, l: Loc, x0: nat, i: nat, n: nat, p0: nat)
    requires Wf(s) && CanPut(s, l, x0, i, n) && i < n && FrameReady(s, l, x0, i, n, p0)
    ensures Wf(AfterPage(s, l, x0, i, n, p0))
  {
    BeforePageIsWf(s, l, x0, i, n);
    PutKeepsWf(BeforePage(s, l, x0, i, n), Sub(l, PtIndex(x0, i)), EntryIndex(x0, i), p0 + i);
  }

  /** Every frame is ready when its page is put. */
  ghost predicate AllReady(s: Space, l: Loc, x0: nat, i: nat, n: nat, p0: nat)
    requires CanPut(s, l, x0, i, n)
    decreases n - i
  {
    i < n ==>
      && Wf(s) && FrameReady(s, l, x0, i, n, p0)
      && AllReady(AfterPage(s, l, x0, i, n, p0), l, x0, i + 1, n, p0)
  }

  lemma {:induction false} InTimeIsReady(s0: Space, s: Space, l: Loc, x0: nat, i: nat, n: nat, p0: nat)
    requires CanRenewAll(s0, l, PtIndex(x0, 0) + 1, NewTables(x0, n)) && AtPage(s0, s, l, x0, i, n, p0)
    requires AllFitInTime(s0, l, x0, n, p0)
    ensures AllReady(s, l, x0, i, n, p0)
    decreases n - i
  {
    if i < n {
      assert FitsInTime(s0, l, x0, p0, i);
      PageFrame(s0, s, l, x0, i, n, p0);
      NextAtPage(s0, s, l, x0, i, n, p0);
      InTimeIsReady(s0, AfterPage(s, l, x0, i, n, p0), l, x0, i + 1, n, p0);
    }
  }

  /** The page that the loop puts in round `i`. */
  function PageOfRange(i4: nat, i3: nat, x0: nat, i: nat): Page {
    Page(i4, i3, PtIndex(x0, i), EntryIndex(x0, i))
  }

  /** Page `p` is mapped, or `f` is there for it. */
  ghost predicate CanTake(m: Space, r: Frame, p: Page, f: Frame) {
    && UserPage(p) && HasTable(m, PtLoc(r, p))
    && if Ent(m, PtLoc(r, p), p.i1) == ZERO then Unused(m, f) else Ent(m, PtLoc(r, p), p.i1).present
  }

  lemma PutIsStep(m: Space, r: Frame, p: Page, f: Frame, t: Space, states: seq<Space>, events: seq<Event>)
    returns (states': seq<Space>, events': seq<Event>)
    requires CanTake(m, r, p, f) && RunTo(PutAt(m, PtLoc(r, p), p.i1, f), t, states, events)
    ensures RunTo(m, t, states', events')
  {
    states', events' := states, events;
    if Ent(m, PtLoc(r, p), p.i1) == ZERO {
      assert MapsPage(m, PutAt(m, PtLoc(r, p), p.i1, f), r, p, f);
      states', events' := PrependStep(m, Map(r, p, m.mem[f]), PutAt(m, PtLoc(r, p), p.i1, f), t, states, events);
    }
  }

  lemma RenewIsStep(s: Space, r: Frame, i4: nat, i3: nat, x0: nat, i: nat, n: nat, t: Space, states: seq<Space>,
      events: seq<Event>)
    returns (states': seq<Space>, events': seq<Event>)
    requires CanPut(s, PdLoc(r, i4, i3), x0, i, n) && i < n && i4 < 510 && i3 < 512
    requires RunTo(BeforePage(s, PdLoc(r, i4, i3), x0, i, n), t, states, events)
    ensures RunTo(s, t, states', events')
  {
    NextPage(x0, i, n);
    states', events' := states, events;
    if NeedsTable(x0, i) {
      var p := PageOfRange(i4, i3, x0, i);
      RenewIsSound(s, PdLoc(r, i4, i3), PtIndex(x0, i));
      assert PtLoc(r, p).parent == PdLoc(r, i4, i3);
      assert RenewsTable(s, BeforePage(s, PdLoc(r, i4, i3), x0, i, n), r, p);
      states', events' := PrependStep(s, Renew(r, p), BeforePage(s, PdLoc(r, i4, i3), x0, i, n), t, states, events);
    }
  }

  lemma PlaceInWay(r: Frame, i4: nat, i3: nat, x0: nat, i: nat, n: nat) returns (p: Page)
    requires i4 < 510 && i3 < 512 && InRegion(x0, n) && i < n
    ensures p == PageOfRange(i4, i3, x0, i) && UserPage(p)
    ensures Sub(PdLoc(r, i4, i3), PtIndex(x0, i)) == PtLoc(r, p)
  {
    p := PageOfRange(i4, i3, x0, i);
    NextPage(x0, i, n);
  }

  /** The page is put if it was not mapped. */
  lemma PageIsRun(s: Space, m: Space, r: Frame, i4: nat, i3: nat, x0: nat, i: nat, n: nat, p0: nat, t: Space,
      states: seq<Space>, events: seq<Event>)
    returns (states': seq<Space>, events': seq<Event>)
    requires Wf(s) && CanPut(s, PdLoc(r, i4, i3), x0, i, n) && i < n && FrameReady(s, PdLoc(r, i4, i3), x0, i, n, p0)
    requires i4 < 510 && i3 < 512 && m == BeforePage(s, PdLoc(r, i4, i3), x0, i, n)
    requires RunTo(AfterPage(s, PdLoc(r, i4, i3), x0, i, n, p0), t, states, events)
    ensures RunTo(m, t, states', events')
  {
    var p := AfterPageTakes(s, m, r, i4, i3, x0, i, n, p0);
    states', events' := PutIsStep(m, r, p, p0 + i, t, states, events);
  }

  lemma AfterPageTakes(s: Space, m: Space, r: Frame, i4: nat, i3: nat, x0: nat, i: nat, n: nat, p0: nat)
    returns (p: Page)
    requires Wf(s) && CanPut(s, PdLoc(r, i4, i3), x0, i, n) && i < n && FrameReady(s, PdLoc(r, i4, i3), x0, i, n, p0)
    requires i4 < 510 && i3 < 512 && m == BeforePage(s, PdLoc(r, i4, i3), x0, i, n)
    ensures CanTake(m, r, p, p0 + i)
    ensures AfterPage(s, PdLoc(r, i4, i3), x0, i, n, p0) == PutAt(m, PtLoc(r, p), p.i1, p0 + i)
  {
    p := PlaceInWay(r, i4, i3, x0, i, n);
    AfterPageIsPut(s, m, PdLoc(r, i4, i3), x0, i, n, p0, PtLoc(r, p), p.i1, p0 + i);
  }

  /** One round: a new table if the range enters another one, and the page if it was not mapped. */
  lemma RoundIsRun(s: Space, r: Frame, i4: nat, i3: nat, x0: nat, i: nat, n: nat, p0: nat, t: Space,
      states: seq<Space>, events: seq<Event>)
    returns (states': seq<Space>, events': seq<Event>)
    requires Wf(s) && CanPut(s, PdLoc(r, i4, i3), x0, i, n) && i < n && FrameReady(s, PdLoc(r, i4, i3), x0, i, n, p0)
    requires i4 < 510 && i3 < 512 && RunTo(AfterPage(s, PdLoc(r, i4, i3), x0, i, n, p0), t, states, events)
    ensures RunTo(s, t, states', events')
  {
    states', events' := PageIsRun(s, BeforePage(s, PdLoc(r, i4, i3), x0, i, n), r, i4, i3, x0, i, n, p0, t, states,
      events);
    states', events' := RenewIsStep(s, r, i4, i3, x0, i, n, t, states', events');
  }

  lemma AfterPageIsPut(s: Space, m: Space, l: Loc, x0: nat, i: nat, n: nat, p0: nat, k: Loc, u: nat, f: Frame)
    requires Wf(s) && CanPut(s, l, x0, i, n) && i < n && m == BeforePage(s, l, x0, i, n)
    requires FrameReady(s, l, x0, i, n, p0)
    requires k == Sub(l, PtIndex(x0, i)) && u == EntryIndex(x0, i) && f == p0 + i
    ensures HasTable(m, k) && AfterPage(s, l, x0, i, n, p0) == PutAt(m, k, u, f)
    ensures if Ent(m, k, u) == ZERO then Unused(m, f) else Ent(m, k, u).present
  {
    PutIsSound(m, k, u, f);
    BeforePageIsWf(s, l, x0, i, n);
    PresentOfLeaf(m, k, u);
  }

  lemma {:induction false} PagesAreRun(s: Space, r: Frame, i4: nat, i3: nat, x0: nat, i: nat, n: nat, p0: nat, t: Space)
    returns (states: seq<Space>, events: seq<Event>)
    requires i4 < 510 && i3 < 512
    requires CanPut(s, PdLoc(r, i4, i3), x0, i, n) && AllReady(s, PdLoc(r, i4, i3), x0, i, n, p0)
    requires t == PutFrom(s, PdLoc(r, i4, i3), x0, i, n, p0)
    ensures RunTo(s, t, states, events)
    decreases n - i
  {
    if i == n {
      states, events := NoStep(s);
    } else {
      var rest, more := PagesAreRun(AfterPage(s, PdLoc(r, i4, i3), x0, i, n, p0), r, i4, i3, x0, i + 1, n, p0, t);
      states, events := RoundIsRun(s, r, i4, i3, x0, i, n, p0, t, rest, more);
    }
  }

  /** Every page of the range is fine by the time it is put. */
  ghost predicate AllInTime(b: Space, l: Loc, x0: nat, n: nat, p0: nat) {
    forall j: nat {:trigger FineInTime(b, l, x0, p0, j)} | j < n :: FineInTime(b, l, x0, p0, j)
  }

  lemma WayIsOpen(b: Space, s: Space, r: Frame, p: Page, l: Loc, i2: nat)
    requires CanReach(b, r, p) && s == OpenWay(b, r, p) && l == PtLoc(r, p).parent && i2 == p.i2 + 1
    ensures Wf(s) && SameLeaves(b, s) && forall k | k in s.at && k !in b.at :: !Later(l, i2, 512, k)
  {
    WayChangesNoLeaf(b, r, p);
    forall k | k in s.at && k !in b.at ensures !Later(l, i2, 512, k) {
      WayIsNotReplaced(b, r, p, 512, k);
    }
  }

  lemma StartsAtFirstPage(s: Space, l: Loc, x0: nat, n: nat, p0: nat)
    requires Wf(s) && CanPut(s, l, x0, 0, n) && CanRenewAll(s, l, PtIndex(x0, 0) + 1, 0)
    ensures AtPage(s, s, l, x0, 0, n, p0)
  {
    StartIsPutOver(s, l, x0, p0);
  }

  /** A call whose pages are fine in time is a run of the machine: the way is opened, later tables are replaced, and
      every page that was not mapped is mapped. */
  lemma CallIsRun(b: Space, r: Frame, i4: nat, i3: nat, x0: nat, n: nat, p0: nat)
    returns (states: seq<Space>, events: seq<Event>)
    requires CanCall(b, r, i4, i3, x0, n) && AllInTime(b, PdLoc(r, i4, i3), x0, n, p0)
    ensures RunTo(b, AfterCall(b, r, i4, i3, x0, n, p0), states, events)
  {
    var s, t := Way(b, r, i4, i3, x0, n), AfterCall(b, r, i4, i3, x0, n, p0);
    CallReaches(b, r, i4, i3, x0, n);
    WayIsOpen(b, s, r, FirstPage(i4, i3, x0), PdLoc(r, i4, i3), PtIndex(x0, 0) + 1);
    CallIsReady(b, s, PdLoc(r, i4, i3), x0, n, p0);
    var rest, more := PagesAreRun(s, r, i4, i3, x0, 0, n, p0, t);
    OpenIsStep(b, s, r, i4, i3, x0, n);
    states, events := PrependStep(b, Open(r, FirstPage(i4, i3, x0)), s, t, rest, more);
  }

  lemma CallIsReady(b: Space, s: Space, l: Loc, x0: nat, n: nat, p0: nat)
    requires WayOf(b, s, l, x0, n) && CanPut(s, l, x0, 0, n) && AllInTime(b, l, x0, n, p0)
    ensures AllReady(s, l, x0, 0, n, p0)
  {
    forall j: nat | j < n ensures FitsInTime(s, l, x0, p0, j) {
      assert FineInTime(b, l, x0, p0, j);
      FineFitsInTime(b, s, l, x0, n, p0, j);
    }
    StartsAtFirstPage(s, l, x0, n, p0);
    InTimeIsReady(s, s, l, x0, 0, n, p0);
  }

  lemma OpenIsStep(b: Space, s: Space, r: Frame, i4: nat, i3: nat, x0: nat, n: nat)
    requires CanCall(b, r, i4, i3, x0, n) && s == Way(b, r, i4, i3, x0, n)
    ensures Step(b, Open(r, FirstPage(i4, i3, x0)), s)
  {
    CallReaches(b, r, i4, i3, x0, n);
  }
}
