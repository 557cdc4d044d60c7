/**
  What a finished `duplicate_page_table` means: the invariant is kept, and parent and
  child walk to the parent's old frames, read-only and marked copy-on-write.
 */
module ForkMeaning {
  import opened PageEntries
  import opened PageTables
  import opened ForkCopy
  import opened Wrappers

  /** After a fork no page of the parent is the only one on its frame. */
  ghost function Disown(owner: map<Frame, Loc>, r: Frame): map<Frame, Loc> {
    map f | f in owner && RootOf(owner[f]) != r :: owner[f]
  }

  /** `s` is `b` after `duplicate_page_table(r)` returned `c`. */
  ghost predicate Forked(b: Space, s: Space, r: Frame, c: Frame) {
    && Root(r) in b.at && Root(c) !in b.at && s.owner == Disown(b.owner, r)
    && Copying(b, s.(owner := b.owner), r, c, UpTo(Root(r), 510), Kernel(c), Ent(b, Root(r), 511))
  }

  lemma {:induction false} AllVisited(z: Loc, r: Frame)
    requires UserLoc(z) && z.Sub? && RootOf(z) == r
    ensures Before(z, Root(r), 510)
  {
    if z.parent.Sub? {
      AllVisited(z.parent, r);
    }
  }

  lemma {:induction false} VisitedHasRoot(z: Loc, r: Frame, n: nat)
    ensures Before(z, Root(r), n) ==> RootOf(z) == r
  {
    if z.Sub? {
      VisitedHasRoot(z.parent, r, n);
    }
  }

  /** Every nonzero user entry of the parent is marked; entries of other processes are untouched. */
  lemma ParentAfterFork(b: Space, s: Space, r: Frame, c: Frame, l: Loc, i: nat)
    requires Wf(b) && Forked(b, s, r, c) && l in b.at && i < 512
    ensures l in s.at && s.at[l] == b.at[l]
    ensures Ent(s, l, i) == if RootOf(l) == r && i < Width(l)
            && Ent(b, l, i) != ZERO then Mark(Ent(b, l, i)) else Ent(b, l, i)
  {
    var t := s.(owner := b.owner);
    assert ParentEntry(b, t, UpTo(Root(r), 510), l, i);
    assert Ent(t, l, i) == Ent(s, l, i);
    assert LinkOk(b, l);
    VisitedHasRoot(Sub(l, i), r, 510);
    if RootOf(l) == r && i < Width(l) {
      AllVisited(Sub(l, i), r);
    }
  }

  /** The child's copy of each parent entry. */
  lemma ChildAfterFork(b: Space, s: Space, r: Frame, c: Frame, y: Loc, i: nat)
    requires Wf(b) && Forked(b, s, r, c) && y in s.at && y !in b.at && i < Width(y)
    ensures RootOf(y) == c && Rebase(y, r) in b.at && Depth(Rebase(y, r)) == Depth(y)
    ensures RootOf(Rebase(y, r)) == r && Rebase(Rebase(y, r), c) == y && Width(Rebase(y, r)) == Width(y)
    ensures var src := Ent(b, Rebase(y, r), i);
      && (Sub(y, i) in s.at <==> src != ZERO && Depth(y) < 3)
      && Ent(s, y, i) == if src == ZERO then ZERO
                         else if Depth(y) < 3 then Share(Base(s.at[Sub(y, i)]))
                         else Share(Mark(src))
  {
    var t := s.(owner := b.owner);
    var done := UpTo(Root(r), 510);
    assert TwinPlace(b, t, r, c, done, y);
    assert TwinEntry(b, t, r, done, y, i);
    assert Ent(t, y, i) == Ent(s, y, i);
    RebaseFacts(y, r);
    assert LinkOk(b, Rebase(y, r));
    AllVisited(Sub(Rebase(y, r), i), r);
  }

  /** The parent of a new table is a new table. */
  lemma ChildPlace(b: Space, s: Space, r: Frame, c: Frame, y: Loc)
    requires Wf(b) && Forked(b, s, r, c) && y in s.at && y !in b.at
    ensures Depth(y) <= 3 && UserLoc(y) && (y.Root? ==> s.at[y] == y.pml4)
    ensures y.Sub? ==>
              y.parent in s.at && y.parent !in b.at && y.index < Width(y.parent) && Ent(s, y.parent, y.index) != ZERO
  {
    var t := s.(owner := b.owner);
    assert TwinPlace(b, t, r, c, UpTo(Root(r), 510), y);
    RebaseFacts(y, r);
    assert LinkOk(b, Rebase(y, r));
    UserRebase(Rebase(y, r), c);
    NoForeignTables(b, c);
    if y.Sub? {
      assert RootOf(y.parent) == c;
      RebaseFacts(y.parent, r);
      ChildAfterFork(b, s, r, c, y.parent, y.index);
    }
  }

  lemma {:induction false} UserRebase(l: Loc, c: Frame)
    requires UserLoc(l)
    ensures UserLoc(Rebase(l, c))
  {
    if l.Sub? {
      UserRebase(l.parent, c);
      RebaseFacts(l.parent, c);
    }
  }

  // ---------------------------------------------------------------------------
  // The invariant survives

  lemma {:induction false} CowAtTop(b: Space, s: Space, r: Frame, c: Frame, z: Loc)
    requires Wf(b) && Forked(b, s, r, c) && z.Sub? && z.parent in b.at && UserLoc(z)
    requires RootOf(z) == r ==> Ent(b, z.parent, z.index) != ZERO
    ensures if RootOf(z) == r then TopCow(s, z) else TopCow(s, z) == TopCow(b, z)
  {
    ParentAfterFork(b, s, r, c, z.parent, z.index);
    if z.parent.Sub? {
      assert LinkOk(b, z.parent);
      CowAtTop(b, s, r, c, z.parent);
    }
  }

  lemma {:induction false} CowAtTopOfChild(b: Space, s: Space, r: Frame, c: Frame, z: Loc)
    requires Wf(b) && Forked(b, s, r, c) && z.Sub? && z.parent in s.at && z.parent !in b.at
    requires z.index < Width(z.parent) && Ent(s, z.parent, z.index) != ZERO
    ensures TopCow(s, z)
  {
    ChildAfterFork(b, s, r, c, z.parent, z.index);
    if z.parent.Sub? {
      ChildPlace(b, s, r, c, z.parent);
      CowAtTopOfChild(b, s, r, c, z.parent);
    }
  }

  lemma DataFrameStaysData(b: Space, s: Space, r: Frame, c: Frame, f: Frame)
    requires Wf(b) && Forked(b, s, r, c) && f in b.mem && f !in b.loc && f !in b.free
    ensures f in s.mem && f !in s.loc && f !in s.free && s.mem[f] == b.mem[f]
  {
  }

  lemma OldEntryOk(b: Space, s: Space, r: Frame, c: Frame, l: Loc, i: nat)
    requires Wf(b) && Forked(b, s, r, c) && l in b.at && i < Width(l) && Ent(s, l, i) != ZERO
    ensures EntryOk(s, l, i)
  {
    ParentAfterFork(b, s, r, c, l, i);
    assert EntryOk(b, l, i) && LinkOk(b, l);
    CowAtTop(b, s, r, c, Sub(l, i));
    if Depth(l) < 3 {
      ParentAfterFork(b, s, r, c, Sub(l, i), 0);
    } else {
      DataFrameStaysData(b, s, r, c, Ent(b, l, i).frame);
    }
  }

  lemma NewEntryOk(b: Space, s: Space, r: Frame, c: Frame, y: Loc, i: nat)
    requires Wf(b) && Forked(b, s, r, c) && y in s.at && y !in b.at && i < Width(y) && Ent(s, y, i) != ZERO
    ensures EntryOk(s, y, i)
  {
    ChildAfterFork(b, s, r, c, y, i);
    assert EntryOk(b, Rebase(y, r), i);
    CowAtTopOfChild(b, s, r, c, Sub(y, i));
    if Depth(y) == 3 {
      DataFrameStaysData(b, s, r, c, Ent(b, Rebase(y, r), i).frame);
    }
  }

  lemma ForkKeepsWf(b: Space, s: Space, r: Frame, c: Frame)
    requires Wf(b) && Forked(b, s, r, c)
    ensures Wf(s)
  {
    forall l | l in s.at ensures LinkOk(s, l) {
      if l in b.at {
        assert LinkOk(b, l);
        if l.Sub? {
          ParentAfterFork(b, s, r, c, l.parent, l.index);
        }
      } else {
        ChildPlace(b, s, r, c, l);
      }
    }
    forall l, i: nat | l in s.at && i < Width(l) && Ent(s, l, i) != ZERO ensures EntryOk(s, l, i) {
      if l in b.at {
        OldEntryOk(b, s, r, c, l, i);
      } else {
        NewEntryOk(b, s, r, c, l, i);
      }
    }
  }

  // ---------------------------------------------------------------------------
  // Walks after a fork

  lemma {:induction false} EveryTableCopied(b: Space, s: Space, r: Frame, c: Frame, l: Loc)
    requires Wf(b) && Forked(b, s, r, c) && l in b.at && RootOf(l) == r
    ensures Rebase(l, c) in s.at && Rebase(l, c) !in b.at
  {
    RebaseFacts(l, c);
    NoForeignTables(b, c);
    if l.Sub? {
      assert LinkOk(b, l);
      EveryTableCopied(b, s, r, c, l.parent);
      RebaseFacts(l.parent, c);
      ChildAfterFork(b, s, r, c, Rebase(l.parent, c), l.index);
    }
  }

  /** Slot 510 of the child leads to its own PML4. */
  lemma SlotLeadsBack(b: Space, s: Space, r: Frame, c: Frame)
    requires Wf(b) && Forked(b, s, r, c)
    ensures FrameAt(s.mem, Sub(Root(c), 510)) == Some(c)
  {
    EveryTableCopied(b, s, r, c, Root(r));
    assert TwinPlace(b, s.(owner := b.owner), r, c, UpTo(Root(r), 510), Root(c));
    assert Ent(s, Root(c), 510) == Kernel(c);
  }

  /** A fork takes exactly one frame for each table of the parent, all of them free before and
      in no other tree, and the child's tree has the shape of the parent's. */
  lemma ForkCopiesTheTree(b: Space, s: Space, r: Frame, c: Frame)
    requires Wf(b) && Forked(b, s, r, c)
    ensures |s.free| == |b.free| - |Tables(b, r)|
    ensures s.free == b.free[|b.free| - |s.free|..]
    ensures forall l | l in b.at && RootOf(l) == r :: Rebase(l, c) in s.at
    ensures forall y | y in s.at && y !in b.at ::
              RootOf(y) == c && Rebase(y, r) in b.at && s.at[y] in b.free && s.at[y] !in b.loc
    ensures Ent(s, Root(c), 511) == Ent(b, Root(r), 511) && Ent(s, Root(c), 510) == Kernel(c)
    ensures FrameAt(s.mem, Sub(Root(c), 510)) == Some(c)
    ensures Ent(s, Root(r), 511) == Ent(b, Root(r), 511) && Ent(s, Root(r), 510) == Ent(b, Root(r), 510)
  {
    var t := s.(owner := b.owner);
    forall l | l in b.at && RootOf(l) == r ensures Rebase(l, c) in s.at {
      EveryTableCopied(b, s, r, c, l);
    }
    assert Copied(b, t, r, c) == Tables(b, r);
    forall y | y in s.at && y !in b.at
      ensures RootOf(y) == c && Rebase(y, r) in b.at && s.at[y] in b.free && s.at[y] !in b.loc
    {
      ChildAfterFork(b, s, r, c, y, 0);
      NewTableFrame(b, t, y);
    }
    assert Ent(s, Root(c), 511) == Ent(t, Root(c), 511) && Ent(s, Root(c), 510) == Ent(t, Root(c), 510);
    SlotLeadsBack(b, s, r, c);
    if Root(r) in b.at {
      ParentAfterFork(b, s, r, c, Root(r), 510);
      ParentAfterFork(b, s, r, c, Root(r), 511);
    }
  }

  /** What fork writes, level by level: a used entry of the parent loses its write permission and is marked; the
      child's is present, read-only, for user code and marked, and leads to the copy of the table or to the same
      page. */
  lemma ForkMarksEveryLevel(b: Space, s: Space, r: Frame, c: Frame, l: Loc, i: nat)
    requires Wf(b) && Forked(b, s, r, c) && l in b.at && RootOf(l) == r && i < Width(l)
    ensures var e, y := Ent(b, l, i), Rebase(l, c);
      && y in s.at && (Sub(y, i) in s.at <==> Sub(l, i) in b.at)
      && Ent(s, l, i) == (if e == ZERO then ZERO else Word(e.frame, true, false, true, true, e.rest))
      && Ent(s, y, i) == if e == ZERO then ZERO
                         else if Sub(l, i) in b.at then Word(s.at[Sub(y, i)], true, false, true, true, 0)
                         else Word(e.frame, true, false, true, true, e.rest)
  {
    var y := Rebase(l, c);
    EveryTableCopied(b, s, r, c, l);
    RebaseFacts(l, c);
    RebaseFacts(y, r);
    ParentAfterFork(b, s, r, c, l, i);
    ChildAfterFork(b, s, r, c, y, i);
    if Ent(b, l, i) != ZERO {
      assert EntryOk(b, l, i);
    }
    assert Sub(l, i) in b.at ==> LinkOk(b, Sub(l, i));
  }

  /** The leaf entries of parent and child. */
  lemma ForkLeaves(b: Space, s: Space, r: Frame, c: Frame, p: Page)
    requires Wf(b) && Forked(b, s, r, c) && Root(r) in b.at && UserPage(p)
    ensures var e := Ent(b, PtLoc(r, p), p.i1);
      if e == ZERO then Ent(s, PtLoc(r, p), p.i1) == ZERO && Ent(s, PtLoc(c, p), p.i1) == ZERO
      else Ent(s, PtLoc(r, p), p.i1) == Mark(e) && Ent(s, PtLoc(c, p), p.i1) == Share(Mark(e))
  {
    var l := PtLoc(r, p);
    var y := PtLoc(c, p);
    PtLocFacts(r, p);
    PtLocFacts(c, p);
    RebaseFacts(l, c);
    PtLocRebase(r, c, p);
    NoForeignTables(b, c);
    if l in b.at {
      EveryTableCopied(b, s, r, c, l);
      ParentAfterFork(b, s, r, c, l, p.i1);
      ChildAfterFork(b, s, r, c, y, p.i1);
    } else {
      if y in s.at {
        ChildAfterFork(b, s, r, c, y, p.i1);
      }
      if l in s.at {
        ChildAfterFork(b, s, r, c, l, p.i1);
        RootIsPresent(b, Rebase(l, r));
      }
    }
  }

  lemma PtLocRebase(r: Frame, c: Frame, p: Page)
    ensures Rebase(PtLoc(r, p), c) == PtLoc(c, p)
  {
    assert Rebase(Sub(Root(r), p.i4), c) == Sub(Root(c), p.i4);
    assert Rebase(Sub(Sub(Root(r), p.i4), p.i3), c) == Sub(Sub(Root(c), p.i4), p.i3);
  }

  /** Parent and child walk to the frame the parent walked to before; neither may write there, and
      a write fault on it passes the copy-on-write test of the fault handler. */
  lemma ForkSharesEveryPage(b: Space, s: Space, r: Frame, c: Frame, p: Page)
    requires Wf(b) && Forked(b, s, r, c) && Root(r) in b.at && UserPage(p)
    ensures FrameAt(s.mem, PageLoc(r, p)) == FrameAt(b.mem, PageLoc(r, p))
    ensures FrameAt(s.mem, PageLoc(c, p)) == FrameAt(b.mem, PageLoc(r, p))
    ensures !WritableAt(s.mem, PageLoc(r, p)) && !WritableAt(s.mem, PageLoc(c, p))
    ensures FrameAt(b.mem, PageLoc(r, p)).Some? ==>
              && Ent(s, PtLoc(r, p), p.i1).cow && Ent(s, PtLoc(c, p), p.i1).cow
              && Ent(s, Root(r), p.i4).cow && Ent(s, Root(c), p.i4).cow
  {
    ForkKeepsWf(b, s, r, c);
    ForkLeaves(b, s, r, c, p);
    WalkToPage(b, r, p);
    WalkToPage(s, r, p);
    WalkToPage(s, c, p);
    PtLocFacts(r, p);
    PtLocFacts(c, p);
    WalkFollowsTree(s, PtLoc(r, p));
    WalkFollowsTree(s, PtLoc(c, p));
    if Ent(b, PtLoc(r, p), p.i1) != ZERO {
      assert EntryOk(s, PtLoc(r, p), p.i1) && EntryOk(s, PtLoc(c, p), p.i1);
      TopCowIsRootEntry(s, r, p);
      TopCowIsRootEntry(s, c, p);
    }
  }

  lemma TopCowIsRootEntry(s: Space, r: Frame, p: Page)
    ensures TopCow(s, PageLoc(r, p)) == Ent(s, Root(r), p.i4).cow
  {
    assert TopCow(s, PageLoc(r, p)) == TopCow(s, PtLoc(r, p));
    assert TopCow(s, PtLoc(r, p)) == TopCow(s, Sub(Sub(Root(r), p.i4), p.i3));
    assert TopCow(s, Sub(Sub(Root(r), p.i4), p.i3)) == TopCow(s, Sub(Root(r), p.i4));
  }

  /** Two tables of entries that agree on a process give the same walks in it. */
  lemma {:induction false} SameWalk(b: Space, s: Space, l: Loc)
    requires Wf(b) && Wf(s) && UserLoc(l) && Depth(l) <= 4 && Root(RootOf(l)) in b.at
    requires forall k | k in b.at && RootOf(k) == RootOf(l) :: k in s.at && s.at[k] == b.at[k]
    requires forall k, i: nat {:trigger Ent(s, k, i)} | k in b.at && RootOf(k) == RootOf(l)
             && i < 512 :: Ent(s, k, i) == Ent(b, k, i)
    ensures FrameAt(s.mem, l) == FrameAt(b.mem, l) && WritableAt(s.mem, l) == WritableAt(b.mem, l)
  {
    if l.Sub? {
      SameWalk(b, s, l.parent);
      WalkFollowsTree(b, l.parent);
      if l.parent in b.at {
        assert Ent(s, l.parent, l.index) == Ent(b, l.parent, l.index);
        assert Ent(b, l.parent, l.index) == b.mem[b.at[l.parent]][l.index];
        assert Ent(s, l.parent, l.index) == s.mem[s.at[l.parent]][l.index];
      }
    }
  }

  /** A fork is invisible to every other process. */
  lemma ForkLeavesOthers(b: Space, s: Space, r: Frame, c: Frame, q: Frame, p: Page)
    requires Wf(b) && Forked(b, s, r, c) && Root(q) in b.at && q != r && UserPage(p)
    ensures FrameAt(s.mem, PageLoc(q, p)) == FrameAt(b.mem, PageLoc(q, p))
    ensures WritableAt(s.mem, PageLoc(q, p)) == WritableAt(b.mem, PageLoc(q, p))
  {
    ForkKeepsWf(b, s, r, c);
    PtLocFacts(q, p);
    forall k, i: nat | k in b.at && RootOf(k) == q && i < 512
      ensures k in s.at && s.at[k] == b.at[k] && Ent(s, k, i) == Ent(b, k, i)
    {
      ParentAfterFork(b, s, r, c, k, i);
    }
    SameWalk(b, s, PageLoc(q, p));
  }
}
