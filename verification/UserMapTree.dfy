/**
  `map_user_address` among all processes: outside of the gigabyte it maps nothing changes, and the
  exact condition under which it disturbs no page of anybody.
 */
module UserMapTree {
  import opened PageEntries
  import opened PageTables
  import opened BootMap
  import opened UserMap
  import opened Wrappers

  /** The path to `l` passes through `a`, or ends there. */
  ghost predicate Through(l: Loc, a: Loc) {
    l == a || (l.Sub? && Through(l.parent, a))
  }

  function PdptLoc(root: Frame, i4: nat): Loc {
    Sub(Root(root), i4)
  }

  function PdLoc(root: Frame, i4: nat, i3: nat): Loc {
    Sub(PdptLoc(root, i4), i3)
  }

  // ---------------------------------------------------------------------------
  // The invariant gives what the method needs

  lemma EntryLeads(b: Space, l: Loc, i: nat)
    requires Wf(b) && l in b.at && Depth(l) < 3 && i < Width(l)
    ensures b.at[l] in b.mem && |b.mem[b.at[l]]| == 512
    ensures b.mem[b.at[l]][i].present <==> Sub(l, i) in b.at
    ensures Sub(l, i) in b.at ==> b.at[Sub(l, i)] == b.mem[b.at[l]][i].frame
  {
    assert Ent(b, l, i) == b.mem[b.at[l]][i];
    assert Ent(b, l, i) != ZERO ==> EntryOk(b, l, i);
    assert Sub(l, i) in b.at ==> LinkOk(b, Sub(l, i));
  }

  lemma SpareFrame(b: Space, l: Loc, f: Frame)
    requires Wf(b) && l in b.at && Depth(l) == 2 && f in b.mem && f != b.at[l]
    requires f in b.loc ==> Depth(b.loc[f]) < 3
    ensures b.at[l] in b.mem && |b.mem[b.at[l]]| == 512 && Spare(b.mem, b.at[l], f)
  {
    assert LinkOk(b, l);
    forall j | 0 <= j < 512 && b.mem[b.at[l]][j].present ensures b.mem[b.at[l]][j].frame != f {
      EntryLeads(b, l, j);
      assert Depth(Sub(l, j)) == 3;
    }
  }

  lemma DirectoryOfTree(b: Space, l: Loc)
    requires Wf(b) && l in b.at && Depth(l) == 2
    ensures DirectoryOk(b.mem, b.at[l]) && FreeOk(b.mem, b.at[l], b.free)
  {
    EntryLeads(b, l, 0);
    forall j | 0 <= j < 512 && b.mem[b.at[l]][j].present
      ensures PtOk(b.mem, b.at[l], b.mem[b.at[l]][j].frame) && Sub(l, j) in b.at
      ensures b.at[Sub(l, j)] == b.mem[b.at[l]][j].frame
    {
      EntryLeads(b, l, j);
      assert l != Sub(l, j) by {
        assert Depth(Sub(l, j)) == 3;
      }
    }
    forall i | 0 <= i < |b.free| ensures Spare(b.mem, b.at[l], b.free[i]) {
      SpareFrame(b, l, b.free[i]);
    }
  }

  /** A process of the invariant meets the precondition of the mapping. */
  lemma TreeIsRegionOk(b: Space, root: Frame, i4: nat, i3: nat)
    requires Wf(b) && Root(root) in b.at && i4 < 510 && i3 < 512
    ensures RegionOk(b.mem, root, i4, i3, b.free)
  {
    var l0, l1, l2 := Root(root), PdptLoc(root, i4), PdLoc(root, i4, i3);
    assert LinkOk(b, l0);
    EntryLeads(b, l0, i4);
    if l1 in b.at {
      EntryLeads(b, l1, i3);
      assert Depth(l1) == 1;
      if l2 in b.at {
        assert Depth(l2) == 2;
        DirectoryOfTree(b, l2);
        SpareFrame(b, l2, b.at[l0]);
        SpareFrame(b, l2, b.at[l1]);
      }
    }
  }

  // ---------------------------------------------------------------------------
  // What changes

  /** What `UserMapper.MapUserAddress` promises, the memory and the queue being those of `b`. */
  ghost predicate MapsRange(b: Space, m': Memory, root: Frame, v0: nat, n: nat, p0: nat, p: Frame, pd: Frame,
      pt: Frame) {
    exists free' :: RangeMapped(b.mem, b.free, m', free', root, v0, n, p0, p, pd, pt)
  }

  /** The range starts in the user half of a process and stays within its gigabyte. */
  ghost predicate Target(b: Space, root: Frame, v0: nat, n: nat) {
    Wf(b) && Root(root) in b.at && UserPage(Digits(v0)) && v0 % REGION + n <= REGION
  }

  ghost predicate IsOrFree(b: Space, l: Loc, t: Frame) {
    t in b.free || (l in b.at && b.at[l] == t)
  }

  lemma TableOnPath(b: Space, m': Memory, dir: Frame, l: Loc, i: nat, t: Frame)
    requires Wf(b) && IsOrFree(b, l, dir) && Depth(l) < 3 && i < Width(l) && Entered(b.mem, m', b.free, dir, i, t)
    ensures IsOrFree(b, Sub(l, i), t)
  {
    if dir !in b.free {
      EntryLeads(b, l, i);
    }
  }

  /** The tables of the path are those of the tree, or were free. */
  lemma WayTables(b: Space, m': Memory, root: Frame, v0: nat, n: nat, p0: nat, p: Frame, pd: Frame, pt: Frame)
    requires Target(b, root, v0, n) && MapsRange(b, m', root, v0, n, p0, p, pd, pt)
    ensures IsOrFree(b, PdptLoc(root, Digits(v0).i4), p) && IsOrFree(b, PdLoc(root, Digits(v0).i4, Digits(v0).i3), pd)
    ensures IsOrFree(b, PtLoc(root, Digits(v0)), pt)
  {
    var d := Digits(v0);
    assert LinkOk(b, Root(root));
    TableOnPath(b, m', root, Root(root), d.i4, p);
    assert Depth(PdptLoc(root, d.i4)) == 1;
    TableOnPath(b, m', p, PdptLoc(root, d.i4), d.i3, pd);
    assert Depth(PdLoc(root, d.i4, d.i3)) == 2;
    TableOnPath(b, m', pd, PdLoc(root, d.i4, d.i3), d.i2, pt);
  }

  /** A frame that is neither free nor a table of the path is as it was. */
  lemma FrameIsKept(b: Space, m': Memory, root: Frame, v0: nat, n: nat, p0: nat, p: Frame, pd: Frame, pt: Frame,
      f: Frame)
    requires Target(b, root, v0, n) && MapsRange(b, m', root, v0, n, p0, p, pd, pt) && f in b.mem && f !in b.free
    requires f in b.loc ==>
      b.loc[f] != Root(root) && b.loc[f] != PdptLoc(root, Digits(v0).i4)
          && !Through(b.loc[f], PdLoc(root, Digits(v0).i4, Digits(v0).i3))
    ensures f in m' && m'[f] == b.mem[f]
  {
    var d := Digits(v0);
    WayTables(b, m', root, v0, n, p0, p, pd, pt);
    assert LinkOk(b, Root(root));
    assert Through(PdLoc(root, d.i4, d.i3), PdLoc(root, d.i4, d.i3));
    assert Through(PtLoc(root, d), PdLoc(root, d.i4, d.i3));
    assert f !in {root, p, pd, pt} + Elements(b.free);
  }

  /** Every walk that does not enter the gigabyte ends where it ended. */
  lemma {:induction false} WalkElsewhere(b: Space, m': Memory, root: Frame, v0: nat, n: nat, p0: nat, p: Frame,
      pd: Frame, pt: Frame, l: Loc)
    requires Target(b, root, v0, n) && MapsRange(b, m', root, v0, n, p0, p, pd, pt)
    requires Root(RootOf(l)) in b.at && UserLoc(l) && Depth(l) <= 4 && l != PdptLoc(root, Digits(v0).i4)
    requires !Through(l, PdLoc(root, Digits(v0).i4, Digits(v0).i3))
    ensures FrameAt(m', l) == FrameAt(b.mem, l)
    decreases l
  {
    var d := Digits(v0);
    if l.Sub? {
      if l.parent == PdptLoc(root, d.i4) {
        BelowPdpt(b, m', root, v0, n, p0, p, pd, pt, l.index);
      } else {
        WalkElsewhere(b, m', root, v0, n, p0, p, pd, pt, l.parent);
        StepElsewhere(b, m', root, v0, n, p0, p, pd, pt, l);
      }
    }
  }

  /** Another entry of the PDPT: of the one that was there, or of a new one, which is empty. */
  lemma BelowPdpt(b: Space, m': Memory, root: Frame, v0: nat, n: nat, p0: nat, p: Frame, pd: Frame, pt: Frame, i: nat)
    requires Target(b, root, v0, n) && MapsRange(b, m', root, v0, n, p0, p, pd, pt) && i < 512 && i != Digits(v0).i3
    ensures FrameAt(m', PdLoc(root, Digits(v0).i4, i)) == FrameAt(b.mem, PdLoc(root, Digits(v0).i4, i))
  {
    var d := Digits(v0);
    assert LinkOk(b, Root(root));
    EntryLeads(b, Root(root), d.i4);
    assert FrameAt(m', PdptLoc(root, d.i4)) == Follow(m', Some(root), d.i4) == Some(p);
    assert FrameAt(b.mem, PdptLoc(root, d.i4)) == Follow(b.mem, Some(root), d.i4);
    assert m'[p][i] == Row(b.mem, b.free, p)[i];
  }

  lemma StepElsewhere(b: Space, m': Memory, root: Frame, v0: nat, n: nat, p0: nat, p: Frame, pd: Frame, pt: Frame,
      l: Loc)
    requires Target(b, root, v0, n) && MapsRange(b, m', root, v0, n, p0, p, pd, pt)
    requires Root(RootOf(l)) in b.at && UserLoc(l) && Depth(l) <= 4 && l != PdptLoc(root, Digits(v0).i4)
    requires !Through(l, PdLoc(root, Digits(v0).i4, Digits(v0).i3))
    requires l.Sub? && l.parent != PdptLoc(root, Digits(v0).i4)
    requires FrameAt(m', l.parent) == FrameAt(b.mem, l.parent)
    ensures FrameAt(m', l) == FrameAt(b.mem, l)
  {
    WalkFollowsTree(b, l.parent);
    if l.parent in b.at && l.parent != Root(root) {
      FrameIsKept(b, m', root, v0, n, p0, p, pd, pt, b.at[l.parent]);
    }
    assert LinkOk(b, Root(root));
  }

  /** No other process, and no other gigabyte, sees the mapping, and no page that was mapped loses its content. */
  lemma OthersKeepTheirPages(b: Space, m': Memory, root: Frame, v0: nat, n: nat, p0: nat, p: Frame, pd: Frame,
      pt: Frame, q: Frame, v: nat)
    requires Target(b, root, v0, n) && MapsRange(b, m', root, v0, n, p0, p, pd, pt)
    requires Root(q) in b.at && UserPage(Digits(v))
    ensures q != root || v / REGION != v0 / REGION ==> Walk(m', q, v) == Walk(b.mem, q, v)
    ensures Walk(b.mem, q, v).Some? ==>
              && Walk(b.mem, q, v).value in b.mem && Walk(b.mem, q, v).value in m'
              && m'[Walk(b.mem, q, v).value] == b.mem[Walk(b.mem, q, v).value]
  {
    var l, u, d := PageLoc(q, Digits(v)), Digits(v), Digits(v0);
    PtLocFacts(q, u);
    WalkToPage(b, q, u);
    if q != root || v / REGION != v0 / REGION {
      Gigabyte(v, v0);
      assert !Through(l, PdLoc(root, d.i4, d.i3)) by {
        OffThePath(root, d, q, u);
      }
      WalkElsewhere(b, m', root, v0, n, p0, p, pd, pt, l);
    }
    if Walk(b.mem, q, v).Some? {
      assert EntryOk(b, l.parent, l.index);
      FrameIsKept(b, m', root, v0, n, p0, p, pd, pt, Walk(b.mem, q, v).value);
    }
  }

  lemma OffThePath(root: Frame, d: Page, q: Frame, u: Page)
    requires (q, u.i4, u.i3) != (root, d.i4, d.i3)
    ensures !Through(PageLoc(q, u), PdLoc(root, d.i4, d.i3))
  {
    var l3 := Sub(Root(q), u.i4);
    var l2 := Sub(l3, u.i3);
    assert !Through(l3, PdLoc(root, d.i4, d.i3)) by {
      assert !Through(Root(q), PdLoc(root, d.i4, d.i3));
    }
    assert !Through(l2, PdLoc(root, d.i4, d.i3));
    assert !Through(Sub(l2, u.i2), PdLoc(root, d.i4, d.i3));
  }

  lemma Gigabyte(v: nat, v0: nat)
    ensures v / REGION == v0 / REGION <==> Digits(v).i4 == Digits(v0).i4 && Digits(v).i3 == Digits(v0).i3
    ensures v / REGION == v0 / REGION ==> v - v0 == v % REGION - v0 % REGION
  {
    RegionDigits(v);
    RegionDigits(v0);
  }

  // ---------------------------------------------------------------------------
  // Who is disturbed

  /** A page that was mapped, or is not of the range, leads where it led. */
  ghost predicate KeepsPage(m: Memory, m': Memory, root: Frame, v0: nat, n: nat, q: Frame, v: nat) {
    Walk(m, q, v).Some? || q != root || !(v0 <= v < v0 + n) ==> Walk(m', q, v) == Walk(m, q, v)
  }

  /** No page of any process is remapped, and none outside of the range is mapped or unmapped. */
  ghost predicate DisturbsNobody(b: Space, m': Memory, root: Frame, v0: nat, n: nat) {
    forall q: Frame, v: nat {:trigger KeepsPage(b.mem, m', root, v0, n, q, v)} |
      Root(q) in b.at && UserPage(Digits(v)) ::
      KeepsPage(b.mem, m', root, v0, n, q, v)
  }

  lemma KeptInRegion(b: Space, m': Memory, root: Frame, v0: nat, n: nat, v: nat)
    requires v0 % REGION + n <= REGION && v / REGION == v0 / REGION
    ensures KeepsPage(b.mem, m', root, v0, n, root, v) <==>
            Kept(b.mem, m', root, Digits(v0).i4, Digits(v0).i3, v0 % REGION, n, v % REGION)
  {
    Gigabyte(v, v0);
    RegionIsWalk(b.mem, root, v);
    RegionIsWalk(m', root, v);
  }

  /** After the mapping every page of the range is mapped.  Nothing else has changed, in any process, exactly when every
      page behind the first table, up to the last one of the range, was unmapped or already led to where the range
      puts it. */
  lemma MappingDisturbsNobody(b: Space, m': Memory, root: Frame, v0: nat, n: nat, p0: nat, p: Frame, pd: Frame,
      pt: Frame)
    requires Target(b, root, v0, n) && MapsRange(b, m', root, v0, n, p0, p, pd, pt)
    ensures forall v: nat {:trigger Walk(m', root, v)} | v0 <= v < v0 + n :: Walk(m', root, v).Some?
    ensures DisturbsNobody(b, m', root, v0, n) <==>
            Behind(b.mem, root, Digits(v0).i4, Digits(v0).i3, v0 % REGION, n, p0)
  {
    var i4, i3, x0 := Digits(v0).i4, Digits(v0).i3, v0 % REGION;
    RangeIsMapped(b.mem, m', root, i4, i3, x0, n, p0);
    forall v: nat | v0 <= v < v0 + n ensures Walk(m', root, v).Some? {
      StaysInGigabyte(v, v0, n);
      RegionIsWalk(m', root, v);
    }
    if DisturbsNobody(b, m', root, v0, n) {
      forall x: nat | x < REGION ensures Kept(b.mem, m', root, i4, i3, x0, n, x) {
        var v := PageOfRegion(v0, x);
        assert KeepsPage(b.mem, m', root, v0, n, root, v);
        KeptInRegion(b, m', root, v0, n, v);
      }
    }
    if Undisturbed(b.mem, m', root, i4, i3, x0, n) {
      forall q: Frame, v: nat | Root(q) in b.at && UserPage(Digits(v)) ensures KeepsPage(b.mem, m', root, v0, n, q, v) {
        OthersKeepTheirPages(b, m', root, v0, n, p0, p, pd, pt, q, v);
        if q == root && v / REGION == v0 / REGION {
          assert Kept(b.mem, m', root, i4, i3, x0, n, v % REGION);
          KeptInRegion(b, m', root, v0, n, v);
        }
      }
    }
  }

  lemma StaysInGigabyte(v: nat, v0: nat, n: nat)
    requires v0 <= v < v0 + n && v0 % REGION + n <= REGION
    ensures v / REGION == v0 / REGION && v % REGION == v0 % REGION + (v - v0)
    ensures Digits(v).i4 == Digits(v0).i4 && Digits(v).i3 == Digits(v0).i3
  {
    assert v == REGION * (v0 / REGION) + (v0 % REGION + (v - v0));
    Gigabyte(v, v0);
  }

  lemma PageOfRegion(v0: nat, x: nat) returns (v: nat)
    requires x < REGION && UserPage(Digits(v0))
    ensures v / REGION == v0 / REGION && v % REGION == x && UserPage(Digits(v))
  {
    v := REGION * (v0 / REGION) + x;
    Gigabyte(v, v0);
  }
}
