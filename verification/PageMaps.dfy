/**
  Mapping a frame for a process: opening the tables on the way, and the exact condition under
  which the new entry keeps the invariant.
 */
module PageMaps {
  import opened PageEntries
  import opened PageTables
  import opened UserMap

  // ---------------------------------------------------------------------------
  // A table on the way

  /** The first free frame, emptied, becomes the table below entry `i` of `l`. */
  ghost function NewTable(b: Space, l: Loc, i: nat): Space
    requires l in b.at && b.at[l] in b.mem && i < |b.mem[b.at[l]]| && b.free != []
  {
    b.(mem := WithPt(b.mem, b.at[l], i, b.free[0]), free := b.free[1..], at := b.at[Sub(l, i) := b.free[0]],
       loc := b.loc[b.free[0] := Sub(l, i)])
  }

  /** A directory of the tree whose entry `i` can be opened. */
  ghost predicate CanOpen(b: Space, l: Loc, i: nat) {
    Wf(b) && l in b.at && Depth(l) < 3 && i < Width(l) && (Ent(b, l, i).present || b.free != [])
  }

  ghost function OpenAt(b: Space, l: Loc, i: nat): Space
    requires CanOpen(b, l, i)
  {
    if Ent(b, l, i).present then b else NewTable(b, l, i)
  }

  /** What opening does to the entries: at most one new table, which is empty. */
  ghost predicate OpenedTo(b: Space, s: Space, l: Loc, i: nat) {
    && Sub(l, i) in s.at && (forall k | k in b.at :: k in s.at && s.at[k] == b.at[k])
    && (forall k | k in s.at :: k in b.at || k == Sub(l, i))
    && (forall k, j: nat {:trigger Ent(s, k, j)} :: (k, j) != (l, i) ==> Ent(s, k, j) == Ent(b, k, j))
    && (Ent(b, l, i) != ZERO ==> Ent(s, l, i) == Ent(b, l, i))
    && s.owner == b.owner && s.mem.Keys == b.mem.Keys
    && s.free == (if Sub(l, i) in b.at || b.free == [] then b.free else b.free[1..])
    && (forall f {:trigger f in s.loc} :: f in b.loc ==> f in s.loc)
    && (forall f {:trigger f in s.loc} :: f !in b.loc ==> (f in s.loc <==> f in b.free && f !in s.free))
    && (forall f {:trigger s.mem[f]} | f in b.mem && f !in b.loc && f !in b.free :: s.mem[f] == b.mem[f])
  }

  lemma NewTableFacts(b: Space, l: Loc, i: nat)
    requires CanOpen(b, l, i) && Ent(b, l, i) == ZERO
    ensures b.free != [] && Sub(l, i) !in b.at && b.free[0] in b.mem && b.free[0] !in b.loc && b.at[l] != b.free[0]
    ensures forall f :: f in b.free <==> f == b.free[0] || f in b.free[1..]
    ensures b.free[0] !in b.free[1..]
    ensures b.at[l] in b.mem && |b.mem[b.at[l]]| == 512
    ensures var s := NewTable(b, l, i);
      && Ent(s, l, i) == User(b.free[0]) && (forall j: nat :: Ent(s, Sub(l, i), j) == ZERO)
      && (forall k, j: nat {:trigger Ent(s, k, j)} :: (k, j) != (l, i) ==> Ent(s, k, j) == Ent(b, k, j))
  {
    assert Sub(l, i) in b.at ==> LinkOk(b, Sub(l, i));
    var s := NewTable(b, l, i);
    forall k, j: nat | (k, j) != (l, i) ensures Ent(s, k, j) == Ent(b, k, j) {
      assert k in b.at ==> b.loc[b.at[k]] == k;
    }
  }

  lemma PresentIsUsed(b: Space, l: Loc, i: nat)
    requires Wf(b) && l in b.at && i < Width(l)
    ensures Ent(b, l, i).present <==> Ent(b, l, i) != ZERO
    ensures Ent(b, l, i) != ZERO && Depth(l) < 3 ==> Sub(l, i) in b.at && b.at[Sub(l, i)] == Ent(b, l, i).frame
  {
    assert Ent(b, l, i) != ZERO ==> EntryOk(b, l, i);
  }

  lemma OpenEffect(b: Space, l: Loc, i: nat)
    requires CanOpen(b, l, i)
    ensures OpenedTo(b, OpenAt(b, l, i), l, i)
  {
    PresentIsUsed(b, l, i);
    if Ent(b, l, i) == ZERO {
      NewTableFacts(b, l, i);
    }
  }

  /** Entries that were used keep the copy-on-write bit above them. */
  lemma {:induction false} OpenTopCow(b: Space, s: Space, l: Loc, i: nat, z: Loc)
    requires Wf(b) && OpenedTo(b, s, l, i) && z.Sub? && z.parent in b.at && Ent(b, z.parent, z.index) != ZERO
    ensures TopCow(s, z) == TopCow(b, z)
  {
    if z.parent.Sub? {
      assert LinkOk(b, z.parent);
      OpenTopCow(b, s, l, i, z.parent);
    }
  }

  lemma LinkEntryOk(b: Space, l: Loc, i: nat, k: Loc, j: nat)
    requires CanOpen(b, l, i) && Ent(b, l, i) == ZERO && k in NewTable(b, l, i).at && j < Width(k)
    requires Ent(NewTable(b, l, i), k, j) != ZERO
    ensures EntryOk(NewTable(b, l, i), k, j)
  {
    var s := NewTable(b, l, i);
    NewTableFacts(b, l, i);
    if (k, j) != (l, i) {
      assert k in b.at;
      assert EntryOk(b, k, j);
      PresentIsUsed(b, l, i);
      assert OpenAt(b, l, i) == s;
      OpenEffect(b, l, i);
      OpenTopCow(b, s, l, i, Sub(k, j));
    }
  }

  lemma LinkKeepsWf(b: Space, l: Loc, i: nat)
    requires CanOpen(b, l, i) && Ent(b, l, i) == ZERO
    ensures Wf(NewTable(b, l, i))
  {
    var s := NewTable(b, l, i);
    NewTableFacts(b, l, i);
    assert LinkOk(b, l);
    forall k | k in s.at ensures LinkOk(s, k) {
      if k in b.at {
        assert LinkOk(b, k);
      }
    }
    forall k, j: nat | k in s.at && j < Width(k) && Ent(s, k, j) != ZERO ensures EntryOk(s, k, j) {
      LinkEntryOk(b, l, i, k, j);
    }
  }

  lemma OpenKeepsWf(b: Space, l: Loc, i: nat)
    requires CanOpen(b, l, i)
    ensures Wf(OpenAt(b, l, i)) && OpenedTo(b, OpenAt(b, l, i), l, i)
  {
    OpenEffect(b, l, i);
    PresentIsUsed(b, l, i);
    if Ent(b, l, i) == ZERO {
      LinkKeepsWf(b, l, i);
    }
  }

  // ---------------------------------------------------------------------------
  // The way to a page table

  /** The tables that are missing there. */
  ghost function Lacking(b: Space, r: Frame, p: Page): nat {
    if Sub(Root(r), p.i4) !in b.at then 3
    else if Sub(Sub(Root(r), p.i4), p.i3) !in b.at then 2
    else if PtLoc(r, p) !in b.at then 1
    else 0
  }

  ghost predicate CanReach(b: Space, r: Frame, p: Page) {
    Wf(b) && Root(r) in b.at && UserPage(p) && Lacking(b, r, p) <= |b.free|
  }

  ghost function OpenPdptOf(b: Space, r: Frame, p: Page): (s: Space)
    requires CanReach(b, r, p)
    ensures CanReach(s, r, p) && CanOpen(s, Sub(Root(r), p.i4), p.i3) && OpenedTo(b, s, Root(r), p.i4)
    ensures s.free == b.free[if Sub(Root(r), p.i4) in b.at then 0 else 1..]
  {
    OpenPdptFacts(b, r, p);
    OpenAt(b, Root(r), p.i4)
  }

  /** No table is below a missing one. */
  lemma ClosedUpwards(b: Space, r: Frame, p: Page)
    requires Wf(b)
    ensures PtLoc(r, p) in b.at ==> Sub(Sub(Root(r), p.i4), p.i3) in b.at
    ensures Sub(Sub(Root(r), p.i4), p.i3) in b.at ==> Sub(Root(r), p.i4) in b.at
  {
    assert PtLoc(r, p) in b.at ==> LinkOk(b, PtLoc(r, p));
    assert Sub(Sub(Root(r), p.i4), p.i3) in b.at ==> LinkOk(b, Sub(Sub(Root(r), p.i4), p.i3));
  }

  /** An entry is used exactly when the table below it is there. */
  lemma UsedIsThere(b: Space, l: Loc, i: nat)
    requires Wf(b) && l in b.at && i < Width(l) && Depth(l) < 3
    ensures Ent(b, l, i).present <==> Sub(l, i) in b.at
  {
    PresentIsUsed(b, l, i);
    assert Sub(l, i) in b.at ==> LinkOk(b, Sub(l, i));
  }

  lemma OpenPdptFacts(b: Space, r: Frame, p: Page)
    requires CanReach(b, r, p)
    ensures CanOpen(b, Root(r), p.i4)
    ensures var s := OpenAt(b, Root(r), p.i4);
      && CanReach(s, r, p) && CanOpen(s, Sub(Root(r), p.i4), p.i3) && OpenedTo(b, s, Root(r), p.i4)
  {
    var l3 := Sub(Root(r), p.i4);
    assert Depth(l3) == 1;
    UsedIsThere(b, Root(r), p.i4);
    OpenKeepsWf(b, Root(r), p.i4);
    ClosedUpwards(b, r, p);
    UsedIsThere(OpenAt(b, Root(r), p.i4), l3, p.i3);
  }

  ghost function OpenPdOf(b: Space, r: Frame, p: Page): (s: Space)
    requires CanReach(b, r, p)
    ensures CanReach(s, r, p) && CanOpen(s, Sub(Sub(Root(r), p.i4), p.i3), p.i2)
    ensures OpenedTo(OpenPdptOf(b, r, p), s, Sub(Root(r), p.i4), p.i3)
  {
    OpenPdFacts(OpenPdptOf(b, r, p), r, p);
    OpenAt(OpenPdptOf(b, r, p), Sub(Root(r), p.i4), p.i3)
  }

  lemma OpenPdFacts(b: Space, r: Frame, p: Page)
    requires CanReach(b, r, p) && CanOpen(b, Sub(Root(r), p.i4), p.i3)
    ensures var s := OpenAt(b, Sub(Root(r), p.i4), p.i3);
      && CanReach(s, r, p) && CanOpen(s, Sub(Sub(Root(r), p.i4), p.i3), p.i2)
      && OpenedTo(b, s, Sub(Root(r), p.i4), p.i3)
  {
    var l3 := Sub(Root(r), p.i4);
    var l2 := Sub(l3, p.i3);
    assert Depth(l3) == 1;
    assert Depth(l2) == 2;
    OpenKeepsWf(b, l3, p.i3);
    ClosedUpwards(b, r, p);
    UsedIsThere(b, l3, p.i3);
    UsedIsThere(OpenAt(b, l3, p.i3), l2, p.i2);
  }

  /** The tables on the way to page `p` of process `r`. */
  ghost function OpenWay(b: Space, r: Frame, p: Page): (s: Space)
    requires CanReach(b, r, p)
    ensures Wf(s) && PtLoc(r, p) in s.at && OpenedTo(OpenPdOf(b, r, p), s, PtLoc(r, p).parent, p.i2)
  {
    OpenKeepsWf(OpenPdOf(b, r, p), Sub(Sub(Root(r), p.i4), p.i3), p.i2);
    OpenAt(OpenPdOf(b, r, p), Sub(Sub(Root(r), p.i4), p.i3), p.i2)
  }

  /** The tables have grown, and no leaf entry and no data page has changed. */
  ghost predicate SameLeaves(b: Space, s: Space) {
    && (forall k | k in b.at :: k in s.at && s.at[k] == b.at[k])
    && (forall q :: Root(q) in s.at ==> Root(q) in b.at)
    && (forall k, j: nat {:trigger Ent(s, k, j)} :: Depth(k) == 3 ==> Ent(s, k, j) == Ent(b, k, j))
    && s.owner == b.owner && s.mem.Keys == b.mem.Keys
    && (forall f {:trigger s.mem[f]} | f in b.mem && f !in b.loc && f !in b.free :: s.mem[f] == b.mem[f])
    && (forall f {:trigger f in s.free} :: f in s.free ==> f in b.free)
    && (forall f {:trigger f in s.loc} :: f in b.loc ==> f in s.loc)
    && (forall f {:trigger f in s.loc} :: f !in b.loc ==> (f in s.loc <==> f in b.free && f !in s.free))
  }

  lemma OpenedLeaves(b: Space, s: Space, l: Loc, i: nat)
    requires OpenedTo(b, s, l, i) && Depth(l) < 3
    ensures SameLeaves(b, s)
  {
  }

  lemma SameLeavesChain(a: Space, b: Space, c: Space)
    requires SameLeaves(a, b) && SameLeaves(b, c)
    ensures SameLeaves(a, c)
  {
    forall k, j: nat | Depth(k) == 3 ensures Ent(c, k, j) == Ent(a, k, j) {
      assert Ent(c, k, j) == Ent(b, k, j);
    }
  }

  /** Opening the way changes no leaf entry of any process. */
  lemma WayChangesNoLeaf(b: Space, r: Frame, p: Page)
    requires CanReach(b, r, p)
    ensures SameLeaves(b, OpenWay(b, r, p))
  {
    var l3 := Sub(Root(r), p.i4);
    assert Depth(l3) == 1;
    assert Depth(Sub(l3, p.i3)) == 2;
    var s1, s2 := OpenPdptOf(b, r, p), OpenPdOf(b, r, p);
    OpenedLeaves(b, s1, Root(r), p.i4);
    OpenedLeaves(s1, s2, l3, p.i3);
    OpenedLeaves(s2, OpenWay(b, r, p), Sub(l3, p.i3), p.i2);
    SameLeavesChain(b, s1, s2);
    SameLeavesChain(b, s2, OpenWay(b, r, p));
  }

  // ---------------------------------------------------------------------------
  // A leaf

  ghost predicate BacksPage(s: Space, f: Frame, l: Loc, i: nat) {
    l in s.at && Depth(l) == 3 && i < 512 && Ent(s, l, i) != ZERO && Ent(s, l, i).frame == f
  }

  /** A frame nobody uses: not queued, no table, and mapped by no page. */
  ghost predicate Unused(s: Space, f: Frame) {
    f in s.mem && f !in s.free && f !in s.loc && forall l, i: nat :: !BacksPage(s, f, l, i)
  }

  /** A page table of the tree. */
  ghost predicate IsPt(b: Space, l: Loc) {
    Wf(b) && l in b.at && Depth(l) == 3
  }

  ghost predicate HasTable(b: Space, l: Loc) {
    l in b.at && b.at[l] in b.mem && |b.mem[b.at[l]]| == 512
  }

  /** Entry `i` of the page table at `l` gets the frame, unless it is present. */
  ghost function PutAt(b: Space, l: Loc, i: nat, f: Frame): (s: Space)
    requires HasTable(b, l) && i < 512
    ensures HasTable(s, l)
  {
    if Ent(b, l, i).present then b
    else b.(mem := WithPage(b.mem, b.at[l], i, f), owner := b.owner[f := Sub(l, i)])
  }

  lemma PutEntryFacts(b: Space, l: Loc, i: nat, f: Frame)
    requires IsPt(b, l) && i < 512 && Ent(b, l, i) == ZERO
    ensures var s := PutAt(b, l, i, f);
            forall k, j: nat {:trigger Ent(s, k, j)} ::
              Ent(s, k, j) == if k == l && j == i then User(f) else Ent(b, k, j)
    ensures forall z: Loc {:trigger TopCow(PutAt(b, l, i, f), z)} :: TopCow(PutAt(b, l, i, f), z) == TopCow(b, z)
  {
    var s := PutAt(b, l, i, f);
    forall k, j: nat ensures Ent(s, k, j) == if k == l && j == i then User(f) else Ent(b, k, j) {
      assert k in b.at ==> b.loc[b.at[k]] == k;
    }
    forall z: Loc ensures TopCow(s, z) == TopCow(b, z) {
      PutTopCow(b, s, l, i, z);
    }
  }

  lemma {:induction false} PutTopCow(b: Space, s: Space, l: Loc, i: nat, z: Loc)
    requires Depth(l) == 3
    requires forall k, j: nat {:trigger Ent(s, k, j)} :: (k, j) != (l, i) ==> Ent(s, k, j) == Ent(b, k, j)
    ensures TopCow(s, z) == TopCow(b, z)
  {
    if z.Sub? {
      PutTopCow(b, s, l, i, z.parent);
    }
  }

  lemma PutOtherEntryOk(b: Space, l: Loc, i: nat, f: Frame, k: Loc, j: nat)
    requires IsPt(b, l) && i < 512 && Ent(b, l, i) == ZERO && Unused(b, f)
    requires k in b.at && j < Width(k) && Ent(b, k, j) != ZERO
    ensures EntryOk(PutAt(b, l, i, f), k, j)
  {
    var s := PutAt(b, l, i, f);
    PutEntryFacts(b, l, i, f);
    assert EntryOk(b, k, j) && LinkOk(b, k);
    assert TopCow(s, Sub(k, j)) == TopCow(b, Sub(k, j));
    if Depth(k) == 3 {
      assert !BacksPage(b, f, k, j);
    }
  }

  lemma UnusedKeepsWf(b: Space, l: Loc, i: nat, f: Frame)
    requires IsPt(b, l) && i < 512 && Ent(b, l, i) == ZERO && Unused(b, f)
    ensures Wf(PutAt(b, l, i, f))
  {
    var s := PutAt(b, l, i, f);
    PutEntryFacts(b, l, i, f);
    forall k | k in s.at ensures LinkOk(s, k) {
      assert LinkOk(b, k);
    }
    forall k, j: nat | k in s.at && j < Width(k) && Ent(s, k, j) != ZERO ensures EntryOk(s, k, j) {
      if (k, j) != (l, i) {
        PutOtherEntryOk(b, l, i, f, k, j);
      }
    }
  }

  /** Whatever the owners are said to be. */
  lemma WfNeedsUnused(b: Space, l: Loc, i: nat, f: Frame, owner: map<Frame, Loc>)
    requires IsPt(b, l) && i < 512 && Ent(b, l, i) == ZERO && Wf(PutAt(b, l, i, f).(owner := owner))
    ensures Unused(b, f)
  {
    var s := PutAt(b, l, i, f).(owner := owner);
    PutEntryFacts(b, l, i, f);
    assert forall k, j: nat {:trigger Ent(s, k, j)} :: Ent(s, k, j) == Ent(PutAt(b, l, i, f), k, j);
    assert EntryOk(s, l, i);
    forall k, j: nat ensures !BacksPage(b, f, k, j) {
      if k in b.at && Depth(k) == 3 && j < 512 && Ent(b, k, j) != ZERO {
        assert LinkOk(b, k) && EntryOk(s, k, j);
      }
    }
  }

  /** Mapping one page keeps the invariant exactly when the page is mapped already or nobody uses the frame. */
  lemma PutKeepsWf(b: Space, l: Loc, i: nat, f: Frame)
    requires IsPt(b, l) && i < 512
    ensures Wf(PutAt(b, l, i, f)) <==> Ent(b, l, i) != ZERO || Unused(b, f)
  {
    assert LinkOk(b, l);
    PresentIsUsed(b, l, i);
    if Ent(b, l, i) == ZERO {
      if Unused(b, f) {
        UnusedKeepsWf(b, l, i, f);
      } else if Wf(PutAt(b, l, i, f)) {
        WfNeedsUnused(b, l, i, f, PutAt(b, l, i, f).owner);
      }
    }
  }

  /** A frame that nobody uses is one that nobody used before the tables were opened. */
  lemma UnusedBefore(b: Space, s: Space, f: Frame)
    requires Wf(b) && Wf(s) && SameLeaves(b, s)
    ensures Unused(s, f) <==> Unused(b, f)
  {
    forall l, i: nat ensures BacksPage(s, f, l, i) <==> BacksPage(b, f, l, i) {
      assert Depth(l) == 3 ==> Ent(s, l, i) == Ent(b, l, i);
    }
  }

  // ---------------------------------------------------------------------------
  // A new page table in place of an old one

  ghost predicate Sound(s: Space) {
    MemoryOk(s) && QueueOk(s) && PlacesOk(s)
  }

  /** A page directory, and a frame for a page table. */
  ghost predicate CanRenew(b: Space, l: Loc, i: nat) {
    Sound(b) && l in b.at && Depth(l) == 2 && i < 512 && b.free != []
  }

  ghost function WithoutTable(b: Space, l: Loc): map<Frame, Loc> {
    if l in b.at then b.loc - {b.at[l]} else b.loc
  }

  /** The first free frame, emptied, becomes the page table of entry `i`.  The one that was there is lost, and with it
      the pages it mapped. */
  ghost function RenewPt(b: Space, l: Loc, i: nat): Space
    requires CanRenew(b, l, i)
  {
    b.(mem := WithPt(b.mem, b.at[l], i, b.free[0]), free := b.free[1..], at := b.at[Sub(l, i) := b.free[0]],
       loc := WithoutTable(b, Sub(l, i))[b.free[0] := Sub(l, i)])
  }

  ghost predicate Renewed(b: Space, s: Space, l: Loc, i: nat) {
    && Sound(s) && b.free != [] && b.free[0] in b.mem && b.free[0] !in b.loc && b.free[0] !in s.free
    && s.mem.Keys == b.mem.Keys && s.owner == b.owner && s.free == b.free[1..] && s.at == b.at[Sub(l, i) := b.free[0]]
    && (forall f {:trigger f in s.loc} :: f in s.loc <==> f == b.free[0] || (f in b.loc && b.loc[f] != Sub(l, i)))
    && (forall k, j: nat {:trigger Ent(s, k, j)} ::
          Ent(s, k, j) == if k == Sub(l, i) then ZERO
                          else if k == l && j == i then User(b.free[0])
                          else Ent(b, k, j))
    && (forall f {:trigger s.mem[f]} | f in b.mem && f !in b.loc && f !in b.free :: s.mem[f] == b.mem[f])
  }

  lemma RenewIsSound(b: Space, l: Loc, i: nat)
    requires CanRenew(b, l, i)
    ensures b.free[0] in b.mem && b.free[0] !in b.loc && b.at[l] in b.mem && b.at[l] != b.free[0] && Sub(l, i) != l
    ensures Sound(RenewPt(b, l, i)) && RenewPt(b, l, i).mem.Keys == b.mem.Keys
  {
    assert Depth(Sub(l, i)) == 3;
  }

  lemma RenewEffect(b: Space, l: Loc, i: nat)
    requires CanRenew(b, l, i)
    ensures Renewed(b, RenewPt(b, l, i), l, i)
  {
    var s := RenewPt(b, l, i);
    RenewIsSound(b, l, i);
    forall k, j: nat
      ensures Ent(s, k, j) == if k == Sub(l, i) then ZERO
                              else if k == l && j == i then User(b.free[0])
                              else Ent(b, k, j)
    {
      assert k in b.at ==> b.loc[b.at[k]] == k;
    }
  }

  /** Entries above page tables keep their copy-on-write bit. */
  lemma {:induction false} RenewTopCow(b: Space, s: Space, l: Loc, i: nat, z: Loc)
    requires Depth(l) == 2 && Renewed(b, s, l, i)
    ensures TopCow(s, z) == TopCow(b, z)
  {
    if z.Sub? && z.parent.Sub? {
      RenewTopCow(b, s, l, i, z.parent);
    } else if z.Sub? {
      assert Depth(z.parent) == 0 && Depth(Sub(l, i)) == 3;
    }
  }

  lemma RenewEntryOk(b: Space, s: Space, l: Loc, i: nat, k: Loc, j: nat)
    requires Wf(b) && l in b.at && Depth(l) == 2 && i < 512 && Renewed(b, s, l, i)
    requires k in s.at && j < Width(k) && Ent(s, k, j) != ZERO
    ensures EntryOk(s, k, j)
  {
    assert LinkOk(b, l);
    if (k, j) != (l, i) {
      assert k in b.at && EntryOk(b, k, j);
      RenewTopCow(b, s, l, i, Sub(k, j));
    }
  }

  lemma RenewKeepsWf(b: Space, l: Loc, i: nat)
    requires Wf(b) && CanRenew(b, l, i)
    ensures Wf(RenewPt(b, l, i)) && Renewed(b, RenewPt(b, l, i), l, i)
  {
    var s := RenewPt(b, l, i);
    RenewEffect(b, l, i);
    assert LinkOk(b, l);
    forall k | k in s.at ensures LinkOk(s, k) {
      assert k in b.at ==> LinkOk(b, k);
      assert Depth(Sub(l, i)) == 3;
    }
    forall k, j: nat | k in s.at && j < Width(k) && Ent(s, k, j) != ZERO ensures EntryOk(s, k, j) {
      RenewEntryOk(b, s, l, i, k, j);
    }
  }
}
