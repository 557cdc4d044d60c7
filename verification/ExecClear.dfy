/**
  `clear_uptentries`: exec starts by emptying the user half of the caller's tables.
 */
module ExecClear {
  import opened PageEntries
  import opened PageTables
  import opened ForkCopy
  import opened ForkMeaning
  import opened Wrappers

  /** The state while the tables of `r` are being emptied: visited entries with the user bit are zero. */
  ghost predicate Clearing(b: Space, s: Space, done: iset<Loc>) {
    && TablesOk(s) && s.mem.Keys == b.mem.Keys
    && s.at == b.at && s.loc == b.loc && s.free == b.free && s.owner == b.owner
    && (forall l, i: nat {:trigger Ent(s, l, i)} | l in b.at && i < 512 ::
          Ent(s, l, i) == if Sub(l, i) in done && Ent(b, l, i).user then ZERO else Ent(b, l, i))
    && (forall f {:trigger s.mem[f]} | f in b.mem && f !in b.loc :: s.mem[f] == b.mem[f])
  }

  ghost function Unlink(s: Space, r: Frame): Space {
    Space(s.mem, s.free,
          map l | l in s.at && (l == Root(r) || RootOf(l) != r) :: s.at[l],
          map t | t in s.loc && (s.loc[t] == Root(r) || RootOf(s.loc[t]) != r) :: s.loc[t],
          s.owner)
  }

  /** `s` is `b` after `clear_uptentries` in the process `r`. */
  ghost predicate Cleared(b: Space, s: Space, r: Frame) {
    && Root(r) in b.at
    && (exists t: Space :: Clearing(b, t, UpTo(Root(r), 510)) && s == Unlink(t, r))
  }

  /** Visiting a zero entry, a kernel entry or a leaf changes nothing further down. */
  lemma ClearAgree(b: Space, s: Space, done: iset<Loc>, x: Loc, i: nat)
    requires Wf(b) && Clearing(b, s, done) && x in b.at && i < Width(x)
    requires Sub(x, i) in done || Ent(b, x, i) == ZERO
    requires Depth(x) == 3 || Ent(b, x, i) == ZERO
    ensures Clearing(b, s, done + Under(Sub(x, i)))
  {
    var q := Sub(x, i);
    assert q in b.at ==> LinkOk(b, q);
    forall l, j: nat | l in b.at && j < 512 && Sub(l, j) in Under(q) ensures Sub(l, j) == q {
      NothingBelow(b, l, q);
    }
  }

  lemma ClearEntry(b: Space, s: Space, done: iset<Loc>, x: Loc, i: nat)
    requires Wf(b) && Clearing(b, s, done) && x in b.at && i < 512 && Ent(b, x, i).user
    ensures Clearing(b, WriteEntry(s, x, i, ZERO), done + iset{Sub(x, i)})
  {
    WriteFacts(s, x, i, ZERO);
  }

  /** What is left: the emptied PML4 of the caller, and the tables of the others as they were. */
  lemma ClearLeaves(b: Space, s: Space, r: Frame)
    requires Wf(b) && Cleared(b, s, r)
    ensures s.free == b.free && s.owner == b.owner && s.mem.Keys == b.mem.Keys
    ensures MemoryOk(s) && QueueOk(s) && PlacesOk(s)
    ensures forall l | l in s.at :: l in b.at && s.at[l] == b.at[l] && (l == Root(r) || RootOf(l) != r)
    ensures forall l | l in b.at && (l == Root(r) || RootOf(l) != r) :: l in s.at
    ensures forall f | f in s.loc :: f in b.loc
    ensures forall l, i: nat {:trigger Ent(s, l, i)} | l in s.at && i < 512 ::
              Ent(s, l, i) == if l == Root(r) && i < 510 then ZERO else Ent(b, l, i)
  {
    var t: Space :| Clearing(b, t, UpTo(Root(r), 510)) && s == Unlink(t, r);
    forall l, i: nat | l in s.at && i < 512
      ensures Ent(s, l, i) == if l == Root(r) && i < 510 then ZERO else Ent(b, l, i)
    {
      ClearedEntry(b, t, r, l, i);
      assert Ent(s, l, i) == Ent(t, l, i);
    }
  }

  lemma ClearKeepsWf(b: Space, s: Space, r: Frame)
    requires Wf(b) && Cleared(b, s, r)
    ensures Wf(s)
    ensures forall l | l in s.at :: l in b.at && s.at[l] == b.at[l] && (l == Root(r) || RootOf(l) != r)
    ensures forall l | l in b.at && (l == Root(r) || RootOf(l) != r) :: l in s.at
    ensures forall l, i: nat {:trigger Ent(s, l, i)} | l in s.at && i < 512 ::
              Ent(s, l, i) == if l == Root(r) && i < 510 then ZERO else Ent(b, l, i)
  {
    ClearLeaves(b, s, r);
    forall l | l in s.at ensures LinkOk(s, l) {
      assert LinkOk(b, l);
    }
    forall l, i: nat | l in s.at && i < Width(l) && Ent(s, l, i) != ZERO ensures EntryOk(s, l, i) {
      assert EntryOk(b, l, i);
      ClearTopCow(b, s, r, Sub(l, i));
    }
  }

  lemma ClearedEntry(b: Space, t: Space, r: Frame, l: Loc, i: nat)
    requires Wf(b) && Clearing(b, t, UpTo(Root(r), 510)) && l in b.at && i < 512
    ensures Ent(t, l, i) == if RootOf(l) == r && i < Width(l) then ZERO else Ent(b, l, i)
  {
    assert LinkOk(b, l);
    VisitedHasRoot(Sub(l, i), r, 510);
    if RootOf(l) == r && i < Width(l) {
      AllVisited(Sub(l, i), r);
      assert Ent(b, l, i) != ZERO ==> EntryOk(b, l, i);
    }
  }

  lemma {:induction false} ClearTopCow(b: Space, s: Space, r: Frame, z: Loc)
    requires Wf(b) && z.Sub? && z.parent in b.at && RootOf(z) != r && UserLoc(z)
    requires forall l | l in b.at && RootOf(l) != r :: l in s.at
    requires forall l, i: nat {:trigger Ent(s, l, i)} | l in s.at && i < 512 ::
               Ent(s, l, i) == if l == Root(r) && i < 510 then ZERO else Ent(b, l, i)
    ensures TopCow(s, z) == TopCow(b, z)
  {
    if z.parent.Sub? {
      assert LinkOk(b, z.parent);
      ClearTopCow(b, s, r, z.parent);
    }
  }

  /** After the clearing the caller translates no user address and its kernel slots are as before. */
  lemma ClearUnmapsCaller(b: Space, s: Space, r: Frame, p: Page)
    requires Wf(b) && Cleared(b, s, r) && UserPage(p)
    ensures FrameAt(s.mem, PageLoc(r, p)) == None
    ensures Ent(s, Root(r), 510) == Ent(b, Root(r), 510) && Ent(s, Root(r), 511) == Ent(b, Root(r), 511)
  {
    ClearKeepsWf(b, s, r);
    PtLocFacts(r, p);
    assert PtLoc(r, p) != Root(r);
    WalkToPage(s, r, p);
  }

  lemma ClearedTablesAreEmpty(b: Space, s: Space, r: Frame)
    requires Wf(b) && Cleared(b, s, r)
    ensures forall l, i: nat {:trigger b.at[l], Sub(l, i)} | l in b.at && RootOf(l) == r && i < Width(l) ::
              b.at[l] in s.mem && |s.mem[b.at[l]]| == 512 && s.mem[b.at[l]][i] == ZERO
  {
    var t: Space :| Clearing(b, t, UpTo(Root(r), 510)) && s == Unlink(t, r);
    forall l, i: nat | l in b.at && RootOf(l) == r && i < Width(l)
      ensures b.at[l] in s.mem && |s.mem[b.at[l]]| == 512 && s.mem[b.at[l]][i] == ZERO
    {
      ClearedEntry(b, t, r, l, i);
      assert Ent(t, l, i) == t.mem[t.at[l]][i];
    }
  }

  /** Exec is invisible to every other process, whatever was shared by fork. */
  lemma ClearLeavesOthers(b: Space, s: Space, r: Frame, q: Frame, p: Page)
    requires Wf(b) && Cleared(b, s, r) && Root(q) in b.at && q != r && UserPage(p)
    ensures FrameAt(s.mem, PageLoc(q, p)) == FrameAt(b.mem, PageLoc(q, p))
    ensures WritableAt(s.mem, PageLoc(q, p)) == WritableAt(b.mem, PageLoc(q, p))
    ensures var f := FrameAt(b.mem, PageLoc(q, p));
            f.Some? ==> f.value in b.mem && f.value in s.mem && s.mem[f.value] == b.mem[f.value]
  {
    ClearKeepsWf(b, s, r);
    PtLocFacts(q, p);
    SameWalk(b, s, PageLoc(q, p));
    WalkToPage(b, q, p);
    if Ent(b, PtLoc(q, p), p.i1) != ZERO {
      assert EntryOk(b, PtLoc(q, p), p.i1);
    }
  }
}
