/**
  Physical memory, four-level page walks, and the invariant of the user half.

  Every frame is 512 words; whether a frame is a table or a data page is not
  recorded in memory, only in the ghost fields of `Space`.  `KERNBASE + p` is
  direct access to frame `p`.
 */
module PageTables {
  import opened PageEntries
  import opened Wrappers

  type Memory = map<Frame, seq<Word>>

  /** An empty table. */
  function Zeros(): (z: seq<Word>)
    ensures |z| == 512 && forall i | 0 <= i < 512 :: z[i] == ZERO
  {
    seq(512, i => ZERO)
  }

  /** The loop every function that takes a page for a table runs over it. */
  method ZeroTable(m: Memory, t: Frame) returns (z: Memory)
    requires t in m && |m[t]| == 512
    ensures z == m[t := Zeros()]
  {
    z := m;
    for i := 0 to 512
      invariant z.Keys == m.Keys && |z[t]| == 512 && (forall f | f in m && f != t :: z[f] == m[f])
      invariant forall j | 0 <= j < i :: z[t][j] == ZERO
    {
      z := z[t := z[t][i := ZERO]];
    }
    assert z[t] == Zeros();
  }

  /** A place in the translation tree: a PML4, or entry `index` of the table at `parent`.
      Depth 0 is a PML4, 1 a PDPT, 2 a PD, 3 a PT and 4 a data page. */
  datatype Loc = Root(pml4: Frame) | Sub(parent: Loc, index: nat)

  function Depth(l: Loc): nat {
    if l.Root? then 0 else 1 + Depth(l.parent)
  }

  function RootOf(l: Loc): Frame {
    if l.Root? then l.pml4 else RootOf(l.parent)
  }

  /** The same path below another PML4. */
  function Rebase(l: Loc, c: Frame): Loc {
    if l.Root? then Root(c) else Sub(Rebase(l.parent, c), l.index)
  }

  lemma {:induction false} RebaseFacts(l: Loc, c: Frame)
    ensures Depth(Rebase(l, c)) == Depth(l) && RootOf(Rebase(l, c)) == c
    ensures Rebase(Rebase(l, c), RootOf(l)) == l
    ensures Rebase(l, c).Root? == l.Root?
    ensures Width(Rebase(l, c)) == Width(l)
  {
    if l.Sub? {
      RebaseFacts(l.parent, c);
    }
  }

  /** Slots 510 and 511 of a PML4 belong to the kernel. */
  function Width(l: Loc): nat {
    if l.Root? then 510 else 512
  }

  ghost predicate UserLoc(l: Loc) {
    l.Sub? ==> l.index < Width(l.parent) && UserLoc(l.parent)
  }

  // ---------------------------------------------------------------------------
  // The MMU

  /** Where the hardware walk ends: the frame the entries along `l` lead to, if all are present. */
  function FrameAt(m: Memory, l: Loc): Option<Frame> {
    match l
    case Root(r) => Some(r)
    case Sub(p, i) =>
      match FrameAt(m, p)
      case None => None
      case Some(t) => if t in m && i < |m[t]| && m[t][i].present then Some(m[t][i].frame) else None
  }

  /** Effective write permission: every entry along the path has its W bit set
      (section 4.6 of the Intel SDM, volume 3A). */
  predicate WritableAt(m: Memory, l: Loc) {
    l.Sub? ==>
      && WritableAt(m, l.parent)
      && FrameAt(m, l).Some?
      && m[FrameAt(m, l.parent).value][l.index].writable
  }

  /** The four table indices of a virtual address. */
  datatype Page = Page(i4: nat, i3: nat, i2: nat, i1: nat)

  predicate UserPage(p: Page) {
    p.i4 < 510 && p.i3 < 512 && p.i2 < 512 && p.i1 < 512
  }

  function PtLoc(r: Frame, p: Page): Loc {
    Sub(Sub(Sub(Root(r), p.i4), p.i3), p.i2)
  }

  function PageLoc(r: Frame, p: Page): Loc {
    Sub(PtLoc(r, p), p.i1)
  }

  function PageOf(va: bv64): Page {
    Page(((va >> 39) & 0x1ff) as nat, ((va >> 30) & 0x1ff) as nat,
         ((va >> 21) & 0x1ff) as nat, ((va >> 12) & 0x1ff) as nat)
  }

  lemma IndexBits(u: bv64, v: bv64)
    ensures u & 0xfffffffff000 == v & 0xfffffffff000 <==>
            (u >> 39) & 0x1ff == (v >> 39) & 0x1ff && (u >> 30) & 0x1ff == (v >> 30) & 0x1ff &&
            (u >> 21) & 0x1ff == (v >> 21) & 0x1ff && (u >> 12) & 0x1ff == (v >> 12) & 0x1ff
  {
  }

  /** Two addresses have the same indices exactly when bits 47..12 agree. */
  lemma PageOfIsThePage(u: bv64, v: bv64)
    ensures PageOf(u) == PageOf(v) <==> u & 0xfffffffff000 == v & 0xfffffffff000
  {
    IndexBits(u, v);
    if PageOf(u) == PageOf(v) {
      BitsOfNat((u >> 39) & 0x1ff, (v >> 39) & 0x1ff);
      BitsOfNat((u >> 30) & 0x1ff, (v >> 30) & 0x1ff);
      BitsOfNat((u >> 21) & 0x1ff, (v >> 21) & 0x1ff);
      BitsOfNat((u >> 12) & 0x1ff, (v >> 12) & 0x1ff);
    }
  }

  // ---------------------------------------------------------------------------
  // Kernel state and its invariant

  /**
    mem    physical memory
    free   the allocator's queue of free frames
    at     the user-half tables of every process, by their place in the tree
    loc    the inverse of `at`
    owner  the one page that maps a frame that is writable somewhere
   */
  datatype Space = Space(mem: Memory, free: seq<Frame>, at: map<Loc, Frame>, loc: map<Frame, Loc>,
                         owner: map<Frame, Loc>)

  ghost function Ent(s: Space, l: Loc, i: nat): Word {
    if l in s.at && s.at[l] in s.mem && i < |s.mem[s.at[l]]| then s.mem[s.at[l]][i] else ZERO
  }

  /** The PML4 entry on the way to `x` carries the copy-on-write bit, which is what the fault handler tests. */
  ghost predicate TopCow(s: Space, x: Loc) {
    x.Sub? && if x.parent.Root? then Ent(s, x.parent, x.index).cow else TopCow(s, x.parent)
  }

  ghost predicate MemoryOk(s: Space) {
    forall f | f in s.mem :: |s.mem[f]| == 512
  }

  ghost predicate QueueOk(s: Space) {
    && (forall i, j | 0 <= i < j < |s.free| :: s.free[i] != s.free[j])
    && (forall i | 0 <= i < |s.free| :: s.free[i] in s.mem && s.free[i] !in s.loc)
  }

  /** `at` and `loc` are inverse: no two places of the tree share a table frame. */
  ghost predicate PlacesOk(s: Space) {
    && (forall l | l in s.at :: s.at[l] in s.mem && s.at[l] in s.loc && s.loc[s.at[l]] == l)
    && (forall t | t in s.loc :: s.loc[t] in s.at && s.at[s.loc[t]] == t)
  }

  /** `at` is closed under parents, and a parent's entry leads to the child. */
  ghost predicate LinkOk(s: Space, l: Loc) {
    && l in s.at && Depth(l) <= 3 && UserLoc(l)
    && (l.Root? ==> s.at[l] == l.pml4)
    && (l.Sub? ==> l.parent in s.at && Ent(s, l.parent, l.index) != ZERO)
  }

  ghost predicate LinkedOk(s: Space) {
    forall l {:trigger LinkOk(s, l)} | l in s.at :: LinkOk(s, l)
  }

  ghost predicate EntryOk(s: Space, l: Loc, i: nat) {
    var e := Ent(s, l, i);
    && e.present && e.user
    && (!e.writable ==> TopCow(s, Sub(l, i)))
    && (if Depth(l) < 3 then Sub(l, i) in s.at && s.at[Sub(l, i)] == e.frame
        else
          && e.frame in s.mem && e.frame !in s.loc && e.frame !in s.free
          && (e.writable ==> e.frame in s.owner)
          && (e.frame in s.owner ==> s.owner[e.frame] == Sub(l, i)))
  }

  ghost predicate EntriesOk(s: Space) {
    forall l, i: nat {:trigger EntryOk(s, l, i)} | l in s.at && i < Width(l) && Ent(s, l, i) != ZERO :: EntryOk(s, l, i)
  }

  ghost predicate Wf(s: Space) {
    MemoryOk(s) && QueueOk(s) && PlacesOk(s) && LinkedOk(s) && EntriesOk(s)
  }

  // ---------------------------------------------------------------------------
  // Walks and the tree

  /** The hardware reaches a table exactly where the tree says it is. */
  lemma {:induction false} WalkFollowsTree(s: Space, l: Loc)
    requires Wf(s) && Root(RootOf(l)) in s.at && UserLoc(l) && Depth(l) <= 3
    ensures FrameAt(s.mem, l) == if l in s.at then Some(s.at[l]) else None
  {
    assert Root(RootOf(l)) in s.at ==> LinkOk(s, Root(RootOf(l)));
    if l.Sub? {
      WalkFollowsTree(s, l.parent);
      assert l in s.at ==> LinkOk(s, l);
      if l.parent in s.at {
        assert Ent(s, l.parent, l.index) == s.mem[s.at[l.parent]][l.index];
        if Ent(s, l.parent, l.index) != ZERO {
          assert EntryOk(s, l.parent, l.index);
        }
      }
    }
  }

  lemma PtLocFacts(r: Frame, p: Page)
    requires UserPage(p)
    ensures UserLoc(PtLoc(r, p)) && Depth(PtLoc(r, p)) == 3 && RootOf(PtLoc(r, p)) == r
  {
    var l3 := Sub(Root(r), p.i4);
    var l2 := Sub(l3, p.i3);
    assert UserLoc(l3) && Depth(l3) == 1 && RootOf(l3) == r;
    assert UserLoc(l2) && Depth(l2) == 2 && RootOf(l2) == r;
  }

  /** A page is mapped exactly when its leaf table exists and holds a nonzero entry. */
  lemma WalkToPage(s: Space, r: Frame, p: Page)
    requires Wf(s) && Root(r) in s.at && UserPage(p)
    ensures FrameAt(s.mem, PageLoc(r, p)) ==
            if Ent(s, PtLoc(r, p), p.i1) != ZERO then Some(Ent(s, PtLoc(r, p), p.i1).frame) else None
  {
    var l := PtLoc(r, p);
    PtLocFacts(r, p);
    WalkFollowsTree(s, l);
    assert Ent(s, l, p.i1) != ZERO ==> EntryOk(s, l, p.i1);
  }

  /** Two pages backed by one frame are both read-only. */
  lemma SharedFrameIsReadOnly(s: Space, q: Frame, u: Page, r: Frame, v: Page)
    requires Wf(s) && Root(q) in s.at && Root(r) in s.at && UserPage(u) && UserPage(v)
    requires FrameAt(s.mem, PageLoc(q, u)).Some?
    requires FrameAt(s.mem, PageLoc(q, u)) == FrameAt(s.mem, PageLoc(r, v))
    requires (q, u) != (r, v)
    ensures !WritableAt(s.mem, PageLoc(q, u)) && !WritableAt(s.mem, PageLoc(r, v))
  {
    WalkToPage(s, q, u);
    WalkToPage(s, r, v);
    PtLocFacts(q, u);
    PtLocFacts(r, v);
    WalkFollowsTree(s, PtLoc(q, u));
    WalkFollowsTree(s, PtLoc(r, v));
    assert EntryOk(s, PtLoc(q, u), u.i1) && EntryOk(s, PtLoc(r, v), v.i1);
    assert PageLoc(q, u) != PageLoc(r, v);
  }
}
