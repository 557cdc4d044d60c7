/**
  What `duplicate_page_table` builds, entry by entry, while it runs and when it is done.
 */
module ForkCopy {
  import opened PageEntries
  import opened PageTables

  // ---------------------------------------------------------------------------
  // Two primitive changes of the tree

  ghost predicate TablesOk(s: Space) {
    MemoryOk(s) && QueueOk(s) && PlacesOk(s)
  }

  ghost function WriteEntry(s: Space, l: Loc, i: nat, w: Word): Space
    requires MemoryOk(s) && l in s.at && s.at[l] in s.mem && i < 512
  {
    s.(mem := s.mem[s.at[l] := s.mem[s.at[l]][i := w]])
  }

  lemma WriteFacts(s: Space, l: Loc, i: nat, w: Word)
    requires TablesOk(s) && l in s.at && i < 512
    ensures TablesOk(WriteEntry(s, l, i, w))
    ensures forall k, j: nat :: Ent(WriteEntry(s, l, i, w), k, j) == if k == l && j == i then w else Ent(s, k, j)
  {
  }

  /** Take the first free frame, zero it and make it the table at `y`. */
  ghost function AddTable(s: Space, y: Loc): Space
    requires s.free != []
  {
    Space(s.mem[s.free[0] := Zeros()], s.free[1..], s.at[y := s.free[0]], s.loc[s.free[0] := y], s.owner)
  }

  lemma AddFacts(s: Space, y: Loc)
    requires TablesOk(s) && s.free != [] && y !in s.at
    ensures TablesOk(AddTable(s, y))
    ensures forall k, j: nat :: Ent(AddTable(s, y), k, j) == if k == y then ZERO else Ent(s, k, j)
  {
  }

  // ---------------------------------------------------------------------------
  // Which entries have been visited

  ghost predicate AtOrBelow(z: Loc, q: Loc) {
    z == q || (z.Sub? && AtOrBelow(z.parent, q))
  }

  /** `z` is, or lies below, one of the first `i` entries of the table at `x`. */
  ghost predicate Before(z: Loc, x: Loc, i: nat) {
    z.Sub? && ((z.parent == x && z.index < i) || Before(z.parent, x, i))
  }

  ghost function UpTo(x: Loc, i: nat): iset<Loc> {
    iset z | UserLoc(z) && Before(z, x, i)
  }

  ghost function Under(q: Loc): iset<Loc> {
    iset z | UserLoc(z) && AtOrBelow(z, q)
  }

  lemma {:induction false} BeforeNext(z: Loc, x: Loc, i: nat)
    ensures Before(z, x, i + 1) <==> Before(z, x, i) || AtOrBelow(z, Sub(x, i))
  {
    if z.Sub? {
      BeforeNext(z.parent, x, i);
    }
  }

  lemma {:induction false} BelowByWidth(z: Loc, q: Loc)
    requires UserLoc(z)
    ensures AtOrBelow(z, q) <==> z == q || Before(z, q, Width(q))
  {
    if z.Sub? {
      BelowByWidth(z.parent, q);
    }
  }

  lemma VisitedSets(x: Loc, i: nat)
    ensures UpTo(x, 0) == iset{}
    ensures UpTo(x, i + 1) == UpTo(x, i) + Under(Sub(x, i))
    ensures UserLoc(Sub(x, i)) ==> Under(Sub(x, i)) == iset{Sub(x, i)} + UpTo(Sub(x, i), 512)
    ensures UserLoc(Sub(x, i)) ==> Sub(x, i) !in UpTo(x, i) && UpTo(x, i) !! UpTo(Sub(x, i), 512)
  {
    forall z: Loc ensures !Before(z, x, 0) {
      NothingBefore(z, x);
    }
    forall z: Loc ensures Before(z, x, i + 1) <==> Before(z, x, i) || AtOrBelow(z, Sub(x, i)) {
      BeforeNext(z, x, i);
    }
    forall z: Loc | UserLoc(z)
      ensures AtOrBelow(z, Sub(x, i)) <==> z == Sub(x, i) || Before(z, Sub(x, i), 512)
    {
      BelowByWidth(z, Sub(x, i));
    }
    forall z: Loc ensures !(AtOrBelow(z, Sub(x, i)) && Before(z, x, i)) {
      OneBranch(z, x, i);
    }
  }

  lemma {:induction false} NothingBefore(z: Loc, x: Loc)
    ensures !Before(z, x, 0)
  {
    if z.Sub? {
      NothingBefore(z.parent, x);
    }
  }

  lemma {:induction false} BeforeIsDeeper(z: Loc, x: Loc, i: nat)
    ensures Before(z, x, i) ==> Depth(x) < Depth(z)
  {
    if z.Sub? {
      BeforeIsDeeper(z.parent, x, i);
    }
  }

  lemma {:induction false} BelowIsDeeper(z: Loc, q: Loc)
    ensures AtOrBelow(z, q) ==> Depth(q) <= Depth(z)
  {
    if z.Sub? {
      BelowIsDeeper(z.parent, q);
    }
  }

  lemma {:induction false} OneBranch(z: Loc, x: Loc, i: nat)
    ensures !(AtOrBelow(z, Sub(x, i)) && Before(z, x, i))
  {
    if z.Sub? {
      OneBranch(z.parent, x, i);
      BeforeIsDeeper(z.parent, x, i);
      BelowIsDeeper(z.parent, Sub(x, i));
    }
  }

  // ---------------------------------------------------------------------------
  // The state of the copy after visiting the entries in `done`

  /** All tables of the process whose PML4 is `r`. */
  ghost function Tables(b: Space, r: Frame): set<Loc> {
    set l | l in b.at && RootOf(l) == r
  }

  /** The tables of `r` that already have a twin below `c`. */
  ghost function Copied(b: Space, s: Space, r: Frame, c: Frame): set<Loc> {
    set l | l in b.at && RootOf(l) == r && Rebase(l, c) in s.at
  }

  ghost predicate ParentEntry(b: Space, s: Space, done: iset<Loc>, l: Loc, i: nat) {
    Ent(s, l, i) == if Sub(l, i) in done && Ent(b, l, i) != ZERO then Mark(Ent(b, l, i)) else Ent(b, l, i)
  }

  /** The twin of a visited entry: a directory entry leads to the twin of the table,
      a leaf entry leads to the same frame. */
  ghost predicate TwinEntry(b: Space, s: Space, r: Frame, done: iset<Loc>, y: Loc, i: nat) {
    var x := Rebase(y, r);
    var src := Ent(b, x, i);
    var copied := Sub(x, i) in done && src != ZERO;
    && (Sub(y, i) in s.at <==> copied && Depth(y) < 3)
    && Ent(s, y, i) ==
       if !copied then ZERO
       else if Depth(y) < 3 then Share(Base(s.at[Sub(y, i)]))
       else Share(Mark(src))
  }

  ghost predicate TwinPlace(b: Space, s: Space, r: Frame, c: Frame, done: iset<Loc>, y: Loc) {
    && y in s.at && RootOf(y) == c && Rebase(y, r) in b.at
    && (y.Root? ==> s.at[y] == c)
    && (y.Sub? ==> y.parent in s.at && Sub(Rebase(y.parent, r), y.index) in done)
  }

  /** FramesKept: tables come from the queue in order, one for each copied table; nothing else moves. */
  ghost predicate FramesKept(b: Space, s: Space, r: Frame, c: Frame) {
    && TablesOk(s) && s.mem.Keys == b.mem.Keys && s.owner == b.owner
    && |s.free| <= |b.free| && s.free == b.free[|b.free| - |s.free|..]
    && |b.free| == |s.free| + |Copied(b, s, r, c)|
    && Root(c) in s.at
    && (forall l | l in b.at :: l in s.at && s.at[l] == b.at[l])
    && (forall t | t in s.loc :: t in b.loc || t in b.free)
    && OtherFrames(b, s, r)
  }

  /** Only tables of the parent and tables of the child are written. */
  ghost predicate OtherFrames(b: Space, s: Space, r: Frame) {
    forall f {:trigger s.mem[f]} | f in b.mem && f in s.mem &&
      (f !in s.loc || (f in b.loc && RootOf(b.loc[f]) != r)) :: s.mem[f] == b.mem[f]
  }

  ghost predicate Parents(b: Space, s: Space, done: iset<Loc>) {
    forall l, i: nat {:trigger ParentEntry(b, s, done, l, i)} | l in b.at && i < 512 :: ParentEntry(b, s, done, l, i)
  }

  ghost predicate Twins(b: Space, s: Space, r: Frame, c: Frame, done: iset<Loc>) {
    && (forall y {:trigger TwinPlace(b, s, r, c, done, y)} | y in s.at && y !in b.at :: TwinPlace(b, s, r, c, done, y))
    && (forall y, i: nat {:trigger TwinEntry(b, s, r, done, y, i)} | y in s.at && y !in b.at && i < Width(y) ::
          TwinEntry(b, s, r, done, y, i))
  }

  ghost predicate Copying(b: Space, s: Space, r: Frame, c: Frame, done: iset<Loc>, k510: Word, k511: Word) {
    && FramesKept(b, s, r, c) && Parents(b, s, done) && Twins(b, s, r, c, done)
    && Ent(s, Root(c), 510) == k510 && Ent(s, Root(c), 511) == k511
  }

  lemma {:induction false} RootIsPresent(b: Space, l: Loc)
    requires Wf(b) && l in b.at
    ensures Root(RootOf(l)) in b.at
  {
    assert LinkOk(b, l);
    if l.Sub? {
      RootIsPresent(b, l.parent);
    }
  }

  /** No table of `b` belongs to a process that is not there. */
  lemma NoForeignTables(b: Space, c: Frame)
    requires Wf(b) && Root(c) !in b.at
    ensures forall l | l in b.at :: RootOf(l) != c
  {
    forall l | l in b.at ensures RootOf(l) != c {
      RootIsPresent(b, l);
    }
  }

  lemma RebaseIsInjective(l: Loc, m: Loc, r: Frame, c: Frame)
    requires RootOf(l) == r && RootOf(m) == r && Rebase(l, c) == Rebase(m, c)
    ensures l == m
  {
    RebaseFacts(l, c);
    RebaseFacts(m, c);
  }

  lemma {:induction false} NothingBelow(b: Space, l: Loc, q: Loc)
    requires Wf(b) && l in b.at && q !in b.at
    ensures !AtOrBelow(l, q)
  {
    assert LinkOk(b, l);
    if l.Sub? {
      NothingBelow(b, l.parent, q);
    }
  }

  lemma CopyStart(b: Space, r: Frame)
    requires Wf(b) && Root(r) in b.at && b.free != []
    ensures Root(b.free[0]) !in b.at
    ensures Copying(b, AddTable(b, Root(b.free[0])), r, b.free[0], iset{}, ZERO, ZERO)
  {
    var c := b.free[0];
    assert Root(c) !in b.at by {
      assert Root(c) in b.at ==> LinkOk(b, Root(c));
    }
    var s := AddTable(b, Root(c));
    AddFacts(b, Root(c));
    NoForeignTables(b, c);
    forall l | l in Copied(b, s, r, c) ensures l == Root(r) {
      RebaseFacts(l, c);
      assert Rebase(l, c) == Root(c);
    }
    assert Copied(b, s, r, c) == {Root(r)};
    assert forall i: nat | i < 510 :: Sub(Root(c), i) !in s.at by {
      forall i: nat ensures RootOf(Sub(Root(c), i)) == c {}
    }
  }

  /** Only the nonzero entries of tables matter. */
  lemma CopyAgree(b: Space, s: Space, r: Frame, c: Frame, done: iset<Loc>, done': iset<Loc>, k510: Word, k511: Word)
    requires Wf(b) && Copying(b, s, r, c, done, k510, k511) && done <= done'
    requires forall l, j: nat | l in b.at && j < 512 && Ent(b, l, j) != ZERO && Sub(l, j) in done' :: Sub(l, j) in done
    ensures Copying(b, s, r, c, done', k510, k511)
  {
    forall l, j: nat | l in b.at && j < 512 ensures ParentEntry(b, s, done', l, j) {
      assert ParentEntry(b, s, done, l, j);
    }
    forall y | y in s.at && y !in b.at ensures TwinPlace(b, s, r, c, done', y) {
      assert TwinPlace(b, s, r, c, done, y);
    }
    forall y, j: nat | y in s.at && y !in b.at && j < Width(y) ensures TwinEntry(b, s, r, done', y, j) {
      assert TwinEntry(b, s, r, done, y, j);
      assert TwinPlace(b, s, r, c, done, y);
    }
  }

  /** Nothing hangs below an entry that is zero or that maps a page. */
  lemma CopySkip(b: Space, s: Space, r: Frame, c: Frame, done: iset<Loc>, k510: Word, k511: Word, x: Loc, i: nat)
    requires Wf(b) && Copying(b, s, r, c, done, k510, k511)
    requires x in b.at && i < Width(x)
    requires (Depth(x) == 3 && Sub(x, i) in done) || Ent(b, x, i) == ZERO
    ensures Copying(b, s, r, c, done + Under(Sub(x, i)), k510, k511)
  {
    var q := Sub(x, i);
    assert q in b.at ==> LinkOk(b, q);
    forall l, j: nat | l in b.at && j < 512 && Ent(b, l, j) != ZERO && Sub(l, j) in done + Under(q)
      ensures Sub(l, j) in done
    {
      NothingBelow(b, l, q);
    }
    CopyAgree(b, s, r, c, done, done + Under(q), k510, k511);
  }

  /** One directory entry: mark the parent's, and hang a new zeroed table in the child's. */
  ghost function LinkSpace(s: Space, x: Loc, y: Loc, i: nat): Space
    requires TablesOk(s) && x in s.at && y in s.at && i < 512 && s.free != []
  {
    var s1 := WriteEntry(s, x, i, Mark(Ent(s, x, i)));
    var s2 := AddTable(s1, Sub(y, i));
    WriteEntry(s2, y, i, Share(Base(s.free[0])))
  }

  lemma RoomForTwin(b: Space, s: Space, r: Frame, c: Frame, z: Loc)
    requires FramesKept(b, s, r, c) && |Tables(b, r)| <= |b.free|
    requires z in Tables(b, r) && z !in Copied(b, s, r, c)
    ensures s.free != []
  {
    assert Copied(b, s, r, c) <= Tables(b, r) - {z};
    SubsetSize(Copied(b, s, r, c), Tables(b, r) - {z});
  }

  lemma {:induction false} SubsetSize<T>(a: set<T>, b: set<T>)
    requires a <= b
    ensures |a| <= |b|
  {
    assert b == a + (b - a);
  }

  /** What `LinkSpace` changes, read through the tree. */
  ghost predicate LinkStep(s: Space, s': Space, x: Loc, y: Loc, i: nat) {
    && TablesOk(s') && s.free != [] && s.free[0] !in s.loc && x in s.at && y in s.at
    && s'.at == s.at[Sub(y, i) := s.free[0]] && s'.loc == s.loc[s.free[0] := Sub(y, i)]
    && s'.free == s.free[1..] && s'.owner == s.owner && s'.mem.Keys == s.mem.Keys
    && (forall k, j: nat {:trigger Ent(s', k, j)} ::
          Ent(s', k, j) == if k == y && j == i then Share(Base(s.free[0]))
                           else if k == Sub(y, i) then ZERO
                           else if k == x && j == i then Mark(Ent(s, x, i))
                           else Ent(s, k, j))
    && (forall f {:trigger s'.mem[f]} | f in s.mem && f != s.at[x] && f != s.at[y] && f != s.free[0] ::
          s'.mem[f] == s.mem[f])
  }

  lemma LinkFacts(s: Space, x: Loc, y: Loc, i: nat)
    requires TablesOk(s) && x in s.at && y in s.at && x != y && Sub(y, i) !in s.at && i < 512 && s.free != []
    ensures LinkStep(s, LinkSpace(s, x, y, i), x, y, i)
  {
    var s1 := WriteEntry(s, x, i, Mark(Ent(s, x, i)));
    WriteFacts(s, x, i, Mark(Ent(s, x, i)));
    AddFacts(s1, Sub(y, i));
    WriteFacts(AddTable(s1, Sub(y, i)), y, i, Share(Base(s.free[0])));
  }

  ghost predicate CanLink(b: Space, s: Space, r: Frame, c: Frame, done: iset<Loc>, x: Loc, i: nat) {
    && Wf(b) && Root(c) !in b.at && |Tables(b, r)| <= |b.free|
    && x in b.at && RootOf(x) == r && Depth(x) < 3 && i < Width(x)
    && Rebase(x, c) in s.at && Sub(x, i) !in done && Ent(b, x, i) != ZERO
    && (forall j: nat | j < 512 :: Sub(Sub(x, i), j) !in done)
  }

  lemma LinkIsNew(b: Space, s: Space, r: Frame, c: Frame, done: iset<Loc>, x: Loc, i: nat)
    requires CanLink(b, s, r, c, done, x, i) && FramesKept(b, s, r, c) && Twins(b, s, r, c, done)
    ensures s.free != [] && Rebase(x, c) !in b.at && Sub(Rebase(x, c), i) !in b.at && Sub(Rebase(x, c), i) !in s.at
    ensures Rebase(Rebase(x, c), r) == x && Sub(x, i) in b.at && Depth(Rebase(x, c)) == Depth(x)
    ensures RootOf(Rebase(x, c)) == c && x != Rebase(x, c)
    ensures Sub(x, i) !in Copied(b, s, r, c)
  {
    NoForeignTables(b, c);
    RebaseFacts(x, c);
    assert TwinEntry(b, s, r, done, Rebase(x, c), i);
    assert EntryOk(b, x, i);
    assert Rebase(Sub(x, i), c) == Sub(Rebase(x, c), i);
    RoomForTwin(b, s, r, c, Sub(x, i));
  }

  lemma LinkCount(b: Space, s: Space, s': Space, r: Frame, c: Frame, x: Loc, i: nat, f: Frame)
    requires Sub(x, i) in b.at && RootOf(x) == r && Sub(x, i) !in Copied(b, s, r, c)
    requires s'.at == s.at[Sub(Rebase(x, c), i) := f]
    ensures |Copied(b, s', r, c)| == |Copied(b, s, r, c)| + 1
  {
    var z := Sub(x, i);
    assert Rebase(z, c) == Sub(Rebase(x, c), i) && RootOf(z) == r;
    forall l | l in b.at && RootOf(l) == r && Rebase(l, c) == Rebase(z, c) ensures l == z {
      RebaseIsInjective(l, z, r, c);
    }
    assert Copied(b, s', r, c) == Copied(b, s, r, c) + {z};
  }

  lemma SuffixStep<T>(b: seq<T>, s: seq<T>)
    requires 0 < |s| <= |b| && s == b[|b| - |s|..]
    ensures s[1..] == b[|b| - |s[1..]|..] && s[0] in b
  {
    assert s[0] == b[|b| - |s|];
  }

  /** A table that was not in `b` does not sit in a frame that was a table in `b`. */
  lemma NewTableFrame(b: Space, s: Space, y: Loc)
    requires PlacesOk(b) && PlacesOk(s) && y in s.at && y !in b.at
    requires forall l | l in b.at :: l in s.at && s.at[l] == b.at[l]
    ensures s.at[y] !in b.loc
  {
    assert s.loc[s.at[y]] == y;
  }

  lemma LinkOtherFrames(b: Space, s: Space, s': Space, r: Frame, x: Loc, y: Loc, i: nat)
    requires PlacesOk(b) && PlacesOk(s) && OtherFrames(b, s, r) && LinkStep(s, s', x, y, i)
    requires s.at[y] !in b.loc && s.free[0] !in b.loc
    requires s.at[x] in b.loc && b.loc[s.at[x]] == x && RootOf(x) == r
    ensures OtherFrames(b, s', r)
  {
  }

  lemma LinkQueue(b: Space, s: Space, s': Space, r: Frame, c: Frame, x: Loc, y: Loc, i: nat)
    requires FramesKept(b, s, r, c) && LinkStep(s, s', x, y, i)
    requires Sub(y, i) !in b.at && s.free[0] in b.free && s.free[1..] == b.free[|b.free| - |s.free| + 1..]
    requires |Copied(b, s', r, c)| == |Copied(b, s, r, c)| + 1
    requires OtherFrames(b, s', r)
    ensures FramesKept(b, s', r, c)
  {
  }

  /** The frame that becomes a table comes from the queue. */
  lemma LinkTakesFree(b: Space, s: Space, s': Space, r: Frame, c: Frame, x: Loc, y: Loc, i: nat)
    requires FramesKept(b, s, r, c) && LinkStep(s, s', x, y, i)
    ensures s.free[0] in b.free && s.free[1..] == b.free[|b.free| - |s.free| + 1..]
  {
    SuffixStep(b.free, s.free);
  }

  lemma LinkOthers(b: Space, s: Space, s': Space, r: Frame, c: Frame, x: Loc, y: Loc, i: nat)
    requires TablesOk(b) && FramesKept(b, s, r, c) && LinkStep(s, s', x, y, i)
    requires x in b.at && RootOf(x) == r && y !in b.at
    ensures OtherFrames(b, s', r)
  {
    NewTableFrame(b, s, y);
    LinkOtherFrames(b, s, s', r, x, y, i);
  }

  lemma LinkFrames(b: Space, s: Space, s': Space, r: Frame, c: Frame, x: Loc, y: Loc, i: nat)
    requires TablesOk(b) && FramesKept(b, s, r, c) && LinkStep(s, s', x, y, i)
    requires x in b.at && RootOf(x) == r && y !in b.at && Sub(y, i) !in b.at
    requires |Copied(b, s', r, c)| == |Copied(b, s, r, c)| + 1
    ensures FramesKept(b, s', r, c)
  {
    LinkTakesFree(b, s, s', r, c, x, y, i);
    LinkOthers(b, s, s', r, c, x, y, i);
    LinkQueue(b, s, s', r, c, x, y, i);
  }

  lemma LinkParents(b: Space, s: Space, s': Space, done: iset<Loc>, x: Loc, y: Loc, i: nat)
    requires Ent(b, x, i) != ZERO && Sub(x, i) !in done && y !in b.at && Sub(y, i) !in b.at && LinkStep(s, s', x, y, i)
    requires Parents(b, s, done)
    ensures Parents(b, s', done + iset{Sub(x, i)})
  {
    var done' := done + iset{Sub(x, i)};
    forall l, j: nat | l in b.at && j < 512 ensures ParentEntry(b, s', done', l, j) {
      assert ParentEntry(b, s, done, l, j);
    }
  }

  lemma LinkNewTwin(b: Space, s: Space, s': Space, r: Frame, c: Frame, done: iset<Loc>, x: Loc, i: nat, j: nat)
    requires CanLink(b, s, r, c, done, x, i) && Twins(b, s, r, c, done)
    requires LinkStep(s, s', x, Rebase(x, c), i) && Sub(Rebase(x, c), i) !in s.at && j < 512
    ensures TwinEntry(b, s', r, done + iset{Sub(x, i)}, Sub(Rebase(x, c), i), j)
  {
    var z := Sub(Rebase(x, c), i);
    RebaseFacts(x, c);
    assert Rebase(z, r) == Sub(x, i);
    assert RootOf(Sub(z, j)) == c;
    NoForeignTables(b, c);
    assert Sub(z, j) in s.at ==> TwinPlace(b, s, r, c, done, Sub(z, j));
  }

  lemma LinkOtherTwin(b: Space, s: Space, s': Space, r: Frame, c: Frame, done: iset<Loc>, x: Loc, i: nat, v: Loc,
      j: nat)
    requires RootOf(v) == c && RootOf(x) == r && v != Sub(Rebase(x, c), i)
    requires x in b.at && v !in b.at && j < Width(v) && Depth(x) < 3 && Ent(b, x, i) != ZERO
    requires TwinEntry(b, s, r, done, v, j) && LinkStep(s, s', x, Rebase(x, c), i)
    ensures TwinEntry(b, s', r, done + iset{Sub(x, i)}, v, j)
  {
    RebaseFacts(x, c);
    if v != Rebase(x, c) && Rebase(v, r) == x {
      RebaseIsInjective(v, Rebase(x, c), c, r);
    }
  }

  lemma LinkTwinPlace(b: Space, s: Space, s': Space, r: Frame, c: Frame, done: iset<Loc>, x: Loc, i: nat, v: Loc)
    requires CanLink(b, s, r, c, done, x, i) && FramesKept(b, s, r, c) && Twins(b, s, r, c, done)
    requires LinkStep(s, s', x, Rebase(x, c), i) && v in s'.at && v !in b.at
    ensures TwinPlace(b, s', r, c, done + iset{Sub(x, i)}, v)
  {
    LinkIsNew(b, s, r, c, done, x, i);
    if v != Sub(Rebase(x, c), i) {
      assert TwinPlace(b, s, r, c, done, v);
    }
  }

  lemma LinkTwinEntry(b: Space, s: Space, s': Space, r: Frame, c: Frame, done: iset<Loc>, x: Loc, i: nat, v: Loc,
      j: nat)
    requires CanLink(b, s, r, c, done, x, i) && FramesKept(b, s, r, c) && Twins(b, s, r, c, done)
    requires LinkStep(s, s', x, Rebase(x, c), i) && v in s'.at && v !in b.at && j < Width(v)
    ensures TwinEntry(b, s', r, done + iset{Sub(x, i)}, v, j)
  {
    LinkIsNew(b, s, r, c, done, x, i);
    if v == Sub(Rebase(x, c), i) {
      LinkNewTwin(b, s, s', r, c, done, x, i, j);
    } else {
      assert TwinPlace(b, s, r, c, done, v);
      assert TwinEntry(b, s, r, done, v, j);
      LinkOtherTwin(b, s, s', r, c, done, x, i, v, j);
    }
  }

  lemma LinkTwins(b: Space, s: Space, s': Space, r: Frame, c: Frame, done: iset<Loc>, x: Loc, i: nat)
    requires CanLink(b, s, r, c, done, x, i) && FramesKept(b, s, r, c) && Twins(b, s, r, c, done)
    requires LinkStep(s, s', x, Rebase(x, c), i)
    ensures Twins(b, s', r, c, done + iset{Sub(x, i)})
  {
    var done' := done + iset{Sub(x, i)};
    forall v | v in s'.at && v !in b.at ensures TwinPlace(b, s', r, c, done', v) {
      LinkTwinPlace(b, s, s', r, c, done, x, i, v);
    }
    forall v, j: nat | v in s'.at && v !in b.at && j < Width(v) ensures TwinEntry(b, s', r, done', v, j) {
      LinkTwinEntry(b, s, s', r, c, done, x, i, v, j);
    }
  }

  lemma CopyLinkFrames(b: Space, s: Space, s': Space, r: Frame, c: Frame, done: iset<Loc>, x: Loc, i: nat)
    requires CanLink(b, s, r, c, done, x, i) && FramesKept(b, s, r, c) && Parents(b, s, done) && Twins(b, s, r, c, done)
    requires LinkStep(s, s', x, Rebase(x, c), i)
    ensures FramesKept(b, s', r, c) && Parents(b, s', done + iset{Sub(x, i)})
  {
    LinkIsNew(b, s, r, c, done, x, i);
    LinkCount(b, s, s', r, c, x, i, s.free[0]);
    LinkFrames(b, s, s', r, c, x, Rebase(x, c), i);
    LinkParents(b, s, s', done, x, Rebase(x, c), i);
  }

  lemma LinkKernelSlots(s: Space, s': Space, c: Frame, x: Loc, i: nat)
    requires LinkStep(s, s', x, Rebase(x, c), i) && i < Width(x) && x != Root(c)
    ensures Ent(s', Root(c), 510) == Ent(s, Root(c), 510) && Ent(s', Root(c), 511) == Ent(s, Root(c), 511)
  {
  }

  lemma CopyLink(b: Space, s: Space, s': Space, r: Frame, c: Frame, done: iset<Loc>, k510: Word, k511: Word, x: Loc,
      i: nat)
    requires CanLink(b, s, r, c, done, x, i) && Copying(b, s, r, c, done, k510, k511)
    requires LinkStep(s, s', x, Rebase(x, c), i)
    ensures Copying(b, s', r, c, done + iset{Sub(x, i)}, k510, k511)
  {
    LinkKernelSlots(s, s', c, x, i);
    CopyLinkFrames(b, s, s', r, c, done, x, i);
    LinkTwins(b, s, s', r, c, done, x, i);
  }

  // ---------------------------------------------------------------------------
  // One leaf entry

  ghost predicate ShareStep(s: Space, s': Space, x: Loc, y: Loc, i: nat) {
    && TablesOk(s') && x in s.at && y in s.at
    && s'.at == s.at && s'.loc == s.loc && s'.free == s.free && s'.owner == s.owner && s'.mem.Keys == s.mem.Keys
    && (forall k, j: nat {:trigger Ent(s', k, j)} ::
          Ent(s', k, j) == if k == y && j == i then Share(Mark(Ent(s, x, i)))
                           else if k == x && j == i then Mark(Ent(s, x, i))
                           else Ent(s, k, j))
    && (forall f {:trigger s'.mem[f]} | f in s.mem && f != s.at[x] && f != s.at[y] :: s'.mem[f] == s.mem[f])
  }

  ghost function ShareSpace(s: Space, x: Loc, y: Loc, i: nat): Space
    requires TablesOk(s) && x in s.at && y in s.at && i < 512
  {
    WriteEntry(WriteEntry(s, x, i, Mark(Ent(s, x, i))), y, i, Share(Mark(Ent(s, x, i))))
  }

  lemma ShareFacts(s: Space, x: Loc, y: Loc, i: nat)
    requires TablesOk(s) && x in s.at && y in s.at && x != y && i < 512
    ensures ShareStep(s, ShareSpace(s, x, y, i), x, y, i)
  {
    WriteFacts(s, x, i, Mark(Ent(s, x, i)));
    WriteFacts(WriteEntry(s, x, i, Mark(Ent(s, x, i))), y, i, Share(Mark(Ent(s, x, i))));
  }

  ghost predicate CanShare(b: Space, s: Space, r: Frame, c: Frame, done: iset<Loc>, x: Loc, i: nat) {
    && Wf(b) && Root(c) !in b.at
    && x in b.at && RootOf(x) == r && Depth(x) == 3 && i < 512
    && Rebase(x, c) in s.at && Sub(x, i) !in done && Ent(b, x, i) != ZERO
  }

  lemma ShareTwin(b: Space, s: Space, s': Space, r: Frame, c: Frame, done: iset<Loc>, x: Loc, i: nat, v: Loc, j: nat)
    requires RootOf(v) == c && RootOf(x) == r && Depth(x) == 3 && Ent(b, x, i) != ZERO && Ent(s, x, i) == Ent(b, x, i)
    requires x in b.at && v !in b.at && j < Width(v)
    requires TwinEntry(b, s, r, done, v, j) && ShareStep(s, s', x, Rebase(x, c), i)
    ensures TwinEntry(b, s', r, done + iset{Sub(x, i)}, v, j)
  {
    RebaseFacts(x, c);
    if v != Rebase(x, c) && Rebase(v, r) == x {
      RebaseIsInjective(v, Rebase(x, c), c, r);
    }
  }

  lemma ShareTwins(b: Space, s: Space, s': Space, r: Frame, c: Frame, done: iset<Loc>, x: Loc, i: nat)
    requires CanShare(b, s, r, c, done, x, i) && Parents(b, s, done) && Twins(b, s, r, c, done)
    requires ShareStep(s, s', x, Rebase(x, c), i)
    ensures Twins(b, s', r, c, done + iset{Sub(x, i)})
  {
    var done' := done + iset{Sub(x, i)};
    assert ParentEntry(b, s, done, x, i);
    forall v | v in s'.at && v !in b.at ensures TwinPlace(b, s', r, c, done', v) {
      assert TwinPlace(b, s, r, c, done, v);
    }
    forall v, j: nat | v in s'.at && v !in b.at && j < Width(v) ensures TwinEntry(b, s', r, done', v, j) {
      assert TwinPlace(b, s, r, c, done, v);
      assert TwinEntry(b, s, r, done, v, j);
      ShareTwin(b, s, s', r, c, done, x, i, v, j);
    }
  }

  lemma ShareParents(b: Space, s: Space, s': Space, done: iset<Loc>, x: Loc, y: Loc, i: nat)
    requires Ent(b, x, i) != ZERO && Sub(x, i) !in done && y !in b.at && ShareStep(s, s', x, y, i)
    requires Parents(b, s, done)
    ensures Parents(b, s', done + iset{Sub(x, i)})
  {
    var done' := done + iset{Sub(x, i)};
    forall l, j: nat | l in b.at && j < 512 ensures ParentEntry(b, s', done', l, j) {
      assert ParentEntry(b, s, done, l, j);
    }
  }

  lemma ShareOtherFrames(b: Space, s: Space, s': Space, r: Frame, x: Loc, y: Loc, i: nat)
    requires PlacesOk(b) && PlacesOk(s) && OtherFrames(b, s, r) && ShareStep(s, s', x, y, i)
    requires s.at[y] !in b.loc
    requires s.at[x] in b.loc && b.loc[s.at[x]] == x && RootOf(x) == r
    ensures OtherFrames(b, s', r)
  {
  }

  lemma CopyShare(b: Space, s: Space, s': Space, r: Frame, c: Frame, done: iset<Loc>, k510: Word, k511: Word, x: Loc,
      i: nat)
    requires CanShare(b, s, r, c, done, x, i) && Copying(b, s, r, c, done, k510, k511)
    requires ShareStep(s, s', x, Rebase(x, c), i)
    ensures Copying(b, s', r, c, done + iset{Sub(x, i)}, k510, k511)
  {
    var y := Rebase(x, c);
    RebaseFacts(x, c);
    NoForeignTables(b, c);
    NewTableFrame(b, s, y);
    ShareOtherFrames(b, s, s', r, x, y, i);
    assert Copied(b, s', r, c) == Copied(b, s, r, c);
    ShareTwins(b, s, s', r, c, done, x, i);
    ShareParents(b, s, s', done, x, y, i);
  }

  // ---------------------------------------------------------------------------
  // Slots 510 and 511 of the child's PML4

  lemma CopyKernelSlot(b: Space, s: Space, r: Frame, c: Frame, done: iset<Loc>, k510: Word, k511: Word, i: nat, w: Word)
    requires Wf(b) && Root(c) !in b.at && Copying(b, s, r, c, done, k510, k511) && (i == 510 || i == 511)
    ensures Copying(b, WriteEntry(s, Root(c), i, w), r, c, done,
                    if i == 510 then w else k510, if i == 511 then w else k511)
  {
    var s' := WriteEntry(s, Root(c), i, w);
    WriteFacts(s, Root(c), i, w);
    NewTableFrame(b, s, Root(c));
    assert OtherFrames(b, s', r);
    assert Copied(b, s', r, c) == Copied(b, s, r, c);
    KernelSlotEntries(b, s, s', r, c, done, i, w);
  }

  lemma KernelSlotEntries(b: Space, s: Space, s': Space, r: Frame, c: Frame, done: iset<Loc>, i: nat, w: Word)
    requires Root(c) !in b.at && Parents(b, s, done) && Twins(b, s, r, c, done) && 510 <= i < 512 && s'.at == s.at
    requires forall k, j: nat {:trigger Ent(s', k, j)} ::
               Ent(s', k, j) == if k == Root(c) && j == i then w else Ent(s, k, j)
    ensures Parents(b, s', done) && Twins(b, s', r, c, done)
  {
    forall l, j: nat | l in b.at && j < 512 ensures ParentEntry(b, s', done, l, j) {
      assert ParentEntry(b, s, done, l, j);
    }
    forall v | v in s'.at && v !in b.at ensures TwinPlace(b, s', r, c, done, v) {
      assert TwinPlace(b, s, r, c, done, v);
    }
    forall v, j: nat | v in s'.at && v !in b.at && j < Width(v) ensures TwinEntry(b, s', r, done, v, j) {
      assert TwinEntry(b, s, r, done, v, j);
    }
  }
}
