/**
  Copy-on-write fork refines eager copying: over every run of forks, reads, writes, touched and
  mapped pages, `clear_uptentries`, and the frames that the kernel takes, fills and returns between
  these steps, each process sees exactly the memory it would have if fork had copied every page.
 */
module CowRefinement {
  import opened PageEntries
  import opened PageTables
  import opened ForkCopy
  import opened ForkMeaning
  import opened CowFault
  import opened ExecClear
  import opened PageMaps
  import opened KernelSteps
  import opened Wrappers

  // ---------------------------------------------------------------------------
  // What a process sees

  ghost function Image(s: Space, r: Frame, p: Page): Option<seq<Word>> {
    match FrameAt(s.mem, PageLoc(r, p))
    case None => None
    case Some(f) => if f in s.mem then Some(s.mem[f]) else None
  }

  lemma ImageOfMapped(s: Space, r: Frame, p: Page)
    requires Wf(s) && Root(r) in s.at && UserPage(p)
    ensures Image(s, r, p).Some? <==> FrameAt(s.mem, PageLoc(r, p)).Some?
    ensures Image(s, r, p).Some? ==> |Image(s, r, p).value| == 512
    ensures FrameAt(s.mem, PageLoc(r, p)).Some? ==>
              var f := FrameAt(s.mem, PageLoc(r, p)).value;
              f in s.mem && f !in s.loc && f !in s.free && PtLoc(r, p) in s.at && Ent(s, PtLoc(r, p), p.i1).frame == f
  {
    WalkToPage(s, r, p);
    PtLocFacts(r, p);
    if Ent(s, PtLoc(r, p), p.i1) != ZERO {
      assert EntryOk(s, PtLoc(r, p), p.i1);
    }
  }

  // ---------------------------------------------------------------------------
  // Writes

  /** The MMU stores `w` into word `k` of the page, without asking for permission. */
  ghost predicate Stored(b: Space, s: Space, r: Frame, p: Page, k: nat, w: Word) {
    && UserPage(p) && k < 512
    && var f := FrameAt(b.mem, PageLoc(r, p));
       f.Some? && f.value in b.mem && |b.mem[f.value]| == 512 &&
       s == b.(mem := b.mem[f.value := b.mem[f.value][k := w]])
  }

  /** A write to a mapped page: straight through if the walk permits it; otherwise it faults, passes
      the copy-on-write test, runs `copy_page` and is repeated. */
  ghost predicate Wrote(b: Space, s: Space, r: Frame, p: Page, k: nat, w: Word) {
    if WritableAt(b.mem, PageLoc(r, p)) then Stored(b, s, r, p, k, w)
    else PassesCowTest(b, r, p) && exists m: Space :: Faulted(b, m, r, p) && Stored(m, s, r, p, k, w)
  }

  lemma {:induction false} ReadOnlyIsMarked(s: Space, l: Loc)
    requires Wf(s) && l.Sub? && l.parent in s.at && l.index < Width(l.parent) && Ent(s, l.parent, l.index) != ZERO
    requires !WritableAt(s.mem, l) && Root(RootOf(l)) in s.at
    ensures TopCow(s, l)
  {
    assert EntryOk(s, l.parent, l.index) && LinkOk(s, l.parent);
    WalkFollowsTree(s, l.parent);
    if Ent(s, l.parent, l.index).writable {
      assert Ent(s, l.parent, l.index) == s.mem[s.at[l.parent]][l.index];
      ReadOnlyIsMarked(s, l.parent);
    }
  }

  /** A write fault on a mapped user page always takes the copy-on-write branch. */
  lemma FaultTakesCowBranch(s: Space, r: Frame, p: Page)
    requires Wf(s) && Root(r) in s.at && UserPage(p)
    requires FrameAt(s.mem, PageLoc(r, p)).Some? && !WritableAt(s.mem, PageLoc(r, p))
    ensures PassesCowTest(s, r, p) && PtLoc(r, p) in s.at
  {
    PtLocFacts(r, p);
    WalkToPage(s, r, p);
    ReadOnlyIsMarked(s, PageLoc(r, p));
    TopCowIsRootEntry(s, r, p);
    assert LinkOk(s, PtLoc(r, p)) && LinkOk(s, PtLoc(r, p).parent) && LinkOk(s, PtLoc(r, p).parent.parent);
    assert EntryOk(s, Root(r), p.i4);
  }

  lemma StoreKeepsWf(b: Space, s: Space, r: Frame, p: Page, k: nat, w: Word)
    requires Wf(b) && Root(r) in b.at && Stored(b, s, r, p, k, w)
    ensures Wf(s)
    ensures forall l, i: nat {:trigger Ent(s, l, i)} :: Ent(s, l, i) == Ent(b, l, i)
  {
    ImageOfMapped(b, r, p);
    forall l, i: nat ensures Ent(s, l, i) == Ent(b, l, i) {}
    forall l | l in s.at ensures LinkOk(s, l) {
      assert LinkOk(b, l);
    }
    forall l, i: nat | l in s.at && i < Width(l) && Ent(s, l, i) != ZERO ensures EntryOk(s, l, i) {
      assert EntryOk(b, l, i);
      SameTopCow(b, s, Sub(l, i));
    }
  }

  /** A permitted store changes one word of one page of one process. */
  lemma StoreImages(b: Space, s: Space, r: Frame, p: Page, k: nat, w: Word, q: Frame, u: Page)
    requires Wf(b) && Root(r) in b.at && Root(q) in b.at && UserPage(u)
    requires Stored(b, s, r, p, k, w) && WritableAt(b.mem, PageLoc(r, p))
    ensures Image(b, r, p).Some? && |Image(b, r, p).value| == 512
    ensures Image(s, q, u) == if (q, u) == (r, p) then Some(Image(b, r, p).value[k := w]) else Image(b, q, u)
  {
    StoreKeepsWf(b, s, r, p, k, w);
    ImageOfMapped(b, r, p);
    ImageOfMapped(b, q, u);
    PtLocFacts(q, u);
    SameWalk(b, s, PageLoc(q, u));
    if (q, u) != (r, p) && FrameAt(b.mem, PageLoc(q, u)) == FrameAt(b.mem, PageLoc(r, p)) {
      SharedFrameIsReadOnly(b, q, u, r, p);
    }
  }

  lemma FaultImages(b: Space, s: Space, r: Frame, p: Page, q: Frame, u: Page)
    requires Wf(b) && Faulted(b, s, r, p) && Root(q) in b.at && UserPage(u)
    ensures Image(s, q, u) == Image(b, q, u)
  {
    FaultedPage(b, s, r, p);
    if (q, u) != (r, p) {
      FaultLeavesOthers(b, s, r, p, q, u);
    }
  }

  /** One word of one page of one process has changed; nobody else sees a difference. */
  ghost predicate OneWordChanged(b: Space, s: Space, r: Frame, p: Page, k: nat, w: Word) {
    && Image(b, r, p).Some? && |Image(b, r, p).value| == 512 && k < 512
    && forall q: Frame, u: Page {:trigger Image(s, q, u)} | Root(q) in b.at && UserPage(u) ::
         Image(s, q, u) == if (q, u) == (r, p) then Some(Image(b, r, p).value[k := w]) else Image(b, q, u)
  }

  lemma StoreChangesOneWord(b: Space, s: Space, r: Frame, p: Page, k: nat, w: Word)
    requires Wf(b) && Root(r) in b.at && Stored(b, s, r, p, k, w) && WritableAt(b.mem, PageLoc(r, p))
    ensures OneWordChanged(b, s, r, p, k, w)
  {
    StoreImages(b, s, r, p, k, w, r, p);
    forall q: Frame, u: Page | Root(q) in b.at && UserPage(u)
      ensures Image(s, q, u) == if (q, u) == (r, p) then Some(Image(b, r, p).value[k := w]) else Image(b, q, u)
    {
      StoreImages(b, s, r, p, k, w, q, u);
    }
  }

  lemma FaultChangesNoImage(b: Space, m: Space, s: Space, r: Frame, p: Page, k: nat, w: Word)
    requires Wf(b) && Faulted(b, m, r, p) && OneWordChanged(m, s, r, p, k, w)
    ensures OneWordChanged(b, s, r, p, k, w)
  {
    FaultedPage(b, m, r, p);
    FaultImages(b, m, r, p, r, p);
    forall q: Frame, u: Page | Root(q) in b.at && UserPage(u)
      ensures Image(s, q, u) == if (q, u) == (r, p) then Some(Image(b, r, p).value[k := w]) else Image(b, q, u)
    {
      FaultImages(b, m, r, p, q, u);
    }
  }

  lemma WriteChangesOneWord(b: Space, s: Space, r: Frame, p: Page, k: nat, w: Word)
    requires Wf(b) && Root(r) in b.at && Wrote(b, s, r, p, k, w)
    ensures Wf(s) && s.at == b.at && UserPage(p) && OneWordChanged(b, s, r, p, k, w)
  {
    if WritableAt(b.mem, PageLoc(r, p)) {
      StoreKeepsWf(b, s, r, p, k, w);
      StoreChangesOneWord(b, s, r, p, k, w);
    } else {
      var m: Space :| Faulted(b, m, r, p) && Stored(m, s, r, p, k, w);
      FaultKeepsWf(b, m, r, p);
      FaultedPage(b, m, r, p);
      StoreKeepsWf(m, s, r, p, k, w);
      StoreChangesOneWord(m, s, r, p, k, w);
      FaultChangesNoImage(b, m, s, r, p, k, w);
    }
  }

  // ---------------------------------------------------------------------------
  // The eager machine: fork copies every page

  type Eager = map<Frame, map<Page, seq<Word>>>

  datatype Event =
    | Fork(parent: Frame, child: Frame)
    | Write(proc: Frame, page: Page, k: nat, w: Word)
    | Read(proc: Frame, page: Page, k: nat, value: Word)
    | Touch(proc: Frame, page: Page, stale: seq<Word>)
    | Open(proc: Frame, page: Page)
    | Map(proc: Frame, page: Page, content: seq<Word>)
    | Renew(proc: Frame, page: Page)
    | Spawn(child: Frame)
    | Alloc(count: nat)
    | Fill(frame: Frame, words: seq<Word>)
    | Release(frames: seq<Frame>)
    | Clear(proc: Frame)

  /** The event is possible, and a read returns what the memory holds. */
  predicate EagerAllows(a: Eager, ev: Event) {
    match ev
    case Fork(r, c) => r in a && c !in a
    case Write(r, p, k, w) => r in a && p in a[r] && k < |a[r][p]|
    case Read(r, p, k, v) => r in a && p in a[r] && k < |a[r][p]| && v == a[r][p][k]
    case Touch(r, p, stale) => r in a && p !in a[r]
    case Open(r, p) => r in a
    case Map(r, p, content) => r in a && p !in a[r]
    case Renew(r, p) => r in a
    case Spawn(c) => c !in a
    case Alloc(n) => true
    case Fill(f, words) => true
    case Release(frames) => true
    case Clear(r) => r in a
  }

  function EagerNext(a: Eager, ev: Event): Eager
    requires EagerAllows(a, ev)
  {
    match ev
    case Fork(r, c) => a[c := a[r]]
    case Write(r, p, k, w) => a[r := a[r][p := a[r][p][k := w]]]
    case Read(r, p, k, v) => a
    case Touch(r, p, stale) => a[r := a[r][p := stale]]
    case Open(r, p) => a
    case Map(r, p, content) => a[r := a[r][p := content]]
    case Renew(r, p) => a[r := map u | u in a[r] && !SameTable(u, p) :: a[r][u]]
    case Spawn(c) => a[c := map[]]
    case Alloc(n) => a
    case Fill(f, words) => a
    case Release(frames) => a
    case Clear(r) => a[r := map[]]
  }

  ghost predicate Step(b: Space, ev: Event, s: Space) {
    match ev
    case Fork(r, c) => Forked(b, s, r, c)
    case Write(r, p, k, w) => Root(r) in b.at && Wrote(b, s, r, p, k, w)
    case Read(r, p, k, v) =>
      && Root(r) in b.at && UserPage(p) && k < 512 && s == b
      && Image(b, r, p).Some? && k < |Image(b, r, p).value| && v == Image(b, r, p).value[k]
    case Touch(r, p, stale) => PassesCowTest(b, r, p) && Touched(b, s, r, p) && b.free[0] in b.mem
        && stale == b.mem[b.free[0]]
    case Open(r, p) => CanReach(b, r, p) && s == OpenWay(b, r, p)
    case Map(r, p, content) => exists f :: MapsPage(b, s, r, p, f) && content == b.mem[f]
    case Renew(r, p) => RenewsTable(b, s, r, p)
    case Spawn(c) => b.free != [] && c == b.free[0] && exists k510, k511 :: s == Spawned(b, k510, k511)
    case Alloc(n) => n <= |b.free| && s == Taken(b, n)
    case Fill(f, words) => Unused(b, f) && |words| == 512 && s == Filled(b, f, words)
    case Release(frames) => Distinct(frames) && (forall f | f in frames :: Unused(b, f)) && s == Freed(b, frames)
    case Clear(r) => Cleared(b, s, r)
  }

  /** Two pages of one page table. */
  predicate SameTable(u: Page, p: Page) {
    u.i4 == p.i4 && u.i3 == p.i3 && u.i2 == p.i2
  }

  /** A new page table takes the place of that of page `p`. */
  ghost predicate RenewsTable(b: Space, s: Space, r: Frame, p: Page) {
    UserPage(p) && CanRenew(b, PtLoc(r, p).parent, p.i2) && s == RenewPt(b, PtLoc(r, p).parent, p.i2)
  }

  /** An unmapped page of a table that is there gets a frame that nobody uses. */
  ghost predicate MapsPage(b: Space, s: Space, r: Frame, p: Page, f: Frame) {
    && UserPage(p) && HasTable(b, PtLoc(r, p)) && Ent(b, PtLoc(r, p), p.i1) == ZERO && Unused(b, f)
    && s == PutAt(b, PtLoc(r, p), p.i1, f)
  }

  ghost predicate Represents(s: Space, a: Eager) {
    && (forall r {:trigger Root(r)} {:trigger r in a} :: r in a <==> Root(r) in s.at)
    && (forall r, p {:trigger p in a[r]} {:trigger Image(s, r, p)} | r in a ::
          (p in a[r] <==> UserPage(p) && Image(s, r, p).Some?) && (p in a[r] ==> Some(a[r][p]) == Image(s, r, p)))
  }

  lemma ForkStep(b: Space, s: Space, r: Frame, c: Frame, a: Eager)
    requires Wf(b) && Forked(b, s, r, c) && Represents(b, a)
    ensures Wf(s) && r in a && c !in a && Represents(s, a[c := a[r]])
  {
    ForkKeepsWf(b, s, r, c);
    forall q ensures Root(q) in s.at <==> Root(q) in b.at || q == c {
      if Root(q) in s.at && Root(q) !in b.at {
        ChildAfterFork(b, s, r, c, Root(q), 0);
      }
    }
    forall q, p | UserPage(p) && Root(q) in s.at
      ensures Image(s, q, p) == if q == c then Image(b, r, p) else Image(b, q, p)
    {
      ForkImages(b, s, r, c, q, p);
    }
  }

  lemma ForkImages(b: Space, s: Space, r: Frame, c: Frame, q: Frame, p: Page)
    requires Wf(b) && Forked(b, s, r, c) && UserPage(p) && (Root(q) in b.at || q == c)
    ensures Image(s, q, p) == if q == c then Image(b, r, p) else Image(b, q, p)
  {
    var o := if q == c then r else q;
    ImageOfMapped(b, o, p);
    if q == c || q == r {
      ForkSharesEveryPage(b, s, r, c, p);
    } else {
      ForkLeavesOthers(b, s, r, c, q, p);
    }
    if FrameAt(b.mem, PageLoc(o, p)).Some? {
      DataFrameStaysData(b, s, r, c, FrameAt(b.mem, PageLoc(o, p)).value);
    }
  }

  lemma WriteStep(b: Space, s: Space, r: Frame, p: Page, k: nat, w: Word, a: Eager)
    requires Wf(b) && Root(r) in b.at && Wrote(b, s, r, p, k, w) && Represents(b, a)
    ensures Wf(s) && r in a && p in a[r] && k < |a[r][p]| && Represents(s, a[r := a[r][p := a[r][p][k := w]]])
  {
    WriteChangesOneWord(b, s, r, p, k, w);
    assert Some(a[r][p]) == Image(b, r, p);
    WordRepresents(b, s, r, p, k, w, a);
  }

  lemma WordRepresents(b: Space, s: Space, r: Frame, p: Page, k: nat, w: Word, a: Eager)
    requires s.at == b.at && UserPage(p) && OneWordChanged(b, s, r, p, k, w) && Represents(b, a)
    requires r in a && p in a[r] && k < |a[r][p]| && Some(a[r][p]) == Image(b, r, p)
    ensures Represents(s, a[r := a[r][p := a[r][p][k := w]]])
  {
    var a' := a[r := a[r][p := a[r][p][k := w]]];
    forall q, u | q in a'
      ensures (u in a'[q] <==> UserPage(u) && Image(s, q, u).Some?) && (u in a'[q] ==> Some(a'[q][u]) == Image(s, q, u))
    {
      assert Root(q) in b.at;
      assert u in a[q] <==> UserPage(u) && Image(b, q, u).Some?;
      if !UserPage(u) {
        assert u !in a[q];
      }
    }
  }

  lemma TouchStep(b: Space, s: Space, r: Frame, p: Page, a: Eager)
    requires Wf(b) && Touched(b, s, r, p) && Represents(b, a)
    ensures Wf(s) && r in a && p !in a[r] && b.free[0] in b.mem
    ensures Represents(s, a[r := a[r][p := b.mem[b.free[0]]]])
  {
    TouchedPage(b, s, r, p);
    FaultKeepsWf(b, s, r, p);
    var a' := a[r := a[r][p := b.mem[b.free[0]]]];
    assert p in a[r] <==> Image(b, r, p).Some?;
    forall q, u | q in a'
      ensures (u in a'[q] <==> UserPage(u) && Image(s, q, u).Some?) && (u in a'[q] ==> Some(a'[q][u]) == Image(s, q, u))
    {
      assert Root(q) in b.at;
      assert u in a[q] <==> UserPage(u) && Image(b, q, u).Some?;
      if UserPage(u) && (q, u) != (r, p) {
        FaultLeavesOthers(b, s, r, p, q, u);
      }
    }
  }

  /** No leaf entry and no page of a process has changed. */
  ghost predicate KeepsImages(b: Space, s: Space) {
    && (forall q {:trigger Root(q)} :: Root(q) in s.at <==> Root(q) in b.at)
    && (forall l, i: nat {:trigger Ent(s, l, i)} :: Depth(l) == 3 ==> Ent(s, l, i) == Ent(b, l, i))
    && (forall f, l, i: nat {:trigger BacksPage(b, f, l, i)} :: BacksPage(b, f, l, i) && f in b.mem ==>
          f in s.mem && s.mem[f] == b.mem[f])
  }

  lemma KeptImage(b: Space, s: Space, q: Frame, u: Page)
    requires Wf(b) && Wf(s) && KeepsImages(b, s) && Root(q) in b.at && UserPage(u)
    ensures Image(s, q, u) == Image(b, q, u)
  {
    PtLocFacts(q, u);
    WalkToPage(b, q, u);
    WalkToPage(s, q, u);
    if Ent(b, PtLoc(q, u), u.i1) != ZERO {
      assert EntryOk(b, PtLoc(q, u), u.i1);
      assert BacksPage(b, Ent(b, PtLoc(q, u), u.i1).frame, PtLoc(q, u), u.i1);
    }
  }

  lemma KeptRepresents(b: Space, s: Space, a: Eager)
    requires Wf(b) && Wf(s) && KeepsImages(b, s) && Represents(b, a)
    ensures Represents(s, a)
  {
    forall q, u | UserPage(u) && Root(q) in b.at ensures Image(s, q, u) == Image(b, q, u) {
      KeptImage(b, s, q, u);
    }
  }

  /** Neither a table nor a free frame backs a page. */
  lemma BackingIsData(b: Space, f: Frame, l: Loc, i: nat)
    requires Wf(b) && BacksPage(b, f, l, i)
    ensures f in b.mem && f !in b.loc && f !in b.free
  {
    assert LinkOk(b, l) && EntryOk(b, l, i);
  }

  lemma SameLeavesKeep(b: Space, s: Space)
    requires Wf(b) && SameLeaves(b, s)
    ensures KeepsImages(b, s)
  {
    forall f, l, i: nat | BacksPage(b, f, l, i) ensures f in s.mem && s.mem[f] == b.mem[f] {
      BackingIsData(b, f, l, i);
    }
  }

  lemma OpenStep(b: Space, r: Frame, p: Page, a: Eager)
    requires CanReach(b, r, p) && Represents(b, a)
    ensures Wf(OpenWay(b, r, p)) && r in a && Represents(OpenWay(b, r, p), a)
  {
    WayChangesNoLeaf(b, r, p);
    SameLeavesKeep(b, OpenWay(b, r, p));
    KeptRepresents(b, OpenWay(b, r, p), a);
  }

  lemma MapImage(b: Space, s: Space, r: Frame, p: Page, f: Frame, q: Frame, u: Page)
    requires Wf(b) && Wf(s) && MapsPage(b, s, r, p, f) && Root(r) in b.at && Root(q) in b.at && UserPage(u)
    ensures f in b.mem && Image(b, r, p) == None
    ensures Image(s, q, u) == if (q, u) == (r, p) then Some(b.mem[f]) else Image(b, q, u)
  {
    PtLocFacts(r, p);
    PutEntryFacts(b, PtLoc(r, p), p.i1, f);
    PtLocFacts(q, u);
    WalkToPage(b, r, p);
    WalkToPage(b, q, u);
    WalkToPage(s, q, u);
    assert (q, u) != (r, p) ==> PageLoc(q, u) != PageLoc(r, p);
    assert Ent(b, PtLoc(q, u), u.i1) != ZERO ==> EntryOk(b, PtLoc(q, u), u.i1);
  }

  lemma MapStep(b: Space, s: Space, r: Frame, p: Page, f: Frame, a: Eager)
    requires Wf(b) && MapsPage(b, s, r, p, f) && Represents(b, a)
    ensures Wf(s) && r in a && p !in a[r] && f in b.mem && Represents(s, a[r := a[r][p := b.mem[f]]])
  {
    PtLocFacts(r, p);
    RootIsPresent(b, PtLoc(r, p));
    PutKeepsWf(b, PtLoc(r, p), p.i1, f);
    MapImage(b, s, r, p, f, r, p);
    var a' := a[r := a[r][p := b.mem[f]]];
    forall q, u | q in a'
      ensures (u in a'[q] <==> UserPage(u) && Image(s, q, u).Some?) && (u in a'[q] ==> Some(a'[q][u]) == Image(s, q, u))
    {
      assert Root(q) in b.at;
      assert u in a[q] <==> UserPage(u) && Image(b, q, u).Some?;
      if UserPage(u) {
        MapImage(b, s, r, p, f, q, u);
      }
    }
  }

  lemma AllocStep(b: Space, n: nat, a: Eager)
    requires Wf(b) && n <= |b.free| && Represents(b, a)
    ensures Wf(Taken(b, n)) && Represents(Taken(b, n), a)
  {
    TakingKeepsWf(b, n);
    KeptRepresents(b, Taken(b, n), a);
  }

  lemma FillStep(b: Space, f: Frame, words: seq<Word>, a: Eager)
    requires Wf(b) && Unused(b, f) && |words| == 512 && Represents(b, a)
    ensures Wf(Filled(b, f, words)) && Represents(Filled(b, f, words), a)
  {
    FillingKeepsWf(b, f, words);
    KeptRepresents(b, Filled(b, f, words), a);
  }

  lemma ReleaseStep(b: Space, frames: seq<Frame>, a: Eager)
    requires Wf(b) && Distinct(frames) && (forall f | f in frames :: Unused(b, f)) && Represents(b, a)
    ensures Wf(Freed(b, frames)) && Represents(Freed(b, frames), a)
  {
    FreesKeepWf(b, frames);
    assert SameTables(b, Freed(b, frames));
    KeptRepresents(b, Freed(b, frames), a);
  }

  lemma SpawnImage(b: Space, s: Space, c: Frame, q: Frame, u: Page)
    requires Wf(b) && Wf(s) && NewRoot(b, s, c) && UserPage(u) && (Root(q) in b.at || q == c)
    ensures Image(s, q, u) == if q == c then None else Image(b, q, u)
  {
    PtLocFacts(q, u);
    WalkToPage(s, q, u);
    if q == c {
      if PtLoc(c, u) in s.at {
        RootIsPresent(b, PtLoc(c, u));
      }
    } else {
      WalkToPage(b, q, u);
      if Ent(b, PtLoc(q, u), u.i1) != ZERO {
        BackingIsData(b, Ent(b, PtLoc(q, u), u.i1).frame, PtLoc(q, u), u.i1);
      }
    }
  }

  lemma SpawnStep(b: Space, k510: Word, k511: Word, a: Eager)
    requires Wf(b) && b.free != [] && Represents(b, a)
    ensures var s := Spawned(b, k510, k511); Wf(s) && b.free[0] !in a && Represents(s, a[b.free[0] := map[]])
  {
    var c, s := b.free[0], Spawned(b, k510, k511);
    SpawnKeepsWf(b, k510, k511);
    forall q, u | UserPage(u) && (Root(q) in b.at || q == c)
      ensures Image(s, q, u) == if q == c then None else Image(b, q, u)
    {
      SpawnImage(b, s, c, q, u);
    }
  }

  lemma RenewImage(b: Space, s: Space, r: Frame, p: Page, q: Frame, u: Page)
    requires Wf(b) && Wf(s) && UserPage(p) && Renewed(b, s, PtLoc(r, p).parent, p.i2)
    requires Root(q) in b.at && UserPage(u)
    ensures Image(s, q, u) == if q == r && SameTable(u, p) then None else Image(b, q, u)
  {
    PtLocFacts(q, u);
    PtLocFacts(r, p);
    assert PtLoc(q, u) == PtLoc(r, p) <==> q == r && SameTable(u, p);
    WalkToPage(b, q, u);
    WalkToPage(s, q, u);
    assert Depth(PtLoc(r, p).parent) == 2;
    if Ent(b, PtLoc(q, u), u.i1) != ZERO {
      BackingIsData(b, Ent(b, PtLoc(q, u), u.i1).frame, PtLoc(q, u), u.i1);
    }
  }

  lemma RenewFacts(b: Space, s: Space, r: Frame, p: Page)
    requires Wf(b) && RenewsTable(b, s, r, p)
    ensures Wf(s) && Root(r) in b.at && UserPage(p) && Renewed(b, s, PtLoc(r, p).parent, p.i2)
    ensures forall q :: Root(q) in s.at <==> Root(q) in b.at
  {
    RenewKeepsWf(b, PtLoc(r, p).parent, p.i2);
    PtLocFacts(r, p);
    assert RootOf(PtLoc(r, p).parent) == r;
    RootIsPresent(b, PtLoc(r, p).parent);
  }

  lemma RenewStep(b: Space, s: Space, r: Frame, p: Page, a: Eager)
    requires Wf(b) && RenewsTable(b, s, r, p) && Represents(b, a)
    ensures Wf(s) && r in a && Represents(s, a[r := map u | u in a[r] && !SameTable(u, p) :: a[r][u]])
  {
    RenewFacts(b, s, r, p);
    var a' := a[r := map u | u in a[r] && !SameTable(u, p) :: a[r][u]];
    forall q, u | q in a'
      ensures (u in a'[q] <==> UserPage(u) && Image(s, q, u).Some?) && (u in a'[q] ==> Some(a'[q][u]) == Image(s, q, u))
    {
      RenewedPage(b, s, r, p, a, q, u);
    }
  }

  lemma RenewedPage(b: Space, s: Space, r: Frame, p: Page, a: Eager, q: Frame, u: Page)
    requires Wf(b) && Wf(s) && UserPage(p) && Renewed(b, s, PtLoc(r, p).parent, p.i2)
    requires Represents(b, a) && q in a
    ensures u in a[q] && !(q == r && SameTable(u, p)) <==> UserPage(u) && Image(s, q, u).Some?
    ensures u in a[q] && !(q == r && SameTable(u, p)) ==> Some(a[q][u]) == Image(s, q, u)
  {
    assert Root(q) in b.at;
    assert u in a[q] <==> UserPage(u) && Image(b, q, u).Some?;
    if UserPage(u) {
      RenewImage(b, s, r, p, q, u);
    }
  }

  lemma ClearImage(b: Space, s: Space, r: Frame, q: Frame, p: Page)
    requires Wf(b) && Cleared(b, s, r) && UserPage(p) && Root(q) in b.at
    ensures Image(s, q, p) == if q == r then None else Image(b, q, p)
  {
    if q == r {
      ClearUnmapsCaller(b, s, r, p);
    } else {
      ClearLeavesOthers(b, s, r, q, p);
    }
  }

  lemma ClearRepresents(b: Space, s: Space, r: Frame, a: Eager)
    requires Represents(b, a) && r in a && forall q :: Root(q) in s.at <==> Root(q) in b.at
    requires forall q, p {:trigger Image(s, q, p)} | UserPage(p) && Root(q) in b.at ::
               Image(s, q, p) == if q == r then None else Image(b, q, p)
    ensures Represents(s, a[r := map[]])
  {
  }

  lemma ClearStep(b: Space, s: Space, r: Frame, a: Eager)
    requires Wf(b) && Cleared(b, s, r) && Represents(b, a)
    ensures Wf(s) && r in a && Represents(s, a[r := map[]])
  {
    ClearKeepsWf(b, s, r);
    forall q, p | UserPage(p) && Root(q) in b.at ensures Image(s, q, p) == if q == r then None else Image(b, q, p) {
      ClearImage(b, s, r, q, p);
    }
    ClearRepresents(b, s, r, a);
  }

  /** The steps that take, fill or return frames. */
  lemma FrameStepRefines(b: Space, ev: Event, s: Space, a: Eager)
    requires Wf(b) && Step(b, ev, s) && Represents(b, a) && (ev.Alloc? || ev.Fill? || ev.Release?)
    ensures Wf(s) && EagerAllows(a, ev) && Represents(s, EagerNext(a, ev))
  {
    match ev
    case Alloc(n) => AllocStep(b, n, a);
    case Fill(f, words) => FillStep(b, f, words, a);
    case Release(frames) => ReleaseStep(b, frames, a);
  }

  /** The steps that make tables. */
  lemma TableStepRefines(b: Space, ev: Event, s: Space, a: Eager)
    requires Wf(b) && Step(b, ev, s) && Represents(b, a) && (ev.Open? || ev.Renew? || ev.Spawn?)
    ensures Wf(s) && EagerAllows(a, ev) && Represents(s, EagerNext(a, ev))
  {
    match ev
    case Open(r, p) => OpenStep(b, r, p, a);
    case Renew(r, p) => RenewStep(b, s, r, p, a);
    case Spawn(c) =>
      var k510, k511 :| s == Spawned(b, k510, k511);
      SpawnStep(b, k510, k511, a);
  }

  /** The accesses to pages. */
  lemma AccessRefines(b: Space, ev: Event, s: Space, a: Eager)
    requires Wf(b) && Step(b, ev, s) && Represents(b, a) && (ev.Write? || ev.Read? || ev.Touch?)
    ensures Wf(s) && EagerAllows(a, ev) && Represents(s, EagerNext(a, ev))
  {
    match ev
    case Write(r, p, k, w) => WriteStep(b, s, r, p, k, w, a);
    case Read(r, p, k, v) =>
    case Touch(r, p, stale) => TouchStep(b, s, r, p, a);
  }

  /** The steps that share, map or drop pages. */
  lemma PageStepRefines(b: Space, ev: Event, s: Space, a: Eager)
    requires Wf(b) && Step(b, ev, s) && Represents(b, a) && (ev.Fork? || ev.Map? || ev.Clear?)
    ensures Wf(s) && EagerAllows(a, ev) && Represents(s, EagerNext(a, ev))
  {
    match ev
    case Fork(r, c) => ForkStep(b, s, r, c, a);
    case Map(r, p, content) =>
      var f :| MapsPage(b, s, r, p, f) && content == b.mem[f];
      MapStep(b, s, r, p, f, a);
    case Clear(r) => ClearStep(b, s, r, a);
  }

  /** One step of the kernel is one step of the eager machine. */
  lemma StepRefines(b: Space, ev: Event, s: Space, a: Eager)
    requires Wf(b) && Step(b, ev, s) && Represents(b, a)
    ensures Wf(s) && EagerAllows(a, ev) && Represents(s, EagerNext(a, ev))
  {
    if ev.Alloc? || ev.Fill? || ev.Release? {
      FrameStepRefines(b, ev, s, a);
    } else if ev.Open? || ev.Renew? || ev.Spawn? {
      TableStepRefines(b, ev, s, a);
    } else if ev.Write? || ev.Read? || ev.Touch? {
      AccessRefines(b, ev, s, a);
    } else {
      PageStepRefines(b, ev, s, a);
    }
  }

  ghost predicate Run(states: seq<Space>, events: seq<Event>) {
    && |states| == |events| + 1
    && (events != [] ==> Step(states[0], events[0], states[1]) && Run(states[1..], events[1..]))
  }

  /** In every state of the run the invariant holds and every process sees the memory of the eager
      machine, which takes the same events and returns the same values to every read. */
  ghost predicate SeesEagerMemory(states: seq<Space>, events: seq<Event>, a: Eager)
    requires |states| == |events| + 1
  {
    && Wf(states[0]) && Represents(states[0], a)
    && (events != [] ==>
          EagerAllows(a, events[0]) && SeesEagerMemory(states[1..], events[1..], EagerNext(a, events[0])))
  }

  /** The main theorem: it holds for every run, however long. */
  lemma {:induction false} RunRefinesEager(states: seq<Space>, events: seq<Event>, a: Eager)
    requires Run(states, events) && Wf(states[0]) && Represents(states[0], a)
    ensures SeesEagerMemory(states, events, a)
  {
    if events != [] {
      StepRefines(states[0], events[0], states[1], a);
      RunRefinesEager(states[1..], events[1..], EagerNext(a, events[0]));
    }
  }

  /** From boot on: every run of these steps, whatever memory holds. */
  lemma RunFromBoot(states: seq<Space>, events: seq<Event>, mem: Memory, free: seq<Frame>)
    requires Run(states, events) && states[0] == BootSpace(mem, free) && Distinct(free)
    requires (forall f | f in free :: f in mem) && forall f | f in mem :: |mem[f]| == 512
    ensures SeesEagerMemory(states, events, map[])
  {
    BootIsWf(mem, free);
    RunRefinesEager(states, events, map[]);
  }
}
