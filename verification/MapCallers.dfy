/**
  What the callers of `map_user_address` hand over: they allocate `size` bytes and map `size` bytes,
  which is a run of the copy-on-write machine exactly when the pages are among those allocated.
 */
module MapCallers {
  import opened PageEntries
  import opened PageTables
  import opened BootMap
  import opened UserMap
  import opened UserMapTree
  import opened PageMaps
  import opened KernelSteps
  import opened CowRefinement
  import opened MapCalls
  import opened Wrappers
  import FrameAllocator

  // ---------------------------------------------------------------------------
  // Frames that are still in the queue

  /** No state of the machine has the memory and the queue that a call leaves, if a page that was not mapped got a frame
      that is still in the queue. */
  lemma FreeFrameBreaksWf(b: Space, s: Space, free': seq<Frame>, r: Frame, v0: nat, n: nat, p0: nat, pdpt: Frame,
      pd: Frame, pt: Frame, v: nat)
    requires Target(b, r, v0, n) && RangeMapped(b.mem, b.free, s.mem, free', r, v0, n, p0, pdpt, pd, pt)
    requires s.free == free' && Root(r) in s.at
    requires v0 <= v < v0 + n && Walk(b.mem, r, v) == None && p0 + (v - v0) in free'
    ensures !Wf(s)
  {
    StaysInGigabyte(v, v0, n);
    RegionIsWalk(b.mem, r, v);
    RegionIsWalk(s.mem, r, v);
    UserPageInRange(v, v0);
    if Wf(s) {
      MappedIsNotFree(s, r, v);
    }
  }

  lemma MappedIsNotFree(s: Space, r: Frame, v: nat)
    requires Wf(s) && Root(r) in s.at && UserPage(Digits(v)) && Walk(s.mem, r, v).Some?
    ensures Walk(s.mem, r, v).value !in s.free
  {
    var d := Digits(v);
    PtLocFacts(r, d);
    WalkToPage(s, r, d);
    assert EntryOk(s, PtLoc(r, d), d.i1);
  }

  lemma UserPageInRange(v: nat, v0: nat)
    requires UserPage(Digits(v0)) && Digits(v).i4 == Digits(v0).i4
    ensures UserPage(Digits(v))
  {
  }

  // ---------------------------------------------------------------------------
  // Frames that were allocated

  /** The callers allocate `size` bytes and map `size` bytes.  The pages that are mapped are among those allocated
      exactly when the size is no whole number of pages and below 512 of them, or maps nothing. */
  lemma CallersAllocateEnough(size: nat)
    ensures MappedPages(size) <= FrameAllocator.PagesFor(size) <==>
            size < 4096 || (size % 4096 != 0 && size / 4096 + (if size % 512 > 0 then 1 else 0) <= 512)
    ensures MappedPages(4096) == 2 && FrameAllocator.PagesFor(4096) == 1
  {
    var entries := size / 4096 + if size % 512 > 0 then 1 else 0;
    var structs := entries / 512 + if entries % 512 > 0 then 1 else 0;
    if size < 4096 {
      assert entries == if size % 512 > 0 then 1 else 0;
    } else {
      assert structs >= 1;
    }
  }

  /** `k` pages are allocated from a queue that starts with consecutive frames, and `n` pages are mapped to them. */
  ghost predicate CanAllocateAndMap(b: Space, k: nat, r: Frame, i4: nat, i3: nat, x0: nat, n: nat, p0: nat) {
    && Wf(b) && k <= |b.free| && CanCall(Taken(b, k), r, i4, i3, x0, n)
    && forall j: nat {:trigger b.free[j]} | j < k :: b.free[j] == p0 + j
  }

  ghost function AllocatedAndMapped(b: Space, k: nat, r: Frame, i4: nat, i3: nat, x0: nat, n: nat, p0: nat): Space
    requires CanAllocateAndMap(b, k, r, i4, i3, x0, n, p0)
  {
    AfterCall(Taken(b, k), r, i4, i3, x0, n, p0)
  }

  /** A page that was allocated is fine, whatever has been replaced. */
  lemma AllocatedIsFine(b: Space, k: nat, l: Loc, x0: nat, c: nat, p0: nat, j: nat)
    requires Wf(b) && k <= |b.free| && j < k && b.free[j] == p0 + j
    ensures PageIsFine(Taken(b, k), l, x0, c, p0, j)
  {
    TakingKeepsWf(b, k);
    assert Unused(Taken(b, k), b.free[j]);
  }

  /** The sequence keeps the invariant exactly when the pages behind those allocated are fine. */
  lemma AllocateAndMapKeepsWf(b: Space, k: nat, r: Frame, i4: nat, i3: nat, x0: nat, n: nat, p0: nat)
    requires CanAllocateAndMap(b, k, r, i4, i3, x0, n, p0)
    ensures Wf(AllocatedAndMapped(b, k, r, i4, i3, x0, n, p0)) <==>
            forall j: nat {:trigger PageIsFine(Taken(b, k), PdLoc(r, i4, i3), x0, NewTables(x0, n), p0, j)} |
              k <= j < n :: PageIsFine(Taken(b, k), PdLoc(r, i4, i3), x0, NewTables(x0, n), p0, j)
  {
    CallKeepsWf(Taken(b, k), r, i4, i3, x0, n, p0);
    forall j: nat | j < k ensures PageIsFine(Taken(b, k), PdLoc(r, i4, i3), x0, NewTables(x0, n), p0, j) {
      AllocatedIsFine(b, k, PdLoc(r, i4, i3), x0, NewTables(x0, n), p0, j);
    }
  }

  /** The next page is the next in the queue, and free: it is fine only if it was mapped. */
  lemma NextIsNotFine(b: Space, k: nat, l: Loc, x0: nat, c: nat, p0: nat, j: nat)
    requires Wf(b) && k <= j < |b.free| && b.free[j] == p0 + j
    ensures PageIsFine(Taken(b, k), l, x0, c, p0, j) <==> WasMapped(Taken(b, k), l, x0, j)
  {
    assert Taken(b, k).free[j - k] == b.free[j];
  }

  /** As long as the queue is one run of frames, the sequence breaks the invariant exactly when a page behind those
      allocated was not mapped. */
  lemma OnePageTooMany(b: Space, k: nat, r: Frame, i4: nat, i3: nat, x0: nat, n: nat, p0: nat)
    requires CanAllocateAndMap(b, k, r, i4, i3, x0, n, p0)
    requires n <= |b.free| && forall j: nat {:trigger b.free[j]} | j < n :: b.free[j] == p0 + j
    ensures Wf(AllocatedAndMapped(b, k, r, i4, i3, x0, n, p0)) <==>
            forall j: nat {:trigger WasMapped(Taken(b, k), PdLoc(r, i4, i3), x0, j)} |
              k <= j < n :: WasMapped(Taken(b, k), PdLoc(r, i4, i3), x0, j)
  {
    AllocateAndMapKeepsWf(b, k, r, i4, i3, x0, n, p0);
    forall j: nat | k <= j < n
      ensures PageIsFine(Taken(b, k), PdLoc(r, i4, i3), x0, NewTables(x0, n), p0, j) <==>
              WasMapped(Taken(b, k), PdLoc(r, i4, i3), x0, j)
    {
      NextIsNotFine(b, k, PdLoc(r, i4, i3), x0, NewTables(x0, n), p0, j);
    }
  }

  lemma AllocatedInTime(b: Space, k: nat, l: Loc, x0: nat, n: nat, p0: nat)
    requires Wf(b) && n <= k <= |b.free| && forall j: nat {:trigger b.free[j]} | j < k :: b.free[j] == p0 + j
    ensures AllInTime(Taken(b, k), l, x0, n, p0)
  {
    forall j: nat | j < n ensures FineInTime(Taken(b, k), l, x0, p0, j) {
      AllocatedIsFine(b, k, l, x0, NewTables(x0, j + 1), p0, j);
    }
  }

  /** If all the pages that are mapped were allocated, allocating and mapping is a run of the machine. */
  lemma AllocateAndMapIsRun(b: Space, k: nat, r: Frame, i4: nat, i3: nat, x0: nat, n: nat, p0: nat)
    returns (states: seq<Space>, events: seq<Event>)
    requires CanAllocateAndMap(b, k, r, i4, i3, x0, n, p0) && n <= k
    ensures RunTo(b, AllocatedAndMapped(b, k, r, i4, i3, x0, n, p0), states, events)
  {
    AllocatedInTime(b, k, PdLoc(r, i4, i3), x0, n, p0);
    states, events := CallIsRun(Taken(b, k), r, i4, i3, x0, n, p0);
    states, events := PrependStep(b, Alloc(k), Taken(b, k), AllocatedAndMapped(b, k, r, i4, i3, x0, n, p0), states,
      events);
  }

  /** `loadelf` allocates `size` bytes and maps `size` bytes: this is a run of the machine from every state, for the
      sizes whose pages are all allocated. */
  lemma LoadingIsRun(b: Space, size: nat, r: Frame, i4: nat, i3: nat, x0: nat, p0: nat)
    returns (states: seq<Space>, events: seq<Event>)
    requires size < 4096 || (size % 4096 != 0 && size / 4096 + (if size % 512 > 0 then 1 else 0) <= 512)
    requires CanAllocateAndMap(b, FrameAllocator.PagesFor(size), r, i4, i3, x0, MappedPages(size), p0)
    ensures RunTo(b, AllocatedAndMapped(b, FrameAllocator.PagesFor(size), r, i4, i3, x0, MappedPages(size), p0),
      states, events)
  {
    CallersAllocateEnough(size);
    states, events := AllocateAndMapIsRun(b, FrameAllocator.PagesFor(size), r, i4, i3, x0, MappedPages(size), p0);
  }
}
