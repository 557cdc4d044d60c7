/**
  The copy-on-write bit comes from fork alone: in every run without a fork no entry of any process
  carries it, so no access takes the copy-on-write branch of the fault handler.
 */
module CowBits {
  import opened PageEntries
  import opened PageTables
  import opened CowFault
  import opened ExecClear
  import opened PageMaps
  import opened KernelSteps
  import opened CowRefinement
  import opened Wrappers

  /** No user entry of any table is marked. */
  ghost predicate NoCow(s: Space) {
    forall l, i: nat {:trigger Ent(s, l, i)} | l in s.at && i < Width(l) :: !Ent(s, l, i).cow
  }

  lemma {:induction false} NoTopCow(s: Space, z: Loc)
    requires Wf(s) && NoCow(s) && z.Sub? && z.parent in s.at && z.index < Width(z.parent)
    ensures !TopCow(s, z)
  {
    assert LinkOk(s, z.parent);
    if z.parent.Sub? {
      NoTopCow(s, z.parent);
    }
  }

  /** Then no access passes the test, and the MMU refuses no write to a mapped page. */
  lemma NothingIsRefused(s: Space, r: Frame, p: Page)
    requires Wf(s) && NoCow(s) && UserPage(p)
    ensures !PassesCowTest(s, r, p)
    ensures Root(r) in s.at && FrameAt(s.mem, PageLoc(r, p)).Some? ==> WritableAt(s.mem, PageLoc(r, p))
  {
    if Root(r) in s.at && FrameAt(s.mem, PageLoc(r, p)).Some? && !WritableAt(s.mem, PageLoc(r, p)) {
      FaultTakesCowBranch(s, r, p);
    }
  }

  // ---------------------------------------------------------------------------
  // The steps

  lemma OpenHasNoCow(b: Space, l: Loc, i: nat)
    requires CanOpen(b, l, i) && NoCow(b)
    ensures NoCow(OpenAt(b, l, i))
  {
    var s := OpenAt(b, l, i);
    OpenEffect(b, l, i);
    if !Ent(b, l, i).present {
      PresentIsUsed(b, l, i);
      NewTableFacts(b, l, i);
    }
  }

  lemma WayHasNoCow(b: Space, r: Frame, p: Page)
    requires CanReach(b, r, p) && NoCow(b)
    ensures NoCow(OpenWay(b, r, p))
  {
    var l3 := Sub(Root(r), p.i4);
    OpenPdptFacts(b, r, p);
    OpenHasNoCow(b, Root(r), p.i4);
    OpenHasNoCow(OpenPdptOf(b, r, p), l3, p.i3);
    OpenHasNoCow(OpenPdOf(b, r, p), Sub(l3, p.i3), p.i2);
  }

  lemma MapHasNoCow(b: Space, s: Space, r: Frame, p: Page, f: Frame)
    requires Wf(b) && MapsPage(b, s, r, p, f) && NoCow(b)
    ensures NoCow(s)
  {
    PtLocFacts(r, p);
    PutEntryFacts(b, PtLoc(r, p), p.i1, f);
  }

  lemma RenewHasNoCow(b: Space, s: Space, r: Frame, p: Page)
    requires Wf(b) && RenewsTable(b, s, r, p) && NoCow(b)
    ensures NoCow(s)
  {
    RenewEffect(b, PtLoc(r, p).parent, p.i2);
  }

  lemma ClearHasNoCow(b: Space, s: Space, r: Frame)
    requires Wf(b) && Cleared(b, s, r) && NoCow(b)
    ensures NoCow(s)
  {
    ClearKeepsWf(b, s, r);
  }

  lemma WriteHasNoCow(b: Space, s: Space, r: Frame, p: Page, k: nat, w: Word)
    requires Wf(b) && Root(r) in b.at && Wrote(b, s, r, p, k, w) && NoCow(b)
    ensures NoCow(s)
  {
    if WritableAt(b.mem, PageLoc(r, p)) {
      StoreKeepsWf(b, s, r, p, k, w);
    } else {
      var m: Space :| Faulted(b, m, r, p) && Stored(m, s, r, p, k, w);
      NothingIsRefused(b, r, p);
    }
  }

  lemma AccessHasNoCow(b: Space, ev: Event, s: Space)
    requires Wf(b) && Step(b, ev, s) && NoCow(b) && (ev.Write? || ev.Read? || ev.Touch?)
    ensures NoCow(s)
  {
    match ev
    case Write(r, p, k, w) => WriteHasNoCow(b, s, r, p, k, w);
    case Read(r, p, k, v) =>
    case Touch(r, p, stale) => NothingIsRefused(b, r, p);
  }

  lemma SpawnHasNoCow(b: Space, s: Space, c: Frame)
    requires Wf(b) && Step(b, Spawn(c), s) && NoCow(b)
    ensures NoCow(s)
  {
    var k510, k511 :| s == Spawned(b, k510, k511);
    SpawnKeepsWf(b, k510, k511);
  }

  lemma MapStepHasNoCow(b: Space, s: Space, r: Frame, p: Page, content: seq<Word>)
    requires Wf(b) && Step(b, Map(r, p, content), s) && NoCow(b)
    ensures NoCow(s)
  {
    var f :| MapsPage(b, s, r, p, f) && content == b.mem[f];
    MapHasNoCow(b, s, r, p, f);
  }

  lemma NewEntriesHaveNoCow(b: Space, ev: Event, s: Space)
    requires Wf(b) && Step(b, ev, s) && NoCow(b) && (ev.Map? || ev.Renew? || ev.Spawn?)
    ensures NoCow(s)
  {
    match ev
    case Map(r, p, content) => MapStepHasNoCow(b, s, r, p, content);
    case Renew(r, p) => RenewHasNoCow(b, s, r, p);
    case Spawn(c) => SpawnHasNoCow(b, s, c);
  }

  lemma TableHasNoCow(b: Space, ev: Event, s: Space)
    requires Wf(b) && Step(b, ev, s) && NoCow(b) && (ev.Open? || ev.Clear?)
    ensures NoCow(s)
  {
    match ev
    case Open(r, p) => WayHasNoCow(b, r, p);
    case Clear(r) => ClearHasNoCow(b, s, r);
  }

  lemma FrameStepHasNoCow(b: Space, ev: Event, s: Space)
    requires Wf(b) && Step(b, ev, s) && NoCow(b) && (ev.Alloc? || ev.Fill? || ev.Release?)
    ensures NoCow(s)
  {
    match ev
    case Alloc(n) => TakingKeepsWf(b, n);
    case Fill(f, words) => FillingKeepsWf(b, f, words);
    case Release(frames) => assert SameTables(b, Freed(b, frames));
  }

  /** Only a fork marks entries. */
  lemma StepHasNoCow(b: Space, ev: Event, s: Space)
    requires Wf(b) && Step(b, ev, s) && NoCow(b) && !ev.Fork?
    ensures NoCow(s)
  {
    if ev.Write? || ev.Read? || ev.Touch? {
      AccessHasNoCow(b, ev, s);
    } else if ev.Alloc? || ev.Fill? || ev.Release? {
      FrameStepHasNoCow(b, ev, s);
    } else if ev.Map? || ev.Renew? || ev.Spawn? {
      NewEntriesHaveNoCow(b, ev, s);
    } else {
      TableHasNoCow(b, ev, s);
    }
  }

  // ---------------------------------------------------------------------------
  // Runs

  /** Nobody's page passes the copy-on-write test, and every mapped page is writable. */
  ghost predicate NobodyShares(s: Space) {
    forall r, p {:trigger PassesCowTest(s, r, p)} {:trigger PageLoc(r, p)} | UserPage(p) ::
      !PassesCowTest(s, r, p)
      && (Root(r) in s.at && FrameAt(s.mem, PageLoc(r, p)).Some? ==> WritableAt(s.mem, PageLoc(r, p)))
  }

  /** Over every run without a fork no entry is marked. */
  lemma {:induction false} RunHasNoCow(states: seq<Space>, events: seq<Event>, a: Eager, k: nat)
    requires Run(states, events) && Wf(states[0]) && Represents(states[0], a) && NoCow(states[0])
    requires (forall ev | ev in events :: !ev.Fork?) && k < |states|
    ensures Wf(states[k]) && NoCow(states[k])
    decreases k
  {
    if k > 0 {
      assert events[0] in events && forall ev | ev in events[1..] :: ev in events;
      StepRefines(states[0], events[0], states[1], a);
      StepHasNoCow(states[0], events[0], states[1]);
      RunHasNoCow(states[1..], events[1..], EagerNext(a, events[0]), k - 1);
    }
  }

  /** From boot on, as long as nobody has forked, the handler never calls `copy_page`. */
  lemma NoForkNoCow(states: seq<Space>, events: seq<Event>, mem: Memory, free: seq<Frame>, k: nat)
    requires Run(states, events) && states[0] == BootSpace(mem, free) && Distinct(free)
    requires (forall f | f in free :: f in mem) && forall f | f in mem :: |mem[f]| == 512
    requires (forall ev | ev in events :: !ev.Fork?) && k < |states|
    ensures NoCow(states[k]) && NobodyShares(states[k])
  {
    BootIsWf(mem, free);
    RunHasNoCow(states, events, map[], k);
    forall r, p | UserPage(p)
      ensures !PassesCowTest(states[k], r, p)
      ensures Root(r) in states[k].at && FrameAt(states[k].mem, PageLoc(r, p)).Some? ==>
                WritableAt(states[k].mem, PageLoc(r, p))
    {
      NothingIsRefused(states[k], r, p);
    }
  }
}
