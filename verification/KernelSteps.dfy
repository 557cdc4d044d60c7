/**
  What the kernel does to memory between the steps of the paging code: it takes frames from the
  queue, fills them, returns them, and makes the first table of a process.
 */
module KernelSteps {
  import opened PageEntries
  import opened PageTables
  import opened PageMaps
  import opened Wrappers
  import AllocatorRuns

  /** The same tables with the same entries. */
  ghost predicate SameTables(b: Space, s: Space) {
    && s.at == b.at && s.loc == b.loc && s.owner == b.owner && s.mem.Keys == b.mem.Keys
    && forall l, i: nat {:trigger Ent(s, l, i)} :: Ent(s, l, i) == Ent(b, l, i)
  }

  lemma {:induction false} SameTopCow(b: Space, s: Space, z: Loc)
    requires forall l, i: nat {:trigger Ent(s, l, i)} :: Ent(s, l, i) == Ent(b, l, i)
    ensures TopCow(s, z) == TopCow(b, z)
  {
    if z.Sub? {
      SameTopCow(b, s, z.parent);
    }
  }

  lemma SameEntryOk(b: Space, s: Space, l: Loc, i: nat)
    requires Wf(b) && SameTables(b, s) && (forall f | f in s.free :: f in b.free || Unused(b, f))
    requires l in b.at && i < Width(l) && Ent(b, l, i) != ZERO
    ensures EntryOk(s, l, i)
  {
    assert EntryOk(b, l, i) && LinkOk(b, l);
    SameTopCow(b, s, Sub(l, i));
    if Depth(l) == 3 {
      assert BacksPage(b, Ent(b, l, i).frame, l, i);
    }
  }

  /** Only the queue and frames that nobody uses have changed. */
  lemma SameTablesKeepWf(b: Space, s: Space)
    requires Wf(b) && SameTables(b, s) && MemoryOk(s) && QueueOk(s)
    requires forall f | f in s.free :: f in b.free || Unused(b, f)
    ensures Wf(s)
  {
    forall l | l in s.at ensures LinkOk(s, l) {
      assert LinkOk(b, l);
    }
    forall l, i: nat | l in s.at && i < Width(l) && Ent(s, l, i) != ZERO ensures EntryOk(s, l, i) {
      SameEntryOk(b, s, l, i);
    }
  }

  // ---------------------------------------------------------------------------
  // Taking frames

  /** `bump` of `n` pages. */
  function Taken(b: Space, n: nat): Space
    requires n <= |b.free|
  {
    b.(free := b.free[n..])
  }

  /** The frames that have been taken are used by nobody but the caller. */
  lemma TakingKeepsWf(b: Space, n: nat)
    requires Wf(b) && n <= |b.free|
    ensures Wf(Taken(b, n)) && SameTables(b, Taken(b, n))
    ensures forall i | 0 <= i < n :: Unused(Taken(b, n), b.free[i])
  {
    var s := Taken(b, n);
    SameTablesKeepWf(b, s);
    forall i | 0 <= i < n ensures Unused(s, b.free[i]) {
      assert forall j | 0 <= j < |s.free| :: s.free[j] == b.free[n + j];
      forall l, k: nat ensures !BacksPage(s, b.free[i], l, k) {
        if l in b.at && Depth(l) == 3 && k < 512 && Ent(s, l, k) != ZERO {
          assert LinkOk(b, l) && EntryOk(s, l, k) && EntryOk(b, l, k);
        }
      }
    }
  }

  // ---------------------------------------------------------------------------
  // Filling a frame

  function Filled(b: Space, f: Frame, words: seq<Word>): Space {
    b.(mem := b.mem[f := words])
  }

  /** A store into a frame that nobody else uses. */
  lemma FillingKeepsWf(b: Space, f: Frame, words: seq<Word>)
    requires Wf(b) && Unused(b, f) && |words| == 512
    ensures Wf(Filled(b, f, words)) && SameTables(b, Filled(b, f, words))
  {
    SameTablesKeepWf(b, Filled(b, f, words));
  }

  // ---------------------------------------------------------------------------
  // Returning frames

  function Freed(s: Space, frames: seq<Frame>): Space {
    s.(free := s.free + frames)
  }

  lemma QueueGrows(s: Space, frames: seq<Frame>)
    requires QueueOk(s)
    ensures QueueOk(Freed(s, frames)) <==>
            && Distinct(frames)
            && forall i | 0 <= i < |frames| :: frames[i] in s.mem && frames[i] !in s.free && frames[i] !in s.loc
  {
    var q := s.free + frames;
    assert forall i | 0 <= i < |frames| :: q[|s.free| + i] == frames[i];
    assert forall i | 0 <= i < |s.free| :: q[i] == s.free[i];
    if QueueOk(Freed(s, frames)) {
      forall i | 0 <= i < |frames| ensures frames[i] in s.mem && frames[i] !in s.free && frames[i] !in s.loc {
        assert q[|s.free| + i] in s.mem;
      }
      forall i, j | 0 <= i < j < |frames| ensures frames[i] != frames[j] {
        assert q[|s.free| + i] != q[|s.free| + j];
      }
    }
  }

  /** A series of frees keeps the invariant exactly when the frames are all different and nobody uses them. */
  lemma FreesKeepWf(s: Space, frames: seq<Frame>)
    requires Wf(s)
    ensures Wf(Freed(s, frames)) <==> Distinct(frames) && forall i | 0 <= i < |frames| :: Unused(s, frames[i])
  {
    var t := Freed(s, frames);
    QueueGrows(s, frames);
    assert SameTables(s, t);
    if Distinct(frames) && forall i | 0 <= i < |frames| :: Unused(s, frames[i]) {
      SameTablesKeepWf(s, t);
    }
    if Wf(t) {
      forall k | 0 <= k < |frames| ensures Unused(s, frames[k]) {
        FreedIsUnused(s, frames, k);
      }
    }
  }

  lemma FreedIsUnused(s: Space, frames: seq<Frame>, k: nat)
    requires Wf(s) && Wf(Freed(s, frames)) && k < |frames|
    ensures Unused(s, frames[k])
  {
    var t := Freed(s, frames);
    QueueGrows(s, frames);
    assert SameTables(s, t);
    assert t.free[|s.free| + k] == frames[k];
    forall l, i: nat ensures !BacksPage(s, frames[k], l, i) {
      if l in s.at && Depth(l) == 3 && i < 512 && Ent(s, l, i) != ZERO {
        assert LinkOk(s, l) && EntryOk(t, l, i);
      }
    }
  }

  /** The frames that `clear_vmas` frees, given the addresses that `kfree` recovers. */
  function FreedByExec(vmas: seq<AllocatorRuns.Vma>, mm: nat): seq<Frame> {
    var pages := AllocatorRuns.FreedByClearVmas(vmas, mm);
    seq(|pages|, i requires 0 <= i < |pages| => pages[i] / 4096)
  }

  lemma FreedTwice(vmas: seq<AllocatorRuns.Vma>, mm: nat)
    requires vmas != []
    ensures !Distinct(FreedByExec(vmas, mm))
  {
    AllocatorRuns.ClearVmasFreesTwice({}, [], vmas, mm);
    var pages := AllocatorRuns.FreedByClearVmas(vmas, mm);
    assert [] + pages == pages;
    var i, j :| 0 <= i < j < |pages| && pages[i] == pages[j];
    assert FreedByExec(vmas, mm)[i] == FreedByExec(vmas, mm)[j];
  }

  /** `clear_vmas` breaks the invariant whenever the caller has a memory area: it frees the page of the first
      descriptor twice. */
  lemma ExecFreesBreakWf(s: Space, vmas: seq<AllocatorRuns.Vma>, mm: nat)
    requires Wf(s) && vmas != []
    ensures !Wf(Freed(s, FreedByExec(vmas, mm)))
  {
    FreedTwice(vmas, mm);
    FreesKeepWf(s, FreedByExec(vmas, mm));
  }

  // ---------------------------------------------------------------------------
  // A new process

  /** `map_user_pml4`: a table with nothing but the two kernel slots. */
  function Spawned(b: Space, k510: Word, k511: Word): Space
    requires b.free != []
  {
    var c := b.free[0];
    b.(mem := b.mem[c := Zeros()[510 := k510][511 := k511]], free := b.free[1..], at := b.at[Root(c) := c],
       loc := b.loc[c := Root(c)])
  }

  ghost predicate NewRoot(b: Space, s: Space, c: Frame) {
    && Root(c) !in b.at && (forall l :: l in s.at <==> l in b.at || l == Root(c))
    && (forall l | l in b.at :: s.at[l] == b.at[l]) && s.at[Root(c)] == c
    && (forall f :: f in s.loc <==> f in b.loc || f == c) && (forall f | f in s.free :: f in b.free && f != c)
    && s.owner == b.owner && s.mem.Keys == b.mem.Keys && c in b.mem && c !in b.loc && c in b.free
    && (forall l, i: nat {:trigger Ent(s, l, i)} :: l != Root(c) ==> Ent(s, l, i) == Ent(b, l, i))
    && (forall i: nat | i < 510 :: Ent(s, Root(c), i) == ZERO)
    && (forall f {:trigger s.mem[f]} | f in b.mem && f != c :: s.mem[f] == b.mem[f])
  }

  lemma SpawnFacts(b: Space, k510: Word, k511: Word)
    requires Wf(b) && b.free != []
    ensures var s := Spawned(b, k510, k511); NewRoot(b, s, b.free[0]) && MemoryOk(s) && QueueOk(s) && PlacesOk(s)
  {
    var c, s := b.free[0], Spawned(b, k510, k511);
    assert Root(c) in b.at ==> LinkOk(b, Root(c));
    forall l, i: nat | l != Root(c) ensures Ent(s, l, i) == Ent(b, l, i) {
      assert l in b.at ==> b.loc[b.at[l]] == l;
    }
  }

  lemma {:induction false} SpawnTopCow(b: Space, s: Space, c: Frame, z: Loc)
    requires Wf(b) && NewRoot(b, s, c) && z.Sub? && z.parent in b.at
    ensures TopCow(s, z) == TopCow(b, z)
  {
    if z.parent.Sub? {
      assert LinkOk(b, z.parent);
      SpawnTopCow(b, s, c, z.parent);
    }
  }

  lemma SpawnKeepsWf(b: Space, k510: Word, k511: Word)
    requires Wf(b) && b.free != []
    ensures Wf(Spawned(b, k510, k511)) && NewRoot(b, Spawned(b, k510, k511), b.free[0])
  {
    var c, s := b.free[0], Spawned(b, k510, k511);
    SpawnFacts(b, k510, k511);
    forall l | l in s.at ensures LinkOk(s, l) {
      assert l in b.at ==> LinkOk(b, l);
    }
    forall l, i: nat | l in s.at && i < Width(l) && Ent(s, l, i) != ZERO ensures EntryOk(s, l, i) {
      assert EntryOk(b, l, i);
      SpawnTopCow(b, s, c, Sub(l, i));
    }
  }

  /** At boot there is no process, and every page behind the descriptors is free. */
  function BootSpace(mem: Memory, free: seq<Frame>): Space {
    Space(mem, free, map[], map[], map[])
  }

  lemma BootIsWf(mem: Memory, free: seq<Frame>)
    requires Distinct(free) && (forall f | f in free :: f in mem) && forall f | f in mem :: |mem[f]| == 512
    ensures Wf(BootSpace(mem, free))
  {
  }
}
