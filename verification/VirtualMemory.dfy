/**
  The paging code of the kernel, on physical memory: `duplicate_page_table` and its helpers,
  `copy_page`, the write-fault path and `clear_uptentries`.

  `free` is the queue of the frame allocator (module FrameAllocator proves that the allocator is
  one).  The C code reaches a table through `KERNBASE + address`; here a table is its frame.
 */
module VirtualMemory {
  import opened PageEntries
  import opened PageTables
  import opened ForkCopy
  import opened ForkMeaning
  import opened CowFault
  import opened ExecClear
  import opened CowRefinement
  import opened KernelSteps
  import opened CowBits
  import opened Wrappers

  /** A page address less KERNBASE, in 64 bits. */
  function MinusKernbase(f: Frame): Frame {
    (f + 0x80000) % 0x10000000000000
  }

  /** What `map_user_pml4` stores in slot 510 when slot 0 is empty. */
  lemma SlotOfEmptyTable(w: bv64)
    requires View(w) == ZERO
    ensures View(((w & 0xfffffffffffff000) - 0xffffffff80000000) | 7) == User(MinusKernbase(0)) == User(0x80000)
  {
    MasksActOnFields(w);
    assert ((0 as bv64) - 0xffffffff80000000) | 7 == 0x80000007;
    assert View(0x80000007) == Word(0x80000, true, true, true, false, 0);
  }

  /** Where slot 510 of the new table leads. */
  lemma SlotOfSpawned(b: Space, s: Space, k510: Word, k511: Word)
    requires b.free != [] && s == Spawned(b, k510, k511) && k510.present
    ensures FrameAt(s.mem, Sub(Root(b.free[0]), 510)) == Some(k510.frame)
  {
    assert FrameAt(s.mem, Root(b.free[0])) == Some(b.free[0]);
  }

  class Mmu {
    var mem: Memory
    var free: seq<Frame>
    ghost var at: map<Loc, Frame>
    ghost var loc: map<Frame, Loc>
    ghost var owner: map<Frame, Loc>

    ghost function S(): Space
      reads this
    {
      Space(mem, free, at, loc, owner)
    }

    /** `bump` of one page. */
    method Bump() returns (f: Frame)
      requires free != []
      modifies `free
      ensures f == old(free[0]) && free == old(free)[1..]
    {
      f := free[0];
      free := free[1..];
    }

    /** The body of the loop of `duplicate_pt` for a used entry. */
    method ShareLeaf(sourcePt: Frame, newPt: Frame, i: nat, ghost x: Loc, ghost y: Loc)
      requires TablesOk(S()) && x in at && at[x] == sourcePt && y in at && at[y] == newPt && x != y && i < 512
      modifies `mem
      ensures S() == ShareSpace(old(S()), x, y, i)
    {
      assert loc[sourcePt] == x && loc[newPt] == y;
      mem := mem[sourcePt := mem[sourcePt][i := Mark(mem[sourcePt][i])]];
      mem := mem[newPt := mem[newPt][i := Base(mem[sourcePt][i].frame)]];
      mem := mem[newPt := mem[newPt][i := Share(mem[sourcePt][i])]];
      ghost var w := Mark(old(mem[sourcePt][i]));
      assert mem[newPt] == old(mem[newPt])[i := Share(w)];
      assert mem == old(mem)[sourcePt := old(mem[sourcePt])[i := w]][newPt := old(mem[newPt])[i := Share(w)]];
    }

    /** The entry of a new table: its address, then the flags. */
    method LinkNew(newDir: Frame, i: nat, newTable: Frame)
      requires newDir in mem && i < |mem[newDir]|
      modifies `mem
      ensures mem == old(mem)[newDir := old(mem[newDir])[i := Share(Base(newTable))]]
      ensures free == old(free) && at == old(at) && loc == old(loc) && owner == old(owner)
    {
      mem := mem[newDir := mem[newDir][i := Base(newTable)]];
      mem := mem[newDir := mem[newDir][i := Share(mem[newDir][i])]];
      assert mem[newDir] == old(mem[newDir])[i := Share(Base(newTable))];
    }

    /** The body of the loop of `duplicate_pdt`, `duplicate_pdpt` and `duplicate_page_table` for a used
        entry, up to the call that copies the table below. */
    method HangTable(source: Frame, newDir: Frame, i: nat, ghost x: Loc, ghost y: Loc)
      returns (table: Frame, newTable: Frame)
      requires TablesOk(S()) && x in at && at[x] == source && y in at && at[y] == newDir && x != y && i < 512
      requires free != [] && Sub(y, i) !in at
      modifies this
      ensures S() == LinkSpace(old(S()), x, y, i)
      ensures at == old(at)[Sub(y, i) := newTable]
      ensures table == old(mem[source][i].frame) && newTable == old(free[0])
    {
      assert loc[source] == x && loc[newDir] == y;
      assert free[0] !in loc;
      mem := mem[source := mem[source][i := Mark(mem[source][i])]];
      table := mem[source][i].frame;
      newTable := Bump();
      mem := ZeroTable(mem, newTable);
      LinkNew(newDir, i, newTable);
      at, loc := at[Sub(y, i) := newTable], loc[newTable := Sub(y, i)];
      ghost var w := Mark(old(mem[source][i]));
      assert mem == old(mem)[source := old(mem[source])[i := w]][newTable := Zeros()]
                            [newDir := old(mem[newDir])[i := Share(Base(newTable))]];
    }

    /** The body of the loop of `duplicate_pt`. */
    method DuplicateLeaf(sourcePt: Frame, newPt: Frame, i: nat, ghost b: Space, ghost x: Loc, ghost c: Frame,
        ghost done: iset<Loc>, ghost k510: Word, ghost k511: Word)
      requires Wf(b) && Root(c) !in b.at && Copying(b, S(), RootOf(x), c, done + UpTo(x, i), k510, k511)
      requires x in b.at && Depth(x) == 3 && b.at[x] == sourcePt && i < 512
      requires Rebase(x, c) in at && at[Rebase(x, c)] == newPt
      requires done !! UpTo(x, 512)
      modifies `mem
      ensures Copying(b, S(), RootOf(x), c, done + UpTo(x, i + 1), k510, k511)
      ensures at == old(at)
    {
      ghost var s := S();
      EntryNotYetVisited(b, s, done, x, i);
      if mem[sourcePt][i] != ZERO {
        TwinIsElsewhere(b, x, c);
        ShareLeaf(sourcePt, newPt, i, x, Rebase(x, c));
        LeafVisited(b, s, S(), RootOf(x), c, done, k510, k511, x, i);
      } else {
        ZeroVisited(b, s, RootOf(x), c, done, k510, k511, x, i);
      }
    }

    method DuplicatePt(sourcePt: Frame, newPt: Frame, ghost b: Space, ghost x: Loc, ghost c: Frame,
        ghost done: iset<Loc>, ghost k510: Word, ghost k511: Word)
      requires Wf(b) && Root(c) !in b.at && Copying(b, S(), RootOf(x), c, done, k510, k511)
      requires x in b.at && Depth(x) == 3 && b.at[x] == sourcePt
      requires Rebase(x, c) in at && at[Rebase(x, c)] == newPt
      requires done !! UpTo(x, 512)
      modifies `mem
      ensures Copying(b, S(), RootOf(x), c, done + UpTo(x, 512), k510, k511)
      ensures at == old(at)
    {
      NothingVisited(done, x);
      for i := 0 to 512
        invariant Copying(b, S(), RootOf(x), c, done + UpTo(x, i), k510, k511) && at == old(at)
      {
        DuplicateLeaf(sourcePt, newPt, i, b, x, c, done, k510, k511);
      }
    }

    /** `HangTable` as a step of the copy: what the callee that copies the table below may rely on. */
    method LinkTwin(source: Frame, newDir: Frame, i: nat, ghost b: Space, ghost x: Loc, ghost c: Frame, ghost up: Loc,
        ghost done: iset<Loc>, ghost k510: Word, ghost k511: Word)
      returns (table: Frame, newTable: Frame)
      requires Wf(b) && Root(c) !in b.at && Copying(b, S(), RootOf(x), c, done + UpTo(x, i), k510, k511)
      requires |Tables(b, RootOf(x))| <= |b.free|
      requires x in b.at && Depth(x) < 3 && b.at[x] == source && i < Width(x) && Ent(b, x, i) != ZERO
      requires Rebase(x, c) in at && at[Rebase(x, c)] == newDir
      requires done !! UpTo(x, Width(x)) && up in at
      modifies this
      ensures Copying(b, S(), RootOf(x), c, done + UpTo(x, i) + iset{Sub(x, i)}, k510, k511)
      ensures (done + UpTo(x, i) + iset{Sub(x, i)}) !! UpTo(Sub(x, i), 512)
      ensures Sub(x, i) in b.at && b.at[Sub(x, i)] == table
      ensures Rebase(Sub(x, i), c) in at && at[Rebase(Sub(x, i), c)] == newTable
      ensures Rebase(x, c) in at && at[Rebase(x, c)] == newDir && up in at && at[up] == old(at[up])
    {
      ghost var s, r := S(), RootOf(x);
      EntryNotYetVisited(b, s, done, x, i);
      TwinIsElsewhere(b, x, c);
      DirEntryFacts(b, s, r, c, done, k510, k511, x, i);
      table, newTable := HangTable(source, newDir, i, x, Rebase(x, c));
      DirLinked(b, s, S(), r, c, done, k510, k511, x, i);
      PlacesKept(s.at, at, Sub(Rebase(x, c), i), newTable, Rebase(x, c), up);
    }

    method DuplicatePdt(sourcePdt: Frame, newPdt: Frame, ghost b: Space, ghost x: Loc, ghost c: Frame, ghost up: Loc,
        ghost done: iset<Loc>, ghost k510: Word, ghost k511: Word)
      requires Wf(b) && Root(c) !in b.at && Copying(b, S(), RootOf(x), c, done, k510, k511)
      requires |Tables(b, RootOf(x))| <= |b.free|
      requires x in b.at && Depth(x) == 2 && b.at[x] == sourcePdt
      requires Rebase(x, c) in at && at[Rebase(x, c)] == newPdt
      requires done !! UpTo(x, 512) && up in at
      modifies this
      ensures Copying(b, S(), RootOf(x), c, done + UpTo(x, 512), k510, k511)
      ensures up in at && at[up] == old(at[up])
    {
      NothingVisited(done, x);
      for i := 0 to 512
        invariant Copying(b, S(), RootOf(x), c, done + UpTo(x, i), k510, k511)
        invariant Rebase(x, c) in at && at[Rebase(x, c)] == newPdt && up in at && at[up] == old(at[up])
      {
        EntryNotYetVisited(b, S(), done, x, i);
        if mem[sourcePdt][i] != ZERO {
          var pt, newPt := LinkTwin(sourcePdt, newPdt, i, b, x, c, up, done, k510, k511);
          DuplicatePt(pt, newPt, b, Sub(x, i), c, done + UpTo(x, i) + iset{Sub(x, i)}, k510, k511);
          NextVisited(b, done, x, i);
        } else {
          ZeroVisited(b, S(), RootOf(x), c, done, k510, k511, x, i);
        }
      }
    }

    method DuplicatePdpt(sourcePdpt: Frame, newPdpt: Frame, ghost b: Space, ghost x: Loc, ghost c: Frame,
        ghost done: iset<Loc>, ghost k510: Word, ghost k511: Word)
      requires Wf(b) && Root(c) !in b.at && Copying(b, S(), RootOf(x), c, done, k510, k511)
      requires |Tables(b, RootOf(x))| <= |b.free|
      requires x in b.at && Depth(x) == 1 && b.at[x] == sourcePdpt
      requires Rebase(x, c) in at && at[Rebase(x, c)] == newPdpt
      requires done !! UpTo(x, 512)
      modifies this
      ensures Copying(b, S(), RootOf(x), c, done + UpTo(x, 512), k510, k511)
    {
      NothingVisited(done, x);
      for i := 0 to 512
        invariant Copying(b, S(), RootOf(x), c, done + UpTo(x, i), k510, k511)
        invariant Rebase(x, c) in at && at[Rebase(x, c)] == newPdpt
      {
        EntryNotYetVisited(b, S(), done, x, i);
        if mem[sourcePdpt][i] != ZERO {
          var pdt, newPdt := LinkTwin(sourcePdpt, newPdpt, i, b, x, c, Rebase(x, c), done, k510, k511);
          DuplicatePdt(pdt, newPdt, b, Sub(x, i), c, Rebase(x, c), done + UpTo(x, i) + iset{Sub(x, i)}, k510, k511);
          NextVisited(b, done, x, i);
        } else {
          ZeroVisited(b, S(), RootOf(x), c, done, k510, k511, x, i);
        }
      }
    }

    /** One user slot of the PML4. */
    method DuplicateSlot(sourceTable: Frame, userTable: Frame, i: nat, ghost b: Space)
      requires Wf(b) && Root(sourceTable) in b.at && Root(userTable) !in b.at && i < 510
      requires |Tables(b, sourceTable)| <= |b.free|
      requires Copying(b, S(), sourceTable, userTable, UserSlots(Root(sourceTable), i), ZERO, ZERO)
      requires Ent(b, Root(sourceTable), i) != ZERO
      modifies this
      ensures Copying(b, S(), sourceTable, userTable, UserSlots(Root(sourceTable), i + 1), ZERO, ZERO)
    {
      ghost var x := Root(sourceTable);
      assert LinkOk(b, x);
      RootTwin(b, S(), sourceTable, userTable, UserSlots(x, i), ZERO, ZERO);
      var pdpt, newPdpt := LinkTwin(sourceTable, userTable, i, b, x, userTable, Root(userTable), iset{}, ZERO, ZERO);
      DuplicatePdpt(pdpt, newPdpt, b, Sub(x, i), userTable, UserSlots(x, i) + iset{Sub(x, i)}, ZERO, ZERO);
      SlotVisited(b, x, i);
    }

    /** The child's PML4: one free frame, zeroed. */
    method NewRoot(ghost r: Frame) returns (c: Frame)
      requires Wf(S()) && Root(r) in at && free != []
      modifies this
      ensures c == old(free[0]) && Root(c) !in old(at)
      ensures Copying(old(S()), S(), r, c, UserSlots(Root(r), 0), ZERO, ZERO)
    {
      ghost var b := S();
      CopyStart(b, r);
      c := Bump();
      mem := ZeroTable(mem, c);
      at, loc := at[Root(c) := c], loc[c := Root(c)];
      assert S() == AddTable(b, Root(c));
      VisitedSets(Root(r), 0);
      assert UserSlots(Root(r), 0) == iset{};
    }

    /** Writing slot 510 or 511 of the child's PML4. */
    method SetKernelSlot(userTable: Frame, i: nat, w: Word, ghost b: Space, ghost r: Frame, ghost done: iset<Loc>,
        ghost k510: Word, ghost k511: Word)
      requires Wf(b) && Root(userTable) !in b.at && Copying(b, S(), r, userTable, done, k510, k511)
      requires i == 510 || i == 511
      modifies `mem
      ensures Copying(b, S(), r, userTable, done, if i == 510 then w else k510, if i == 511 then w else k511)
    {
      CopyKernelSlot(b, S(), r, userTable, done, k510, k511, i, w);
      RootTwin(b, S(), r, userTable, done, k510, k511);
      mem := mem[userTable := mem[userTable][i := w]];
    }

    ghost method DropOwnership(r: Frame)
      modifies `owner
      ensures S() == old(S()).(owner := Disown(old(S()).owner, r))
    {
      owner := Disown(owner, r);
    }

    /** The body of the loop of `duplicate_page_table`. */
    method DuplicateRootEntry(sourceTable: Frame, userTable: Frame, i: nat, ghost b: Space)
      requires Wf(b) && Root(sourceTable) in b.at && Root(userTable) !in b.at && i < 512
      requires |Tables(b, sourceTable)| <= |b.free|
      requires Copying(b, S(), sourceTable, userTable, UserSlots(Root(sourceTable), i), ZERO, ZERO)
      modifies this
      ensures Copying(b, S(), sourceTable, userTable, UserSlots(Root(sourceTable), i + 1), ZERO,
                      if i == 511 then Ent(b, Root(sourceTable), 511) else ZERO)
    {
      RootEntry(b, S(), sourceTable, userTable, i);
      if mem[sourceTable][i] != ZERO {
        if i == 510 {
          return;
        }
        if i == 511 {
          SetKernelSlot(userTable, i, mem[sourceTable][i], b, sourceTable, UserSlots(Root(sourceTable), i), ZERO, ZERO);
        } else {
          DuplicateSlot(sourceTable, userTable, i, b);
        }
      } else if i < 510 {
        ZeroSlotVisited(b, S(), sourceTable, userTable, i);
      }
    }

    /** `duplicate_page_table`.  The frames must suffice: the source does not check what `bump` returns. */
    method DuplicatePageTable(sourceTable: Frame) returns (userTable: Frame)
      requires Wf(S()) && Root(sourceTable) in at
      requires |Tables(S(), sourceTable)| <= |free|
      modifies this
      ensures Forked(old(S()), S(), sourceTable, userTable)
      ensures Wf(S())
    {
      ghost var b, x := S(), Root(sourceTable);
      assert x in Tables(b, sourceTable);
      userTable := NewRoot(sourceTable);
      for i := 0 to 512
        invariant Copying(b, S(), sourceTable, userTable, UserSlots(x, i), ZERO,
                          if i == 512 then Ent(b, x, 511) else ZERO)
      {
        DuplicateRootEntry(sourceTable, userTable, i, b);
      }
      SetKernelSlot(userTable, 510, Kernel(userTable), b, sourceTable, UserSlots(x, 512), ZERO, Ent(b, x, 511));
      ghost var s := S();
      DropOwnership(sourceTable);
      FinishFork(b, s, S(), sourceTable, userTable);
    }

    // -------------------------------------------------------------------------
    // A new process

    /** The loops of `map_user_pml4`: the kernel's entries over an empty table. */
    method CopyEntries(kernelTable: Frame, userTable: Frame)
      requires kernelTable in mem && userTable in mem && kernelTable != userTable
      requires |mem[kernelTable]| == 512 && |mem[userTable]| == 512
      modifies `mem
      ensures mem == old(mem)[userTable := old(mem[kernelTable])]
    {
      ghost var source := mem[kernelTable];
      mem := ZeroTable(mem, userTable);
      assert source[..0] + Zeros()[0..] == Zeros();
      for i := 0 to 512
        invariant mem == old(mem)[userTable := source[..i] + Zeros()[i..]]
      {
        if mem[kernelTable][i] != ZERO {
          mem := mem[userTable := mem[userTable][i := mem[kernelTable][i]]];
        }
        assert mem[userTable] == source[..i + 1] + Zeros()[i + 1..];
      }
      assert source[..512] + Zeros()[512..] == source;
    }

    /** Slot 510 gets the address in slot 0, which is 0, less KERNBASE. */
    method FillPml4(kernelTable: Frame, userTable: Frame)
      requires kernelTable in mem && userTable in mem && kernelTable != userTable
      requires |mem[kernelTable]| == 512 && |mem[userTable]| == 512
      requires forall i | 0 <= i < 510 :: mem[kernelTable][i] == ZERO
      modifies `mem
      ensures mem == old(mem)[userTable := Zeros()[510 := User(0x80000)][511 := old(mem[kernelTable][511])]]
    {
      CopyEntries(kernelTable, userTable);
      mem := mem[userTable := mem[userTable][510 := User(MinusKernbase(mem[userTable][0].frame))]];
      assert mem[userTable] == Zeros()[510 := User(0x80000)][511 := old(mem[kernelTable][511])];
    }

    /** `map_user_pml4`.  The user half of the kernel's table is empty. */
    method MapUserPml4(kernelTable: Frame) returns (userTable: Frame)
      requires Wf(S()) && free != [] && kernelTable in mem && kernelTable !in free
      requires forall i | 0 <= i < 510 :: mem[kernelTable][i] == ZERO
      modifies this
      ensures S() == Spawned(old(S()), User(0x80000), old(mem[kernelTable][511]))
      ensures Step(old(S()), Spawn(userTable), S()) && Wf(S())
      ensures FrameAt(mem, Sub(Root(userTable), 510)) == Some(0x80000)
    {
      ghost var b := S();
      SpawnKeepsWf(b, User(0x80000), mem[kernelTable][511]);
      SlotOfSpawned(b, Spawned(b, User(0x80000), mem[kernelTable][511]), User(0x80000), mem[kernelTable][511]);
      userTable := Bump();
      FillPml4(kernelTable, userTable);
      at, loc := at[Root(userTable) := userTable], loc[userTable := Root(userTable)];
    }

    // -------------------------------------------------------------------------
    // The copy-on-write fault

    /** `kfree` of a page that was handed out: it joins the end of the queue. */
    method Kfree(f: Frame)
      modifies `free
      ensures free == old(free) + [f] && mem == old(mem) && at == old(at) && loc == old(loc) && owner == old(owner)
    {
      free := free + [f];
    }

    /** `kmemcpychar` of one page, word by word. */
    method CopyFrame(source: Frame, dest: Frame)
      requires source in mem && dest in mem && |mem[source]| == 512 && |mem[dest]| == 512
      modifies `mem
      ensures mem == old(mem)[dest := old(mem[source])]
    {
      for i := 0 to 512
        invariant mem.Keys == old(mem.Keys) && |mem[dest]| == 512
        invariant forall f | f in mem && f != dest :: mem[f] == old(mem[f])
        invariant forall j | 0 <= j < i :: mem[dest][j] == old(mem[source])[j]
        invariant dest == source ==> mem[dest] == old(mem[source])
      {
        mem := mem[dest := mem[dest][i := mem[source][i]]];
      }
      assert mem[dest] == old(mem[source]);
    }

    /** `entry | 7` in the table `t`, and the table it leads to. */
    method OpenUp(t: Frame, i: nat, ghost l: Loc) returns (next: Frame)
      requires TablesOk(S()) && l in at && at[l] == t && i < 512
      modifies `mem
      ensures S() == OpenEntry(old(S()), l, i)
      ensures next == Ent(old(S()), l, i).frame
      ensures TablesOk(S())
    {
      WriteFacts(S(), l, i, Grant(Ent(S(), l, i)));
      mem := mem[t := mem[t][i := Grant(mem[t][i])]];
      next := mem[t][i].frame;
    }

    /** The first half of `copy_page`.  Setting the present bit first makes the branches that would
        allocate a missing table unreachable. */
    method OpenPath(userTable: Frame, p: Page) returns (pageTable: Frame)
      requires Wf(S()) && UserPage(p) && PtLoc(userTable, p) in at
      modifies `mem
      ensures pageTable == old(at[PtLoc(userTable, p)])
      ensures UpperOpen(old(S()), S(), userTable, p)
    {
      ghost var b := S();
      PathTables(b, userTable, p);
      var pdpt := OpenUp(userTable, p.i4, Root(userTable));
      ghost var s1 := S();
      WriteFacts(b, Root(userTable), p.i4, Grant(Ent(b, Root(userTable), p.i4)));
      var pageDirectory := OpenUp(pdpt, p.i3, Sub(Root(userTable), p.i4));
      ghost var s2 := S();
      WriteFacts(s1, Sub(Root(userTable), p.i4), p.i3, Grant(Ent(s1, Sub(Root(userTable), p.i4), p.i3)));
      pageTable := OpenUp(pageDirectory, p.i2, PtLoc(userTable, p).parent);
      OpenUpper(b, s1, s2, S(), userTable, p);
    }

    /** The branch of `copy_page` for a page that is present: its bytes go to `page` by way of another frame. */
    method MovePage(pageTable: Frame, i: nat, page: Frame)
      requires free != [] && pageTable in mem && i < |mem[pageTable]| && mem[pageTable][i].frame in mem
      requires page in mem && free[0] in mem && page != free[0] && pageTable != page && pageTable != free[0]
      requires |mem[page]| == |mem[free[0]]| == |mem[mem[pageTable][i].frame]| == 512
      requires mem[pageTable][i].frame != page && mem[pageTable][i].frame != free[0]
               && mem[pageTable][i].frame != pageTable
      modifies `mem, `free
      ensures free == old(free)[1..] + [old(free)[0]]
      ensures var d := old(mem[mem[pageTable][i].frame]);
              mem == old(mem)[pageTable := old(mem[pageTable])[i := Grant(Base(page))]][old(free)[0] := d][page := d]
    {
      var copyValue := Bump();
      CopyFrame(mem[pageTable][i].frame, copyValue);
      mem := mem[pageTable := mem[pageTable][i := Grant(Base(page))]];
      CopyFrame(copyValue, mem[pageTable][i].frame);
      Kfree(copyValue);
    }

    /** `copy_page` on a page whose page table exists; `kfree` at the end needs a page to be still free. */
    method CopyPage(userTable: Frame, p: Page)
      requires Wf(S()) && UserPage(p) && PtLoc(userTable, p) in at
      requires if Ent(S(), PtLoc(userTable, p), p.i1).present then 3 <= |free| else 1 <= |free|
      modifies this
      ensures if old(Ent(S(), PtLoc(userTable, p), p.i1)).present then Faulted(old(S()), S(), userTable, p)
              else Touched(old(S()), S(), userTable, p)
      ensures Wf(S())
    {
      ghost var b, l := S(), PtLoc(userTable, p);
      PtLocFacts(userTable, p);
      LeafFrame(b, userTable, p);
      var pageTable := OpenPath(userTable, p);
      ghost var s := S();
      LeafUnopened(b, s, userTable, p);
      var page := Bump();
      if mem[pageTable][p.i1].present {
        MovePage(pageTable, p.i1, page);
        owner := owner[page := PageLoc(userTable, p)];
        FaultDone(b, s, S(), userTable, p);
      } else {
        mem := mem[pageTable := mem[pageTable][p.i1 := Grant(Base(page))]];
        owner := owner[page := PageLoc(userTable, p)];
        TouchDone(b, s, S(), userTable, p);
      }
      FaultKeepsWf(b, S(), userTable, p);
    }

    /** `is_cow_enabled`: it looks at the PML4 entry only. */
    function IsCowEnabled(userTable: Frame, i4: nat): (r: bool)
      requires userTable in mem && i4 < |mem[userTable]|
      reads this
      ensures r <==> CowEnabled(mem[userTable][i4])
    {
      mem[userTable][i4].cow && mem[userTable][i4].present
    }

    /** What it answers for a process: the test that the results about faults speak of. */
    lemma TestsTheSlot(r: Frame, p: Page)
      requires Wf(S()) && Root(r) in at && UserPage(p)
      ensures r in mem && p.i4 < |mem[r]| && (IsCowEnabled(r, p.i4) <==> PassesCowTest(S(), r, p))
    {
      assert LinkOk(S(), Root(r));
      assert Ent(S(), Root(r), p.i4) == mem[r][p.i4];
    }

    /** A load by the process. */
    method ReadWord(r: Frame, p: Page, k: nat) returns (v: Word)
      requires Wf(S()) && Root(r) in at && UserPage(p) && k < 512 && FrameAt(mem, PageLoc(r, p)).Some?
      ensures Step(S(), Read(r, p, k, v), S())
    {
      ImageOfMapped(S(), r, p);
      v := mem[FrameAt(mem, PageLoc(r, p)).value][k];
    }

    /** A store the MMU permits. */
    method Store(r: Frame, p: Page, k: nat, w: Word)
      requires Wf(S()) && Root(r) in at && UserPage(p) && k < 512 && FrameAt(mem, PageLoc(r, p)).Some?
      modifies `mem
      ensures Stored(old(S()), S(), r, p, k, w)
      ensures Wf(S())
    {
      ghost var b := S();
      ImageOfMapped(b, r, p);
      var f := FrameAt(mem, PageLoc(r, p)).value;
      mem := mem[f := mem[f][k := w]];
      StoreKeepsWf(b, S(), r, p, k, w);
    }

    /** A store by the process: it may fault, and then it runs the copy-on-write branch of the
        page-fault handler and is repeated. */
    method WriteWord(r: Frame, p: Page, k: nat, w: Word)
      requires Wf(S()) && Root(r) in at && UserPage(p) && k < 512 && FrameAt(mem, PageLoc(r, p)).Some?
      requires WritableAt(mem, PageLoc(r, p)) || 3 <= |free|
      modifies this
      ensures Step(old(S()), Write(r, p, k, w), S())
      ensures Wf(S())
    {
      ghost var b := S();
      if !WritableAt(mem, PageLoc(r, p)) {
        HandlerFacts(b, r, p);
        if IsCowEnabled(r, p.i4) {
          CopyPage(r, p);
          FaultedPage(b, S(), r, p);
        } else {
          assert false;
        }
      }
      ghost var m := S();
      Store(r, p, k, w);
      WroteThrough(b, m, S(), r, p, k, w);
    }

    // -------------------------------------------------------------------------
    // Exec: `clear_uptentries`, one method for each of its four nested loops

    /** Read where entry `i` of the table `t` leads, and zero the entry. */
    method Detach(t: Frame, i: nat, ghost b: Space, ghost x: Loc, ghost done: iset<Loc>) returns (child: Frame)
      requires Wf(b) && Clearing(b, S(), done + UpTo(x, i)) && x in b.at && b.at[x] == t && i < Width(x)
      requires done !! UpTo(x, Width(x)) && Ent(b, x, i).user
      modifies `mem
      ensures Clearing(b, S(), done + UpTo(x, i) + iset{Sub(x, i)})
      ensures child == Ent(b, x, i).frame
    {
      ghost var s := S();
      ClearReads(b, s, done, x, i);
      child := mem[t][i].frame;
      mem := mem[t := mem[t][i := ZERO]];
      ClearEntry(b, s, done + UpTo(x, i), x, i);
    }

    method ClearPt(pt: Frame, ghost b: Space, ghost x: Loc, ghost done: iset<Loc>)
      requires Wf(b) && Clearing(b, S(), done) && x in b.at && Depth(x) == 3 && b.at[x] == pt && done !! UpTo(x, 512)
      modifies `mem
      ensures Clearing(b, S(), done + UpTo(x, 512))
    {
      NothingVisited(done, x);
      for i := 0 to 512
        invariant Clearing(b, S(), done + UpTo(x, i))
      {
        ClearReads(b, S(), done, x, i);
        if mem[pt][i].user {
          var _ := Detach(pt, i, b, x, done);
        }
        ClearNext(b, S(), done, x, i);
      }
    }

    method ClearPdt(pdt: Frame, ghost b: Space, ghost x: Loc, ghost done: iset<Loc>)
      requires Wf(b) && Clearing(b, S(), done) && x in b.at && Depth(x) == 2 && b.at[x] == pdt && done !! UpTo(x, 512)
      modifies `mem
      ensures Clearing(b, S(), done + UpTo(x, 512))
    {
      NothingVisited(done, x);
      for i := 0 to 512
        invariant Clearing(b, S(), done + UpTo(x, i))
      {
        ClearReads(b, S(), done, x, i);
        if mem[pdt][i].user {
          var pt := Detach(pdt, i, b, x, done);
          ClearPt(pt, b, Sub(x, i), done + UpTo(x, i) + iset{Sub(x, i)});
          NextVisited(b, done, x, i);
        } else {
          ClearNext(b, S(), done, x, i);
        }
      }
    }

    method ClearPdpt(pdpt: Frame, ghost b: Space, ghost x: Loc, ghost done: iset<Loc>)
      requires Wf(b) && Clearing(b, S(), done) && x in b.at && Depth(x) == 1 && b.at[x] == pdpt && done !! UpTo(x, 512)
      modifies `mem
      ensures Clearing(b, S(), done + UpTo(x, 512))
    {
      NothingVisited(done, x);
      for i := 0 to 512
        invariant Clearing(b, S(), done + UpTo(x, i))
      {
        ClearReads(b, S(), done, x, i);
        if mem[pdpt][i].user {
          var pdt := Detach(pdpt, i, b, x, done);
          ClearPdt(pdt, b, Sub(x, i), done + UpTo(x, i) + iset{Sub(x, i)});
          NextVisited(b, done, x, i);
        } else {
          ClearNext(b, S(), done, x, i);
        }
      }
    }

    method ClearUptentries(pagetable: Frame)
      requires Wf(S()) && Root(pagetable) in at
      modifies this
      ensures Step(old(S()), Clear(pagetable), S())
      ensures Wf(S())
    {
      ghost var b, x := S(), Root(pagetable);
      assert LinkOk(b, x);
      NothingCleared(b, x);
      for i := 0 to 512
        invariant Clearing(b, S(), UserSlots(x, i))
      {
        ghost var s := S();
        assert Ent(s, x, i) == mem[pagetable][i];
        if mem[pagetable][i].user {
          if i == 510 || i == 511 {
            continue;
          }
          ClearReads(b, s, iset{}, x, i);
          var pdpt := Detach(pagetable, i, b, x, iset{});
          ClearPdpt(pdpt, b, Sub(x, i), UserSlots(x, i) + iset{Sub(x, i)});
          NextVisited(b, iset{}, x, i);
        } else if i < 510 {
          ClearReads(b, s, iset{}, x, i);
          ClearNext(b, s, iset{}, x, i);
        }
      }
      ghost var t := S();
      assert UserSlots(x, 512) == UpTo(x, 510);
      at, loc := Unlink(t, pagetable).at, Unlink(t, pagetable).loc;
      assert S() == Unlink(t, pagetable);
      ClearKeepsWf(b, S(), pagetable);
    }
  }

  // ---------------------------------------------------------------------------
  // Proof steps of the loops above

  lemma PlacesKept(a: map<Loc, Frame>, a': map<Loc, Frame>, z: Loc, f: Frame, y: Loc, up: Loc)
    requires z !in a && y in a && up in a && a' == a[z := f]
    ensures z in a' && a'[z] == f && y in a' && a'[y] == a[y] && up in a' && a'[up] == a[up]
  {
  }

  lemma TwinIsElsewhere(b: Space, x: Loc, c: Frame)
    requires Wf(b) && Root(c) !in b.at && x in b.at
    ensures Rebase(x, c) !in b.at && Rebase(x, c) != x && Width(Rebase(x, c)) == Width(x)
  {
    RebaseFacts(x, c);
    NoForeignTables(b, c);
  }

  lemma NothingVisited(done: iset<Loc>, x: Loc)
    ensures done + UpTo(x, 0) == done
  {
    VisitedSets(x, 0);
  }

  lemma NotVisited(b: Space, done: iset<Loc>, x: Loc, i: nat)
    requires Wf(b) && x in b.at && i < Width(x) && done !! UpTo(x, Width(x))
    ensures Sub(x, i) !in done + UpTo(x, i)
  {
    assert LinkOk(b, x);
    VisitedSets(x, i);
    assert Before(Sub(x, i), x, Width(x));
    assert Sub(x, i) in UpTo(x, Width(x));
  }

  lemma EntryNotYetVisited(b: Space, s: Space, done: iset<Loc>, x: Loc, i: nat)
    requires Wf(b) && x in b.at && i < Width(x) && done !! UpTo(x, Width(x))
    requires MemoryOk(s) && x in s.at && s.at[x] in s.mem && Parents(b, s, done + UpTo(x, i))
    ensures Sub(x, i) !in done + UpTo(x, i)
    ensures s.mem[s.at[x]][i] == Ent(b, x, i)
  {
    NotVisited(b, done, x, i);
    assert ParentEntry(b, s, done + UpTo(x, i), x, i);
    assert Ent(s, x, i) == s.mem[s.at[x]][i];
  }

  lemma NextVisited(b: Space, done: iset<Loc>, x: Loc, i: nat)
    requires Wf(b) && x in b.at && i < Width(x)
    ensures done + UpTo(x, i + 1) == done + UpTo(x, i) + Under(Sub(x, i))
    ensures done + UpTo(x, i + 1) == done + UpTo(x, i) + iset{Sub(x, i)} + UpTo(Sub(x, i), 512)
    ensures done + UpTo(x, i + 1) == done + UpTo(x, i) + iset{Sub(x, i)} + Under(Sub(x, i))
  {
    assert LinkOk(b, x);
    VisitedSets(x, i);
  }

  lemma SlotVisited(b: Space, x: Loc, i: nat)
    requires Wf(b) && x in b.at && x.Root? && i < 510
    ensures UserSlots(x, i + 1) == UserSlots(x, i) + iset{Sub(x, i)} + UpTo(Sub(x, i), 512)
  {
    NextVisited(b, iset{}, x, i);
  }

  lemma ZeroVisited(b: Space, s: Space, r: Frame, c: Frame, done: iset<Loc>, k510: Word, k511: Word, x: Loc, i: nat)
    requires Wf(b) && Copying(b, s, r, c, done + UpTo(x, i), k510, k511)
    requires x in b.at && i < Width(x) && Ent(b, x, i) == ZERO
    ensures Copying(b, s, r, c, done + UpTo(x, i + 1), k510, k511)
  {
    CopySkip(b, s, r, c, done + UpTo(x, i), k510, k511, x, i);
    NextVisited(b, done, x, i);
  }

  lemma LeafVisited(b: Space, s: Space, s': Space, r: Frame, c: Frame, done: iset<Loc>, k510: Word, k511: Word,
      x: Loc, i: nat)
    requires CanShare(b, s, r, c, done + UpTo(x, i), x, i) && Copying(b, s, r, c, done + UpTo(x, i), k510, k511)
    requires s' == ShareSpace(s, x, Rebase(x, c), i)
    ensures Copying(b, s', r, c, done + UpTo(x, i + 1), k510, k511)
  {
    var seen := done + UpTo(x, i);
    TwinIsElsewhere(b, x, c);
    ShareFacts(s, x, Rebase(x, c), i);
    CopyShare(b, s, s', r, c, seen, k510, k511, x, i);
    CopySkip(b, s', r, c, seen + iset{Sub(x, i)}, k510, k511, x, i);
    NextVisited(b, done, x, i);
  }

  lemma {:induction false} DeeperBefore(z: Loc, x: Loc, i: nat, n: nat)
    requires i < n
    ensures AtOrBelow(z, Sub(x, i)) ==> Before(z, x, n)
  {
    if z.Sub? && z != Sub(x, i) {
      DeeperBefore(z.parent, x, i, n);
    }
  }

  lemma BelowNotVisited(b: Space, done: iset<Loc>, x: Loc, i: nat)
    requires Wf(b) && x in b.at && i < Width(x) && done !! UpTo(x, Width(x))
    ensures (done + UpTo(x, i) + iset{Sub(x, i)}) !! UpTo(Sub(x, i), 512)
    ensures forall j: nat | j < 512 :: Sub(Sub(x, i), j) !in done + UpTo(x, i)
  {
    assert LinkOk(b, x);
    var q := Sub(x, i);
    VisitedSets(x, i);
    forall z | z in UpTo(q, 512) ensures z !in done && z != q {
      BelowByWidth(z, q);
      BeforeIsDeeper(z, q, 512);
      DeeperBefore(z, x, i, Width(x));
      assert z in UpTo(x, Width(x));
    }
    forall j: nat | j < 512 ensures Sub(q, j) in UpTo(q, 512) {
      assert UserLoc(Sub(q, j)) && Before(Sub(q, j), q, 512);
    }
  }

  lemma DirEntryFacts(b: Space, s: Space, r: Frame, c: Frame, done: iset<Loc>, k510: Word, k511: Word, x: Loc, i: nat)
    requires Wf(b) && Root(c) !in b.at && |Tables(b, r)| <= |b.free|
    requires Copying(b, s, r, c, done + UpTo(x, i), k510, k511)
    requires x in b.at && RootOf(x) == r && Depth(x) < 3 && i < Width(x) && Rebase(x, c) in s.at
    requires Ent(b, x, i) != ZERO && Sub(x, i) !in done + UpTo(x, i) && done !! UpTo(x, Width(x))
    ensures CanLink(b, s, r, c, done + UpTo(x, i), x, i)
    ensures s.free != [] && Sub(Rebase(x, c), i) !in s.at
    ensures Sub(x, i) in b.at && b.at[Sub(x, i)] == Ent(b, x, i).frame
  {
    assert EntryOk(b, x, i);
    BelowNotVisited(b, done, x, i);
    LinkIsNew(b, s, r, c, done + UpTo(x, i), x, i);
  }

  lemma DirLinked(b: Space, s: Space, s': Space, r: Frame, c: Frame, done: iset<Loc>, k510: Word, k511: Word, x: Loc,
      i: nat)
    requires CanLink(b, s, r, c, done + UpTo(x, i), x, i) && Copying(b, s, r, c, done + UpTo(x, i), k510, k511)
    requires done !! UpTo(x, Width(x)) && s.free != [] && Sub(Rebase(x, c), i) !in s.at
    requires x != Rebase(x, c) && s' == LinkSpace(s, x, Rebase(x, c), i)
    ensures Copying(b, s', r, c, done + UpTo(x, i) + iset{Sub(x, i)}, k510, k511)
    ensures (done + UpTo(x, i) + iset{Sub(x, i)}) !! UpTo(Sub(x, i), 512)
    ensures Rebase(Sub(x, i), c) in s'.at && s'.at[Rebase(Sub(x, i), c)] == s.free[0]
    ensures RootOf(Sub(x, i)) == r && Depth(Sub(x, i)) == Depth(x) + 1
  {
    LinkFacts(s, x, Rebase(x, c), i);
    CopyLink(b, s, s', r, c, done + UpTo(x, i), k510, k511, x, i);
    BelowNotVisited(b, done, x, i);
  }

  lemma RootTwin(b: Space, s: Space, r: Frame, c: Frame, done: iset<Loc>, k510: Word, k511: Word)
    requires Root(c) !in b.at && Copying(b, s, r, c, done, k510, k511)
    ensures Root(c) in s.at && s.at[Root(c)] == c && Rebase(Root(r), c) == Root(c)
  {
    assert TwinPlace(b, s, r, c, done, Root(c));
  }

  lemma ZeroSlotVisited(b: Space, s: Space, r: Frame, c: Frame, i: nat)
    requires Wf(b) && Root(r) in b.at && Copying(b, s, r, c, UserSlots(Root(r), i), ZERO, ZERO)
    requires i < 510 && Ent(b, Root(r), i) == ZERO
    ensures Copying(b, s, r, c, UserSlots(Root(r), i + 1), ZERO, ZERO)
  {
    ZeroVisited(b, s, r, c, iset{}, ZERO, ZERO, Root(r), i);
  }

  /** The user slots among the first `i` slots of a PML4. */
  ghost function UserSlots(x: Loc, i: nat): iset<Loc> {
    iset{} + UpTo(x, if i < 510 then i else 510)
  }

  lemma FinishFork(b: Space, s: Space, s': Space, r: Frame, c: Frame)
    requires Wf(b) && Root(r) in b.at && Root(c) !in b.at && s' == s.(owner := Disown(s.owner, r))
    requires Copying(b, s, r, c, UserSlots(Root(r), 512), Kernel(c), Ent(b, Root(r), 511))
    ensures Forked(b, s', r, c) && Wf(s')
  {
    assert UserSlots(Root(r), 512) == UpTo(Root(r), 510);
    assert s'.(owner := b.owner) == s;
    ForkKeepsWf(b, s', r, c);
  }

  /** What the loop of `duplicate_page_table` reads from the source table. */
  lemma RootEntry(b: Space, s: Space, r: Frame, c: Frame, i: nat)
    requires Wf(b) && Root(r) in b.at && i < 512 && Copying(b, s, r, c, UserSlots(Root(r), i), ZERO, ZERO)
    ensures r in s.mem && |s.mem[r]| == 512 && s.mem[r][i] == Ent(b, Root(r), i)
  {
    var n := if i < 510 then i else 510;
    assert LinkOk(b, Root(r));
    VisitedSets(Root(r), n);
    assert Sub(Root(r), i) !in UpTo(Root(r), n);
    assert s.at[Root(r)] == r;
    assert ParentEntry(b, s, UserSlots(Root(r), i), Root(r), i);
    assert Ent(s, Root(r), i) == s.mem[r][i];
  }

  // ---------------------------------------------------------------------------
  // Proof steps of `copy_page`

  lemma LeafFrame(b: Space, r: Frame, p: Page)
    requires Wf(b) && UserPage(p) && PtLoc(r, p) in b.at
    ensures var e := Ent(b, PtLoc(r, p), p.i1);
            e.present ==> e.frame in b.mem && e.frame !in b.loc && e.frame !in b.free
  {
    PtLocFacts(r, p);
    assert Ent(b, PtLoc(r, p), p.i1) != ZERO ==> EntryOk(b, PtLoc(r, p), p.i1);
  }

  lemma LeafUnopened(b: Space, s: Space, r: Frame, p: Page)
    requires UserPage(p) && UpperOpen(b, s, r, p) && PtLoc(r, p) in b.at
    ensures var t := s.at[PtLoc(r, p)];
            t in s.mem && |s.mem[t]| == 512 && s.mem[t][p.i1] == Ent(b, PtLoc(r, p), p.i1)
  {
    PtLocFacts(r, p);
    PathIsShallow(PtLoc(r, p), p.i1, r, p);
    assert Ent(s, PtLoc(r, p), p.i1) == s.mem[s.at[PtLoc(r, p)]][p.i1];
  }

  /** The state after `copy_page` of a mapped page, whose frame is `from`. */
  ghost predicate PageCopied(b: Space, s: Space, s': Space, r: Frame, p: Page, from: Frame)
    requires TablesOk(s) && PtLoc(r, p) in s.at && UserPage(p) && 3 <= |b.free|
  {
    && from in b.mem && from !in b.loc && from !in b.free
    && s'.at == s.at && s'.loc == s.loc && s'.owner == b.owner[b.free[0] := PageLoc(r, p)]
    && s'.free == b.free[2..] + [b.free[1]]
    && s'.mem == WriteEntry(s, PtLoc(r, p), p.i1, Grant(Base(b.free[0]))).mem
                 [b.free[1] := b.mem[from]][b.free[0] := b.mem[from]]
  }

  /** The frames that it fills are data frames, so the tables are those with the new entry. */
  lemma CopiedTables(b: Space, s: Space, s': Space, r: Frame, p: Page, from: Frame)
    requires Wf(b) && UserPage(p) && UpperOpen(b, s, r, p) && PtLoc(r, p) in b.at && 3 <= |b.free|
    requires PageCopied(b, s, s', r, p, from)
    ensures TablesOk(s') && s'.mem.Keys == s.mem.Keys
    ensures var m := WriteEntry(s, PtLoc(r, p), p.i1, Grant(Base(b.free[0]))).mem;
            forall f {:trigger s'.mem[f]} | f in s.loc && f in s.mem :: f in m && s'.mem[f] == m[f]
  {
    WriteFacts(s, PtLoc(r, p), p.i1, Grant(Base(b.free[0])));
    assert b.free[0] in b.mem && b.free[1] in b.mem && b.free[0] !in b.loc && b.free[1] !in b.loc;
  }

  lemma CopiedFrames(b: Space, s: Space, s': Space, r: Frame, p: Page, from: Frame)
    requires Wf(b) && UserPage(p) && UpperOpen(b, s, r, p) && PtLoc(r, p) in b.at && 3 <= |b.free|
    requires PageCopied(b, s, s', r, p, from)
    ensures b.free[0] in s'.mem && s'.mem[b.free[0]] == b.mem[from]
    ensures forall f {:trigger s'.mem[f]} | f in b.mem && f !in b.loc && f != b.free[0] && f != b.free[1] ::
              f in s'.mem && s'.mem[f] == b.mem[f]
  {
    assert s.at[PtLoc(r, p)] in b.loc;
  }

  lemma FaultDone(b: Space, s: Space, s': Space, r: Frame, p: Page)
    requires Wf(b) && UserPage(p) && UpperOpen(b, s, r, p) && PtLoc(r, p) in b.at && 3 <= |b.free|
    requires Ent(b, PtLoc(r, p), p.i1).present
    requires PageCopied(b, s, s', r, p, Ent(b, PtLoc(r, p), p.i1).frame)
    ensures Faulted(b, s', r, p)
  {
    var from := Ent(b, PtLoc(r, p), p.i1).frame;
    CopiedTables(b, s, s', r, p, from);
    CopiedFrames(b, s, s', r, p, from);
    MoveDone(b, s, s', r, p, WriteEntry(s, PtLoc(r, p), p.i1, Grant(Base(b.free[0]))).mem);
  }

  lemma TouchDone(b: Space, s: Space, s': Space, r: Frame, p: Page)
    requires Wf(b) && UserPage(p) && UpperOpen(b, s, r, p) && PtLoc(r, p) in b.at && b.free != []
    requires !Ent(b, PtLoc(r, p), p.i1).present
    requires s'.at == s.at && s'.loc == s.loc && s'.owner == b.owner[b.free[0] := PageLoc(r, p)]
    requires s'.free == b.free[1..] && s'.mem == WriteEntry(s, PtLoc(r, p), p.i1, Grant(Base(b.free[0]))).mem
    ensures Touched(b, s', r, p)
  {
    WriteFacts(s, PtLoc(r, p), p.i1, Grant(Base(b.free[0])));
    MoveDone(b, s, s', r, p, s'.mem);
  }

  // ---------------------------------------------------------------------------
  // When the handler takes the copy-on-write branch

  /** In the state that a fork leaves, exactly for the addresses below a used PML4 entry of the parent. */
  lemma HandlerAfterFork(m: Mmu, b: Space, r: Frame, c: Frame, p: Page)
    requires Wf(b) && Forked(b, m.S(), r, c) && UserPage(p)
    ensures r in m.mem && p.i4 < |m.mem[r]| && (m.IsCowEnabled(r, p.i4) <==> Ent(b, Root(r), p.i4) != ZERO)
    ensures c in m.mem && p.i4 < |m.mem[c]| && (m.IsCowEnabled(c, p.i4) <==> Ent(b, Root(r), p.i4) != ZERO)
  {
    ForkKeepsWf(b, m.S(), r, c);
    EveryTableCopied(b, m.S(), r, c, Root(r));
    CowTestAfterFork(b, m.S(), r, c, p);
    m.TestsTheSlot(r, p);
    m.TestsTheSlot(c, p);
  }

  /** As long as nobody has forked, never. */
  lemma HandlerWithoutFork(m: Mmu, states: seq<Space>, events: seq<Event>, mem: Memory, free: seq<Frame>, r: Frame,
      p: Page)
    requires Run(states, events) && states[0] == BootSpace(mem, free) && Distinct(free)
    requires (forall f | f in free :: f in mem) && forall f | f in mem :: |mem[f]| == 512
    requires (forall ev | ev in events :: !ev.Fork?) && m.S() == states[|states| - 1] && Root(r) in m.at && UserPage(p)
    ensures r in m.mem && p.i4 < |m.mem[r]| && !m.IsCowEnabled(r, p.i4)
  {
    BootIsWf(mem, free);
    RunHasNoCow(states, events, map[], |states| - 1);
    NothingIsRefused(m.S(), r, p);
    m.TestsTheSlot(r, p);
  }

  /** It may take it for a page whose directory is absent, where `copy_page` leaves the tables of the process. */
  lemma HandlerLedAstray(m: Mmu)
    requires m.S() == AbsentDirectory()
    ensures Wf(m.S()) && m.mem[1] != [] && m.IsCowEnabled(1, 0)
    ensures PtLoc(1, Page(0, 0, 0, 0)) !in m.at && PdOf(m.mem, 1, Page(0, 0, 0, 0)) == 0
  {
    CowTestIsNotEnough();
    m.TestsTheSlot(1, Page(0, 0, 0, 0));
  }

  // ---------------------------------------------------------------------------
  // Proof steps of the write path and of exec

  lemma HandlerFacts(b: Space, r: Frame, p: Page)
    requires Wf(b) && Root(r) in b.at && UserPage(p)
    requires FrameAt(b.mem, PageLoc(r, p)).Some? && !WritableAt(b.mem, PageLoc(r, p))
    ensures PassesCowTest(b, r, p) && r in b.mem && |b.mem[r]| == 512 && Ent(b, Root(r), p.i4) == b.mem[r][p.i4]
    ensures PtLoc(r, p) in b.at && Ent(b, PtLoc(r, p), p.i1).present
  {
    FaultTakesCowBranch(b, r, p);
    ImageOfMapped(b, r, p);
    assert LinkOk(b, Root(r));
    WalkToPage(b, r, p);
    PtLocFacts(r, p);
    assert EntryOk(b, PtLoc(r, p), p.i1);
  }

  lemma WroteThrough(b: Space, m: Space, s: Space, r: Frame, p: Page, k: nat, w: Word)
    requires Wf(b) && Root(r) in b.at && Stored(m, s, r, p, k, w)
    requires if WritableAt(b.mem, PageLoc(r, p)) then m == b else PassesCowTest(b, r, p) && Faulted(b, m, r, p)
    ensures Wrote(b, s, r, p, k, w)
  {
  }

  lemma ClearReads(b: Space, s: Space, done: iset<Loc>, x: Loc, i: nat)
    requires Wf(b) && Clearing(b, s, done + UpTo(x, i)) && x in b.at && i < Width(x) && done !! UpTo(x, Width(x))
    ensures s.mem[s.at[x]][i] == Ent(b, x, i)
    ensures Ent(b, x, i).user <==> Ent(b, x, i) != ZERO
    ensures Ent(b, x, i).user && Depth(x) < 3 ==> Sub(x, i) in b.at && b.at[Sub(x, i)] == Ent(b, x, i).frame
    ensures (done + UpTo(x, i) + iset{Sub(x, i)}) !! UpTo(Sub(x, i), 512)
  {
    NotVisited(b, done, x, i);
    BelowNotVisited(b, done, x, i);
    assert Ent(s, x, i) == s.mem[s.at[x]][i];
    assert Ent(b, x, i) != ZERO ==> EntryOk(b, x, i);
  }

  lemma ClearNext(b: Space, s: Space, done: iset<Loc>, x: Loc, i: nat)
    requires Wf(b) && x in b.at && i < Width(x)
    requires (Clearing(b, s, done + UpTo(x, i) + iset{Sub(x, i)}) && Depth(x) == 3) ||
             (Clearing(b, s, done + UpTo(x, i)) && Ent(b, x, i) == ZERO)
    ensures Clearing(b, s, done + UpTo(x, i + 1))
  {
    NextVisited(b, done, x, i);
    if Ent(b, x, i) == ZERO && Clearing(b, s, done + UpTo(x, i)) {
      ClearAgree(b, s, done + UpTo(x, i), x, i);
    } else {
      ClearAgree(b, s, done + UpTo(x, i) + iset{Sub(x, i)}, x, i);
    }
  }

  lemma NothingCleared(b: Space, x: Loc)
    requires Wf(b) && x in b.at
    ensures Clearing(b, b, UserSlots(x, 0))
  {
    VisitedSets(x, 0);
    assert UserSlots(x, 0) == iset{};
  }
}
