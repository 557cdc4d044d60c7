/**
  The boot direct map: `map_address_initial` as a base-512 odometer over the four table levels,
  and that the map it builds covers the tables it allocates on the way.
 */
module BootMap {
  import opened PageEntries
  import opened PageTables
  import opened Wrappers
  import FrameAllocator

  /** The table indices of page number `v`. */
  function Digits(v: nat): Page {
    Page(v / 512 / 512 / 512, v / 512 / 512 % 512, v / 512 % 512, v % 512)
  }

  /** Bits 47 to 30 and bits 29 to 12 of an address. */
  function High(va: bv64): bv64 {
    (va >> 30) & 0x3ffff
  }

  function Low(va: bv64): bv64 {
    (va >> 12) & 0x3ffff
  }

  /** The page number of a virtual address. */
  function PageNumber(va: bv64): nat {
    0x4_0000 * (High(va) as nat) + (Low(va) as nat)
  }

  lemma TwoDigits(x: bv64)
    requires x < 0x40000
    ensures x as nat == 512 * ((x >> 9) as nat) + ((x & 0x1ff) as nat)
  {
  }

  lemma DigitBound(x: bv64)
    ensures (x & 0x1ff) as nat < 512
  {
  }

  lemma IndexOfHalf(va: bv64)
    ensures High(va) < 0x40000 && High(va) >> 9 == (va >> 39) & 0x1ff && High(va) & 0x1ff == (va >> 30) & 0x1ff
    ensures Low(va) < 0x40000 && Low(va) >> 9 == (va >> 21) & 0x1ff && Low(va) & 0x1ff == (va >> 12) & 0x1ff
  {
  }

  lemma HighDigits(va: bv64)
    ensures High(va) as nat == 512 * PageOf(va).i4 + PageOf(va).i3
  {
    IndexOfHalf(va);
    TwoDigits(High(va));
  }

  lemma LowDigits(va: bv64)
    ensures Low(va) as nat == 512 * PageOf(va).i2 + PageOf(va).i1
  {
    IndexOfHalf(va);
    TwoDigits(Low(va));
  }

  lemma PageBounds(va: bv64)
    ensures var p := PageOf(va); p.i4 < 512 && p.i3 < 512 && p.i2 < 512 && p.i1 < 512
  {
    DigitBound(va >> 39);
    DigitBound(va >> 30);
    DigitBound(va >> 21);
    DigitBound(va >> 12);
  }

  lemma DigitsOfHalves(p: Page, h: nat, l: nat, v: nat)
    requires p.i4 < 512 && p.i3 < 512 && p.i2 < 512 && p.i1 < 512
    requires h == 512 * p.i4 + p.i3 && l == 512 * p.i2 + p.i1 && v == 0x4_0000 * h + l
    ensures Digits(v) == p
  {
    assert v / 512 == 512 * h + p.i2 && v % 512 == p.i1;
  }

  /** The four shifts and masks of an address are the digits of its page number. */
  lemma PageOfIsDigits(va: bv64)
    ensures PageOf(va) == Digits(PageNumber(va))
  {
    HighDigits(va);
    LowDigits(va);
    PageBounds(va);
    DigitsOfHalves(PageOf(va), High(va) as nat, Low(va) as nat, PageNumber(va));
  }

  /** The page number is bits 47 to 12. */
  lemma PageNumberBits(va: bv64)
    ensures va & 0xfffffffff000 == (High(va) << 30) | (Low(va) << 12)
  {
  }

  /** Where page number `v` leads. */
  function Walk(m: Memory, root: Frame, v: nat): Option<Frame> {
    FrameAt(m, PageLoc(root, Digits(v)))
  }

  function Follow(m: Memory, t: Option<Frame>, i: nat): Option<Frame> {
    if t.Some? && t.value in m && i < |m[t.value]| && m[t.value][i].present then Some(m[t.value][i].frame) else None
  }

  lemma FourSteps(m: Memory, root: Frame, v: nat)
    ensures var p := Digits(v);
            Walk(m, root, v) == Follow(m, Follow(m, Follow(m, Follow(m, Some(root), p.i4), p.i3), p.i2), p.i1)
  {
    var p := Digits(v);
    var l3 := Sub(Root(root), p.i4);
    var l2 := Sub(l3, p.i3);
    assert FrameAt(m, l3) == Follow(m, Some(root), p.i4);
    assert FrameAt(m, l2) == Follow(m, FrameAt(m, l3), p.i3);
    assert FrameAt(m, Sub(l2, p.i2)) == Follow(m, FrameAt(m, l2), p.i2);
  }

  /** On the way every entry grants the kernel to write, grants user code nothing and is unmarked. */
  ghost predicate KernelAt(m: Memory, l: Loc) {
    l.Sub? ==>
      && KernelAt(m, l.parent)
      && FrameAt(m, l).Some?
      && var e := m[FrameAt(m, l.parent).value][l.index]; e.writable && !e.user && !e.cow && e.rest == 0
  }

  lemma KernelStep(m: Memory, l: Loc, i: nat, t: Frame, f: Frame)
    requires KernelAt(m, l) && FrameAt(m, l) == Some(t) && t in m && i < |m[t]| && m[t][i] == Kernel(f)
    ensures KernelAt(m, Sub(l, i)) && FrameAt(m, Sub(l, i)) == Some(f)
  {
  }

  // ---------------------------------------------------------------------------
  // One level of tables over the next

  /** The entry that leads to number `n` of the level below, of which `down` are numbers `low` and up. */
  function EntryFor(down: seq<Frame>, low: nat, n: nat): Word {
    if low <= n < low + |down| then Kernel(down[n - low]) else ZERO
  }

  ghost predicate TableOk(m: Memory, t: Frame, number: nat, down: seq<Frame>, low: nat) {
    && t in m && |m[t]| == 512
    && (forall j {:trigger m[t][j]} | 0 <= j < 512 :: m[t][j] == EntryFor(down, low, 512 * number + j))
  }

  ghost predicate TableAt(m: Memory, up: seq<Frame>, high: nat, down: seq<Frame>, low: nat, k: nat)
    requires k < |up|
  {
    TableOk(m, up[k], high + k, down, low)
  }

  /** The tables `up`, numbers `high` and up, lead to exactly the frames `down`. */
  ghost predicate LevelOk(m: Memory, up: seq<Frame>, high: nat, down: seq<Frame>, low: nat) {
    forall k: nat {:trigger TableAt(m, up, high, down, low, k)} | k < |up| :: TableAt(m, up, high, down, low, k)
  }

  lemma LevelKept(m: Memory, m': Memory, up: seq<Frame>, high: nat, down: seq<Frame>, low: nat)
    requires LevelOk(m, up, high, down, low) && forall f | f in up && f in m :: f in m' && m'[f] == m[f]
    ensures LevelOk(m', up, high, down, low)
  {
    forall k: nat | k < |up| ensures TableAt(m', up, high, down, low, k) {
      assert TableAt(m, up, high, down, low, k);
    }
  }

  function HangTable(m: Memory, dir: Frame, j: nat, t: Frame): Memory
    requires dir in m && j < |m[dir]|
  {
    m[dir := m[dir][j := Kernel(t)]]
  }

  /** Entry `j` of the last table leads to the next number of the level below. */
  lemma LevelGrows(m: Memory, up: seq<Frame>, high: nat, down: seq<Frame>, low: nat, j: nat, t: Frame)
    requires LevelOk(m, up, high, down, low) && Distinct(up) && up != [] && j < 512
    requires 512 * (high + |up| - 1) + j == low + |down|
    ensures var dir := up[|up| - 1];
            dir in m && |m[dir]| == 512 && LevelOk(HangTable(m, dir, j, t), up, high, down + [t], low)
  {
    var last := |up| - 1;
    assert TableAt(m, up, high, down, low, last);
    var m' := HangTable(m, up[last], j, t);
    forall k: nat | k < |up| ensures TableAt(m', up, high, down + [t], low, k) {
      assert TableAt(m, up, high, down, low, k);
      forall i | 0 <= i < 512 ensures m'[up[k]][i] == EntryFor(down + [t], low, 512 * (high + k) + i) {
        assert m[up[k]][i] == EntryFor(down, low, 512 * (high + k) + i);
      }
    }
  }

  /** A new table of zeros that is responsible only for later numbers. */
  lemma LevelWidens(m: Memory, up: seq<Frame>, high: nat, down: seq<Frame>, low: nat, t: Frame)
    requires LevelOk(m, up, high, down, low) && t !in up && (down == [] || low + |down| <= 512 * (high + |up|))
    ensures LevelOk(m[t := Zeros()], up + [t], high, down, low)
  {
    var m' := m[t := Zeros()];
    forall k: nat | k < |up + [t]| ensures TableAt(m', up + [t], high, down, low, k) {
      if k < |up| {
        assert TableAt(m, up, high, down, low, k);
      }
    }
  }

  /** One step of a walk: from the table in charge of `x` to number `x` of the level below. */
  lemma Descend(m: Memory, up: seq<Frame>, high: nat, down: seq<Frame>, low: nat, x: nat)
    requires LevelOk(m, up, high, down, low) && high <= x / 512 < high + |up|
    ensures var t := up[x / 512 - high];
      && t in m && |m[t]| == 512
      && m[t][x % 512] == EntryFor(down, low, x)
  {
    assert TableAt(m, up, high, down, low, x / 512 - high);
    assert 512 * (x / 512) + x % 512 == x;
  }

  /** One step of a walk, from the table in charge of `x / 512`. */
  lemma StepDown(m: Memory, up: seq<Frame>, high: nat, down: seq<Frame>, low: nat, x: nat)
    requires LevelOk(m, up, high, down, low) && high <= x / 512 < high + |up|
    ensures Follow(m, Some(up[x / 512 - high]), x % 512)
            == if low <= x < low + |down| then Some(down[x - low]) else None
  {
    Descend(m, up, high, down, low, x);
  }

  // ---------------------------------------------------------------------------
  // The tree

  /** All tables below a PML4, level by level in the order of the addresses they are in charge of, the pages they
      map, and the level of every table. */
  datatype Tree = Tree(root: Frame, pdpts: seq<Frame>, pds: seq<Frame>, pts: seq<Frame>, pages: seq<Frame>,
                       level: map<Frame, nat>)

  ghost predicate OnLevel(level: map<Frame, nat>, s: seq<Frame>, l: nat) {
    Distinct(s) && forall f | f in s :: f in level && level[f] == l
  }

  /** The tree maps the pages from `v0` on, and nothing else; the allocator has not handed out `next` yet. */
  ghost predicate TreeOk(m: Memory, t: Tree, v0: nat, next: Frame) {
    && LevelOk(m, [t.root], 0, t.pdpts, v0 / 512 / 512 / 512)
        && LevelOk(m, t.pdpts, v0 / 512 / 512 / 512, t.pds, v0 / 512 / 512)
    && LevelOk(m, t.pds, v0 / 512 / 512, t.pts, v0 / 512) && LevelOk(m, t.pts, v0 / 512, t.pages, v0)
    && OnLevel(t.level, [t.root], 4) && OnLevel(t.level, t.pdpts, 3) && OnLevel(t.level, t.pds, 2)
        && OnLevel(t.level, t.pts, 1)
    && forall f | f in t.level :: f < next
  }

  /** The tables reach up to those in charge of `u`. */
  ghost predicate Reaches(t: Tree, v0: nat, u: nat) {
    && |t.pts| == u / 512 - v0 / 512 + 1
    && |t.pds| == u / 512 / 512 - v0 / 512 / 512 + 1
    && |t.pdpts| == u / 512 / 512 / 512 - v0 / 512 / 512 / 512 + 1
  }

  /** A walk of the tree ends at the page, for exactly the mapped page numbers. */
  lemma WalkOfTree(m: Memory, t: Tree, v0: nat, next: Frame, u: nat, v: nat)
    requires TreeOk(m, t, v0, next) && Reaches(t, v0, u) && v0 <= u && v0 + |t.pages| <= u + 1
    requires v < 512 * 512 * 512 * 512
    ensures Walk(m, t.root, v) == if v0 <= v < v0 + |t.pages| then Some(t.pages[v - v0]) else None
  {
    FourSteps(m, t.root, v);
    StepDown(m, [t.root], 0, t.pdpts, v0 / 512 / 512 / 512, v / 512 / 512 / 512);
    if v0 / 512 / 512 / 512 <= v / 512 / 512 / 512 < v0 / 512 / 512 / 512 + |t.pdpts| {
      StepDown(m, t.pdpts, v0 / 512 / 512 / 512, t.pds, v0 / 512 / 512, v / 512 / 512);
      if v0 / 512 / 512 <= v / 512 / 512 < v0 / 512 / 512 + |t.pds| {
        StepDown(m, t.pds, v0 / 512 / 512, t.pts, v0 / 512, v / 512);
        if v0 / 512 <= v / 512 < v0 / 512 + |t.pts| {
          StepDown(m, t.pts, v0 / 512, t.pages, v0, v);
        }
      }
    }
  }

  /** The way to a mapped page is the kernel's own. */
  lemma KernelPath(m: Memory, t: Tree, v0: nat, next: Frame, u: nat, v: nat)
    requires TreeOk(m, t, v0, next) && Reaches(t, v0, u) && v0 <= v < v0 + |t.pages| <= u + 1
    requires v < 512 * 512 * 512 * 512
    ensures KernelAt(m, PageLoc(t.root, Digits(v)))
  {
    var p := Digits(v);
    var l3 := Sub(Root(t.root), p.i4);
    var l2 := Sub(l3, p.i3);
    var l1 := Sub(l2, p.i2);
    Descend(m, [t.root], 0, t.pdpts, v0 / 512 / 512 / 512, v / 512 / 512 / 512);
    Descend(m, t.pdpts, v0 / 512 / 512 / 512, t.pds, v0 / 512 / 512, v / 512 / 512);
    Descend(m, t.pds, v0 / 512 / 512, t.pts, v0 / 512, v / 512);
    Descend(m, t.pts, v0 / 512, t.pages, v0, v);
    var f3 := t.pdpts[v / 512 / 512 / 512 - v0 / 512 / 512 / 512];
    var f2 := t.pds[v / 512 / 512 - v0 / 512 / 512];
    var f1 := t.pts[v / 512 - v0 / 512];
    KernelStep(m, Root(t.root), p.i4, t.root, f3);
    KernelStep(m, l3, p.i3, f3, f2);
    KernelStep(m, l2, p.i2, f2, f1);
    KernelStep(m, l1, p.i1, f1, t.pages[v - v0]);
  }

  // ---------------------------------------------------------------------------
  // Growing the tree

  lemma KeptByLevel(m: Memory, m': Memory, t: Tree, up: seq<Frame>, l: nat, high: nat, down: seq<Frame>, low: nat,
      changed: set<Frame>)
    requires LevelOk(m, up, high, down, low) && OnLevel(t.level, up, l)
    requires forall f | f in changed :: f !in t.level || t.level[f] != l
    requires forall f | f in m && f !in changed :: f in m' && m'[f] == m[f]
    ensures LevelOk(m', up, high, down, low)
  {
    LevelKept(m, m', up, high, down, low);
  }

  lemma LevelAppend(level: map<Frame, nat>, s: seq<Frame>, l: nat, f: Frame)
    requires OnLevel(level, s, l) && f !in level
    ensures OnLevel(level[f := l], s + [f], l)
  {
    assert forall g | g in s + [f] :: g in s || g == f;
  }

  /** A new PDPT below the PML4. */
  lemma AddPdpt(m: Memory, t: Tree, v0: nat, next: Frame, j: nat, f: Frame)
    requires TreeOk(m, t, v0, next) && f !in t.level && f < next && j < 512
    requires j == v0 / 512 / 512 / 512 + |t.pdpts| && (t.pds == [] || v0 / 512 / 512 + |t.pds| <= 512 * j)
    ensures t.root in m && |m[t.root]| == 512
    ensures var t' := t.(pdpts := t.pdpts + [f], level := t.level[f := 3]);
            TreeOk(HangTable(m, t.root, j, f)[f := Zeros()], t', v0, next)
  {
    var e0 := v0 / 512 / 512 / 512;
    LevelGrows(m, [t.root], 0, t.pdpts, e0, j, f);
    var m1 := HangTable(m, t.root, j, f);
    var m2 := m1[f := Zeros()];
    KeptByLevel(m, m1, t, t.pdpts, 3, e0, t.pds, v0 / 512 / 512, {t.root});
    LevelWidens(m1, t.pdpts, e0, t.pds, v0 / 512 / 512, f);
    KeptByLevel(m1, m2, t, [t.root], 4, 0, t.pdpts + [f], e0, {f});
    KeptByLevel(m, m2, t, t.pds, 2, v0 / 512 / 512, t.pts, v0 / 512, {t.root, f});
    KeptByLevel(m, m2, t, t.pts, 1, v0 / 512, t.pages, v0, {t.root, f});
    LevelAppend(t.level, t.pdpts, 3, f);
  }

  /** A new PD below the last PDPT. */
  lemma AddPd(m: Memory, t: Tree, v0: nat, next: Frame, j: nat, f: Frame)
    requires TreeOk(m, t, v0, next) && f !in t.level && f < next && j < 512 && t.pdpts != []
    requires 512 * (v0 / 512 / 512 / 512 + |t.pdpts| - 1) + j == v0 / 512 / 512 + |t.pds|
    requires t.pts == [] || v0 / 512 + |t.pts| <= 512 * (v0 / 512 / 512 + |t.pds|)
    ensures var dir := t.pdpts[|t.pdpts| - 1];
            && dir in m && |m[dir]| == 512
            && TreeOk(HangTable(m, dir, j, f)[f := Zeros()], t.(pds := t.pds + [f], level := t.level[f := 2]), v0, next)
  {
    var e0, d0 := v0 / 512 / 512 / 512, v0 / 512 / 512;
    var dir := t.pdpts[|t.pdpts| - 1];
    LevelGrows(m, t.pdpts, e0, t.pds, d0, j, f);
    var m1 := HangTable(m, dir, j, f);
    var m2 := m1[f := Zeros()];
    KeptByLevel(m, m1, t, t.pds, 2, d0, t.pts, v0 / 512, {dir});
    LevelWidens(m1, t.pds, d0, t.pts, v0 / 512, f);
    KeptByLevel(m1, m2, t, t.pdpts, 3, e0, t.pds + [f], d0, {f});
    KeptByLevel(m, m2, t, [t.root], 4, 0, t.pdpts, e0, {dir, f});
    KeptByLevel(m, m2, t, t.pts, 1, v0 / 512, t.pages, v0, {dir, f});
    LevelAppend(t.level, t.pds, 2, f);
  }

  /** A new PT below the last PD. */
  lemma AddPt(m: Memory, t: Tree, v0: nat, next: Frame, j: nat, f: Frame)
    requires TreeOk(m, t, v0, next) && f !in t.level && f < next && j < 512 && t.pds != []
    requires 512 * (v0 / 512 / 512 + |t.pds| - 1) + j == v0 / 512 + |t.pts|
    requires t.pages == [] || v0 + |t.pages| <= 512 * (v0 / 512 + |t.pts|)
    ensures var dir := t.pds[|t.pds| - 1];
            && dir in m && |m[dir]| == 512
            && TreeOk(HangTable(m, dir, j, f)[f := Zeros()], t.(pts := t.pts + [f], level := t.level[f := 1]), v0, next)
  {
    var d0, c0 := v0 / 512 / 512, v0 / 512;
    var dir := t.pds[|t.pds| - 1];
    LevelGrows(m, t.pds, d0, t.pts, c0, j, f);
    var m1 := HangTable(m, dir, j, f);
    var m2 := m1[f := Zeros()];
    KeptByLevel(m, m1, t, t.pts, 1, c0, t.pages, v0, {dir});
    LevelWidens(m1, t.pts, c0, t.pages, v0, f);
    KeptByLevel(m1, m2, t, t.pds, 2, d0, t.pts + [f], c0, {f});
    KeptByLevel(m, m2, t, [t.root], 4, 0, t.pdpts, v0 / 512 / 512 / 512, {dir, f});
    KeptByLevel(m, m2, t, t.pdpts, 3, v0 / 512 / 512 / 512, t.pds, d0, {dir, f});
    LevelAppend(t.level, t.pts, 1, f);
  }

  /** A page in the last PT. */
  lemma AddPage(m: Memory, t: Tree, v0: nat, next: Frame, j: nat, f: Frame)
    requires TreeOk(m, t, v0, next) && j < 512 && t.pts != []
    requires 512 * (v0 / 512 + |t.pts| - 1) + j == v0 + |t.pages|
    ensures var pt := t.pts[|t.pts| - 1];
            && pt in m && |m[pt]| == 512 && m[pt][j] == ZERO
            && TreeOk(HangTable(m, pt, j, f), t.(pages := t.pages + [f]), v0, next)
  {
    var pt := t.pts[|t.pts| - 1];
    assert TableAt(m, t.pts, v0 / 512, t.pages, v0, |t.pts| - 1);
    LevelGrows(m, t.pts, v0 / 512, t.pages, v0, j, f);
    var m1 := HangTable(m, pt, j, f);
    KeptByLevel(m, m1, t, [t.root], 4, 0, t.pdpts, v0 / 512 / 512 / 512, {pt});
    KeptByLevel(m, m1, t, t.pdpts, 3, v0 / 512 / 512 / 512, t.pds, v0 / 512 / 512, {pt});
    KeptByLevel(m, m1, t, t.pds, 2, v0 / 512 / 512, t.pts, v0 / 512, {pt});
  }

  // ---------------------------------------------------------------------------
  // map_address_initial

  /** The tables in charge of the page numbers `v0` to `u`. */
  function Tables(v0: nat, u: nat): int {
    (u / 512 - v0 / 512 + 1) + (u / 512 / 512 - v0 / 512 / 512 + 1) + (u / 512 / 512 / 512 - v0 / 512 / 512 / 512 + 1)
  }

  lemma TablesGrow(v0: nat, u: nat, v: nat)
    requires v0 <= u <= v
    ensures 3 <= Tables(v0, u) <= Tables(v0, v)
  {
    DigitsGrow(v0, u);
    DigitsGrow(u, v);
  }

  lemma DigitGrows(u: nat, v: nat)
    requires u <= v
    ensures u / 512 <= v / 512
  {
  }

  lemma DigitsGrow(u: nat, v: nat)
    requires u <= v
    ensures u / 512 <= v / 512 && u / 512 / 512 <= v / 512 / 512 && u / 512 / 512 / 512 <= v / 512 / 512 / 512
  {
    DigitGrows(u, v);
    DigitGrows(u / 512, v / 512);
    DigitGrows(u / 512 / 512, v / 512 / 512);
  }

  /** The numbers of the last PD and the last PDPT. */
  function LastPd(t: Tree, v0: nat): int {
    v0 / 512 / 512 + |t.pds| - 1
  }

  function LastPdpt(t: Tree, v0: nat): int {
    v0 / 512 / 512 / 512 + |t.pdpts| - 1
  }

  function Last(s: seq<Frame>): Frame
    requires s != []
  {
    s[|s| - 1]
  }

  /** Where the loop is after the page number `u`: the table indices and the tables in hand. */
  ghost predicate At(t: Tree, u: nat, i4: nat, i3: nat, i2: nat, pdpt: Frame, pd: Frame, pt: Frame) {
    && i4 == u / 512 / 512 / 512 && i3 == u / 512 / 512 % 512 && i2 == u / 512 % 512
    && t.pdpts != [] && t.pds != [] && t.pts != [] && pdpt == Last(t.pdpts) && pd == Last(t.pds) && pt == Last(t.pts)
  }

  function FrameRun(p0: nat, n: nat): (s: seq<Frame>)
    ensures |s| == n && forall i | 0 <= i < n :: s[i] == p0 + i
  {
    seq(n, i => p0 + i)
  }

  /** Only frames that are tables have changed. */
  ghost predicate Untouched(m: Memory, m': Memory, level: map<Frame, nat>) {
    m'.Keys == m.Keys && forall f | f in m && f !in level :: m'[f] == m[f]
  }

  lemma NextPageOfRun(next: Frame, end: Frame)
    requires next < end
    ensures FrameAllocator.PageRun(4096 * next, end - next)[0] == 4096 * next
    ensures FrameAllocator.PageRun(4096 * next, end - next)[1..]
            == FrameAllocator.PageRun(4096 * (next + 1), end - (next + 1))
  {
  }

  /** Where the last of `i` pages from `v0` on is. */
  function LastMapped(v0: nat, i: nat): nat {
    if i == 0 then v0 else v0 + i - 1
  }

  class BootMapper {
    var mem: Memory
    const root: Frame
    const alloc: FrameAllocator.Allocator
    /** The first page the allocator has not handed out, and the end of memory. */
    ghost var next: Frame
    ghost const end: Frame
    ghost var tree: Tree

    constructor (mem: Memory, root: Frame, alloc: FrameAllocator.Allocator, ghost next: Frame, ghost end: Frame)
      ensures this.mem == mem && this.root == root && this.alloc == alloc && this.next == next && this.end == end
    {
      this.mem, this.root, this.alloc, this.next, this.end := mem, root, alloc, next, end;
      this.tree := Tree(root, [], [], [], [], map[]);
    }

    /** The allocator's queue is that of the boot: every page from `next` on, in order. */
    ghost predicate InStep()
      reads `next, alloc
    {
      alloc.Valid() && alloc.boot && next <= end && alloc.Queue() == FrameAllocator.PageRun(4096 * next, end - next)
    }

    /** The free pages below `limit` are memory, and in the allocator's queue. */
    ghost predicate Room(limit: Frame)
      reads this, alloc
    {
      InStep() && limit <= end && forall f | next <= f < limit :: f in mem && |mem[f]| == 512
    }

    /** `bump_initial` of one page. */
    method BumpInitial() returns (f: Frame)
      requires InStep() && next < end
      modifies `next, alloc
      ensures f == old(next) && next == f + 1 && InStep()
    {
      NextPageOfRun(next, end);
      var page, ok := alloc.Bump(4096);
      f := page / 4096;
      next := next + 1;
    }

    /** Hang the new table `t` into entry `j` of `dir`, and empty it. */
    method Hang(dir: Frame, j: nat, t: Frame)
      requires dir in mem && j < |mem[dir]| && t in mem && |mem[t]| == 512 && t != dir
      modifies `mem
      ensures mem == HangTable(old(mem), dir, j, t)[t := Zeros()]
    {
      mem := mem[dir := mem[dir][j := Kernel(t)]];
      mem := ZeroTable(mem, t);
    }

    /** The tables the first address needs: taken over where present, else new. */
    method Open(dir: Frame, j: nat) returns (t: Frame)
      requires dir in mem && j < |mem[dir]| && dir < next && Room(next + 1)
      modifies `mem, `next, alloc
      ensures InStep()
      ensures old(mem[dir][j]).present ==> t == old(mem[dir][j]).frame && mem == old(mem) && next == old(next)
      ensures !old(mem[dir][j]).present ==>
                t == old(next) && next == t + 1 && mem == HangTable(old(mem), dir, j, t)[t := Zeros()]
    {
      if !mem[dir][j].present {
        t := BumpInitial();
        Hang(dir, j, t);
      } else {
        t := mem[dir][j].frame;
      }
    }

    /** What every step of growing the tree keeps. */
    ghost predicate Grown(v0: nat)
      reads this
    {
      TreeOk(mem, tree, v0, next) && tree.root == root
    }

    method OpenPdpt(v0: nat) returns (t: Frame)
      requires Grown(v0) && tree.pdpts == [] && tree.pds == [] && v0 < 512 * 512 * 512 * 512 && Room(next + 1)
      modifies this, alloc
      ensures InStep()
      ensures Grown(v0) && tree == old(tree).(pdpts := [t], level := old(tree).level[t := 3]) && next == old(next) + 1
      ensures Untouched(old(mem), mem, tree.level)
    {
      ghost var m := mem;
      assert TableAt(mem, [root], 0, [], v0 / 512 / 512 / 512, 0) && root in [root];
      t := Open(root, v0 / 512 / 512 / 512);
      AddPdpt(m, tree, v0, next, v0 / 512 / 512 / 512, t);
      tree := tree.(pdpts := [t], level := tree.level[t := 3]);
    }

    method OpenPd(v0: nat, pdpt: Frame) returns (t: Frame)
      requires Grown(v0) && tree.pdpts == [pdpt] && tree.pds == [] && tree.pts == [] && Room(next + 1)
      modifies this, alloc
      ensures InStep()
      ensures Grown(v0) && tree == old(tree).(pds := [t], level := old(tree).level[t := 2]) && next == old(next) + 1
      ensures Untouched(old(mem), mem, tree.level)
    {
      ghost var m := mem;
      assert TableAt(mem, [pdpt], v0 / 512 / 512 / 512, [], v0 / 512 / 512, 0) && pdpt in [pdpt];
      t := Open(pdpt, v0 / 512 / 512 % 512);
      AddPd(m, tree, v0, next, v0 / 512 / 512 % 512, t);
      tree := tree.(pds := [t], level := tree.level[t := 2]);
    }

    method OpenPt(v0: nat, pd: Frame) returns (t: Frame)
      requires Grown(v0) && tree.pds == [pd] && tree.pts == [] && tree.pages == [] && Room(next + 1)
      modifies this, alloc
      ensures InStep()
      ensures Grown(v0) && tree == old(tree).(pts := [t], level := old(tree).level[t := 1]) && next == old(next) + 1
      ensures Untouched(old(mem), mem, tree.level)
    {
      ghost var m := mem;
      assert TableAt(mem, [pd], v0 / 512 / 512, [], v0 / 512, 0) && pd in [pd];
      t := Open(pd, v0 / 512 % 512);
      AddPt(m, tree, v0, next, v0 / 512 % 512, t);
      tree := tree.(pts := [t], level := tree.level[t := 1]);
    }

    // -------------------------------------------------------------------------
    // The carry

    method NextPdpt(v0: nat, i4: nat) returns (t: Frame)
      requires Grown(v0) && Room(next + 1) && i4 < 512 && i4 == v0 / 512 / 512 / 512 + |tree.pdpts|
      requires v0 / 512 / 512 + |tree.pds| <= 512 * i4
      modifies this, alloc
      ensures InStep()
      ensures Grown(v0) && tree == old(tree).(pdpts := old(tree).pdpts + [t], level := old(tree).level[t := 3])
      ensures Untouched(old(mem), mem, tree.level)
      ensures t == old(next) && next == t + 1
    {
      ghost var m := mem;
      assert TableAt(mem, [root], 0, tree.pdpts, v0 / 512 / 512 / 512, 0) && root in [root];
      t := BumpInitial();
      Hang(root, i4, t);
      AddPdpt(m, tree, v0, next, i4, t);
      tree := tree.(pdpts := tree.pdpts + [t], level := tree.level[t := 3]);
    }

    /** `t` becomes the next PD, at entry `i3` of the PDPT in hand. */
    method HangPd(v0: nat, pdpt: Frame, i3: nat, t: Frame)
      requires Grown(v0) && t in mem && |mem[t]| == 512 && t < next && t !in tree.level && i3 < 512
      requires tree.pdpts != [] && pdpt == Last(tree.pdpts)
      requires 512 * (v0 / 512 / 512 / 512 + |tree.pdpts| - 1) + i3 == v0 / 512 / 512 + |tree.pds|
      requires v0 / 512 + |tree.pts| <= 512 * (v0 / 512 / 512 + |tree.pds|)
      modifies `mem, `tree
      ensures Grown(v0) && tree == old(tree).(pds := old(tree).pds + [t], level := old(tree).level[t := 2])
      ensures Untouched(old(mem), mem, tree.level)
    {
      ghost var m := mem;
      assert TableAt(mem, tree.pdpts, v0 / 512 / 512 / 512, tree.pds, v0 / 512 / 512, |tree.pdpts| - 1)
          && pdpt in tree.pdpts;
      AddPd(m, tree, v0, next, i3, t);
      Hang(pdpt, i3, t);
      tree := tree.(pds := tree.pds + [t], level := tree.level[t := 2]);
    }

    /** `t` becomes the next PT, at entry `i2` of the PD in hand. */
    method HangPt(v0: nat, pd: Frame, i2: nat, t: Frame)
      requires Grown(v0) && t in mem && |mem[t]| == 512 && t < next && t !in tree.level && i2 < 512
      requires tree.pds != [] && pd == Last(tree.pds)
      requires 512 * (v0 / 512 / 512 + |tree.pds| - 1) + i2 == v0 / 512 + |tree.pts|
      requires v0 + |tree.pages| <= 512 * (v0 / 512 + |tree.pts|)
      modifies `mem, `tree
      ensures Grown(v0) && tree == old(tree).(pts := old(tree).pts + [t], level := old(tree).level[t := 1])
      ensures Untouched(old(mem), mem, tree.level)
    {
      ghost var m := mem;
      assert TableAt(mem, tree.pds, v0 / 512 / 512, tree.pts, v0 / 512, |tree.pds| - 1) && pd in tree.pds;
      AddPt(m, tree, v0, next, i2, t);
      Hang(pd, i2, t);
      tree := tree.(pts := tree.pts + [t], level := tree.level[t := 1]);
    }

    /** The carry out of the PD index: `pdt_index` has reached 512. */
    method CarryPd(v0: nat, i4: nat, i3: nat, pdpt: Frame) returns (j4: nat, j3: nat, pdpt': Frame, pd': Frame)
      requires Grown(v0) && tree.pds != [] && tree.pdpts != [] && pdpt == Last(tree.pdpts)
      requires i4 == LastPdpt(tree, v0) && 512 * i4 + i3 == LastPd(tree, v0) && i3 < 512 && (i3 == 511 ==> i4 < 511)
      requires v0 / 512 + |tree.pts| <= 512 * (LastPd(tree, v0) + 1)
      requires Room(next + if i3 == 511 then 2 else 1)
      modifies this, alloc
      ensures InStep()
      ensures Grown(v0) && tree.pts == old(tree.pts) && tree.pages == old(tree.pages)
      ensures tree.pds != [] && pd' == Last(tree.pds) && tree.pdpts != [] && pdpt' == Last(tree.pdpts)
      ensures j4 == LastPdpt(tree, v0) && 512 * j4 + j3 == LastPd(tree, v0) == old(LastPd(tree, v0)) + 1 && j3 < 512
      ensures next == old(next) + (if i3 == 511 then 2 else 1)
      ensures forall f | f in tree.level :: f in old(tree.level) || old(next) <= f
      ensures Untouched(old(mem), mem, tree.level)
    {
      j4, j3, pdpt' := i4, i3 + 1, pdpt;
      pd' := BumpInitial();
      if j3 == 512 {
        j3, j4 := 0, j4 + 1;
        pdpt' := NextPdpt(v0, j4);
      }
      HangPd(v0, pdpt', j3, pd');
    }

    /** The carry out of the PT index: `pt_index` has reached 512. */
    method CarryPt(v0: nat, ghost u: nat, i4: nat, i3: nat, i2: nat, pdpt: Frame, pd: Frame)
      returns (j4: nat, j3: nat, j2: nat, pdpt': Frame, pd': Frame, pt': Frame)
      requires Grown(v0) && Reaches(tree, v0, u) && v0 <= u && (u + 1) % 512 == 0 && u + 1 < 512 * 512 * 512 * 512
      requires At(tree, u, i4, i3, i2, pdpt, pd, Last(tree.pts)) && v0 + |tree.pages| <= u + 1
      requires Room(next + 1 + Carries(u + 1))
      modifies this, alloc
      ensures InStep()
      ensures Grown(v0) && Reaches(tree, v0, u + 1) && At(tree, u + 1, j4, j3, j2, pdpt', pd', pt')
      ensures tree.pages == old(tree.pages) && next == old(next) + 1 + Carries(u + 1)
      ensures Untouched(old(mem), mem, tree.level)
    {
      j4, j3, j2, pdpt', pd' := i4, i3, i2 + 1, pdpt, pd;
      NextDigits(u);
      pt' := BumpInitial();
      if j2 == 512 {
        j2 := 0;
        j4, j3, pdpt', pd' := CarryPd(v0, i4, i3, pdpt);
      }
      HangPt(v0, pd', j2, pt');
    }

    /** Map page `f` at entry `i1` of the PT in hand. */
    method PutPage(v0: nat, pt: Frame, i1: nat, f: Frame)
      requires Grown(v0) && i1 < 512 && tree.pts != [] && pt == Last(tree.pts)
      requires 512 * (v0 / 512 + |tree.pts| - 1) + i1 == v0 + |tree.pages|
      modifies `mem, `tree
      ensures Grown(v0) && tree == old(tree).(pages := old(tree).pages + [f])
      ensures Untouched(old(mem), mem, tree.level)
    {
      AddPage(mem, tree, v0, next, i1, f);
      assert pt in tree.pts;
      if !mem[pt][i1].present {
        mem := mem[pt := mem[pt][i1 := Kernel(f)]];
      }
      tree := tree.(pages := tree.pages + [f]);
    }

    /** How many bytes the loop counts down, for the pages from `phy` to the allocator's cursor. */
    method SizeToMap(phy: nat) returns (size: int)
      requires phy % 4096 == 0 && phy <= 4096 * next && InStep() && next < end
      ensures size == 4096 * (PagesMapped(next - phy / 4096) - 1)
    {
      var unallocated := alloc.Unallocated();
      var bytes := unallocated - phy;
      WholePages(bytes, next - phy / 4096);
      RoundedUp(next - phy / 4096);
      var numOfEntries := bytes / 4096;
      if bytes % 512 > 0 {
        numOfEntries := numOfEntries + 1;
      }
      var numOfStructs: int := numOfEntries / 512;
      if numOfEntries % 512 > 0 {
        numOfStructs := numOfStructs + 1;
      }
      size := bytes + (numOfStructs - 1) * 4096;
    }

    /** `i` pages from `p0` are mapped from `v0` on, the last of them at `u`; `i1` is the PT index after it. */
    ghost predicate Mapping(v0: nat, p0: nat, i: nat, u: nat, i4: nat, i3: nat, i2: nat, i1: nat, pdpt: Frame,
        pd: Frame, pt: Frame)
      reads this
    {
      && u == LastMapped(v0, i) && i1 == v0 + i - 512 * (u / 512) && i1 <= 512
      && Grown(v0) && tree.pages == FrameRun(p0, i) && Reaches(tree, v0, u) && At(tree, u, i4, i3, i2, pdpt, pd, pt)
    }

    /** The table indices of the first address, and the first three steps on an empty PML4. */
    method OpenPath(v0: nat, ghost p0: nat)
      returns (i4: nat, i3: nat, i2: nat, i1: nat, pdpt: Frame, pd: Frame, pt: Frame)
      requires root in mem && mem[root] == Zeros() && root < next && v0 < 512 * 512 * 512 * 512 && Room(next + 3)
      modifies this, alloc
      ensures InStep()
      ensures next == old(next) + 3 && Untouched(old(mem), mem, tree.level)
      ensures Mapping(v0, p0, 0, v0, i4, i3, i2, i1, pdpt, pd, pt)
    {
      i4, i3, i2, i1 := v0 / 512 / 512 / 512, v0 / 512 / 512 % 512, v0 / 512 % 512, v0 % 512;
      tree := Tree(root, [], [], [], [], map[root := 4]);
      EmptyTree(mem, root, v0, next);
      pdpt := OpenPdpt(v0);
      pd := OpenPd(v0, pdpt);
      pt := OpenPt(v0, pd);
    }

    /** The carry, if there is one, before page `i` is mapped. */
    method Advance(v0: nat, p0: nat, ghost i: nat, ghost u: nat, i4: nat, i3: nat, i2: nat, i1: nat, pdpt: Frame,
        pd: Frame, pt: Frame)
      returns (j4: nat, j3: nat, j2: nat, j1: nat, pdpt': Frame, pd': Frame, pt': Frame)
      requires Mapping(v0, p0, i, u, i4, i3, i2, i1, pdpt, pd, pt) && v0 + i < 512 * 512 * 512 * 512
      requires Room(next + Needed(u, v0 + i))
      modifies this, alloc
      ensures InStep()
      ensures Grown(v0) && tree.pages == FrameRun(p0, i) && Reaches(tree, v0, v0 + i)
      ensures At(tree, v0 + i, j4, j3, j2, pdpt', pd', pt') && j1 == (v0 + i) % 512
      ensures next == old(next) + Needed(u, v0 + i) && Untouched(old(mem), mem, tree.level)
    {
      j4, j3, j2, j1, pdpt', pd', pt' := i4, i3, i2, i1, pdpt, pd, pt;
      if j1 == 512 {
        j1 := 0;
        j4, j3, j2, pdpt', pd', pt' := CarryPt(v0, u, i4, i3, i2, pdpt, pd);
      } else {
        SameTables(tree, v0, u, v0 + i);
      }
    }

    /** The carry, within the tables that can be afforded. */
    method AdvanceWithin(v0: nat, p0: nat, ghost i: nat, ghost u: nat, i4: nat, i3: nat, i2: nat, i1: nat,
        pdpt: Frame, pd: Frame, pt: Frame, ghost u': nat, ghost last: nat, ghost limit: nat)
      returns (j4: nat, j3: nat, j2: nat, j1: nat, pdpt': Frame, pd': Frame, pt': Frame)
      requires Mapping(v0, p0, i, u, i4, i3, i2, i1, pdpt, pd, pt) && u' == v0 + i <= last < 512 * 512 * 512 * 512
      requires Room(limit) && Affordable(next, v0, u, last, limit)
      modifies this, alloc
      ensures Grown(v0) && tree.pages == FrameRun(p0, i) && Reaches(tree, v0, u')
      ensures At(tree, u', j4, j3, j2, pdpt', pd', pt') && j1 == u' % 512
      ensures Room(limit) && Affordable(next, v0, u', last, limit)
    {
      StepIsAffordable(next, v0, u, u', last, limit);
      j4, j3, j2, j1, pdpt', pd', pt' := Advance(v0, p0, i, u, i4, i3, i2, i1, pdpt, pd, pt);
    }

    /** Page `i` is put where the carry has led. */
    method PutMapped(v0: nat, p0: nat, ghost i: nat, ghost i': nat, ghost u': nat, phy: nat, ghost i4: nat,
        ghost i3: nat, ghost i2: nat, i1: nat, ghost pdpt: Frame, ghost pd: Frame, pt: Frame, ghost limit: nat)
      requires i' == i + 1 && u' == v0 + i && Room(limit)
      requires Grown(v0) && tree.pages == FrameRun(p0, i) && Reaches(tree, v0, u') && phy == 4096 * (p0 + i)
      requires At(tree, u', i4, i3, i2, pdpt, pd, pt) && i1 == u' % 512
      modifies `mem, `tree
      ensures Mapping(v0, p0, i', u', i4, i3, i2, i1 + 1, pdpt, pd, pt) && Room(limit)
    {
      PutPage(v0, pt, i1, phy / 4096);
      assert FrameRun(p0, i) + [p0 + i] == FrameRun(p0, i + 1);
    }

    method MapPage(v0: nat, p0: nat, ghost i: nat, ghost u: nat, phy: nat, i4: nat, i3: nat, i2: nat, i1: nat,
        pdpt: Frame, pd: Frame, pt: Frame, ghost last: nat, ghost limit: nat)
      returns (j4: nat, j3: nat, j2: nat, j1: nat, pdpt': Frame, pd': Frame, pt': Frame, ghost i': nat, ghost u': nat)
      requires Mapping(v0, p0, i, u, i4, i3, i2, i1, pdpt, pd, pt) && phy == 4096 * (p0 + i)
      requires v0 + i <= last < 512 * 512 * 512 * 512 && Room(limit) && Affordable(next, v0, u, last, limit)
      modifies this, alloc
      ensures i' == i + 1 && u' == v0 + i && Mapping(v0, p0, i', u', j4, j3, j2, j1, pdpt', pd', pt')
      ensures Room(limit) && Affordable(next, v0, u', last, limit)
    {
      i', u' := i + 1, v0 + i;
      j4, j3, j2, j1, pdpt', pd', pt' := AdvanceWithin(v0, p0, i, u, i4, i3, i2, i1, pdpt, pd, pt, u', last, limit);
      PutMapped(v0, p0, i, i', u', phy, j4, j3, j2, j1, pdpt', pd', pt', limit);
      j1 := j1 + 1;
    }

    /** The loop of `map_address_initial`, and where it stands at the end. */
    method MapLoop(v0: nat, p0: nat, ghost n: nat, size0: int, j4: nat, j3: nat, j2: nat, j1: nat, pdpt0: Frame,
        pd0: Frame, pt0: Frame, ghost last: nat, ghost limit: nat)
      returns (i4: nat, i3: nat, i2: nat, i1: nat, pdpt: Frame, pd: Frame, pt: Frame, ghost i: nat, ghost u: nat)
      requires 0 < n && last + 1 == v0 + n <= 512 * 512 * 512 * 512 && size0 + 4096 == 4096 * n
      requires Mapping(v0, p0, 0, v0, j4, j3, j2, j1, pdpt0, pd0, pt0)
      requires Room(limit) && Affordable(next, v0, v0, last, limit)
      modifies this, alloc
      ensures i == n && u == last && Mapping(v0, p0, i, u, i4, i3, i2, i1, pdpt, pd, pt)
      ensures InStep() && Affordable(next, v0, u, last, limit)
    {
      var size, phy := size0, 4096 * p0;
      i4, i3, i2, i1, pdpt, pd, pt, i, u := j4, j3, j2, j1, pdpt0, pd0, pt0, 0, v0;
      while size >= 0
        invariant i <= n && size == size0 - 4096 * i && phy == 4096 * (p0 + i) && u == LastMapped(v0, i)
        invariant Mapping(v0, p0, i, u, i4, i3, i2, i1, pdpt, pd, pt)
        invariant Room(limit) && Affordable(next, v0, u, last, limit)
        decreases size
      {
        i4, i3, i2, i1, pdpt, pd, pt, i, u := MapPage(v0, p0, i, u, phy, i4, i3, i2, i1, pdpt, pd, pt, last, limit);
        phy, size := phy + 4096, size - 4096;
      }
    }

    method MapPages(v0: nat, p0: nat, ghost n: nat, size0: int, j4: nat, j3: nat, j2: nat, j1: nat, pdpt0: Frame,
        pd0: Frame, pt0: Frame, ghost limit: nat)
      requires 0 < n && v0 + n <= 512 * 512 * 512 * 512 && size0 + 4096 == 4096 * n
      requires Mapping(v0, p0, 0, v0, j4, j3, j2, j1, pdpt0, pd0, pt0)
      requires Room(limit) && Affordable(next, v0, v0, v0 + n - 1, limit)
      modifies this, alloc
      ensures InStep() && Affordable(next, v0, v0 + n - 1, v0 + n - 1, limit)
      ensures Grown(v0) && Reaches(tree, v0, v0 + n - 1) && tree.pages == FrameRun(p0, n)
    {
      ghost var i, u;
      var i4, i3, i2, i1, pdpt, pd, pt;
      i4, i3, i2, i1, pdpt, pd, pt, i, u := MapLoop(v0, p0, n, size0, j4, j3, j2, j1, pdpt0, pd0, pt0, v0 + n - 1,
        limit);
    }

    /** The body of `map_address_initial`. */
    method MapFrom(v0: nat, p0: nat, ghost n: nat, ghost limit: nat)
      requires root in mem && mem[root] == Zeros() && root < next && p0 < 0x10_0000 && p0 <= next + 3
      requires n == PagesMapped(next + 3 - p0) && Fits(v0, n) && limit == Limit(v0, n, next) && Room(limit + 1)
      modifies this, alloc
      ensures InStep() && next == limit
      ensures Grown(v0) && Reaches(tree, v0, v0 + n - 1) && tree.pages == FrameRun(p0, n)
    {
      ghost var before := next;
      var i4, i3, i2, i1, pdpt, pd, pt := OpenPath(v0, p0);
      var phy := 4096 * p0;
      var size := SizeToMap(phy);
      MaskedPage(p0);
      phy := phy % 0x1_0000_0000;
      FirstIsAffordable(before, v0, n);
      MapPages(v0, phy / 4096, n, size, i4, i3, i2, i1, pdpt, pd, pt, limit);
    }

    /** `map_address_initial(4096 * v0, 4096 * p0)` on an empty PML4: the pages from `p0` to the allocator's cursor,
        and one more for every 512 of them, are mapped from `v0` on, each at exactly the place where a walk looks
        for it, and nothing else is mapped. */
    method MapAddressInitial(v0: nat, p0: nat) returns (ghost n: nat)
      requires root in mem && mem[root] == Zeros() && root < next && p0 < 0x10_0000 && p0 <= next + 3
      requires Fits(v0, PagesMapped(next + 3 - p0)) && Room(Limit(v0, PagesMapped(next + 3 - p0), next) + 1)
      modifies this, alloc
      ensures InStep()
      ensures n == PagesMapped(old(next) + 3 - p0) && next == Limit(v0, n, old(next))
      ensures Grown(v0) && Reaches(tree, v0, v0 + n - 1)
      ensures forall v: nat {:trigger Walk(mem, root, v)} | v < 512 * 512 * 512 * 512 ::
                Walk(mem, root, v) == if v0 <= v < v0 + n then Some(p0 + (v - v0)) else None
      ensures forall v: nat {:trigger Digits(v)} | v0 <= v < v0 + n :: KernelAt(mem, PageLoc(root, Digits(v)))
    {
      n := PagesMapped(next + 3 - p0);
      MapFrom(v0, p0, n, Limit(v0, n, next));
      AllWalks(mem, tree, v0, p0, next, v0 + n - 1, n);
      AllKernel(mem, tree, v0, next, v0 + n - 1, n);
    }

    /** `init_paging`: `KERNBASE + p` leads to `p` for every page below the allocator's cursor, which is behind the new
        tables, and slot 510 leads back to the PML4. */
    method InitPaging() returns (ghost n: nat)
      requires root in mem && mem[root] == Zeros() && root < next
      requires next + 3 <= 511 * 512 && Room(Limit(KERNEL, PagesMapped(next + 3), next) + 1)
      modifies this, alloc
      ensures InStep()
      ensures n == PagesMapped(old(next) + 3) && next == Limit(KERNEL, n, old(next)) <= n
      ensures forall p: nat {:trigger DirectlyMapped(mem, root, p)} | p < next :: DirectlyMapped(mem, root, p)
      ensures root in mem && 510 < |mem[root]| && mem[root][510] == Kernel(root)
    {
      n := MapAddressInitial(KERNEL, 0);
      DirectMapCoversItself(old(next) + 3);
      DirectMapWalks(mem, tree, next, n);
      mem := mem[root := mem[root][510 := Kernel(root)]];
    }
  }

  /** What the boot needs of memory from `physfree` to `physend`: whole pages, with the descriptors, the PML4 and the
      tables of the direct map in front of at least two pages that stay free. */
  ghost predicate EnoughMemory(mem: Memory, physfree: nat, physend: nat) {
    && 0 < physfree && physfree % 4096 == 0 && physend % 4096 == 0 && physfree + 2 * 4096 <= physend
    && var next := FirstFree(physfree, physend) + 1;
       && next + 3 <= 511 * 512 && Limit(KERNEL, PagesMapped(next + 3), next) + 2 <= physend / 4096
       && forall f | physfree / 4096 <= f < physend / 4096 :: f in mem && |mem[f]| == 512
  }

  /** The first page behind the descriptors. */
  function FirstFree(physfree: nat, physend: nat): Frame
    requires physfree <= physend
  {
    physfree / 4096 + FrameAllocator.PagesFor((physend - physfree) / 4096 * 16)
  }

  /** The descriptors lie below the first free page. */
  lemma DescriptorsBelow(physfree: nat, k: nat, q: seq<nat>, first: Frame)
    requires q != [] && q[0] == 4096 * first && FrameAllocator.DescriptorsApart(physfree, k, q)
    ensures forall d | 0 <= d < k :: FrameAllocator.Descriptor(physfree, d) + 15 < 4096 * first
  {
    assert forall d | 0 <= d < k :: FrameAllocator.Descriptor(physfree, d) + 16 <= q[0];
  }

  /** The first and the last byte of descriptor `d` are in directly mapped pages. */
  ghost predicate DescriptorMapped(m: Memory, root: Frame, physfree: nat, d: nat) {
    && DirectlyMapped(m, root, FrameAllocator.Descriptor(physfree, d) / 4096)
    && DirectlyMapped(m, root, (FrameAllocator.Descriptor(physfree, d) + 15) / 4096)
  }

  /** `initbump`, and the page of the PML4. */
  method BootAllocator(alloc: FrameAllocator.Allocator, physfree: nat, physend: nat) returns (root: Frame)
    requires 0 < physfree && physfree % 4096 == 0 && physend % 4096 == 0 && physfree + 2 * 4096 <= physend
    requires 0 in alloc.nodes
    modifies alloc
    ensures root == FirstFree(physfree, physend) && root < physend / 4096 && alloc.Valid() && alloc.boot
    ensures alloc.Queue() == FrameAllocator.PageRun(4096 * (root + 1), physend / 4096 - (root + 1))
    ensures forall d | 0 <= d < (physend - physfree) / 4096 :: FrameAllocator.Descriptor(physfree, d) + 15 < 4096 * root
  {
    alloc.InitBump(physfree, physend);
    DescriptorsBelow(physfree, (physend - physfree) / 4096, alloc.Queue(), FirstFree(physfree, physend));
    NextPageOfRun(FirstFree(physfree, physend), physend / 4096);
    var page, ok := alloc.Bump(4096);
    root := page / 4096;
  }

  /** `init_paging` and `init_after_paging`. */
  method MapAndContinue(b: BootMapper)
    requires b.root in b.mem && b.mem[b.root] == Zeros() && b.root < b.next && b.next + 3 <= 511 * 512
    requires b.Room(Limit(KERNEL, PagesMapped(b.next + 3), b.next) + 2)
    modifies b, b.alloc
    ensures b.alloc.Valid() && !b.alloc.boot && old(b.next) <= b.next && b.next + 2 <= b.end
    ensures b.alloc.Queue() == FrameAllocator.PageRun(4096 * b.next, b.end - b.next)
    ensures forall p: nat {:trigger DirectlyMapped(b.mem, b.root, p)} | p < b.next :: DirectlyMapped(b.mem, b.root, p)
  {
    ghost var n := b.InitPaging();
    b.alloc.InitAfterPaging();
  }

  /** From `initbump` to `init_after_paging`.  Every descriptor is directly mapped, so the allocator can follow its list
      through KERNBASE, and its queue starts behind the tables of the map. */
  method StartPaging(alloc: FrameAllocator.Allocator, mem: Memory, physfree: nat, physend: nat)
    returns (b: BootMapper)
    requires EnoughMemory(mem, physfree, physend) && 0 in alloc.nodes
    modifies alloc
    ensures b.alloc == alloc && alloc.Valid() && !alloc.boot && b.next + 2 <= physend / 4096
    ensures alloc.Queue() == FrameAllocator.PageRun(4096 * b.next, physend / 4096 - b.next)
    ensures forall d: nat {:trigger DescriptorMapped(b.mem, b.root, physfree, d)} | d < (physend - physfree) / 4096 ::
              DescriptorMapped(b.mem, b.root, physfree, d)
  {
    var root := BootAllocator(alloc, physfree, physend);
    var zeroed := ZeroTable(mem, root);
    b := new BootMapper(zeroed, root, alloc, root + 1, physend / 4096);
    MapAndContinue(b);
  }

  /** The tables still missing on the way from `u` to `last` are those up to `limit`. */
  ghost predicate Affordable(next: Frame, v0: nat, u: nat, last: nat, limit: nat) {
    next + Tables(v0, last) == limit + Tables(v0, u)
  }

  lemma FirstIsAffordable(next: Frame, v0: nat, n: nat)
    requires 0 < n
    ensures Affordable(next + 3, v0, v0, v0 + n - 1, Limit(v0, n, next))
  {
  }

  lemma StepIsAffordable(next: Frame, v0: nat, u: nat, v: nat, last: nat, limit: nat)
    requires Affordable(next, v0, u, last, limit) && v0 <= u <= v <= u + 1 && v <= last
    ensures next + Needed(u, v) <= limit && Affordable(next + Needed(u, v), v0, v, last, limit)
  {
    TablesNeeded(v0, u, v);
    TablesGrow(v0, v, last);
  }

  // ---------------------------------------------------------------------------
  // The direct map

  /** The page number of KERNBASE in 48 bits of address. */
  const KERNEL: nat := 511 * 512 * 512 * 512 + 510 * 512 * 512

  lemma KernelBase()
    ensures PageOf(0xffff_ffff_8000_0000) == Digits(KERNEL) == Page(511, 510, 0, 0)
  {
  }

  lemma TablesOfDirectMap(n: nat)
    requires 0 < n <= 0x8_0000
    ensures Tables(KERNEL, KERNEL + n - 1) == (n + 511) / 512 + (if n <= 0x4_0000 then 1 else 2) + 1
  {
    var k := n - 1;
    assert (KERNEL + k) / 512 == KERNEL / 512 + k / 512;
    assert (KERNEL + k) / 512 / 512 == KERNEL / 512 / 512 + k / 512 / 512;
    assert k / 512 / 512 == if n <= 0x4_0000 then 0 else 1;
  }

  /** The direct map covers every page the allocator has handed out when it is done, its own tables included, exactly
      when at most 511 * 512 pages were in use before: beyond that a second page directory is one table too many. */
  lemma DirectMapCoversItself(e: nat)
    requires 3 <= e && PagesMapped(e) <= 0x8_0000
    ensures Limit(KERNEL, PagesMapped(e), e - 3) <= PagesMapped(e) <==> e <= 511 * 512
  {
    TablesOfDirectMap(PagesMapped(e));
  }

  /** `n` pages from `v0` on are within 48 bits of address, and their size is an `int`. */
  predicate Fits(v0: nat, n: nat) {
    0 < n <= 0x8_0000 && v0 + n <= 512 * 512 * 512 * 512
  }

  /** The allocator's cursor when `n` pages from `v0` on have been mapped. */
  function Limit(v0: nat, n: nat, next: Frame): (limit: nat)
    requires 0 < n
    ensures next + 3 <= limit
  {
    TablesGrow(v0, v0 + n - 1, v0 + n - 1);
    next + Tables(v0, v0 + n - 1)
  }

  /** No table below the PML4 is the PML4. */
  lemma PathAvoidsRoot(m: Memory, t: Tree, v0: nat, next: Frame, v: nat)
    requires TreeOk(m, t, v0, next) && v < 512 * 512 * 512 * 512
    ensures var p := Digits(v);
            var r3 := Follow(m, Some(t.root), p.i4);
            var r2 := Follow(m, r3, p.i3);
            r3 != Some(t.root) && r2 != Some(t.root) && Follow(m, r2, p.i2) != Some(t.root)
  {
    StepDown(m, [t.root], 0, t.pdpts, v0 / 512 / 512 / 512, v / 512 / 512 / 512);
    var r3 := Follow(m, Some(t.root), v / 512 / 512 / 512);
    if r3.Some? {
      NotTheRoot(t, t.pdpts, 3, r3.value);
      StepDown(m, t.pdpts, v0 / 512 / 512 / 512, t.pds, v0 / 512 / 512, v / 512 / 512);
      var r2 := Follow(m, r3, v / 512 / 512 % 512);
      if r2.Some? {
        NotTheRoot(t, t.pds, 2, r2.value);
        StepDown(m, t.pds, v0 / 512 / 512, t.pts, v0 / 512, v / 512);
        var r1 := Follow(m, r2, v / 512 % 512);
        if r1.Some? {
          NotTheRoot(t, t.pts, 1, r1.value);
        }
      }
    }
  }

  lemma NotTheRoot(t: Tree, s: seq<Frame>, l: nat, f: Frame)
    requires OnLevel(t.level, [t.root], 4) && OnLevel(t.level, s, l) && l != 4 && f in s
    ensures f != t.root
  {
    assert t.root in [t.root];
  }

  lemma RootInMemory(m: Memory, t: Tree, v0: nat, next: Frame)
    requires TreeOk(m, t, v0, next)
    ensures t.root in m && |m[t.root]| == 512
  {
    assert TableAt(m, [t.root], 0, t.pdpts, v0 / 512 / 512 / 512, 0);
  }

  /** An entry of the PML4 that the walk does not use. */
  lemma WalkAvoiding(m: Memory, root: Frame, i: nat, e: Word, v: nat)
    requires root in m && i < |m[root]| && i != v / 512 / 512 / 512
    requires var p := Digits(v);
             var r3 := Follow(m, Some(root), p.i4);
             var r2 := Follow(m, r3, p.i3);
             r3 != Some(root) && r2 != Some(root) && Follow(m, r2, p.i2) != Some(root)
    ensures Walk(m[root := m[root][i := e]], root, v) == Walk(m, root, v)
  {
    FourSteps(m, root, v);
    FourSteps(m[root := m[root][i := e]], root, v);
  }

  lemma SelfMapKeepsWalk(m: Memory, t: Tree, v0: nat, next: Frame, v: nat)
    requires TreeOk(m, t, v0, next) && v < 512 * 512 * 512 * 512 && v / 512 / 512 / 512 != 510
    ensures t.root in m && |m[t.root]| == 512
    ensures Walk(m[t.root := m[t.root][510 := Kernel(t.root)]], t.root, v) == Walk(m, t.root, v)
  {
    RootInMemory(m, t, v0, next);
    PathAvoidsRoot(m, t, v0, next, v);
    WalkAvoiding(m, t.root, 510, Kernel(t.root), v);
  }

  /** `KERNBASE + p` leads to `p`. */
  predicate DirectlyMapped(m: Memory, root: Frame, p: nat) {
    Walk(m, root, KERNEL + p) == Some(p)
  }

  lemma DirectMapWalks(m: Memory, t: Tree, next: Frame, n: nat)
    requires TreeOk(m, t, KERNEL, next) && 0 < n <= 0x4_0000 && Reaches(t, KERNEL, KERNEL + n - 1) && next <= n
    requires forall v: nat {:trigger Walk(m, t.root, v)} | v < 512 * 512 * 512 * 512 ::
               Walk(m, t.root, v) == if KERNEL <= v < KERNEL + n then Some(v - KERNEL) else None
    ensures t.root in m && |m[t.root]| == 512
    ensures var m' := m[t.root := m[t.root][510 := Kernel(t.root)]];
      forall p: nat {:trigger DirectlyMapped(m', t.root, p)} | p < next :: DirectlyMapped(m', t.root, p)
  {
    assert TableAt(m, [t.root], 0, t.pdpts, KERNEL / 512 / 512 / 512, 0);
    var m' := m[t.root := m[t.root][510 := Kernel(t.root)]];
    forall p: nat | p < next ensures DirectlyMapped(m', t.root, p) {
      SelfMapKeepsWalk(m, t, KERNEL, next, KERNEL + p);
    }
  }

  lemma AllWalks(m: Memory, t: Tree, v0: nat, p0: nat, next: Frame, u: nat, n: nat)
    requires TreeOk(m, t, v0, next) && Reaches(t, v0, u) && t.pages == FrameRun(p0, n) && n > 0 && u == v0 + n - 1
    ensures forall v: nat {:trigger Walk(m, t.root, v)} | v < 512 * 512 * 512 * 512 ::
              Walk(m, t.root, v) == if v0 <= v < v0 + n then Some(p0 + (v - v0)) else None
  {
    forall v: nat | v < 512 * 512 * 512 * 512
      ensures Walk(m, t.root, v) == if v0 <= v < v0 + n then Some(p0 + (v - v0)) else None
    {
      WalkOfTree(m, t, v0, next, u, v);
    }
  }

  lemma AllKernel(m: Memory, t: Tree, v0: nat, next: Frame, u: nat, n: nat)
    requires TreeOk(m, t, v0, next) && Reaches(t, v0, u) && |t.pages| == n > 0 && u == v0 + n - 1
    requires v0 + n <= 512 * 512 * 512 * 512
    ensures forall v: nat {:trigger Digits(v)} | v0 <= v < v0 + n :: KernelAt(m, PageLoc(t.root, Digits(v)))
  {
    forall v: nat | v0 <= v < v0 + n ensures KernelAt(m, PageLoc(t.root, Digits(v))) {
      KernelPath(m, t, v0, next, u, v);
    }
  }

  /** `& 0xfffff000` keeps the number of a page below 4 GB. */
  lemma MaskedPage(p: nat)
    requires p < 0x10_0000
    ensures 4096 * p % 0x1_0000_0000 == 4096 * p && 4096 * p / 4096 == p
  {
  }

  lemma RoundedUp(n: nat)
    ensures (n + 511) / 512 == n / 512 + if n % 512 > 0 then 1 else 0
  {
  }

  lemma WholePages(bytes: nat, e: nat)
    requires bytes == 4096 * e
    ensures bytes / 4096 == e && bytes % 512 == 0
  {
    assert bytes == 512 * (8 * e);
  }

  /** How many tables above the PT level are full just before page number `v`. */
  function Carries(v: nat): nat {
    if v / 512 % 512 != 0 then 0 else if v / 512 / 512 % 512 != 0 then 1 else 2
  }

  lemma NextQuotient(x: nat)
    ensures (x + 1) / 512 == x / 512 + if (x + 1) % 512 == 0 then 1 else 0
  {
  }

  /** The odometer, when its last digit turns over. */
  lemma NextDigits(u: nat)
    requires (u + 1) % 512 == 0
    ensures (u + 1) / 512 == u / 512 + 1
    ensures (u + 1) / 512 % 512 == if u / 512 % 512 == 511 then 0 else u / 512 % 512 + 1
    ensures (u + 1) / 512 / 512 == u / 512 / 512 + if u / 512 % 512 == 511 then 1 else 0
    ensures u / 512 % 512 == 511 ==>
              (u + 1) / 512 / 512 % 512 == (if u / 512 / 512 % 512 == 511 then 0 else u / 512 / 512 % 512 + 1)
    ensures (u + 1) / 512 / 512 / 512 == u / 512 / 512 / 512 +
              if u / 512 % 512 == 511 && u / 512 / 512 % 512 == 511 then 1 else 0
  {
    NextQuotient(u);
    NextDigit(u / 512);
    NextDigit(u / 512 / 512);
  }

  lemma NextDigit(x: nat)
    ensures (x + 1) % 512 == if x % 512 == 511 then 0 else x % 512 + 1
    ensures (x + 1) / 512 == x / 512 + if x % 512 == 511 then 1 else 0
  {
  }

  lemma CarryCost(v0: nat, u: nat)
    requires (u + 1) % 512 == 0
    ensures Tables(v0, u + 1) == Tables(v0, u) + 1 + Carries(u + 1)
  {
    NextQuotient(u);
    NextQuotient(u / 512);
    NextQuotient(u / 512 / 512);
  }

  lemma SameTables(t: Tree, v0: nat, u: nat, v: nat)
    requires u / 512 == v / 512 && Reaches(t, v0, u)
    ensures Reaches(t, v0, v)
  {
  }

  /** The new tables it takes to get from page number `u` to the next one. */
  function Needed(u: nat, v: nat): nat {
    if u / 512 == v / 512 then 0 else 1 + Carries(v)
  }

  lemma TablesNeeded(v0: nat, u: nat, v: nat)
    requires u <= v <= u + 1
    ensures Tables(v0, v) == Tables(v0, u) + Needed(u, v)
  {
    if u / 512 != v / 512 {
      NextQuotient(u);
      CarryCost(v0, u);
    }
  }

  /** The pages that are mapped when `e` pages lie below the allocator's cursor. */
  function PagesMapped(e: nat): nat {
    e + (e + 511) / 512
  }

  lemma EmptyTree(m: Memory, root: Frame, v0: nat, next: Frame)
    requires root in m && m[root] == Zeros() && root < next
    ensures TreeOk(m, Tree(root, [], [], [], [], map[root := 4]), v0, next)
  {
    assert TableAt(m, [root], 0, [], v0 / 512 / 512 / 512, 0);
  }
}
