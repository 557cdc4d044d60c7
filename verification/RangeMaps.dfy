/**
  Mapping a range of one gigabyte: new page tables wherever the range enters another one, and the
  exact condition under which the pages that are put keep the invariant.
 */
module RangeMaps {
  import opened PageEntries
  import opened PageTables
  import opened UserMap
  import opened PageMaps

  // ---------------------------------------------------------------------------
  // All the new page tables

  /** One of the `c` page tables from entry `j` of the directory on. */
  ghost predicate Later(l: Loc, j: nat, c: nat, k: Loc) {
    k.Sub? && k.parent == l && j <= k.index < j + c
  }

  ghost predicate CanRenewAll(s: Space, l: Loc, j: nat, c: nat) {
    Sound(s) && l in s.at && Depth(l) == 2 && j + c <= 512 && c <= |s.free|
  }

  ghost function RenewAll(s: Space, l: Loc, j: nat, c: nat): (t: Space)
    requires CanRenewAll(s, l, j, c)
    ensures HasLeft(s.free, t, l, c)
    decreases c
  {
    if c == 0 then
      assert s.free[0..] == s.free;
      s
    else
      var m := RenewAll(s, l, j, c - 1);
      OneMoreFree(s.free, m, l, j + (c - 1), c - 1, c);
      RenewPt(m, l, j + (c - 1))
  }

  /** The directory `l` is there, and the first `c` frames of the queue are gone. */
  ghost predicate HasLeft(free: seq<Frame>, t: Space, l: Loc, c: nat) {
    Sound(t) && l in t.at && c <= |free| && t.free == free[c..]
  }

  lemma OneMoreFree(free: seq<Frame>, m: Space, l: Loc, i: nat, c: nat, c': nat)
    requires HasLeft(free, m, l, c) && Depth(l) == 2 && i < 512 && c < |free| && c' == c + 1
    ensures CanRenew(m, l, i) && HasLeft(free, RenewPt(m, l, i), l, c')
  {
    RenewIsSound(m, l, i);
  }

  /** No leaf entry and no place has changed except for the new tables, which are empty. */
  ghost predicate RenewedAll(s: Space, t: Space, l: Loc, j: nat, c: nat) {
    && t.mem.Keys == s.mem.Keys && t.owner == s.owner
    && (forall f {:trigger f in t.free} :: f in t.free ==> f in s.free)
    && (forall k {:trigger k in t.at} :: k in t.at <==> k in s.at || Later(l, j, c, k))
    && (forall f {:trigger f in t.loc} ::
          f in t.loc <==> (f in s.loc && !Later(l, j, c, s.loc[f])) || (f in s.free && f !in t.free))
    && (forall k, u: nat {:trigger Ent(t, k, u)} | Depth(k) == 3 ::
          Ent(t, k, u) == if Later(l, j, c, k) then ZERO else Ent(s, k, u))
  }

  /** The places outside of the new tables are where they were. */
  ghost predicate SamePlaces(s: Space, t: Space, l: Loc, j: nat, c: nat) {
    forall k {:trigger k in t.at} | k in s.at && !Later(l, j, c, k) :: k in t.at && t.at[k] == s.at[k]
  }

  /** A table taken from the queue before is not the one replaced now. */
  lemma TableStays(s: Space, m: Space, l: Loc, j: nat, c: nat, f: Frame)
    requires Sound(s) && Sound(m) && RenewedAll(s, m, l, j, c) && SamePlaces(s, m, l, j, c)
    ensures f in s.free && f in m.loc ==> m.loc[f] != Sub(l, j + c)
  {
  }

  lemma OneMoreLoc(s: Space, m: Space, t: Space, l: Loc, j: nat, c: nat, f: Frame)
    requires Sound(s) && RenewedAll(s, m, l, j, c) && Sound(m) && Renewed(m, t, l, j + c) && SamePlaces(s, m, l, j, c)
    ensures f in t.loc <==> (f in s.loc && !Later(l, j, c + 1, s.loc[f])) || (f in s.free && f !in t.free)
  {
    TableStays(s, m, l, j, c, f);
    assert f in m.free <==> f == m.free[0] || f in t.free;
    if f in s.loc && !Later(l, j, c, s.loc[f]) {
      assert s.loc[f] in s.at && m.at[s.loc[f]] == f;
    }
  }

  lemma OneMorePlace(s: Space, m: Space, t: Space, l: Loc, j: nat, c: nat, k: Loc)
    requires RenewedAll(s, m, l, j, c) && Renewed(m, t, l, j + c) && SamePlaces(s, m, l, j, c)
    ensures k in t.at <==> k in s.at || Later(l, j, c + 1, k)
    ensures k in s.at && !Later(l, j, c + 1, k) ==> k in t.at && t.at[k] == s.at[k]
  {
    assert Later(l, j, c + 1, k) <==> Later(l, j, c, k) || k == Sub(l, j + c);
  }

  lemma OneMoreEntry(s: Space, m: Space, t: Space, l: Loc, j: nat, c: nat, k: Loc, u: nat)
    requires Depth(l) == 2 && RenewedAll(s, m, l, j, c) && Renewed(m, t, l, j + c) && Depth(k) == 3
    ensures Ent(t, k, u) == if Later(l, j, c + 1, k) then ZERO else Ent(s, k, u)
  {
    assert Later(l, j, c + 1, k) <==> Later(l, j, c, k) || k == Sub(l, j + c);
    assert Ent(t, k, u) == if k == Sub(l, j + c) then ZERO else Ent(m, k, u);
  }

  lemma OneMoreRenewed(s: Space, m: Space, t: Space, l: Loc, j: nat, c: nat, c': nat)
    requires Sound(s) && Depth(l) == 2 && RenewedAll(s, m, l, j, c) && Sound(m) && Renewed(m, t, l, j + c)
    requires SamePlaces(s, m, l, j, c) && c' == c + 1
    ensures RenewedAll(s, t, l, j, c') && SamePlaces(s, t, l, j, c')
  {
    forall f: Frame
      ensures f in t.loc <==> (f in s.loc && !Later(l, j, c', s.loc[f])) || (f in s.free && f !in t.free)
    {
      OneMoreLoc(s, m, t, l, j, c, f);
    }
    forall k: Loc
      ensures k in t.at <==> k in s.at || Later(l, j, c', k)
      ensures k in s.at && !Later(l, j, c', k) ==> k in t.at && t.at[k] == s.at[k]
    {
      OneMorePlace(s, m, t, l, j, c, k);
    }
    forall k: Loc, u: nat | Depth(k) == 3 ensures Ent(t, k, u) == if Later(l, j, c', k) then ZERO else Ent(s, k, u) {
      OneMoreEntry(s, m, t, l, j, c, k, u);
    }
  }

  lemma RenewAllUnfolds(s: Space, l: Loc, j: nat, c: nat) returns (m: Space)
    requires CanRenewAll(s, l, j, c) && 0 < c
    ensures CanRenewAll(s, l, j, c - 1) && m == RenewAll(s, l, j, c - 1) && CanRenew(m, l, j + (c - 1))
    ensures RenewAll(s, l, j, c) == RenewPt(m, l, j + (c - 1))
  {
    m := RenewAll(s, l, j, c - 1);
  }

  lemma {:induction false} RenewAllKeepsWf(s: Space, t: Space, l: Loc, j: nat, c: nat)
    requires Wf(s) && CanRenewAll(s, l, j, c) && t == RenewAll(s, l, j, c)
    ensures Wf(t) && RenewedAll(s, t, l, j, c) && SamePlaces(s, t, l, j, c)
    decreases c
  {
    if c == 0 {
      NothingRenewed(s, l, j);
    } else {
      var m := RenewAllUnfolds(s, l, j, c);
      RenewAllKeepsWf(s, m, l, j, c - 1);
      LastRenewed(s, m, t, l, j, c - 1);
    }
  }

  lemma NothingRenewed(s: Space, l: Loc, j: nat)
    ensures RenewedAll(s, s, l, j, 0) && SamePlaces(s, s, l, j, 0)
  {
  }

  lemma LastRenewed(s: Space, m: Space, t: Space, l: Loc, j: nat, c: nat)
    requires Wf(s) && Depth(l) == 2 && Wf(m) && CanRenew(m, l, j + c) && t == RenewPt(m, l, j + c)
    requires RenewedAll(s, m, l, j, c) && SamePlaces(s, m, l, j, c)
    ensures Wf(t) && RenewedAll(s, t, l, j, c + 1) && SamePlaces(s, t, l, j, c + 1)
  {
    RenewKeepsWf(m, l, j + c);
    OneMoreRenewed(s, m, t, l, j, c, c + 1);
  }

  /** A frame nobody uses but the tables that will be replaced and their pages. */
  ghost predicate UnusedBut(s: Space, l: Loc, j: nat, c: nat, f: Frame) {
    && f in s.mem && f !in s.free && (f in s.loc ==> Later(l, j, c, s.loc[f]))
    && forall k, u: nat {:trigger BacksPage(s, f, k, u)} :: BacksPage(s, f, k, u) ==> Later(l, j, c, k)
  }

  lemma UnusedAfterRenewing(s: Space, t: Space, l: Loc, j: nat, c: nat, f: Frame)
    requires Wf(s) && Wf(t) && RenewedAll(s, t, l, j, c)
    ensures Unused(t, f) <==> UnusedBut(s, l, j, c, f)
  {
    forall k, u: nat ensures BacksPage(t, f, k, u) <==> BacksPage(s, f, k, u) && !Later(l, j, c, k) {
      assert Depth(k) == 3 ==> Ent(t, k, u) == if Later(l, j, c, k) then ZERO else Ent(s, k, u);
    }
  }

  // ---------------------------------------------------------------------------
  // The loop over the pages

  /** The entry of the page table that was used last. */
  function TableOf(x0: nat, i: nat): nat {
    PtIndex(x0, if i == 0 then 0 else i - 1)
  }

  ghost predicate InRegion(x0: nat, n: nat) {
    x0 < REGION && x0 + n <= REGION
  }

  lemma NextPage(x0: nat, i: nat, n: nat)
    requires InRegion(x0, n) && i < n
    ensures PtIndex(x0, i) < 512 && TableOf(x0, i + 1) == PtIndex(x0, i)
    ensures !NeedsTable(x0, i) ==> PtIndex(x0, i) == TableOf(x0, i)
    ensures NeedsTable(x0, i) ==> PtIndex(x0, i) == TableOf(x0, i) + 1
    ensures NewTables(x0, i + 1) == NewTables(x0, i) + if NeedsTable(x0, i) then 1 else 0
    ensures NewTables(x0, i + 1) <= NewTables(x0, n)
    ensures TableOf(x0, i) == PtIndex(x0, 0) + NewTables(x0, i)
    ensures 512 * PtIndex(x0, i) + EntryIndex(x0, i) == x0 + i
  {
    NewTablesStep(x0, i, n);
  }

  ghost predicate CanPut(s: Space, l: Loc, x0: nat, i: nat, n: nat) {
    && Sound(s) && l in s.at && Depth(l) == 2 && InRegion(x0, n) && i <= n && Sub(l, TableOf(x0, i)) in s.at
    && NewTables(x0, i) <= NewTables(x0, n) <= NewTables(x0, i) + |s.free|
  }

  lemma PutIsSound(s: Space, l: Loc, u: nat, f: Frame)
    requires Sound(s) && l in s.at && u < 512
    ensures HasTable(s, l) && Sound(PutAt(s, l, u, f))
  {
  }

  /** The state when page `i` is about to be put. */
  ghost function BeforePage(s: Space, l: Loc, x0: nat, i: nat, n: nat): (t: Space)
    requires CanPut(s, l, x0, i, n) && i < n
    ensures Sound(t) && l in t.at && Sub(l, PtIndex(x0, i)) in t.at && PtIndex(x0, i) < 512
    ensures NewTables(x0, i + 1) <= NewTables(x0, n) <= NewTables(x0, i + 1) + |t.free|
  {
    NextPage(x0, i, n);
    if NeedsTable(x0, i) then
      RenewIsSound(s, l, PtIndex(x0, i));
      RenewPt(s, l, PtIndex(x0, i))
    else s
  }

  ghost function AfterPage(s: Space, l: Loc, x0: nat, i: nat, n: nat, p0: nat): (t: Space)
    requires CanPut(s, l, x0, i, n) && i < n
    ensures CanPut(t, l, x0, i + 1, n)
  {
    NextPage(x0, i, n);
    PutIsSound(BeforePage(s, l, x0, i, n), Sub(l, PtIndex(x0, i)), EntryIndex(x0, i), p0 + i);
    PutAt(BeforePage(s, l, x0, i, n), Sub(l, PtIndex(x0, i)), EntryIndex(x0, i), p0 + i)
  }

  /** The loop of `map_user_address` from page `i` on. */
  ghost function PutFrom(s: Space, l: Loc, x0: nat, i: nat, n: nat, p0: nat): Space
    requires CanPut(s, l, x0, i, n)
    decreases n - i
  {
    if i == n then s else PutFrom(AfterPage(s, l, x0, i, n, p0), l, x0, i + 1, n, p0)
  }

  // ---------------------------------------------------------------------------
  // What the loop does to the entries

  /** Page `j` of the range, by the place of its entry. */
  ghost predicate InRange(l: Loc, x0: nat, i: nat, k: Loc, u: nat) {
    k.Sub? && k.parent == l && u < 512 && x0 <= 512 * k.index + u < x0 + i
  }

  ghost function RangeEnt(t: Space, l: Loc, x0: nat, i: nat, p0: nat, k: Loc, u: nat): Word {
    if InRange(l, x0, i, k, u) && !Ent(t, k, u).present then User(p0 + (512 * k.index + u - x0)) else Ent(t, k, u)
  }

  ghost predicate IsNew(t: Space, l: Loc, x0: nat, j: nat) {
    !Ent(t, Sub(l, PtIndex(x0, j)), EntryIndex(x0, j)).present
  }

  ghost predicate OwnerAfter(t: Space, s: Space, l: Loc, x0: nat, i: nat, p0: nat, f: Frame) {
    if p0 <= f < p0 + i && IsNew(t, l, x0, f - p0)
    then f in s.owner && s.owner[f] == Sub(Sub(l, PtIndex(x0, f - p0)), EntryIndex(x0, f - p0))
    else (f in s.owner <==> f in t.owner) && (f in s.owner ==> s.owner[f] == t.owner[f])
  }

  /** `s` is `t` with the first `i` pages of the range. */
  ghost predicate PutOver(t: Space, s: Space, l: Loc, x0: nat, i: nat, p0: nat) {
    && Sound(s) && s.at == t.at && s.loc == t.loc && s.free == t.free && s.mem.Keys == t.mem.Keys
    && (forall k, u: nat {:trigger Ent(s, k, u)} :: Ent(s, k, u) == RangeEnt(t, l, x0, i, p0, k, u))
    && (forall f: Frame {:trigger f in s.owner} :: OwnerAfter(t, s, l, x0, i, p0, f))
  }

  lemma PutEffect(s: Space, l: Loc, u: nat, f: Frame)
    requires Sound(s) && l in s.at && u < 512
    ensures HasTable(s, l)
    ensures var s' := PutAt(s, l, u, f);
      && s'.at == s.at && s'.loc == s.loc && s'.free == s.free && s'.mem.Keys == s.mem.Keys && Sound(s')
      && (forall k, w: nat {:trigger Ent(s', k, w)} ::
            Ent(s', k, w) == if k == l && w == u && !Ent(s, k, w).present then User(f) else Ent(s, k, w))
      && s'.owner == if Ent(s, l, u).present then s.owner else s.owner[f := Sub(l, u)]
  {
    PutIsSound(s, l, u, f);
    var s' := PutAt(s, l, u, f);
    forall k, w: nat
      ensures Ent(s', k, w) == if k == l && w == u && !Ent(s, k, w).present then User(f) else Ent(s, k, w)
    {
      assert k in s.at ==> s.loc[s.at[k]] == k;
    }
  }

  /** Where page `i` is. */
  lemma PlaceOfPage(x0: nat, i: nat, j: nat, u: nat)
    requires u < 512
    ensures 512 * j + u == x0 + i <==> j == PtIndex(x0, i) && u == EntryIndex(x0, i)
  {
    if 512 * j + u == x0 + i {
      Quotient512(x0 + i, j, u);
    }
  }

  lemma PutOneEntry(t: Space, s: Space, s': Space, l: Loc, x0: nat, i: nat, p0: nat, k: Loc, u: nat)
    requires PutOver(t, s, l, x0, i, p0)
    requires Ent(s', k, u) == if k == Sub(l, PtIndex(x0, i)) && u == EntryIndex(x0, i) && !Ent(s, k, u).present
                              then User(p0 + i) else Ent(s, k, u)
    ensures Ent(s', k, u) == RangeEnt(t, l, x0, i + 1, p0, k, u)
  {
    assert Ent(s, k, u) == RangeEnt(t, l, x0, i, p0, k, u);
    if k.Sub? && k.parent == l && u < 512 {
      PlaceOfPage(x0, i, k.index, u);
    }
  }

  lemma FreshStill(t: Space, s: Space, l: Loc, x0: nat, i: nat, p0: nat)
    requires PutOver(t, s, l, x0, i, p0)
    ensures Ent(s, Sub(l, PtIndex(x0, i)), EntryIndex(x0, i)) == Ent(t, Sub(l, PtIndex(x0, i)), EntryIndex(x0, i))
  {
    PlaceOfPage(x0, i, PtIndex(x0, i), EntryIndex(x0, i));
  }

  lemma PutOneMore(t: Space, s: Space, l: Loc, x0: nat, i: nat, p0: nat)
    requires PutOver(t, s, l, x0, i, p0) && Sub(l, PtIndex(x0, i)) in s.at
    ensures HasTable(s, Sub(l, PtIndex(x0, i)))
    ensures PutOver(t, PutAt(s, Sub(l, PtIndex(x0, i)), EntryIndex(x0, i), p0 + i), l, x0, i + 1, p0)
  {
    var k0, u0, i' := Sub(l, PtIndex(x0, i)), EntryIndex(x0, i), i + 1;
    PutEffect(s, k0, u0, p0 + i);
    var s' := PutAt(s, k0, u0, p0 + i);
    forall k, u: nat ensures Ent(s', k, u) == RangeEnt(t, l, x0, i', p0, k, u) {
      PutOneEntry(t, s, s', l, x0, i, p0, k, u);
    }
    FreshStill(t, s, l, x0, i, p0);
    forall f: Frame ensures OwnerAfter(t, s', l, x0, i', p0, f) {
      assert OwnerAfter(t, s, l, x0, i, p0, f);
    }
  }

  lemma RenewOver(t: Space, s: Space, l: Loc, x0: nat, i: nat, p0: nat)
    requires PutOver(t, s, l, x0, i, p0) && Sound(t) && NeedsTable(x0, i) && CanRenew(s, l, PtIndex(x0, i))
    ensures CanRenew(t, l, PtIndex(x0, i))
    ensures PutOver(RenewPt(t, l, PtIndex(x0, i)), RenewPt(s, l, PtIndex(x0, i)), l, x0, i, p0)
  {
    var j := PtIndex(x0, i);
    RenewEffect(t, l, j);
    RenewEffect(s, l, j);
    RenewedOver(t, s, RenewPt(t, l, j), RenewPt(s, l, j), l, x0, i, p0);
  }

  lemma RenewedOver(t: Space, s: Space, t': Space, s': Space, l: Loc, x0: nat, i: nat, p0: nat)
    requires PutOver(t, s, l, x0, i, p0) && NeedsTable(x0, i) && Depth(l) == 2 && s'.loc == t'.loc
    requires Renewed(t, t', l, PtIndex(x0, i)) && Renewed(s, s', l, PtIndex(x0, i))
    ensures PutOver(t', s', l, x0, i, p0)
  {
    forall k, u: nat ensures Ent(s', k, u) == RangeEnt(t', l, x0, i, p0, k, u) {
      RenewedEntry(t, s, t', s', l, x0, i, p0, k, u);
    }
    forall f: Frame ensures OwnerAfter(t', s', l, x0, i, p0, f) {
      RenewedOwner(t, s, t', s', l, x0, i, p0, f);
    }
  }

  lemma RenewedOwner(t: Space, s: Space, t': Space, s': Space, l: Loc, x0: nat, i: nat, p0: nat, f: Frame)
    requires OwnerAfter(t, s, l, x0, i, p0, f) && NeedsTable(x0, i) && Depth(l) == 2
    requires Renewed(t, t', l, PtIndex(x0, i)) && s'.owner == s.owner
    ensures OwnerAfter(t', s', l, x0, i, p0, f)
  {
    if p0 <= f < p0 + i {
      SamePageBefore(t, t', l, x0, i, f - p0);
    }
  }

  lemma RenewedEntry(t: Space, s: Space, t': Space, s': Space, l: Loc, x0: nat, i: nat, p0: nat, k: Loc, u: nat)
    requires PutOver(t, s, l, x0, i, p0) && NeedsTable(x0, i) && Depth(l) == 2
    requires Renewed(t, t', l, PtIndex(x0, i)) && Renewed(s, s', l, PtIndex(x0, i))
    ensures Ent(s', k, u) == RangeEnt(t', l, x0, i, p0, k, u)
  {
    assert Depth(Sub(l, PtIndex(x0, i))) == 3;
    PlaceOfPage(x0, i, PtIndex(x0, i), 0);
    assert Ent(s, k, u) == RangeEnt(t, l, x0, i, p0, k, u);
  }

  lemma SamePageBefore(t: Space, t': Space, l: Loc, x0: nat, i: nat, j: nat)
    requires Depth(l) == 2 && Renewed(t, t', l, PtIndex(x0, i)) && NeedsTable(x0, i) && j < i
    ensures IsNew(t', l, x0, j) == IsNew(t, l, x0, j)
  {
    assert Depth(Sub(l, PtIndex(x0, j))) == 3;
    PlaceOfPage(x0, i, PtIndex(x0, i), 0);
    PlaceOfPage(x0, j, PtIndex(x0, j), EntryIndex(x0, j));
  }

  /** The first table and the new ones. */
  ghost function AllTables(s: Space, l: Loc, x0: nat, i: nat): (t: Space)
    requires CanRenewAll(s, l, PtIndex(x0, 0) + 1, NewTables(x0, i))
    ensures Sound(t) && l in t.at && t.free == s.free[NewTables(x0, i)..]
  {
    RenewAll(s, l, PtIndex(x0, 0) + 1, NewTables(x0, i))
  }

  lemma OneMoreTable(s0: Space, l: Loc, x0: nat, i: nat, n: nat)
    requires InRegion(x0, n) && i < n && CanRenewAll(s0, l, PtIndex(x0, 0) + 1, NewTables(x0, n))
    ensures CanRenewAll(s0, l, PtIndex(x0, 0) + 1, NewTables(x0, i))
    ensures CanRenewAll(s0, l, PtIndex(x0, 0) + 1, NewTables(x0, i + 1))
    ensures if NeedsTable(x0, i)
            then CanRenew(AllTables(s0, l, x0, i), l, PtIndex(x0, i))
              && AllTables(s0, l, x0, i + 1) == RenewPt(AllTables(s0, l, x0, i), l, PtIndex(x0, i))
            else AllTables(s0, l, x0, i + 1) == AllTables(s0, l, x0, i)
  {
    NextPage(x0, i, n);
  }

  /** The tables when page `i` is put. */
  lemma TablesBefore(s0: Space, t: Space, s: Space, l: Loc, x0: nat, i: nat, n: nat, p0: nat)
    requires CanRenewAll(s0, l, PtIndex(x0, 0) + 1, NewTables(x0, n)) && CanPut(s, l, x0, i, n) && i < n
    requires CanRenewAll(s0, l, PtIndex(x0, 0) + 1, NewTables(x0, i)) && t == AllTables(s0, l, x0, i)
    requires PutOver(t, s, l, x0, i, p0)
    ensures CanRenewAll(s0, l, PtIndex(x0, 0) + 1, NewTables(x0, i + 1))
    ensures PutOver(AllTables(s0, l, x0, i + 1), BeforePage(s, l, x0, i, n), l, x0, i, p0)
  {
    OneMoreTable(s0, l, x0, i, n);
    if NeedsTable(x0, i) {
      RenewOver(t, s, l, x0, i, p0);
    }
  }

  lemma PageEffect(s0: Space, t: Space, s: Space, l: Loc, x0: nat, i: nat, n: nat, p0: nat)
    requires CanRenewAll(s0, l, PtIndex(x0, 0) + 1, NewTables(x0, n)) && CanPut(s, l, x0, i, n) && i < n
    requires CanRenewAll(s0, l, PtIndex(x0, 0) + 1, NewTables(x0, i)) && t == AllTables(s0, l, x0, i)
    requires PutOver(t, s, l, x0, i, p0)
    ensures CanRenewAll(s0, l, PtIndex(x0, 0) + 1, NewTables(x0, i + 1))
    ensures PutOver(AllTables(s0, l, x0, i + 1), AfterPage(s, l, x0, i, n, p0), l, x0, i + 1, p0)
  {
    TablesBefore(s0, t, s, l, x0, i, n, p0);
    PutOneMore(AllTables(s0, l, x0, i + 1), BeforePage(s, l, x0, i, n), l, x0, i, p0);
  }

  lemma {:induction false} RangeEffect(s0: Space, s: Space, l: Loc, x0: nat, i: nat, n: nat, p0: nat)
    requires CanRenewAll(s0, l, PtIndex(x0, 0) + 1, NewTables(x0, n)) && CanPut(s, l, x0, i, n)
    requires CanRenewAll(s0, l, PtIndex(x0, 0) + 1, NewTables(x0, i))
    requires PutOver(AllTables(s0, l, x0, i), s, l, x0, i, p0)
    ensures PutOver(AllTables(s0, l, x0, n), PutFrom(s, l, x0, i, n, p0), l, x0, n, p0)
    decreases n - i
  {
    if i < n {
      PageEffect(s0, AllTables(s0, l, x0, i), s, l, x0, i, n, p0);
      RangeEffect(s0, AfterPage(s, l, x0, i, n, p0), l, x0, i + 1, n, p0);
    }
  }

  // ---------------------------------------------------------------------------
  // When the range keeps the invariant

  /** Page `j` of the range was mapped, or its frame is used by nobody. */
  ghost predicate PageFits(t: Space, l: Loc, x0: nat, p0: nat, j: nat) {
    !IsNew(t, l, x0, j) || Unused(t, p0 + j)
  }

  ghost predicate PagesFit(t: Space, l: Loc, x0: nat, n: nat, p0: nat) {
    forall j: nat {:trigger PageFits(t, l, x0, p0, j)} | j < n :: PageFits(t, l, x0, p0, j)
  }

  lemma {:induction false} RangeTopCow(t: Space, s: Space, l: Loc, x0: nat, i: nat, p0: nat, z: Loc)
    requires PutOver(t, s, l, x0, i, p0) && Depth(l) == 2
    ensures TopCow(s, z) == TopCow(t, z)
  {
    if z.Sub? && z.parent.Sub? {
      RangeTopCow(t, s, l, x0, i, p0, z.parent);
    } else if z.Sub? {
      assert Depth(z.parent) == 0;
    }
  }

  /** The entry at `k`, `u` is that of page `j`. */
  lemma PageAt(l: Loc, x0: nat, n: nat, k: Loc, u: nat) returns (j: nat)
    requires InRange(l, x0, n, k, u)
    ensures j < n && j == 512 * k.index + u - x0 && k == Sub(l, PtIndex(x0, j)) && u == EntryIndex(x0, j)
  {
    j := 512 * k.index + u - x0;
    PlaceOfPage(x0, j, k.index, u);
  }

  /** The entry of a page that was put, and its owner. */
  lemma PutHere(t: Space, s: Space, l: Loc, x0: nat, n: nat, p0: nat, k: Loc, u: nat, j: nat)
    requires PutOver(t, s, l, x0, n, p0) && j < n && k == Sub(l, PtIndex(x0, j)) && u == EntryIndex(x0, j)
    requires !Ent(t, k, u).present
    ensures Ent(s, k, u) == User(p0 + j) && p0 + j in s.owner && s.owner[p0 + j] == Sub(k, u)
  {
    PlaceOfPage(x0, j, PtIndex(x0, j), u);
    assert Ent(s, k, u) == RangeEnt(t, l, x0, n, p0, k, u);
    assert OwnerAfter(t, s, l, x0, n, p0, p0 + j);
  }

  lemma KeptHere(t: Space, s: Space, l: Loc, x0: nat, n: nat, p0: nat, k: Loc, u: nat)
    requires PutOver(t, s, l, x0, n, p0)
    ensures Ent(t, k, u).present ==> Ent(s, k, u) == Ent(t, k, u)
    ensures Ent(t, k, u) == ZERO && Ent(s, k, u) != ZERO ==> InRange(l, x0, n, k, u)
  {
    assert Ent(s, k, u) == RangeEnt(t, l, x0, n, p0, k, u);
  }

  lemma PutEntryOk(t: Space, s: Space, l: Loc, x0: nat, n: nat, p0: nat, k: Loc, u: nat, j: nat)
    requires Wf(t) && PutOver(t, s, l, x0, n, p0) && Depth(l) == 2 && PageFits(t, l, x0, p0, j)
    requires j < n && k == Sub(l, PtIndex(x0, j)) && u == EntryIndex(x0, j) && !Ent(t, k, u).present
    ensures EntryOk(s, k, u)
  {
    PutHere(t, s, l, x0, n, p0, k, u, j);
    assert Depth(k) == 3;
  }

  /** The owner of a frame that backs a page has not changed. */
  lemma KeptOwner(t: Space, s: Space, l: Loc, x0: nat, n: nat, p0: nat, k: Loc, u: nat, f: Frame)
    requires PutOver(t, s, l, x0, n, p0) && PagesFit(t, l, x0, n, p0) && BacksPage(t, f, k, u)
    ensures (f in s.owner <==> f in t.owner) && (f in s.owner ==> s.owner[f] == t.owner[f])
  {
    assert OwnerAfter(t, s, l, x0, n, p0, f);
    if p0 <= f < p0 + n {
      assert PageFits(t, l, x0, p0, f - p0);
    }
  }

  lemma KeptEntryOk(t: Space, s: Space, l: Loc, x0: nat, n: nat, p0: nat, k: Loc, u: nat)
    requires Wf(t) && PutOver(t, s, l, x0, n, p0) && Depth(l) == 2 && PagesFit(t, l, x0, n, p0)
    requires k in t.at && u < Width(k) && Ent(t, k, u) != ZERO
    ensures EntryOk(s, k, u)
  {
    PresentIsUsed(t, k, u);
    assert EntryOk(t, k, u) && LinkOk(t, k);
    KeptHere(t, s, l, x0, n, p0, k, u);
    RangeTopCow(t, s, l, x0, n, p0, Sub(k, u));
    if Depth(k) == 3 {
      KeptOwner(t, s, l, x0, n, p0, k, u, Ent(t, k, u).frame);
    }
  }

  lemma FitKeepsWf(t: Space, s: Space, l: Loc, x0: nat, n: nat, p0: nat)
    requires Wf(t) && PutOver(t, s, l, x0, n, p0) && Depth(l) == 2 && PagesFit(t, l, x0, n, p0)
    ensures Wf(s)
  {
    forall k | k in s.at ensures LinkOk(s, k) {
      assert LinkOk(t, k);
      if k.Sub? {
        PresentIsUsed(t, k.parent, k.index);
        KeptHere(t, s, l, x0, n, p0, k.parent, k.index);
      }
    }
    forall k, u: nat | k in s.at && u < Width(k) && Ent(s, k, u) != ZERO ensures EntryOk(s, k, u) {
      KeptHere(t, s, l, x0, n, p0, k, u);
      if Ent(t, k, u) != ZERO {
        KeptEntryOk(t, s, l, x0, n, p0, k, u);
      } else {
        var j := PageAt(l, x0, n, k, u);
        assert PageFits(t, l, x0, p0, j);
        PutEntryOk(t, s, l, x0, n, p0, k, u, j);
      }
    }
  }

  /** The frame of an entry that is not the only writable one. */
  lemma FrameIsUnused(t: Space, s: Space, l: Loc, x0: nat, n: nat, p0: nat, k0: Loc, u0: nat, f: Frame)
    requires Wf(t) && Wf(s) && PutOver(t, s, l, x0, n, p0) && k0 in t.at && Depth(k0) == 3 && u0 < 512
    requires Ent(t, k0, u0) == ZERO && Ent(s, k0, u0) == User(f)
    ensures Unused(t, f)
  {
    assert EntryOk(s, k0, u0);
    forall k, u: nat ensures !BacksPage(t, f, k, u) {
      if k in t.at && Depth(k) == 3 && u < 512 && Ent(t, k, u) != ZERO {
        PresentIsUsed(t, k, u);
        KeptHere(t, s, l, x0, n, p0, k, u);
        assert EntryOk(s, k, u);
      }
    }
  }

  /** A page that was put has a frame that nobody else uses. */
  lemma WfNeedsFit(t: Space, s: Space, l: Loc, x0: nat, n: nat, p0: nat, j: nat)
    requires Wf(t) && Wf(s) && PutOver(t, s, l, x0, n, p0) && Depth(l) == 2 && j < n
    requires Sub(l, PtIndex(x0, j)) in t.at
    ensures PageFits(t, l, x0, p0, j)
  {
    var k0, u0 := Sub(l, PtIndex(x0, j)), EntryIndex(x0, j);
    assert Depth(k0) == 3;
    if IsNew(t, l, x0, j) {
      PresentIsUsed(t, k0, u0);
      PutHere(t, s, l, x0, n, p0, k0, u0, j);
      FrameIsUnused(t, s, l, x0, n, p0, k0, u0, p0 + j);
    }
  }

  /** Every page of the range has its table. */
  ghost predicate TablesThere(t: Space, l: Loc, x0: nat, n: nat) {
    forall j: nat {:trigger PtIndex(x0, j)} | j < n :: Sub(l, PtIndex(x0, j)) in t.at
  }

  /** The pages keep the invariant exactly when each of them was mapped or gets a frame that nobody uses. */
  lemma RangeKeepsWf(t: Space, s: Space, l: Loc, x0: nat, n: nat, p0: nat)
    requires Wf(t) && PutOver(t, s, l, x0, n, p0) && Depth(l) == 2 && TablesThere(t, l, x0, n)
    ensures Wf(s) <==> PagesFit(t, l, x0, n, p0)
  {
    if PagesFit(t, l, x0, n, p0) {
      FitKeepsWf(t, s, l, x0, n, p0);
    }
    if Wf(s) {
      forall j: nat | j < n ensures PageFits(t, l, x0, p0, j) {
        assert Sub(l, PtIndex(x0, j)) in t.at;
        WfNeedsFit(t, s, l, x0, n, p0, j);
      }
    }
  }
}
