/**
  What every run of the process operations keeps: well-formed lists, one running process, no lost
  wake-up, and bounded waiting.
 */
module ProcessRuns {
  import opened ProcessLists
  import opened Wrappers

  ghost function Members(s: Sys): set<nat> {
    set p | p in s.threads + s.blocked
  }

  ghost predicate Live(info: map<nat, Info>, p: nat) {
    p in info && info[p].state != ZOMBIE
  }

  ghost predicate Waited(info: map<nat, Info>, p: nat) {
    Live(info, p) && info[p].isWait
  }

  // ---------------------------------------------------------------------------
  // The invariant

  /** The lists are acyclic and disjoint, and `mainthread` heads the thread list. */
  ghost predicate ListsOk(s: Sys) {
    && s.threads != [] && s.threads[0] == s.main && s.cur in Members(s)
    && Distinct(s.threads) && Distinct(s.blocked) && (forall p | p in s.threads :: p !in s.blocked)
    && (forall p | p in Members(s) :: p != 0 && p in s.info)
  }

  /** Only the current process may be running or, inside `sys_waitpid`, blocked. */
  ghost predicate StatesOk(s: Sys) {
    && s.cur in s.info && s.info[s.cur].state != READY && (s.cur in s.blocked ==> s.info[s.cur].state == BLOCKED)
    && (forall p | p in Members(s) && p != s.cur && p in s.info ::
          s.info[p].state == READY || s.info[p].state == ZOMBIE)
    && (forall p | p in s.blocked && p != s.cur && p in s.info :: s.info[p].state == READY)
  }

  ghost predicate PidsOk(s: Sys) {
    && s.main in s.info && s.info[s.main].pid == 0 && s.info[s.main].ppid == 0 && !s.info[s.main].isWait
    && (forall p, q | p in Members(s) && q in Members(s) && p != q && p in s.info && q in s.info ::
          s.info[p].pid != 0 ==> s.info[p].pid != s.info[q].pid)
    && (forall p | p in Members(s) && p in s.info ::
          s.info[p].pid <= s.count && (s.info[p].pid == 0 ==> s.info[p].ppid == 0)
              && (s.info[p].pid != 0 ==> s.info[p].ppid < s.info[p].pid))
    && (forall p | p in s.blocked && p in s.info :: s.info[p].pid != 0)
  }

  /** A parent has at most one live child it waits for, and while it has one it is off the thread list. */
  ghost predicate WaitsOk(s: Sys) {
    && (forall p | p in Members(s) && Waited(s.info, p) :: s.info[p].ppid != 0)
    && (forall p, q | p in Members(s) && q in Members(s) && Waited(s.info, p) && Waited(s.info, q) ::
          s.info[p].ppid == s.info[q].ppid ==> p == q)
    && (forall p, q | p in Members(s) && Waited(s.info, p) && q in s.threads
        && q in s.info :: s.info[q].pid != s.info[p].ppid)
  }

  /** What holds whenever `schedule` is called. */
  ghost predicate Dispatchable(s: Sys) {
    ListsOk(s) && StatesOk(s) && PidsOk(s) && WaitsOk(s)
  }

  /** What holds between system calls: the current process is on the thread list and has not blocked. */
  ghost predicate Inv(s: Sys) {
    Dispatchable(s) && s.cur in s.threads && s.info[s.cur].state != BLOCKED
  }

  // ---------------------------------------------------------------------------
  // List facts

  lemma InsertMembers(s: seq<nat>, k: nat, q: nat)
    requires k <= |s|
    ensures forall x :: x in s[..k] + [q] + s[k..] <==> x in s || x == q
  {
    assert s == s[..k] + s[k..];
  }

  lemma RemoveInserted(s: seq<nat>, k: nat, q: nat)
    requires k <= |s| && q !in s
    ensures Remove(s[..k] + [q] + s[k..], q) == s
  {
    var r := s[..k] + [q] + s[k..];
    assert r[k] == q && q !in r[..k] by {
      assert r[..k] == s[..k];
    }
    assert IndexOf(r, q) == k by {
      FirstIndex(r, q, k);
    }
    assert r[..k] + r[k + 1..] == s;
  }

  lemma FirstIndex(s: seq<nat>, p: nat, k: nat)
    requires k < |s| && s[k] == p && p !in s[..k]
    ensures IndexOf(s, p) == k
  {
    var i := IndexOf(s, p);
    assert forall j | 0 <= j < k :: s[..k][j] == s[j];
    assert forall j | 0 <= j < i :: s[..i][j] == s[j];
  }

  lemma InsertFacts(s: seq<nat>, p: nat, q: nat)
    requires p in s && q !in s && Distinct(s)
    ensures Distinct(InsertAfter(s, p, q)) && (forall x :: x in InsertAfter(s, p, q) <==> x in s || x == q)
    ensures InsertAfter(s, p, q)[0] == s[0]
    ensures Remove(InsertAfter(s, p, q), q) == s
  {
    var k := IndexOf(s, p) + 1;
    assert s == s[..k] + s[k..];
    DistinctInsert(s[..k], s[k..], q);
    InsertMembers(s, k, q);
    RemoveInserted(s, k, q);
  }

  lemma DistinctInsert(a: seq<nat>, b: seq<nat>, q: nat)
    requires Distinct(a + b) && q !in a + b
    ensures Distinct(a + [q] + b)
  {
    var r := a + [q] + b;
    forall i: nat, j: nat | i < j < |r| ensures r[i] != r[j] {
      var u := if i < |a| then i else i - 1;
      var v := if j < |a| then j else j - 1;
      assert i != |a| ==> r[i] == (a + b)[u];
      assert j != |a| ==> r[j] == (a + b)[v];
    }
  }

  lemma AtIndex(s: seq<nat>, p: nat, k: nat)
    requires Distinct(s) && k < |s| && s[k] == p
    ensures IndexOf(s, p) == k
  {
  }

  lemma RemoveFacts(s: seq<nat>, p: nat)
    requires p in s && Distinct(s)
    ensures Distinct(Remove(s, p)) && (forall x :: x in Remove(s, p) <==> x in s && x != p)
    ensures s[0] != p ==> Remove(s, p) != [] && Remove(s, p)[0] == s[0]
  {
    var k := IndexOf(s, p);
    var r := Remove(s, p);
    assert forall i | 0 <= i < |r| :: r[i] == if i < k then s[i] else s[i + 1];
    assert forall i | 0 <= i < |s| && i != k :: s[i] == r[if i < k then i else i - 1];
  }

  // ---------------------------------------------------------------------------
  // schedule

  /** No process id, parent id or wait flag of a process of `s` has changed. */
  ghost predicate SameFields(s: Sys, t: Sys) {
    && t.main == s.main && s.count <= t.count
    && (forall p {:trigger t.info[p]} {:trigger s.info[p]} | p in Members(s) && p in s.info ::
          p in t.info && t.info[p].pid == s.info[p].pid && t.info[p].ppid == s.info[p].ppid
              && t.info[p].isWait == s.info[p].isWait)
  }

  lemma PidsKept(s: Sys, t: Sys)
    requires ListsOk(s) && PidsOk(s) && SameFields(s, t) && Members(t) <= Members(s)
    requires forall p | p in t.blocked :: p in s.blocked || (p in s.info && s.info[p].pid != 0)
    ensures PidsOk(t)
  {
    assert s.main in Members(s);
    assert forall p | p in t.blocked :: p in Members(t);
  }

  lemma WaitsKept(s: Sys, t: Sys)
    requires ListsOk(s) && WaitsOk(s) && SameFields(s, t) && Members(t) <= Members(s)
    requires forall p | p in t.threads :: p in s.threads
    requires forall p | p in Members(t) && Waited(t.info, p) :: Waited(s.info, p)
    ensures WaitsOk(t)
  {
    forall p, q | p in Members(t) && Waited(t.info, p) && q in t.threads
        && q in t.info ensures t.info[q].pid != t.info[p].ppid {
      assert q in Members(s) && Waited(s.info, p);
    }
  }

  lemma ScheduleInfo(s: Sys, p: nat)
    requires Dispatchable(s) && p in s.info
    ensures var t := Schedule(s);
      && p in t.info
      && t.info[p] == s.info[p].(state := if p == t.cur then RUNNING
                                          else if p == s.cur then StateAfterDispatch(s)
                                          else s.info[p].state)
  {
  }

  lemma DispatchedIsThread(s: Sys)
    requires ListsOk(s)
    ensures Dispatch(s) in s.threads
    ensures Dispatch(s) == s.main || (Dispatch(s) in s.info && s.info[Dispatch(s)].state == READY)
  {
  }

  lemma ScheduleKeepsStates(s: Sys)
    requires Dispatchable(s)
    ensures StatesOk(Schedule(s))
    ensures forall p | p in Members(s) && p in s.info && Waited(Schedule(s).info, p) :: Waited(s.info, p)
  {
    var t := Schedule(s);
    DispatchedIsThread(s);
    assert t.cur in Members(s) && Members(t) == Members(s);
    ScheduleInfo(s, t.cur);
    forall p | p in Members(s) && p != t.cur ensures t.info[p].state == READY || t.info[p].state == ZOMBIE {
      ScheduleInfo(s, p);
    }
    forall p | p in s.blocked && p != t.cur ensures t.info[p].state == READY {
      assert p in Members(s);
      ScheduleInfo(s, p);
    }
    forall p | p in Members(s) && p in s.info && Waited(t.info, p) ensures Waited(s.info, p) {
      ScheduleInfo(s, p);
    }
  }

  /** `schedule` restores the invariant and keeps both lists; afterwards exactly one process is running, and it
      is the current one. */
  lemma ScheduleKeepsInv(s: Sys)
    requires Dispatchable(s)
    ensures Inv(Schedule(s)) && Schedule(s).threads == s.threads && Schedule(s).blocked == s.blocked
    ensures Schedule(s).info[Schedule(s).cur].state == RUNNING
    ensures forall p | p in Members(s) && p != Schedule(s).cur :: Schedule(s).info[p].state != RUNNING
  {
    var t := Schedule(s);
    DispatchedIsThread(s);
    ScheduleKeepsStates(s);
    assert t.cur in Members(s) && Members(t) == Members(s);
    ScheduleInfo(s, t.cur);
    forall p | p in Members(s)
      ensures p in t.info && t.info[p].pid == s.info[p].pid && t.info[p].ppid == s.info[p].ppid
              && t.info[p].isWait == s.info[p].isWait
    {
      ScheduleInfo(s, p);
    }
    PidsKept(s, t);
    WaitsKept(s, t);
  }

  // ---------------------------------------------------------------------------
  // create_thread, fork, kill

  /** A PCB in a page that no process uses. */
  ghost predicate Unused(s: Sys, p: nat) {
    p != 0 && p !in Members(s)
  }

  /** `t` is `s` with the new ready process `p` somewhere behind `mainthread` on the thread list. */
  ghost predicate Added(s: Sys, t: Sys, p: nat) {
    && Unused(s, p) && p in t.info && t.info[p].state == READY && !t.info[p].isWait
    && (t.info[p].pid == 0 ==> t.info[p].ppid == 0)
    && (t.info[p].pid != 0 ==> s.count < t.info[p].pid <= t.count && t.info[p].ppid < t.info[p].pid)
    && t.cur == s.cur && t.blocked == s.blocked && SameFields(s, t)
    && t.threads != [] && t.threads[0] == t.main && Distinct(t.threads)
        && (forall q :: q in t.threads <==> q in s.threads || q == p)
    && (forall q {:trigger t.info[q]} | q in Members(s) && q in s.info ::
          q in t.info && t.info[q].state == s.info[q].state)
  }

  lemma AddedMembers(s: Sys, t: Sys, p: nat)
    requires Added(s, t, p)
    ensures Members(t) == Members(s) + {p} && (forall q | q in Members(s) :: q != p)
  {
    forall q ensures q in Members(t) <==> q in Members(s) || q == p {
      assert q in t.threads + t.blocked <==> q in t.threads || q in t.blocked;
      assert q in s.threads + s.blocked <==> q in s.threads || q in s.blocked;
    }
  }

  lemma AddedWaits(s: Sys, t: Sys, p: nat)
    requires Inv(s) && Added(s, t, p)
    ensures WaitsOk(t)
  {
    AddedMembers(s, t, p);
    assert forall q | q in Members(t) && Waited(t.info, q) :: q in Members(s) && Waited(s.info, q);
    forall q, u | q in Members(t) && Waited(t.info, q) && u in t.threads
        && u in t.info ensures t.info[u].pid != t.info[q].ppid {
      assert u != p ==> u in Members(s);
    }
  }

  lemma AddKeepsInv(s: Sys, t: Sys, p: nat)
    requires Inv(s) && Added(s, t, p)
    ensures Inv(t) && Members(t) == Members(s) + {p}
  {
    AddedMembers(s, t, p);
    AddedWaits(s, t, p);
    assert s.main in Members(s);
    forall q | q in t.threads ensures q !in t.blocked {
      assert q in t.blocked ==> q in Members(s);
    }
  }

  lemma CreateAdds(s: Sys, p: nat, page: Info)
    requires Inv(s) && Unused(s, p) && page.pid == 0 && page.ppid == 0 && !page.isWait
    ensures Added(s, CreateThread(s, p, page), p)
  {
    assert p !in s.threads by {
      assert p in s.threads ==> p in Members(s);
    }
    assert s.threads + [] == s.threads;
    DistinctInsert(s.threads, [], p);
    assert s.threads + [p] + [] == s.threads + [p];
  }

  /** What the recycled page of a new thread may hold: ids that no process has and that no wait concerns. */
  ghost predicate PageFits(s: Sys, page: Info) {
    && page.pid <= s.count && (if page.pid == 0 then page.ppid == 0 else page.ppid < page.pid)
    && (forall q | q in Members(s) && q in s.info :: page.pid != 0 ==> s.info[q].pid != page.pid)
    && (forall q | q in Members(s) && Waited(s.info, q) :: s.info[q].ppid != page.pid)
    && (page.isWait ==>
          && page.ppid != 0
          && (forall q | q in Members(s) && Waited(s.info, q) :: s.info[q].ppid != page.ppid)
          && (forall q | q in s.threads && q in s.info :: s.info[q].pid != page.ppid))
  }

  /** `t` is `s` with the new thread `p` at the end of the list. */
  ghost predicate Appended(s: Sys, t: Sys, p: nat, page: Info) {
    && Unused(s, p) && t == s.(threads := s.threads + [p], info := t.info)
    && t.info == s.info[p := page.(state := READY, slice := 1)]
  }

  lemma AppendedMembers(s: Sys, t: Sys, p: nat, page: Info)
    requires Inv(s) && Appended(s, t, p, page)
    ensures Members(t) == Members(s) + {p} && ListsOk(t) && StatesOk(t)
    ensures forall q | q in Members(s) :: q != p && q in t.info && t.info[q] == s.info[q]
  {
    assert p !in s.threads by {
      assert p in s.threads ==> p in Members(s);
    }
    assert s.threads + [] == s.threads;
    DistinctInsert(s.threads, [], p);
    assert s.threads + [p] + [] == t.threads;
    assert Members(t) == Members(s) + {p};
    assert forall q | q in s.blocked :: q in Members(s);
  }

  lemma FittingPids(s: Sys, t: Sys, p: nat, page: Info)
    requires Inv(s) && Appended(s, t, p, page) && PageFits(s, page)
    ensures PidsOk(t)
  {
    AppendedMembers(s, t, p, page);
    assert s.main in Members(s) && forall q | q in t.blocked :: q in Members(s);
  }

  lemma FittingWaits(s: Sys, t: Sys, p: nat, page: Info)
    requires Inv(s) && Appended(s, t, p, page) && PageFits(s, page)
    ensures WaitsOk(t)
  {
    AppendedMembers(s, t, p, page);
    assert forall q | q in Members(s) && Waited(t.info, q) :: Waited(s.info, q);
    forall q, u | q in Members(t) && Waited(t.info, q) && u in t.threads && u in t.info
      ensures t.info[u].pid != t.info[q].ppid
    {
      assert u != p ==> u in s.threads && u in Members(s);
    }
  }

  lemma FittingPageKeepsInv(s: Sys, t: Sys, p: nat, page: Info)
    requires Inv(s) && Appended(s, t, p, page) && PageFits(s, page)
    ensures Inv(t)
  {
    AppendedMembers(s, t, p, page);
    assert s.cur in Members(s);
    FittingPids(s, t, p, page);
    FittingWaits(s, t, p, page);
  }

  lemma InvNeedsFittingPage(s: Sys, t: Sys, p: nat, page: Info)
    requires Inv(s) && Appended(s, t, p, page) && Inv(t)
    ensures PageFits(s, page)
  {
    AppendedMembers(s, t, p, page);
    assert p in Members(t) && p in t.threads;
    forall q | q in s.threads && q in s.info ensures page.isWait ==> s.info[q].pid != page.ppid {
      assert q in Members(s) && q in t.threads;
      assert page.isWait ==> Waited(t.info, p);
    }
  }

  /** `create_thread` sets no process id: it keeps the invariant exactly when what the page of the PCB holds fits, as a
      zeroed page does. */
  lemma CreateKeepsInv(s: Sys, p: nat, page: Info)
    requires Inv(s) && Unused(s, p)
    ensures Inv(CreateThread(s, p, page)) <==> PageFits(s, page)
    ensures Members(CreateThread(s, p, page)) == Members(s) + {p}
    ensures page.pid == 0 && page.ppid == 0 && !page.isWait ==> PageFits(s, page)
  {
    var t := CreateThread(s, p, page);
    AppendedMembers(s, t, p, page);
    if PageFits(s, page) {
      FittingPageKeepsInv(s, t, p, page);
    }
    if Inv(t) {
      InvNeedsFittingPage(s, t, p, page);
    }
  }

  lemma ForkInfo(s: Sys, p: nat, page: Info)
    requires Inv(s) && Unused(s, p)
    ensures SameFields(s, Fork(s, p, page))
    ensures forall q {:trigger Fork(s, p, page).info[q]} | q in Members(s) && q in s.info ::
              q in Fork(s, p, page).info && Fork(s, p, page).info[q].state == s.info[q].state
    ensures Fork(s, p, page).info[p]
            == Info(s.count + 1, s.info[s.cur].pid, page.isWait, READY, s.info[s.cur].slice / 2)
    ensures s.info[s.cur].pid <= s.count
  {
    assert s.cur in Members(s);
  }

  lemma ForkLists(s: Sys, p: nat, page: Info)
    requires Inv(s) && Unused(s, p)
    ensures var t := Fork(s, p, page);
      && t.threads[0] == s.threads[0] && Distinct(t.threads)
      && (forall q :: q in t.threads <==> q in s.threads || q == p)
  {
    assert p !in s.threads by {
      assert p in s.threads ==> p in Members(s);
    }
    InsertFacts(s.threads, s.cur, p);
  }

  lemma ForkAdds(s: Sys, p: nat, page: Info)
    requires Inv(s) && Unused(s, p) && !page.isWait
    ensures Added(s, Fork(s, p, page), p)
  {
    ForkLists(s, p, page);
    ForkInfo(s, p, page);
  }

  /** `sys_fork` keeps the invariant exactly when the recycled page of the PCB does not mark the child as awaited. */
  lemma ForkKeepsInv(s: Sys, p: nat, page: Info)
    requires Inv(s) && Unused(s, p)
    ensures Inv(Fork(s, p, page)) <==> !page.isWait
    ensures Members(Fork(s, p, page)) == Members(s) + {p}
  {
    var t := Fork(s, p, page);
    ForkLists(s, p, page);
    ForkInfo(s, p, page);
    if page.isWait {
      assert p in Members(t) && Waited(t.info, p);
      assert s.cur in t.threads && t.info[s.cur].pid == t.info[p].ppid;
    } else {
      ForkAdds(s, p, page);
      AddKeepsInv(s, t, p);
    }
    forall q ensures q in Members(t) <==> q in Members(s) || q == p {}
  }

  /** The PCBs at boot: `mainthread` alone. */
  function Boot(main: nat): Sys {
    Sys([main], [], main, main, map[main := Info(0, 0, false, RUNNING, 1)], 0)
  }

  lemma BootInv(main: nat)
    requires main != 0
    ensures Inv(Boot(main))
  {
    assert Members(Boot(main)) == {main};
  }

  lemma StartInfo(s: Sys, p: nat)
    requires Inv(s) && s.count == 0 && p in Members(s)
    ensures p in s.info && s.info[p].pid == 0 && s.info[p].ppid == 0
    ensures StartUser(s).info[p] == if p == s.cur then s.info[p].(pid := 1, slice := MAXSLICE) else s.info[p]
  {
  }

  lemma StartPids(s: Sys)
    requires Inv(s) && s.count == 0 && s.cur != s.main
    ensures PidsOk(StartUser(s)) && WaitsOk(StartUser(s))
  {
    var t := StartUser(s);
    assert Members(t) == Members(s);
    assert s.main in Members(s);
    forall p | p in Members(s)
      ensures t.info[p].pid == (if p == s.cur then 1 else 0) && t.info[p].ppid == 0 && !Waited(t.info, p)
    {
      StartInfo(s, p);
    }
    assert forall p | p in s.blocked :: p in Members(s);
  }

  lemma StartKeepsInv(s: Sys)
    requires Inv(s) && s.count == 0 && s.cur != s.main
    ensures Inv(StartUser(s)) && Members(StartUser(s)) == Members(s)
  {
    var t := StartUser(s);
    assert Members(t) == Members(s);
    StartPids(s);
    forall p | p in Members(s) ensures p in t.info && t.info[p].state == s.info[p].state {
      StartInfo(s, p);
    }
    assert ListsOk(t) && StatesOk(t);
  }

  /** `sys_kill` keeps the invariant, and only processes of that id leave the lists. */
  lemma KillKeepsInv(s: Sys, pid: nat)
    requires Inv(s) && pid != s.info[s.cur].pid
    ensures Inv(Kill(s, pid)) && Members(Kill(s, pid)) <= Members(s)
    ensures forall p | p in Members(s) && s.info[p].pid != pid :: p in Members(Kill(s, pid))
  {
    var p := FindPid(s.info, s.threads, pid);
    var q := FindPid(s.info, s.blocked, pid);
    if p != 0 && IndexOf(s.threads, p) != 0 {
      KillThreadKeepsInv(s, p);
    } else if p == 0 && q != 0 {
      KillBlockedKeepsInv(s, q);
    }
  }

  lemma KillThreadKeepsInv(s: Sys, p: nat)
    requires Inv(s) && p in s.threads && p != s.cur && IndexOf(s.threads, p) != 0
    ensures var t := s.(threads := Remove(s.threads, p)); Inv(t) && Members(t) == Members(s) - {p}
  {
    var t := s.(threads := Remove(s.threads, p));
    RemoveFacts(s.threads, p);
    assert Members(t) == Members(s) - {p};
    assert s.threads[0] != p;
    RemovalKeepsInv(s, t);
  }

  lemma KillBlockedKeepsInv(s: Sys, q: nat)
    requires Inv(s) && q in s.blocked
    ensures var t := s.(blocked := Remove(s.blocked, q)); Inv(t) && Members(t) == Members(s) - {q}
  {
    var t := s.(blocked := Remove(s.blocked, q));
    RemoveFacts(s.blocked, q);
    assert Members(t) == Members(s) - {q};
    RemovalKeepsInv(s, t);
  }

  lemma RemovalKeepsInv(s: Sys, t: Sys)
    requires Inv(s) && t == s.(threads := t.threads, blocked := t.blocked) && t.threads != [] && t.threads[0] == s.main
    requires Distinct(t.threads) && Distinct(t.blocked) && s.cur in t.threads
    requires (forall p | p in t.threads :: p in s.threads) && (forall p | p in t.blocked :: p in s.blocked)
    ensures Inv(t)
  {
    assert Members(t) <= Members(s);
    assert s.cur in Members(t);
    PidsKept(s, t);
    WaitsKept(s, t);
  }

  // ---------------------------------------------------------------------------
  // waitpid

  lemma {:induction false} MarkInfo(info: map<nat, Info>, s: seq<nat>, parent: nat, pid: nat, p: nat)
    requires p in info
    ensures p in MarkAwaited(info, s, parent, pid)
    ensures MarkAwaited(info, s, parent, pid)[p] ==
            if p in s && IsAwaited(info, p, parent, pid) then info[p].(isWait := true) else info[p]
  {
    if s != [] {
      var marked := if IsAwaited(info, s[0], parent, pid) then info[s[0] := info[s[0]].(isWait := true)] else info;
      MarkInfo(marked, s[1..], parent, pid, p);
      assert p in s <==> p == s[0] || p in s[1..];
    }
  }

  lemma WaitInfo(s: Sys, pid: nat, p: nat)
    requires Inv(s) && p in s.info
    ensures var t := Wait(s, pid);
      && p in t.info && t.info[p].pid == s.info[p].pid && t.info[p].ppid == s.info[p].ppid
          && t.info[p].slice == s.info[p].slice
      && t.info[p].state == (if p == s.cur then BLOCKED else s.info[p].state)
      && t.info[p].isWait == (s.info[p].isWait || (p in s.threads && IsAwaited(s.info, p, s.info[s.cur].pid, pid)))
  {
    MarkInfo(s.info, s.threads, s.info[s.cur].pid, pid, p);
    MarkInfo(s.info, s.threads, s.info[s.cur].pid, pid, s.cur);
  }

  lemma WaitLists(s: Sys, pid: nat)
    requires Inv(s)
    ensures ListsOk(Wait(s, pid)) && Members(Wait(s, pid)) == Members(s)
    ensures forall p | p in Wait(s, pid).threads :: p in s.threads
    ensures forall p | p in Wait(s, pid).blocked :: p in s.blocked || (p == s.cur && s.info[p].pid != 0)
    ensures Wait(s, pid).blocked != s.blocked ==> s.cur !in Wait(s, pid).threads
  {
    var t := Wait(s, pid);
    assert s.main in Members(s) && s.cur in Members(s);
    forall p | p in Members(s) ensures p in t.info {
      WaitInfo(s, pid, p);
    }
    RemoveFacts(s.threads, s.cur);
    DistinctPush(s.blocked, s.cur);
    assert Members(t) == Members(s);
  }

  lemma DistinctPush(s: seq<nat>, p: nat)
    requires Distinct(s) && p !in s
    ensures Distinct([p] + s)
  {
    DistinctInsert([], s, p);
    assert [] + s == s && [] + [p] + s == [p] + s;
  }

  lemma WaitWaits(s: Sys, pid: nat)
    requires Inv(s) && s.info[s.cur].state == RUNNING
    ensures WaitsOk(Wait(s, pid))
  {
    var t := Wait(s, pid);
    var parent := s.info[s.cur].pid;
    WaitLists(s, pid);
    forall p | p in Members(t) && Waited(t.info, p)
      ensures Waited(s.info, p) || (s.info[p].ppid == parent && parent != 0 && s.info[p].pid == pid
              && s.cur !in t.threads)
      ensures t.info[p].ppid == s.info[p].ppid && t.info[p].pid == s.info[p].pid && p in Members(s)
    {
      WaitInfo(s, pid, p);
      assert p in s.threads && IsAwaited(s.info, p, parent, pid) ==> t.threads == Remove(s.threads, s.cur);
      RemoveFacts(s.threads, s.cur);
    }
    forall p, q | p in Members(t) && Waited(t.info, p) && q in t.threads
        && q in t.info ensures t.info[q].pid != t.info[p].ppid {
      WaitInfo(s, pid, q);
      assert q in Members(s) && s.cur in Members(s);
    }
  }

  /** `sys_waitpid` keeps the invariant, and no process leaves the lists. */
  lemma WaitKeepsInv(s: Sys, pid: nat)
    requires Inv(s) && s.info[s.cur].state == RUNNING
    ensures Inv(WaitPid(s, pid)) && Members(WaitPid(s, pid)) == Members(s)
  {
    var t := Wait(s, pid);
    WaitLists(s, pid);
    WaitWaits(s, pid);
    WaitStates(s, pid);
    ScheduleKeepsInv(t);
    assert Members(Schedule(t)) == Members(t);
  }

  lemma WaitStates(s: Sys, pid: nat)
    requires Inv(s) && s.info[s.cur].state == RUNNING
    ensures StatesOk(Wait(s, pid)) && PidsOk(Wait(s, pid))
  {
    var t := Wait(s, pid);
    WaitLists(s, pid);
    assert t.cur == s.cur && s.cur in Members(s) && s.main in Members(s);
    WaitInfo(s, pid, s.cur);
    forall p | p in Members(s)
      ensures p in t.info && t.info[p].pid == s.info[p].pid && t.info[p].ppid == s.info[p].ppid
      ensures p != s.cur ==> t.info[p].state == s.info[p].state
    {
      WaitInfo(s, pid, p);
    }
    assert forall p | p in t.blocked :: p in Members(t);
    WaitInfo(s, pid, s.main);
    assert !t.info[s.main].isWait;
  }

  // ---------------------------------------------------------------------------
  // exit

  lemma {:induction false} InheritInfo(info: map<nat, Info>, s: seq<nat>, cur: nat, p: nat)
    requires p in info
    ensures p in Inherit(info, s, cur)
    ensures Inherit(info, s, cur)[p] == info[p].(slice := Inherit(info, s, cur)[p].slice)
  {
    if s != [] {
      var given := if s[0] in info && cur in info && info[s[0]].pid == info[cur].ppid
                   then info[s[0] := info[s[0]].(slice := info[s[0]].slice + info[cur].slice)] else info;
      InheritInfo(given, s[1..], cur, p);
    }
  }

  lemma ExitInfo(s: Sys, p: nat)
    requires Inv(s) && p in s.info
    ensures var t := Exit(s);
      && p in t.info
      && t.info[p] == s.info[p].(slice := t.info[p].slice, state := if p == s.cur then ZOMBIE else s.info[p].state)
  {
    InheritInfo(SetState(s.info, s.cur, ZOMBIE), s.threads + s.blocked, s.cur, p);
  }

  /** The parent that `thread_on_completion` looks for. */
  ghost predicate WaitingParent(s: Sys, p: nat) {
    && s.cur in s.info && p in s.info && s.info[s.cur].isWait && s.info[s.cur].ppid != 0
    && p in s.blocked && s.info[p].pid == s.info[s.cur].ppid
  }

  lemma {:induction false} FindPidFinds(info: map<nat, Info>, s: seq<nat>, pid: nat, p: nat)
    requires p in s && p != 0 && p in info && info[p].pid == pid
    ensures FindPid(info, s, pid) != 0
  {
    if s[0] != p {
      FindPidFinds(info, s[1..], pid, p);
    }
  }

  /** No sibling of an exiting awaited process is awaited, so a parent that is blocked is always found a place. */
  lemma ExitPlace(s: Sys, p: nat)
    requires Inv(s) && s.info[s.cur].state == RUNNING && WaitingParent(s, p)
    ensures s.cur in Exited(s)
    ensures WakeAfter(Exited(s), s.threads, s.cur) in s.threads && WakeAfter(Exited(s), s.threads, s.cur) != 0
    ensures FindPid(Exited(s), s.blocked, s.info[s.cur].ppid) == p
  {
    var info := Exited(s);
    assert s.cur in Members(s) && p in Members(s);
    ExitInfo(s, s.cur);
    ExitInfo(s, p);
    FindPidFinds(info, s.blocked, s.info[s.cur].ppid, p);
    var found := FindPid(info, s.blocked, s.info[s.cur].ppid);
    assert found in Members(s);
    ExitInfo(s, found);
    var q := Sibling(info, s.threads, s.cur);
    if q != 0 {
      assert q in Members(s);
      ExitInfo(s, q);
      assert Waited(s.info, s.cur);
      assert info[q].isWait ==> Waited(s.info, q);
    }
  }

  /** `p` has gone from `blocked`, with what was in front of it, to some place behind the head of `threads`. */
  ghost predicate Requeued(threads: seq<nat>, blocked: seq<nat>, t: Sys, p: nat)
    requires p in blocked && threads != []
  {
    && t.blocked == blocked[IndexOf(blocked, p) + 1..] && Remove(t.threads, p) == threads
    && Distinct(t.threads) && t.threads != [] && t.threads[0] == threads[0]
    && (forall q :: q in t.threads <==> q in threads || q == p)
  }

  lemma WakeLists(s: Sys, place: nat, p: nat)
    requires Distinct(s.threads) && place in s.threads && place != 0 && p != 0 && p !in s.threads && p in s.blocked
    ensures Requeued(s.threads, s.blocked, Wake(s, place, p), p)
  {
    InsertFacts(s.threads, place, p);
  }

  lemma ExitIsWake(s: Sys, p: nat)
    requires Inv(s) && s.info[s.cur].state == RUNNING && WaitingParent(s, p)
    ensures s.cur in Exited(s)
    ensures Exit(s) == Wake(s.(info := Exited(s)), WakeAfter(Exited(s), s.threads, s.cur), p)
  {
    ExitPlace(s, p);
  }

  lemma ExitWithParent(s: Sys, p: nat)
    requires Inv(s) && s.info[s.cur].state == RUNNING && WaitingParent(s, p)
    ensures Requeued(s.threads, s.blocked, Exit(s), p)
  {
    ExitPlace(s, p);
    ExitIsWake(s, p);
    assert p != 0 && p !in s.threads by {
      assert p in Members(s);
    }
    WakeLists(s.(info := Exited(s)), WakeAfter(Exited(s), s.threads, s.cur), p);
  }

  lemma ExitWithoutParent(s: Sys)
    requires Inv(s) && s.info[s.cur].state == RUNNING && forall p :: !WaitingParent(s, p)
    ensures Exit(s).threads == s.threads && Exit(s).blocked == s.blocked
  {
    var parent := FindPid(Exit(s).info, s.blocked, s.info[s.cur].ppid);
    ExitInfo(s, s.cur);
    if parent != 0 {
      assert parent in Members(s);
      ExitInfo(s, parent);
      assert !WaitingParent(s, parent);
    }
  }

  lemma DistinctSuffix(s: seq<nat>, k: nat)
    requires Distinct(s) && k <= |s|
    ensures Distinct(s[k..]) && (forall p | p in s[k..] :: p in s && p !in s[..k])
  {
  }

  lemma ExitFields(s: Sys)
    requires Inv(s)
    ensures SameFields(s, Exit(s)) && Exit(s).cur == s.cur
    ensures s.cur in Exit(s).info && Exit(s).info[s.cur].state == ZOMBIE
    ensures forall p {:trigger Exit(s).info[p]} | p in Members(s) && p != s.cur ::
              p in Exit(s).info && Exit(s).info[p].state == s.info[p].state
  {
    assert s.cur in Members(s);
    ExitInfo(s, s.cur);
    forall p | p in Members(s) && p in s.info
      ensures var t := Exit(s);
        && p in t.info
        && t.info[p] == s.info[p].(slice := t.info[p].slice, state := if p == s.cur then ZOMBIE else s.info[p].state)
    {
      ExitInfo(s, p);
    }
  }

  lemma ExitWakingKeepsInv(s: Sys, p: nat)
    requires Inv(s) && s.info[s.cur].state == RUNNING && WaitingParent(s, p)
    ensures Inv(Exit(s)) && Members(Exit(s)) <= Members(s)
  {
    ExitFields(s);
    ExitWithParent(s, p);
    DistinctSuffix(s.blocked, IndexOf(s.blocked, p) + 1);
    AtOrBeforeIndex(s.blocked, p);
    WokenInv(s, Exit(s), p);
  }

  lemma AtOrBeforeIndex(s: seq<nat>, p: nat)
    requires p in s
    ensures p in s[..IndexOf(s, p) + 1]
  {
    assert s[..IndexOf(s, p) + 1][IndexOf(s, p)] == p;
  }

  lemma ExitKeepsInv(s: Sys)
    requires Inv(s) && s.info[s.cur].state == RUNNING
    ensures Inv(Exit(s)) && Members(Exit(s)) <= Members(s)
  {
    if p :| WaitingParent(s, p) {
      ExitWakingKeepsInv(s, p);
    } else {
      ExitFields(s);
      ExitWithoutParent(s);
      RestingInv(s, Exit(s));
    }
  }

  /** Nobody is woken. */
  lemma RestingInv(s: Sys, t: Sys)
    requires Inv(s) && s.info[s.cur].state == RUNNING && SameFields(s, t) && t.threads == s.threads
             && t.blocked == s.blocked
    requires t.cur == s.cur && s.cur in t.info && t.info[s.cur].state == ZOMBIE
    requires forall p {:trigger t.info[p]} | p in Members(s) && p != s.cur ::
               p in t.info && t.info[p].state == s.info[p].state
    ensures Inv(t) && Members(t) == Members(s)
  {
    assert Members(t) == Members(s);
    PidsKept(s, t);
    WaitsKept(s, t);
  }

  /** The parent `p` moves to the thread list: no other process makes it wait. */
  lemma WokenInv(s: Sys, t: Sys, p: nat)
    requires Inv(s) && s.info[s.cur].state == RUNNING && WaitingParent(s, p) && SameFields(s, t)
    requires t.cur == s.cur && s.cur in t.info && t.info[s.cur].state == ZOMBIE
    requires forall q {:trigger t.info[q]} | q in Members(s) && q != s.cur ::
               q in t.info && t.info[q].state == s.info[q].state
    requires Distinct(t.threads) && t.threads != [] && t.threads[0] == s.threads[0]
    requires forall q :: q in t.threads <==> q in s.threads || q == p
    requires Distinct(t.blocked) && (forall q | q in t.blocked :: q in s.blocked && q != p)
    ensures Inv(t) && Members(t) <= Members(s)
  {
    assert p in Members(s) && s.cur in Members(s) && s.main in Members(s);
    assert Members(t) <= Members(s);
    PidsKept(s, t);
    assert Waited(s.info, s.cur);
    forall q, u | q in Members(t) && Waited(t.info, q) && u in t.threads
        && u in t.info ensures t.info[u].pid != t.info[q].ppid {
      assert q in Members(s) && Waited(s.info, q) && u in Members(s);
    }
  }

  /** Cutting the blocked list behind `p` and keeping `p` elsewhere loses nobody exactly when `p` is its head. */
  lemma NobodyInFront(s: Sys, t: Sys, p: nat)
    requires Distinct(s.blocked) && p in s.blocked && (forall q | q in s.threads :: q !in s.blocked)
    requires t.blocked == s.blocked[IndexOf(s.blocked, p) + 1..]
             && (forall q :: q in t.threads <==> q in s.threads || q == p)
    ensures Members(t) == Members(s) <==> s.blocked[0] == p
    ensures s.blocked[0] == p ==> t.blocked == s.blocked[1..]
    ensures p !in t.blocked
  {
    var k := IndexOf(s.blocked, p);
    DistinctSuffix(s.blocked, k + 1);
    AtOrBeforeIndex(s.blocked, p);
    if s.blocked[0] == p {
      assert s.blocked == [p] + s.blocked[1..];
      forall q ensures q in Members(t) <==> q in Members(s) {}
    } else {
      var lost := s.blocked[0];
      assert lost in s.blocked[..k + 1] && lost in s.blocked;
      assert lost in Members(s) && lost !in Members(t);
    }
  }

  lemma RequeuedIsReady(s: Sys, t: Sys, p: nat)
    requires Inv(s) && s.info[s.cur].state == RUNNING && WaitingParent(s, p) && Requeued(s.threads, s.blocked, t, p)
    ensures p in t.threads && p !in t.blocked && s.info[p].state == READY && p != s.cur && p in Members(s)
    ensures Members(t) == Members(s) <==> s.blocked[0] == p
    ensures s.blocked[0] == p ==> t.blocked == s.blocked[1..]
  {
    assert p in Members(s);
    NobodyInFront(s, t, p);
  }

  /** No lost wake-up: the exit of an awaited process always puts its blocked parent on the thread list, ready, and
      leaves the rest of that list as it was.  Every other process stays on its list, and the blocked list loses
      the parent only, exactly when the parent is at its head. */
  lemma NoLostWakeUp(s: Sys, p: nat)
    requires Inv(s) && s.info[s.cur].state == RUNNING && WaitingParent(s, p)
    ensures var t := Exit(s);
      && p in t.threads && p !in t.blocked && Remove(t.threads, p) == s.threads
      && p in t.info && t.info[p].state == READY
      && (Members(t) == Members(s) <==> s.blocked[0] == p)
      && (s.blocked[0] == p ==> t.blocked == s.blocked[1..])
  {
    ExitWithParent(s, p);
    ExitFields(s);
    RequeuedIsReady(s, Exit(s), p);
  }

  // ---------------------------------------------------------------------------
  // Runs

  datatype Call =
    | Reschedule
    | Create(pcb: nat, page: Info)
    | UserCall
    | ForkCall(pcb: nat, page: Info)
    | WaitCall(pid: nat)
    | ExitCall
    | KillCall(pid: nat)

  /** What a call needs: a running caller; no user process yet, when the first one starts; an unused PCB page
      (zeroed, for a kernel thread; without a wait flag, for a child); and a victim other than the caller. */
  ghost predicate Allowed(s: Sys, call: Call)
    requires s.cur in s.info
  {
    match call
    case Reschedule => true
    case Create(p, page) => Unused(s, p) && page.pid == 0 && page.ppid == 0 && !page.isWait
    case UserCall => s.info[s.cur].state == RUNNING && s.count == 0 && s.cur != s.main
    case ForkCall(p, page) => s.info[s.cur].state == RUNNING && Unused(s, p) && !page.isWait
    case WaitCall(pid) => s.info[s.cur].state == RUNNING
    case ExitCall => s.info[s.cur].state == RUNNING
    case KillCall(pid) => s.info[s.cur].state == RUNNING && pid != s.info[s.cur].pid
  }

  ghost function Next(s: Sys, call: Call): Sys
    requires s.cur in s.info
  {
    match call
    case Reschedule => Schedule(s)
    case Create(p, page) => CreateThread(s, p, page)
    case UserCall => StartUser(s)
    case ForkCall(p, page) => Fork(s, p, page)
    case WaitCall(pid) => WaitPid(s, pid)
    case ExitCall => Exit(s)
    case KillCall(pid) => Kill(s, pid)
  }

  /** One call keeps the invariant. */
  lemma StepKeepsInv(s: Sys, call: Call)
    requires Inv(s) && Allowed(s, call)
    ensures Inv(Next(s, call))
  {
    match call
    case Reschedule => ScheduleKeepsInv(s);
    case Create(p, page) => CreateKeepsInv(s, p, page);
    case UserCall => StartKeepsInv(s);
    case ForkCall(p, page) => ForkKeepsInv(s, p, page);
    case WaitCall(pid) => WaitKeepsInv(s, pid);
    case ExitCall => ExitKeepsInv(s);
    case KillCall(pid) => KillKeepsInv(s, pid);
  }

  /** The guard of an exit: the parent it wakes heads the blocked list. */
  ghost predicate WakesHead(s: Sys, call: Call) {
    call.ExitCall? ==> forall p | WaitingParent(s, p) :: s.blocked[0] == p
  }

  /** The call is the kill of `p`. */
  ghost predicate Kills(s: Sys, call: Call, p: nat) {
    call.KillCall? && p in s.info && s.info[p].pid == call.pid
  }

  /** The processes that are not killed all stay on the lists exactly under the guard. */
  lemma StepLosesNobody(s: Sys, call: Call)
    requires Inv(s) && Allowed(s, call)
    ensures (forall p | p in Members(s) && !Kills(s, call, p) :: p in Members(Next(s, call))) <==> WakesHead(s, call)
  {
    match call
    case Reschedule => assert Members(Schedule(s)) == Members(s);
    case Create(p, page) => CreateKeepsInv(s, p, page);
    case UserCall => StartKeepsInv(s);
    case ForkCall(p, page) => ForkKeepsInv(s, p, page);
    case WaitCall(pid) => WaitKeepsInv(s, pid);
    case ExitCall => ExitLosesNobody(s);
    case KillCall(pid) => KillKeepsInv(s, pid);
  }

  lemma ExitWakingLosesNobody(s: Sys, p: nat)
    requires Inv(s) && s.info[s.cur].state == RUNNING && WaitingParent(s, p)
    ensures (forall q | q in Members(s) :: q in Members(Exit(s))) <==> s.blocked[0] == p
  {
    NoLostWakeUp(s, p);
    ExitWakingKeepsInv(s, p);
  }

  lemma ExitLosesNobody(s: Sys)
    requires Inv(s) && s.info[s.cur].state == RUNNING
    ensures (forall p | p in Members(s) :: p in Members(Exit(s))) <==> WakesHead(s, ExitCall)
  {
    if p :| WaitingParent(s, p) {
      ExitWakingLosesNobody(s, p);
      OneWaitingParent(s, p);
    } else {
      ExitWithoutParent(s);
    }
  }

  lemma OneWaitingParent(s: Sys, p: nat)
    requires Inv(s) && WaitingParent(s, p)
    ensures forall q | WaitingParent(s, q) :: q == p
  {
    assert forall q | WaitingParent(s, q) :: q in Members(s);
  }

  ghost predicate AllowedRun(s: Sys, calls: seq<Call>)
    decreases |calls|
  {
    s.cur in s.info && (calls != [] ==> Allowed(s, calls[0]) && AllowedRun(Next(s, calls[0]), calls[1..]))
  }

  ghost function After(s: Sys, calls: seq<Call>): Sys
    requires AllowedRun(s, calls)
    decreases |calls|
  {
    if calls == [] then s else After(Next(s, calls[0]), calls[1..])
  }

  /** The lists are well formed after every run. */
  lemma {:induction false} EveryRunKeepsInv(s: Sys, calls: seq<Call>)
    requires Inv(s) && AllowedRun(s, calls)
    ensures Inv(After(s, calls))
    decreases |calls|
  {
    if calls != [] {
      StepKeepsInv(s, calls[0]);
      EveryRunKeepsInv(Next(s, calls[0]), calls[1..]);
    }
  }

  ghost predicate GuardedRun(s: Sys, calls: seq<Call>)
    requires AllowedRun(s, calls)
    decreases |calls|
  {
    calls != [] ==> WakesHead(s, calls[0]) && GuardedRun(Next(s, calls[0]), calls[1..])
  }

  /** No call of the run kills `p`. */
  ghost predicate Spared(s: Sys, calls: seq<Call>, p: nat)
    requires AllowedRun(s, calls)
    decreases |calls|
  {
    calls != [] ==> !Kills(s, calls[0], p) && Spared(Next(s, calls[0]), calls[1..], p)
  }

  /** Over every guarded run, a process that no call kills is still on a list. */
  lemma {:induction false} GuardedRunLosesNobody(s: Sys, calls: seq<Call>, p: nat)
    requires Inv(s) && AllowedRun(s, calls) && GuardedRun(s, calls)
    requires p in Members(s) && Spared(s, calls, p)
    ensures p in Members(After(s, calls))
    decreases |calls|
  {
    if calls != [] {
      StepKeepsInv(s, calls[0]);
      StepLosesNobody(s, calls[0]);
      GuardedRunLosesNobody(Next(s, calls[0]), calls[1..], p);
    }
  }

  // ---------------------------------------------------------------------------
  // Bounded waiting

  /** How many places behind the current process `p` comes, in cyclic order. */
  ghost function Distance(s: Sys, p: nat): int
    requires s.cur in s.threads && p in s.threads
  {
    var d := IndexOf(s.threads, p) - IndexOf(s.threads, s.cur);
    if d > 0 then d else d + |s.threads|
  }

  lemma {:induction false} FirstInIsFirst(info: map<nat, Info>, s: seq<nat>, st: State, k: nat)
    requires k < |s| && s[k] != 0 && s[k] in info && info[s[k]].state == st
    ensures FirstIn(info, s, st) != 0 && exists j :: 0 <= j <= k && s[j] == FirstIn(info, s, st)
  {
    if !(s[0] != 0 && s[0] in info && info[s[0]].state == st) {
      FirstInIsFirst(info, s[1..], st, k - 1);
      var j :| 0 <= j <= k - 1 && s[1..][j] == FirstIn(info, s[1..], st);
      assert s[j + 1] == FirstIn(info, s, st);
    }
  }

  /** The order in which `schedule` looks, from place `c` of the list on. */
  function SearchOrder(threads: seq<nat>, c: nat): (order: seq<nat>)
    requires c < |threads|
    ensures |threads| <= |order|
  {
    threads[c + 1..] + threads
  }

  /** The place of the `j`-th process behind place `c`. */
  lemma CyclicPlace(threads: seq<nat>, c: nat, j: nat)
    requires Distinct(threads) && c < |threads| && j < |threads|
    ensures var order := SearchOrder(threads, c);
            var i := if c + 1 + j < |threads| then c + 1 + j else c + 1 + j - |threads|;
            order[j] in threads && IndexOf(threads, order[j]) == i
  {
    var i := if c + 1 + j < |threads| then c + 1 + j else c + 1 + j - |threads|;
    AtIndex(threads, threads[i], i);
  }

  /** The process `d` places behind place `c` comes at place `d - 1` of the search. */
  lemma SearchPlace(threads: seq<nat>, c: nat, k: nat)
    requires c < |threads| && k < |threads|
    ensures var d := if k > c then k - c else k - c + |threads|;
            0 < d <= |threads| && SearchOrder(threads, c)[d - 1] == threads[k]
  {
  }

  /** The search behind place `c` finds a ready process no later than the one at place `k`. */
  lemma SearchFinds(info: map<nat, Info>, threads: seq<nat>, c: nat, k: nat) returns (j: nat)
    requires c < |threads| && k < |threads| && threads[k] != 0 && threads[k] in info && info[threads[k]].state == READY
    ensures var first := FirstIn(info, SearchOrder(threads, c), READY);
            var d := if k > c then k - c else k - c + |threads|;
            j < d <= |threads| && first != 0 && SearchOrder(threads, c)[j] == first
  {
    var order := SearchOrder(threads, c);
    var d := if k > c then k - c else k - c + |threads|;
    SearchPlace(threads, c, k);
    FirstInIsFirst(info, order, READY, d - 1);
    j :| 0 <= j <= d - 1 && order[j] == FirstIn(info, order, READY);
  }

  lemma DispatchIsFirst(s: Sys)
    requires s.cur in s.threads && s.cur in s.info && s.info[s.cur].state != BLOCKED
    ensures var first := FirstIn(s.info, SearchOrder(s.threads, IndexOf(s.threads, s.cur)), READY);
            Dispatch(s) == if first == 0 then s.main else first
  {
  }

  lemma DispatchesEarlier(s: Sys, p: nat) returns (j: nat)
    requires Inv(s) && p in s.threads && p in s.info && s.info[p].state == READY
    ensures j < Distance(s, p) <= |s.threads| && Dispatch(s) == SearchOrder(s.threads, IndexOf(s.threads, s.cur))[j]
  {
    assert p in Members(s);
    DispatchIsFirst(s);
    j := SearchFinds(s.info, s.threads, IndexOf(s.threads, s.cur), IndexOf(s.threads, p));
  }

  /** Moving from place `c` to the place `j` further on leaves `j + 1` places less to place `k`. */
  lemma CloserBy(n: nat, c: nat, k: nat, j: nat)
    requires c < n && k < n
    requires j < if k > c then k - c else k - c + n
    ensures var i := if c + 1 + j < n then c + 1 + j else c + 1 + j - n;
            i == k || (if k > i then k - i else k - i + n) == (if k > c then k - c else k - c + n) - j - 1
  {
  }

  lemma DistanceDrops(s: Sys, t: Sys, p: nat, j: nat)
    requires Distinct(s.threads) && s.cur in s.threads && p in s.threads && t.threads == s.threads
    requires j < Distance(s, p) <= |s.threads| && t.cur == SearchOrder(s.threads, IndexOf(s.threads, s.cur))[j]
    ensures t.cur in t.threads && (t.cur == p || Distance(t, p) == Distance(s, p) - j - 1)
    ensures 0 < Distance(t, p)
  {
    var c := IndexOf(s.threads, s.cur);
    CyclicPlace(s.threads, c, j);
    CloserBy(|s.threads|, c, IndexOf(s.threads, p), j);
  }

  /** One call of `schedule` dispatches a ready process or brings the dispatcher strictly closer to it. */
  lemma ScheduleComesCloser(s: Sys, p: nat)
    requires Inv(s) && p in s.threads && p in s.info && s.info[p].state == READY
    ensures var t := Schedule(s);
      && Inv(t) && t.threads == s.threads && t.cur in t.threads
      && (t.cur == p || (p in t.info && t.info[p].state == READY && 0 < Distance(t, p) < Distance(s, p)))
  {
    ScheduleKeepsInv(s);
    assert p in Members(s) && s.cur in Members(s);
    var j := DispatchesEarlier(s, p);
    DistanceDrops(s, Schedule(s), p, j);
    ScheduleInfo(s, p);
  }

  ghost function Schedules(s: Sys, n: nat): Sys
    requires Inv(s)
    ensures Inv(Schedules(s, n))
    decreases n
  {
    if n == 0 then s
    else
      ScheduleKeepsInv(s);
      Schedules(Schedule(s), n - 1)
  }

  lemma OneMore(s: Sys, n: nat)
    requires Inv(s)
    ensures Inv(Schedule(s)) && Schedules(s, n + 1) == Schedules(Schedule(s), n)
  {
    ScheduleKeepsInv(s);
  }

  /** Round robin: a ready process `d` places behind the current one is dispatched within `d` calls of `schedule`. */
  lemma {:induction false} DispatchedWithin(s: Sys, p: nat) returns (n: nat)
    requires Inv(s) && p in s.threads && p in s.info && s.info[p].state == READY
    ensures 0 < n <= Distance(s, p) && Schedules(s, n).cur == p
    decreases Distance(s, p)
  {
    var t := Schedule(s);
    ScheduleComesCloser(s, p);
    if t.cur == p {
      n := 0;
    } else {
      n := DispatchedWithin(t, p);
    }
    OneMore(s, n);
    n := n + 1;
  }
}
