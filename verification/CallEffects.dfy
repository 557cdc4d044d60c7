/**
  What each call does to the two lists and to every PCB, place by place, and who is dispatched.

  The lists are taken apart at the process concerned, so that the results name none of the
  functions that compute them.
 */
module CallEffects {
  import opened ProcessLists
  import opened ProcessRuns
  import opened Waiting
  import opened Wrappers

  // ---------------------------------------------------------------------------
  // Lists taken apart

  lemma PlaceIn(a: seq<nat>, p: nat, z: seq<nat>)
    requires Distinct(a + [p] + z)
    ensures IndexOf(a + [p] + z, p) == |a|
  {
    var s := a + [p] + z;
    assert s[|a|] == p;
    AtIndex(s, p, |a|);
  }

  lemma InsertedBehind(s: seq<nat>, a: seq<nat>, p: nat, z: seq<nat>, q: nat)
    requires s == a + [p] + z && Distinct(s)
    ensures InsertAfter(s, p, q) == a + [p, q] + z
  {
    PlaceIn(a, p, z);
    assert s[..|a| + 1] == a + [p] && s[|a| + 1..] == z;
  }

  lemma TakenOut(s: seq<nat>, a: seq<nat>, p: nat, z: seq<nat>)
    requires s == a + [p] + z && Distinct(s)
    ensures Remove(s, p) == a + z
  {
    PlaceIn(a, p, z);
    assert s[..|a|] == a && s[|a| + 1..] == z;
  }

  // ---------------------------------------------------------------------------
  // schedule

  /** How soon the search of `schedule` comes to thread `p`: behind the caller, or from the head if it has blocked. */
  ghost function Turn(s: Sys, p: nat): int
    requires p in s.threads && s.cur in s.info && (s.cur in s.threads || s.info[s.cur].state == BLOCKED)
  {
    if s.info[s.cur].state != BLOCKED then Distance(s, p) else IndexOf(s.threads, p)
  }

  /** The search from the head finds the first ready thread. */
  lemma FirstFromHead(s: Sys, p: nat)
    requires ListsOk(s) && p in s.threads && s.info[p].state == READY
    ensures var n := FirstIn(s.info, s.threads, READY);
            n != 0 && n in s.threads && s.info[n].state == READY && IndexOf(s.threads, n) <= IndexOf(s.threads, p)
  {
    assert p in Members(s);
    FirstInIsFirst(s.info, s.threads, READY, IndexOf(s.threads, p));
    var j :| 0 <= j <= IndexOf(s.threads, p) && s.threads[j] == FirstIn(s.info, s.threads, READY);
    AtIndex(s.threads, s.threads[j], j);
  }

  lemma DistanceOfPlace(s: Sys, j: nat)
    requires Distinct(s.threads) && s.cur in s.threads && j < |s.threads|
    ensures var q := SearchOrder(s.threads, IndexOf(s.threads, s.cur))[j]; q in s.threads && Distance(s, q) == j + 1
  {
    CyclicPlace(s.threads, IndexOf(s.threads, s.cur), j);
  }

  lemma DispatchIsReady(s: Sys, p: nat)
    requires Inv(s) && p in s.threads && p in s.info && s.info[p].state == READY
    ensures Dispatch(s) in s.info && s.info[Dispatch(s)].state == READY
  {
    DispatchIsFirst(s);
    var j := SearchFinds(s.info, s.threads, IndexOf(s.threads, s.cur), IndexOf(s.threads, p));
  }

  lemma NoneInFrontOfNext(s: Sys, p: nat)
    requires Inv(s) && p in s.threads && p in s.info && s.info[p].state == READY
    ensures Dispatch(s) in s.threads && Distance(s, Dispatch(s)) <= Distance(s, p)
  {
    var j := DispatchesEarlier(s, p);
    DistanceOfPlace(s, j);
  }

  /** The dispatched process, seen from a ready one. */
  lemma NoReadyInFront(s: Sys, p: nat)
    requires Dispatchable(s) && (s.cur in s.threads || s.info[s.cur].state == BLOCKED)
    requires p in s.threads && p in s.info && s.info[p].state == READY
    ensures Dispatch(s) in s.threads && Dispatch(s) in s.info && s.info[Dispatch(s)].state == READY
    ensures Turn(s, Dispatch(s)) <= Turn(s, p)
  {
    if s.info[s.cur].state == BLOCKED {
      assert [] + s.threads == s.threads;
      FirstFromHead(s, p);
    } else {
      DispatchIsReady(s, p);
      NoneInFrontOfNext(s, p);
    }
  }

  /** The next thread is the first ready one behind the caller in cyclic order, or from the head if the caller has
      blocked; the idle thread if none is ready. */
  lemma DispatchesTheFirst(s: Sys)
    requires Dispatchable(s) && (s.cur in s.threads || s.info[s.cur].state == BLOCKED)
    ensures forall p | p in s.threads && p in s.info && s.info[p].state == READY ::
              Dispatch(s) in s.threads && Dispatch(s) in s.info && s.info[Dispatch(s)].state == READY
              && Turn(s, Dispatch(s)) <= Turn(s, p)
    ensures (forall p | p in s.threads && p in s.info :: s.info[p].state != READY) ==> Dispatch(s) == s.main
  {
    forall p | p in s.threads && p in s.info && s.info[p].state == READY
      ensures Dispatch(s) in s.threads && Dispatch(s) in s.info && s.info[Dispatch(s)].state == READY
      ensures Turn(s, Dispatch(s)) <= Turn(s, p)
    {
      NoReadyInFront(s, p);
    }
    DispatchedIsThread(s);
  }

  /** `schedule` changes two states and who is current, and nothing else: the process that is left stays ready unless it
      is dead or the idle thread. */
  lemma ScheduleEffect(s: Sys, p: nat)
    requires Dispatchable(s) && p in Members(s)
    ensures var t := Schedule(s);
      && t.threads == s.threads && t.blocked == s.blocked && t.main == s.main && t.count == s.count
      && p in t.info && p in s.info
      && t.info[p] == s.info[p].(state := if p == t.cur then RUNNING
                                          else if p != s.cur then s.info[p].state
                                          else if p == s.main || s.info[p].state == ZOMBIE then ZOMBIE
                                          else READY)
  {
    ScheduleInfo(s, p);
  }

  // ---------------------------------------------------------------------------
  // create_thread, fork

  /** A new kernel thread is the last one, ready, with slice 1 and the ids that its page held. */
  lemma CreateEffect(s: Sys, p: nat, page: Info, q: nat)
    requires Inv(s) && Unused(s, p) && q in Members(s)
    ensures var t := CreateThread(s, p, page);
      && t.threads[..|s.threads|] == s.threads && t.threads[|s.threads|..] == [p] && t.blocked == s.blocked
      && t.cur == s.cur && t.main == s.main && t.count == s.count && q in t.info && t.info[q] == s.info[q]
      && p in t.info && t.info[p] == Info(page.pid, page.ppid, page.isWait, READY, 1)
  {
  }

  /** The child comes right behind its parent, ready, with a new process id and half of the slice, rounded down, which
      the parent keeps as well; nobody else notices. */
  lemma ForkEffect(s: Sys, p: nat, page: Info, a: seq<nat>, z: seq<nat>, q: nat)
    requires Inv(s) && Unused(s, p) && s.threads == a + [s.cur] + z && q in Members(s)
    ensures var t := Fork(s, p, page);
      && t.threads == a + [s.cur, p] + z && t.blocked == s.blocked && t.cur == s.cur && t.main == s.main
      && t.count == s.count + 1 && p in t.info && q in t.info
      && t.info[q].(slice := s.info[q].slice) == s.info[q]
      && (q != s.cur ==> t.info[q].slice == s.info[q].slice)
      && t.info[p] == Info(t.count, s.info[s.cur].pid, page.isWait, READY, t.info[p].slice)
      && (q == s.cur ==> t.info[q].slice == t.info[p].slice && 0 <= s.info[q].slice - 2 * t.info[p].slice <= 1)
  {
    InsertedBehind(s.threads, a, s.cur, z, p);
  }

  // ---------------------------------------------------------------------------
  // waitpid

  /** A child of the caller with that id is on the thread list. */
  ghost predicate HasChild(s: Sys, pid: nat) {
    s.cur in s.info && s.info[s.cur].pid != 0 &&
    exists q :: q in s.threads && q in s.info && s.info[q].ppid == s.info[s.cur].pid && s.info[q].pid == pid
  }

  lemma ChildIsAwaited(s: Sys, pid: nat)
    requires s.cur in s.info
    ensures HasChild(s, pid) <==> exists q :: q in s.threads && IsAwaited(s.info, q, s.info[s.cur].pid, pid)
  {
    if HasChild(s, pid) {
      var q :| q in s.threads && q in s.info && s.info[q].ppid == s.info[s.cur].pid && s.info[q].pid == pid;
      assert IsAwaited(s.info, q, s.info[s.cur].pid, pid);
    }
  }

  lemma WaitIsDispatchable(s: Sys, pid: nat)
    requires Inv(s) && s.info[s.cur].state == RUNNING
    ensures Dispatchable(Wait(s, pid))
  {
    WaitLists(s, pid);
    WaitWaits(s, pid);
    WaitStates(s, pid);
  }

  /** Waiting for an id that is no child on the thread list, be it unknown, somebody else's or already unlinked, blocks
      nobody: the lists stay, no process is marked, and the caller only gives way. */
  lemma WaitForNobody(s: Sys, pid: nat)
    requires Inv(s) && s.info[s.cur].state == RUNNING && !HasChild(s, pid)
    ensures var t := WaitPid(s, pid);
      && t.threads == s.threads && t.blocked == s.blocked && s.cur in t.info
      && t.info[s.cur].state == (if s.cur == t.cur then RUNNING else if s.cur == s.main then ZOMBIE else READY)
      && t.info[s.cur].isWait == s.info[s.cur].isWait && !Stranded(t, s.cur)
    ensures forall q | q in Members(s) ::
              q in WaitPid(s, pid).info && WaitPid(s, pid).info[q].isWait == s.info[q].isWait
  {
    var m, t := Wait(s, pid), WaitPid(s, pid);
    ChildIsAwaited(s, pid);
    WaitIsDispatchable(s, pid);
    assert s.cur in Members(s);
    forall q | q in Members(s)
      ensures q in t.info && t.info[q].isWait == s.info[q].isWait
      ensures q == s.cur ==> t.info[q].state == (if q == t.cur then RUNNING else if q == s.main then ZOMBIE else READY)
    {
      WaitedFields(s, pid, q);
      WaitInfo(s, pid, q);
      ScheduleInfo(m, q);
    }
  }

  /** Waiting for a child moves the caller from its place to the head of the blocked list and marks exactly the children
      with that id. */
  lemma WaitForChild(s: Sys, pid: nat, a: seq<nat>, z: seq<nat>)
    requires Inv(s) && s.info[s.cur].state == RUNNING && HasChild(s, pid) && s.threads == a + [s.cur] + z
    ensures var t := WaitPid(s, pid);
      && t.threads == a + z && t.blocked == [s.cur] + s.blocked && t.cur != s.cur
      && s.cur in t.info && t.info[s.cur].state == READY
    ensures forall q | q in Members(s) ::
              && q in WaitPid(s, pid).info && q in s.info
              && WaitPid(s, pid).info[q].isWait == (s.info[q].isWait ||
                  (q in s.threads && s.info[q].ppid == s.info[s.cur].pid && s.info[q].pid == pid))
  {
    var m, t := Wait(s, pid), WaitPid(s, pid);
    ChildIsAwaited(s, pid);
    WaitIsDispatchable(s, pid);
    TakenOut(s.threads, a, s.cur, z);
    DispatchedIsThread(m);
    assert s.cur in Members(s);
    forall q | q in Members(s)
      ensures q in t.info && q in s.info
      ensures t.info[q].isWait == (s.info[q].isWait || (q in s.threads && IsAwaited(s.info, q, s.info[s.cur].pid, pid)))
    {
      WaitedFields(s, pid, q);
    }
    WaitInfo(s, pid, s.cur);
    WaitInfo(s, pid, s.main);
    RemoveFacts(s.threads, s.cur);
    ScheduleInfo(m, s.cur);
  }

  // ---------------------------------------------------------------------------
  // exit

  /** `p` is the first thread that is a live sibling of the caller, which comes after the threads `a`. */
  ghost predicate FirstSibling(s: Sys, a: seq<nat>, p: nat) {
    s.cur in s.info && IsSibling(s, p) && forall q | q in a :: !IsSibling(s, q)
  }

  ghost predicate IsSibling(s: Sys, p: nat)
    requires s.cur in s.info
  {
    p != s.cur && p in s.info && s.info[p].state != ZOMBIE && s.info[p].ppid == s.info[s.cur].ppid
  }

  lemma {:induction false} SiblingBehind(info: map<nat, Info>, a: seq<nat>, p: nat, z: seq<nat>, cur: nat)
    requires cur in info && p != 0 && p != cur && p in info && info[p].state != ZOMBIE && info[p].ppid == info[cur].ppid
    requires forall q | q in a ::
               !(q != 0 && q in info && q != cur && info[q].state != ZOMBIE && info[q].ppid == info[cur].ppid)
    ensures Sibling(info, a + [p] + z, cur) == p
  {
    if a == [] {
      assert ([] + [p] + z)[0] == p;
    } else {
      assert a[0] in a && (a + [p] + z)[1..] == a[1..] + [p] + z && (a + [p] + z)[0] == a[0];
      SiblingBehind(info, a[1..], p, z, cur);
    }
  }

  lemma {:induction false} NoSibling(info: map<nat, Info>, s: seq<nat>, cur: nat)
    requires cur in info
    requires forall q | q in s ::
               !(q != 0 && q in info && q != cur && info[q].state != ZOMBIE && info[q].ppid == info[cur].ppid)
    ensures Sibling(info, s, cur) == 0
  {
    if s != [] {
      NoSibling(info, s[1..], cur);
    }
  }

  /** Exiting changes the PCBs of the caller, which is dead, and of its parent, which gets its slice. */
  lemma ExitEffect(s: Sys, p: nat)
    requires Inv(s) && p in Members(s)
    ensures var t := Exit(s);
      && t.cur == s.cur && t.main == s.main && t.count == s.count && p in t.info && p in s.info
      && t.info[p].(slice := s.info[p].slice) == s.info[p].(state := if p == s.cur then ZOMBIE else s.info[p].state)
  {
    ExitInfo(s, p);
  }

  /** Unless somebody waits for the caller, the lists stay. */
  lemma ExitUnawaited(s: Sys)
    requires Inv(s) && s.info[s.cur].state == RUNNING && forall p :: !WaitingParent(s, p)
    ensures Exit(s).threads == s.threads && Exit(s).blocked == s.blocked
  {
    ExitWithoutParent(s);
  }

  /** The place behind which the parent is put. */
  lemma WokenBehind(s: Sys, p: nat, place: nat)
    requires Inv(s) && s.info[s.cur].state == RUNNING && WaitingParent(s, p)
    requires s.cur in Exited(s) && place == WakeAfter(Exited(s), s.threads, s.cur)
    ensures Exit(s).threads == InsertAfter(s.threads, place, p)
    ensures Exit(s).blocked == s.blocked[IndexOf(s.blocked, p) + 1..]
  {
    ExitPlace(s, p);
    ExitIsWake(s, p);
    assert p != 0 by {
      assert p in Members(s);
    }
  }

  lemma ExitedSiblings(s: Sys, q: nat)
    requires Inv(s) && q in s.threads
    ensures s.cur in Exited(s) && q in Exited(s) && q != 0 && s.cur in s.info
    ensures IsSibling(s, q) <==>
            q != s.cur && Exited(s)[q].state != ZOMBIE && Exited(s)[q].ppid == Exited(s)[s.cur].ppid
  {
    assert q in Members(s) && s.cur in Members(s);
    ExitInfo(s, q);
    ExitInfo(s, s.cur);
  }

  lemma PlaceOfSibling(s: Sys, p: nat, a: seq<nat>, q: nat, z: seq<nat>)
    requires Inv(s) && s.info[s.cur].state == RUNNING && WaitingParent(s, p)
    requires s.threads == a + [q] + z && FirstSibling(s, a, q)
    ensures s.cur in Exited(s) && WakeAfter(Exited(s), s.threads, s.cur) == q
  {
    forall x | x in a + [q] ensures x in s.threads {
    }
    assert q in a + [q];
    ExitedSiblings(s, q);
    forall x | x in a
      ensures !(x != 0 && x in Exited(s) && x != s.cur && Exited(s)[x].state != ZOMBIE
                && Exited(s)[x].ppid == Exited(s)[s.cur].ppid)
    {
      assert x in a + [q];
      ExitedSiblings(s, x);
    }
    SiblingBehind(Exited(s), a, q, z, s.cur);
    ExitPlace(s, p);
  }

  lemma PlaceOfCaller(s: Sys, p: nat)
    requires Inv(s) && s.info[s.cur].state == RUNNING && WaitingParent(s, p)
    requires forall q | q in s.threads :: !IsSibling(s, q)
    ensures s.cur in Exited(s) && WakeAfter(Exited(s), s.threads, s.cur) == s.cur
  {
    ExitedSiblings(s, s.cur);
    forall x | x in s.threads
      ensures !(x != 0 && x in Exited(s) && x != s.cur && Exited(s)[x].state != ZOMBIE
                && Exited(s)[x].ppid == Exited(s)[s.cur].ppid)
    {
      ExitedSiblings(s, x);
    }
    NoSibling(Exited(s), s.threads, s.cur);
    ExitPlace(s, p);
  }

  lemma CutBehind(s: seq<nat>, u: seq<nat>, p: nat, v: seq<nat>)
    requires s == u + [p] + v && Distinct(s)
    ensures s[IndexOf(s, p) + 1..] == v
  {
    PlaceIn(u, p, v);
  }

  /** The exit of an awaited process puts its parent right behind its first live sibling, and drops the parent and
      everybody in front of it from the blocked list. */
  lemma ExitBehindSibling(s: Sys, p: nat, a: seq<nat>, q: nat, z: seq<nat>, u: seq<nat>, v: seq<nat>)
    requires Inv(s) && s.info[s.cur].state == RUNNING && WaitingParent(s, p) && s.blocked == u + [p] + v
    requires s.threads == a + [q] + z && FirstSibling(s, a, q)
    ensures Exit(s).threads == a + [q, p] + z && Exit(s).blocked == v
  {
    PlaceOfSibling(s, p, a, q, z);
    WokenBehind(s, p, q);
    InsertedBehind(s.threads, a, q, z, p);
    CutBehind(s.blocked, u, p, v);
  }

  /** Without a live sibling, right behind the dead process itself. */
  lemma ExitBehindCaller(s: Sys, p: nat, a: seq<nat>, z: seq<nat>, u: seq<nat>, v: seq<nat>)
    requires Inv(s) && s.info[s.cur].state == RUNNING && WaitingParent(s, p) && s.blocked == u + [p] + v
    requires s.threads == a + [s.cur] + z && forall q | q in s.threads :: !IsSibling(s, q)
    ensures Exit(s).threads == a + [s.cur, p] + z && Exit(s).blocked == v
  {
    PlaceOfCaller(s, p);
    WokenBehind(s, p, s.cur);
    InsertedBehind(s.threads, a, s.cur, z, p);
    CutBehind(s.blocked, u, p, v);
  }

  // ---------------------------------------------------------------------------
  // kill

  ghost predicate NoneWithPid(s: Sys, list: seq<nat>, pid: nat) {
    forall q | q in list && q in s.info :: s.info[q].pid != pid
  }

  lemma {:induction false} FirstWithPid(info: map<nat, Info>, a: seq<nat>, p: nat, z: seq<nat>, pid: nat)
    requires p != 0 && p in info && info[p].pid == pid && forall q | q in a && q in info :: info[q].pid != pid
    ensures FindPid(info, a + [p] + z, pid) == p
  {
    if a == [] {
      assert ([] + [p] + z)[0] == p;
    } else {
      assert a[0] in a && (a + [p] + z)[1..] == a[1..] + [p] + z && (a + [p] + z)[0] == a[0];
      FirstWithPid(info, a[1..], p, z, pid);
    }
  }

  lemma {:induction false} NobodyWithPid(info: map<nat, Info>, s: seq<nat>, pid: nat)
    requires forall q | q in s && q in info :: info[q].pid != pid
    ensures FindPid(info, s, pid) == 0
  {
    if s != [] {
      NobodyWithPid(info, s[1..], pid);
    }
  }

  /** `sys_kill` takes the first thread with that id off its list, unless it heads it. */
  lemma KillThreadEffect(s: Sys, pid: nat, a: seq<nat>, p: nat, z: seq<nat>)
    requires Inv(s) && s.threads == a + [p] + z && p in s.info && s.info[p].pid == pid && NoneWithPid(s, a, pid)
    ensures Kill(s, pid) == if a == [] then s else s.(threads := a + z)
  {
    assert p in [p] && p in s.threads && p in Members(s);
    FirstWithPid(s.info, a, p, z, pid);
    PlaceIn(a, p, z);
    TakenOut(s.threads, a, p, z);
  }

  /** If there is no such thread, the first blocked process with that id leaves the blocked list. */
  lemma KillBlockedEffect(s: Sys, pid: nat, u: seq<nat>, p: nat, v: seq<nat>)
    requires Inv(s) && NoneWithPid(s, s.threads, pid)
    requires s.blocked == u + [p] + v && p in s.info && s.info[p].pid == pid && NoneWithPid(s, u, pid)
    ensures Kill(s, pid) == s.(blocked := u + v)
  {
    assert p in [p] && p in s.blocked && p in Members(s);
    NobodyWithPid(s.info, s.threads, pid);
    FirstWithPid(s.info, u, p, v, pid);
    TakenOut(s.blocked, u, p, v);
  }

  /** And without a process of that id nothing happens. */
  lemma KillNobodyEffect(s: Sys, pid: nat)
    requires NoneWithPid(s, s.threads, pid) && NoneWithPid(s, s.blocked, pid)
    ensures Kill(s, pid) == s
  {
    NobodyWithPid(s.info, s.threads, pid);
    NobodyWithPid(s.info, s.blocked, pid);
  }

  // ---------------------------------------------------------------------------
  // user_process

  /** The first user process gets id 1, no parent and the whole slice. */
  lemma StartEffect(s: Sys, p: nat)
    requires Inv(s) && p in Members(s)
    ensures var t := StartUser(s);
      && t == s.(info := t.info, count := 1) && p in t.info && p in s.info
      && t.info[p] == if p == s.cur then Info(1, 0, s.info[p].isWait, s.info[p].state, 8) else s.info[p]
  {
  }
}
