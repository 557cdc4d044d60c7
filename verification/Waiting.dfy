/**
  Who can never be woken: a parent that waits for a child already dead, or whose awaited child is
  killed, stays off the thread list in every run.
 */
module Waiting {
  import opened ProcessLists
  import opened ProcessRuns

  /** An awaited live child of `p`. */
  ghost predicate Wakes(s: Sys, q: nat, p: nat) {
    p in s.info && q in Members(s) && Waited(s.info, q) && s.info[q].ppid == s.info[p].pid
  }

  /** `p` is on neither list, or blocked without an awaited live child. */
  ghost predicate Stranded(s: Sys, p: nat) {
    p !in s.threads && (p in s.blocked ==> forall q :: !Wakes(s, q, p))
  }

  /** The call takes the page of `p` for a new PCB. */
  predicate Reuses(call: Call, p: nat) {
    (call.Create? || call.ForkCall?) && call.pcb == p
  }

  predicate ReusesInRun(calls: seq<Call>, p: nat) {
    exists i :: 0 <= i < |calls| && Reuses(calls[i], p)
  }

  // ---------------------------------------------------------------------------
  // One call

  /** Nobody new is awaited by `p`, and nobody joins the blocked list. */
  ghost predicate NoNewHope(s: Sys, t: Sys, p: nat) {
    && p !in t.threads && (p in t.blocked ==> p in s.blocked)
    && (p in t.blocked ==> forall q | Wakes(t, q, p) :: Wakes(s, q, p))
  }

  lemma StillStranded(s: Sys, t: Sys, p: nat)
    requires Stranded(s, p) && NoNewHope(s, t, p)
    ensures Stranded(t, p)
  {
  }

  lemma ScheduleLeavesStranded(s: Sys, p: nat)
    requires Dispatchable(s) && Stranded(s, p)
    ensures Stranded(Schedule(s), p)
  {
    var t := Schedule(s);
    ScheduleKeepsInv(s);
    ScheduleKeepsStates(s);
    assert Members(t) == Members(s);
    if p in t.blocked {
      assert p in Members(s);
      ScheduleInfo(s, p);
      forall q | Wakes(t, q, p) ensures Wakes(s, q, p) {
        ScheduleInfo(s, q);
      }
    }
    StillStranded(s, t, p);
  }

  lemma AddLeavesStranded(s: Sys, t: Sys, c: nat, p: nat)
    requires Inv(s) && Added(s, t, c) && Stranded(s, p) && c != p
    ensures Stranded(t, p)
  {
    AddedMembers(s, t, c);
    if p in t.blocked {
      assert p in Members(s);
      forall q | Wakes(t, q, p) ensures Wakes(s, q, p) {
        assert q != c && q in Members(s);
      }
    }
    StillStranded(s, t, p);
  }

  lemma StartLeavesStranded(s: Sys, p: nat)
    requires Inv(s) && s.count == 0 && s.cur != s.main && Stranded(s, p)
    ensures Stranded(StartUser(s), p)
  {
    if p in s.blocked {
      assert p in Members(s);
      StartInfo(s, p);
    }
  }

  lemma WaitLeavesStranded(s: Sys, pid: nat, p: nat)
    requires Inv(s) && s.info[s.cur].state == RUNNING && Stranded(s, p)
    ensures Stranded(WaitPid(s, pid), p)
  {
    var m := Wait(s, pid);
    WaitLists(s, pid);
    WaitWaits(s, pid);
    WaitStates(s, pid);
    assert s.cur in Members(s) && p != s.cur;
    if p in m.blocked {
      assert p in s.blocked && p in Members(s);
      WaitInfo(s, pid, p);
      forall q | Wakes(m, q, p) ensures Wakes(s, q, p) {
        WaitInfo(s, pid, q);
      }
    }
    StillStranded(s, m, p);
    ScheduleLeavesStranded(m, p);
  }

  lemma ExitLeavesStranded(s: Sys, p: nat)
    requires Inv(s) && s.info[s.cur].state == RUNNING && Stranded(s, p)
    ensures Stranded(Exit(s), p)
  {
    var t := Exit(s);
    ExitFields(s);
    assert s.cur in Members(s);
    if q :| WaitingParent(s, q) {
      assert Wakes(s, s.cur, q) by {
        assert Waited(s.info, s.cur);
      }
      assert q != p;
      ExitWakingKeepsInv(s, q);
      ExitWithParent(s, q);
      DistinctSuffix(s.blocked, IndexOf(s.blocked, q) + 1);
    } else {
      ExitWithoutParent(s);
      ExitKeepsInv(s);
    }
    if p in t.blocked {
      assert p in Members(s);
      forall q | Wakes(t, q, p) ensures Wakes(s, q, p) {
        assert q in Members(s);
      }
    }
    StillStranded(s, t, p);
  }

  lemma KillLeavesStranded(s: Sys, pid: nat, p: nat)
    requires Inv(s) && pid != s.info[s.cur].pid && Stranded(s, p)
    ensures Stranded(Kill(s, pid), p)
  {
    var t := Kill(s, pid);
    KillKeepsInv(s, pid);
    KillLists(s, pid);
    assert forall q | Wakes(t, q, p) :: Wakes(s, q, p);
    StillStranded(s, t, p);
  }

  lemma KillLists(s: Sys, pid: nat)
    requires Inv(s)
    ensures Kill(s, pid).info == s.info
    ensures forall p | p in Kill(s, pid).threads :: p in s.threads
    ensures forall p | p in Kill(s, pid).blocked :: p in s.blocked
  {
    var p, q := FindPid(s.info, s.threads, pid), FindPid(s.info, s.blocked, pid);
    if p != 0 {
      RemoveFacts(s.threads, p);
    } else if q != 0 {
      RemoveFacts(s.blocked, q);
    }
  }

  /** No call brings a stranded process back, unless it makes a new process of its page. */
  lemma StepLeavesStranded(s: Sys, call: Call, p: nat)
    requires Inv(s) && Allowed(s, call) && Stranded(s, p) && !Reuses(call, p)
    ensures Stranded(Next(s, call), p)
  {
    match call
    case Reschedule => ScheduleLeavesStranded(s, p);
    case Create(c, page) =>
      CreateAdds(s, c, page);
      AddLeavesStranded(s, CreateThread(s, c, page), c, p);
    case UserCall => StartLeavesStranded(s, p);
    case ForkCall(c, page) =>
      ForkAdds(s, c, page);
      AddLeavesStranded(s, Fork(s, c, page), c, p);
    case WaitCall(pid) => WaitLeavesStranded(s, pid, p);
    case ExitCall => ExitLeavesStranded(s, p);
    case KillCall(pid) => KillLeavesStranded(s, pid, p);
  }

  /** A stranded process is never ready again, over every run that does not reuse its page. */
  lemma {:induction false} StrandedForGood(s: Sys, calls: seq<Call>, p: nat)
    requires Inv(s) && AllowedRun(s, calls) && Stranded(s, p) && !ReusesInRun(calls, p)
    ensures p !in After(s, calls).threads && Stranded(After(s, calls), p)
    decreases |calls|
  {
    if calls != [] {
      assert !Reuses(calls[0], p);
      assert forall i | 0 <= i < |calls[1..]| :: calls[1..][i] == calls[i + 1];
      StepKeepsInv(s, calls[0]);
      StepLeavesStranded(s, calls[0], p);
      StrandedForGood(Next(s, calls[0]), calls[1..], p);
    }
  }

  // ---------------------------------------------------------------------------
  // Waiting for a child

  /** The caller of `sys_waitpid` and the child it names. */
  ghost predicate WaitsFor(s: Sys, pid: nat, child: nat) {
    && Inv(s) && s.info[s.cur].state == RUNNING && s.info[s.cur].pid != 0
    && child in s.threads && child in s.info && IsAwaited(s.info, child, s.info[s.cur].pid, pid)
  }

  /** After the call the caller is blocked, and the child, if it is alive, is a ready thread that will wake it. */
  lemma AfterWait(s: Sys, pid: nat, child: nat)
    requires WaitsFor(s, pid, child)
    ensures var t := WaitPid(s, pid);
      && Inv(t) && s.cur !in t.threads && s.cur in t.blocked && child != s.cur && child in t.threads
      && (forall q | Wakes(t, q, s.cur) :: q == child && s.info[child].state != ZOMBIE)
      && (s.info[child].state != ZOMBIE ==> Wakes(t, child, s.cur))
  {
    var m, t := Wait(s, pid), WaitPid(s, pid);
    assert s.cur in Members(s) && child in Members(s);
    WaitLists(s, pid);
    WaitWaits(s, pid);
    WaitStates(s, pid);
    ScheduleKeepsInv(m);
    ScheduleKeepsStates(m);
    assert m.threads == Remove(s.threads, s.cur);
    RemoveFacts(s.threads, s.cur);
    WaitedFields(s, pid, s.cur);
    WaitedFields(s, pid, child);
    forall q | Wakes(t, q, s.cur) ensures q == child && s.info[child].state != ZOMBIE {
      WaitedFields(s, pid, q);
    }
  }

  /** A process through the whole of `sys_waitpid`: only `mainthread` is dispatched out of the zombie state. */
  lemma WaitedFields(s: Sys, pid: nat, p: nat)
    requires Inv(s) && s.info[s.cur].state == RUNNING && p in Members(s)
    ensures var t := WaitPid(s, pid);
      && p in t.info && t.info[p].pid == s.info[p].pid && t.info[p].ppid == s.info[p].ppid
      && t.info[p].isWait == (s.info[p].isWait || (p in s.threads && IsAwaited(s.info, p, s.info[s.cur].pid, pid)))
      && (p != s.cur && p != s.main ==> (t.info[p].state == ZOMBIE <==> s.info[p].state == ZOMBIE))
  {
    var m := Wait(s, pid);
    WaitLists(s, pid);
    WaitWaits(s, pid);
    WaitStates(s, pid);
    WaitInfo(s, pid, p);
    ScheduleInfo(m, p);
    DispatchedIsThread(m);
    assert m.main in Members(m);
  }

  lemma WaitDispatches(s: Sys, pid: nat)
    requires Inv(s) && s.info[s.cur].state == RUNNING
    ensures var t := WaitPid(s, pid); t.cur in t.info && t.info[t.cur].state == RUNNING
  {
    var m := Wait(s, pid);
    WaitLists(s, pid);
    WaitWaits(s, pid);
    WaitStates(s, pid);
    ScheduleKeepsInv(m);
  }

  /** The caller of `sys_waitpid` is stranded exactly when the child was already dead. */
  lemma WaitForZombieStrands(s: Sys, pid: nat, child: nat)
    requires WaitsFor(s, pid, child)
    ensures Inv(WaitPid(s, pid))
    ensures Stranded(WaitPid(s, pid), s.cur) <==> s.info[child].state == ZOMBIE
  {
    AfterWait(s, pid, child);
  }

  // ---------------------------------------------------------------------------
  // The other direction: a live child can wake its parent

  /** Some call of the run makes `p` ready again, and none takes its page. */
  ghost predicate Revives(s: Sys, calls: seq<Call>, p: nat) {
    AllowedRun(s, calls) && !ReusesInRun(calls, p) && p in After(s, calls).threads
  }

  lemma OneCallFirst(s: Sys, call: Call, calls: seq<Call>, p: nat)
    requires s.cur in s.info && Allowed(s, call) && !Reuses(call, p) && Revives(Next(s, call), calls, p)
    ensures Revives(s, [call] + calls, p)
  {
    var run := [call] + calls;
    assert run[0] == call && run[1..] == calls;
    forall i | 0 <= i < |run| ensures !Reuses(run[i], p) {
      assert i > 0 ==> run[i] == calls[i - 1];
    }
  }

  lemma OneTurn(s: Sys, q: nat, p: nat)
    requires Inv(s) && p in s.blocked && Wakes(s, q, p)
    ensures Inv(Schedule(s)) && p in Schedule(s).blocked && Wakes(Schedule(s), q, p)
  {
    ScheduleKeepsInv(s);
    assert p in Members(s) && Members(Schedule(s)) == Members(s);
    ScheduleInfo(s, p);
    ScheduleInfo(s, q);
  }

  /** A live child wakes its blocked parent: after enough turns the child runs, and then its exit. */
  lemma {:induction false} ChildWakesParent(s: Sys, q: nat, p: nat) returns (calls: seq<Call>)
    requires Inv(s) && s.info[s.cur].state == RUNNING
    requires p in s.blocked && q in s.threads && Wakes(s, q, p)
    ensures Revives(s, calls, p)
    decreases if q == s.cur then 0 else Distance(s, q)
  {
    if q == s.cur {
      ExitWakes(s, p);
      calls := OneCall(s, ExitCall, p);
    } else {
      TurnBringsCloser(s, q, p);
      calls := ChildWakesParent(Schedule(s), q, p);
      OneCallFirst(s, Reschedule, calls, p);
      calls := [Reschedule] + calls;
    }
  }

  lemma TurnBringsCloser(s: Sys, q: nat, p: nat)
    requires Inv(s) && q in s.threads && q != s.cur && p in s.blocked && Wakes(s, q, p)
    ensures var t := Schedule(s);
      && Inv(t) && t.info[t.cur].state == RUNNING && p in t.blocked && q in t.threads && Wakes(t, q, p)
      && 0 < Distance(s, q) && (t.cur == q || 0 < Distance(t, q) < Distance(s, q))
  {
    AwaitedIsReady(s, q);
    ScheduleKeepsInv(s);
    ScheduleComesCloser(s, q);
    OneTurn(s, q, p);
  }

  lemma AwaitedIsReady(s: Sys, q: nat)
    requires Inv(s) && q in s.threads && Live(s.info, q) && q != s.cur
    ensures s.info[q].state == READY && 0 < Distance(s, q)
  {
    assert q in Members(s);
    SearchPlace(s.threads, IndexOf(s.threads, s.cur), IndexOf(s.threads, q));
  }

  lemma ExitWakes(s: Sys, p: nat)
    requires Inv(s) && s.info[s.cur].state == RUNNING && p in s.blocked && Wakes(s, s.cur, p)
    ensures p in Exit(s).threads && Exit(s).cur in Exit(s).info
  {
    assert p in Members(s);
    assert WaitingParent(s, p);
    NoLostWakeUp(s, p);
    ExitKeepsInv(s);
  }

  lemma OneCall(s: Sys, call: Call, p: nat) returns (calls: seq<Call>)
    requires s.cur in s.info && Allowed(s, call) && !Reuses(call, p)
    requires p in Next(s, call).threads && Next(s, call).cur in Next(s, call).info
    ensures Revives(s, calls, p)
  {
    assert Revives(Next(s, call), [], p);
    OneCallFirst(s, call, [], p);
    calls := [call] + [];
  }

  /** Waiting for a child can end exactly when the child is alive: then some run wakes the caller; else no run that does
      not reuse its page makes it ready again. */
  lemma WaitCanEnd(s: Sys, pid: nat, child: nat)
    requires WaitsFor(s, pid, child)
    ensures Inv(WaitPid(s, pid))
    ensures (exists calls :: Revives(WaitPid(s, pid), calls, s.cur)) <==> s.info[child].state != ZOMBIE
  {
    var t := WaitPid(s, pid);
    AfterWait(s, pid, child);
    if s.info[child].state != ZOMBIE {
      WaitDispatches(s, pid);
      var calls := ChildWakesParent(t, child, s.cur);
      assert Revives(t, calls, s.cur);
    } else {
      forall calls | Revives(t, calls, s.cur) ensures false {
        StrandedForGood(t, calls, s.cur);
      }
    }
  }

  // ---------------------------------------------------------------------------
  // Killing an awaited child

  /** Some other process than those with id `pid` will wake `p`. */
  ghost predicate OtherHope(s: Sys, pid: nat, p: nat) {
    exists q :: Wakes(s, q, p) && s.info[q].pid != pid
  }

  lemma KillRemoves(s: Sys, pid: nat, q: nat)
    requires Inv(s) && q in Members(s) && s.info[q].pid == pid && pid != 0 && pid != s.info[s.cur].pid
    ensures Members(Kill(s, pid)) == Members(s) - {q}
  {
    var p, b := FindPid(s.info, s.threads, pid), FindPid(s.info, s.blocked, pid);
    if q in s.threads {
      FindPidFinds(s.info, s.threads, pid, q);
      OnePid(s, q, p);
      NotFirst(s, q);
      KillThreadKeepsInv(s, q);
    } else {
      FindPidFinds(s.info, s.blocked, pid, q);
      assert p != 0 ==> p == q by {
        assert p != 0 ==> p in Members(s);
      }
      OnePid(s, q, b);
      KillBlockedKeepsInv(s, q);
    }
  }

  lemma OnePid(s: Sys, q: nat, p: nat)
    requires Inv(s) && q in Members(s) && p in s.threads + s.blocked && s.info[q].pid != 0
    requires p in s.info && s.info[p].pid == s.info[q].pid
    ensures p == q
  {
    assert p in Members(s);
  }

  lemma NotFirst(s: Sys, q: nat)
    requires Inv(s) && q in s.threads && s.info[q].pid != 0
    ensures IndexOf(s.threads, q) != 0
  {
  }

  /** `sys_kill` strands a blocked parent exactly when the victim is the only process that would wake it: the parent
      stays blocked, and no later exit looks for it. */
  lemma KillStrands(s: Sys, pid: nat, p: nat)
    requires Inv(s) && p in s.blocked && pid != s.info[s.cur].pid && pid != s.info[p].pid
    ensures Inv(Kill(s, pid)) && p in Kill(s, pid).blocked
    ensures Stranded(Kill(s, pid), p) <==> !OtherHope(s, pid, p)
  {
    var t := Kill(s, pid);
    KillKeepsInv(s, pid);
    KillLists(s, pid);
    BlockedStays(s, pid, p);
    forall q ensures Wakes(t, q, p) <==> Wakes(s, q, p) && s.info[q].pid != pid {
      if q in Members(s) && s.info[q].pid == pid && pid != 0 {
        KillRemoves(s, pid, q);
      }
    }
  }

  lemma BlockedStays(s: Sys, pid: nat, p: nat)
    requires Inv(s) && p in s.blocked && pid != s.info[s.cur].pid && pid != s.info[p].pid
    ensures p in Kill(s, pid).blocked && p !in Kill(s, pid).threads && p in s.info
  {
    assert p in Members(s);
    KillKeepsInv(s, pid);
    KillLists(s, pid);
    assert p in Members(Kill(s, pid));
  }
}
