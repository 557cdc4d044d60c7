/**
  Runs from boot in which the kernel loses a process or blocks one for good.
 */
module LostProcesses {
  import opened ProcessLists
  import opened ProcessRuns
  import opened Waiting

  /** The calls are allowed in `s` and lead to `t`. */
  ghost predicate Leads(s: Sys, calls: seq<Call>, t: Sys) {
    AllowedRun(s, calls) && After(s, calls) == t
  }

  ghost predicate OneCallLeads(s: Sys, call: Call, t: Sys) {
    s.cur in s.info && Allowed(s, call) && Next(s, call) == t
  }

  lemma CallLeads(s: Sys, call: Call, m: Sys, calls: seq<Call>, t: Sys)
    requires OneCallLeads(s, call, m) && Leads(m, calls, t)
    ensures Leads(s, [call] + calls, t)
  {
    assert ([call] + calls)[1..] == calls;
  }

  lemma ThreeThen(c1: Call, c2: Call, c3: Call, calls: seq<Call>)
    ensures [c1] + ([c2] + ([c3] + calls)) == [c1, c2, c3] + calls
  {
  }

  lemma ThreeCallsLead(s: Sys, c1: Call, m1: Sys, c2: Call, m2: Sys, c3: Call, m3: Sys, calls: seq<Call>, t: Sys)
    requires OneCallLeads(s, c1, m1) && OneCallLeads(m1, c2, m2) && OneCallLeads(m2, c3, m3) && Leads(m3, calls, t)
    ensures Leads(s, [c1, c2, c3] + calls, t)
  {
    ThreeThen(c1, c2, c3, calls);
    CallLeads(m2, c3, m3, calls, t);
    CallLeads(m1, c2, m2, [c3] + calls, t);
    CallLeads(s, c1, m1, [c2] + ([c3] + calls), t);
  }

  // ---------------------------------------------------------------------------
  // A parent with one child

  /** A zeroed PCB page. */
  const PAGE := Info(0, 0, false, RUNNING, 0)

  /** The idle thread, once it has given way. */
  const IDLE := Info(0, 0, false, ZOMBIE, 1)

  /** Process 2 is the first user process, and 3 is its child. */
  const PARENT :=
    Sys([1, 2, 3], [], 2, 1, map[1 := IDLE, 2 := Info(1, 0, false, RUNNING, 4), 3 := Info(2, 1, false, READY, 4)], 2)

  /** A second thread, which is dispatched and becomes the first user process. */
  const TWO_THREADS :=
    Sys([1, 2], [], 1, 1, map[1 := Info(0, 0, false, RUNNING, 1), 2 := Info(0, 0, false, READY, 1)], 0)

  const SECOND_RUNS := Sys([1, 2], [], 2, 1, map[1 := IDLE, 2 := Info(0, 0, false, RUNNING, 1)], 0)

  const USER := Sys([1, 2], [], 2, 1, map[1 := IDLE, 2 := Info(1, 0, false, RUNNING, 8)], 1)

  lemma SecondThread()
    ensures OneCallLeads(Boot(1), Create(2, PAGE), TWO_THREADS)
  {
  }

  lemma SecondIsDispatched()
    ensures Dispatch(TWO_THREADS) == 2
  {
    assert BehindCurrent(TWO_THREADS) == [2];
  }

  lemma SecondRuns()
    ensures OneCallLeads(TWO_THREADS, Reschedule, SECOND_RUNS)
  {
    SecondIsDispatched();
  }

  lemma FirstUser()
    ensures OneCallLeads(SECOND_RUNS, UserCall, USER)
  {
  }

  lemma UserForks()
    ensures OneCallLeads(USER, ForkCall(3, PAGE), PARENT)
  {
    assert IndexOf(USER.threads, 2) == 1;
  }

  lemma FromBoot(calls: seq<Call>, t: Sys)
    requires Leads(PARENT, calls, t)
    ensures Leads(Boot(1), [Create(2, PAGE), Reschedule, UserCall] + ([ForkCall(3, PAGE)] + calls), t)
  {
    UserForks();
    CallLeads(USER, ForkCall(3, PAGE), PARENT, calls, t);
    SecondThread();
    SecondRuns();
    FirstUser();
    ThreeCallsLead(Boot(1), Create(2, PAGE), TWO_THREADS, Reschedule, SECOND_RUNS, UserCall, USER,
      [ForkCall(3, PAGE)] + calls, t);
  }

  // ---------------------------------------------------------------------------
  // Waiting for a dead child

  const CHILD_RUNS :=
    Sys([1, 2, 3], [], 3, 1, map[1 := IDLE, 2 := Info(1, 0, false, READY, 4), 3 := Info(2, 1, false, RUNNING, 4)], 2)

  const CHILD_DIES :=
    Sys([1, 2, 3], [], 3, 1, map[1 := IDLE, 2 := Info(1, 0, false, READY, 8), 3 := Info(2, 1, false, ZOMBIE, 4)], 2)

  /** The child is dead, and the parent runs again. */
  const CHILD_DEAD :=
    Sys([1, 2, 3], [], 2, 1, map[1 := IDLE, 2 := Info(1, 0, false, RUNNING, 8), 3 := Info(2, 1, false, ZOMBIE, 4)], 2)

  lemma ChildIsNext()
    ensures Dispatch(PARENT) == 3
  {
    assert BehindCurrent(PARENT) == [3];
  }

  lemma ParentGivesWay()
    ensures OneCallLeads(PARENT, Reschedule, CHILD_RUNS)
  {
    ChildIsNext();
  }

  lemma SliceGoesToParent()
    ensures Exited(CHILD_RUNS) == CHILD_DIES.info
  {
    var info := SetState(CHILD_RUNS.info, 3, ZOMBIE);
    assert CHILD_RUNS.threads + CHILD_RUNS.blocked == [1, 2, 3] && [1, 2, 3][1..] == [2, 3] && [2, 3][1..] == [3];
    assert Inherit(info, [1, 2, 3], 3) == Inherit(info, [2, 3], 3);
    assert info[2 := Info(1, 0, false, READY, 8)] == CHILD_DIES.info;
    assert Inherit(info, [2, 3], 3) == Inherit(CHILD_DIES.info, [3], 3);
    assert Inherit(CHILD_DIES.info, [3], 3) == CHILD_DIES.info;
  }

  lemma ChildExits()
    ensures OneCallLeads(CHILD_RUNS, ExitCall, CHILD_DIES)
  {
    SliceGoesToParent();
  }

  lemma ParentIsNext()
    ensures Dispatch(CHILD_DIES) == 2
  {
    assert BehindCurrent(CHILD_DIES) + CHILD_DIES.threads == [1, 2, 3] && [1, 2, 3][1..] == [2, 3];
    assert FirstIn(CHILD_DIES.info, [2, 3], READY) == 2;
  }

  lemma ParentReturns()
    ensures OneCallLeads(CHILD_DIES, Reschedule, CHILD_DEAD)
  {
    ParentIsNext();
  }

  lemma ToDeadChild()
    ensures Leads(PARENT, [Reschedule, ExitCall, Reschedule], CHILD_DEAD)
  {
    ParentReturns();
    CallLeads(CHILD_DIES, Reschedule, CHILD_DEAD, [], CHILD_DEAD);
    ChildExits();
    CallLeads(CHILD_RUNS, ExitCall, CHILD_DIES, [Reschedule], CHILD_DEAD);
    ParentGivesWay();
    CallLeads(PARENT, Reschedule, CHILD_RUNS, [ExitCall, Reschedule], CHILD_DEAD);
  }

  lemma BootedInv(calls: seq<Call>, t: Sys)
    requires Leads(Boot(1), calls, t)
    ensures Inv(t)
  {
    BootInv(1);
    EveryRunKeepsInv(Boot(1), calls);
  }

  /** A parent that waits for its dead child blocks for good. */
  lemma WaitingForTheDead() returns (calls: seq<Call>)
    ensures Leads(Boot(1), calls, CHILD_DEAD) && WaitsFor(CHILD_DEAD, 2, 3)
    ensures Stranded(WaitPid(CHILD_DEAD, 2), 2) && !exists more :: Revives(WaitPid(CHILD_DEAD, 2), more, 2)
  {
    ToDeadChild();
    FromBoot([Reschedule, ExitCall, Reschedule], CHILD_DEAD);
    calls := [Create(2, PAGE), Reschedule, UserCall] + ([ForkCall(3, PAGE)] + [Reschedule, ExitCall, Reschedule]);
    BootedInv(calls, CHILD_DEAD);
    assert CHILD_DEAD.threads[2] == 3;
    WaitForZombieStrands(CHILD_DEAD, 2, 3);
    WaitCanEnd(CHILD_DEAD, 2, 3);
  }

  // ---------------------------------------------------------------------------
  // Killing an awaited child

  const TWO_CHILDREN :=
    Sys([1, 2, 4, 3], [], 2, 1, map[1 := IDLE, 2 := Info(1, 0, false, RUNNING, 2), 3 := Info(2, 1, false, READY, 4),
                                    4 := Info(3, 1, false, READY, 2)], 3)

  const YOUNGER_RUNS :=
    Sys([1, 4, 3], [2], 4, 1, map[1 := IDLE, 2 := Info(1, 0, false, READY, 2), 3 := Info(2, 1, false, READY, 4),
                                  4 := Info(3, 1, true, RUNNING, 2)], 3)

  /** The parent 2 waits for its younger child 4, and the older one runs. */
  const OLDER_RUNS :=
    Sys([1, 4, 3], [2], 3, 1, map[1 := IDLE, 2 := Info(1, 0, false, READY, 2), 3 := Info(2, 1, false, RUNNING, 4),
                                  4 := Info(3, 1, true, READY, 2)], 3)

  lemma ForksAgain()
    ensures OneCallLeads(PARENT, ForkCall(4, PAGE), TWO_CHILDREN)
  {
    assert IndexOf(PARENT.threads, 2) == 1;
  }

  /** The state in which `sys_waitpid` calls `schedule`. */
  const BLOCKING :=
    Sys([1, 4, 3], [2], 2, 1, map[1 := IDLE, 2 := Info(1, 0, false, BLOCKED, 2), 3 := Info(2, 1, false, READY, 4),
                                  4 := Info(3, 1, true, READY, 2)], 3)

  lemma YoungerIsAwaited()
    ensures Wait(TWO_CHILDREN, 3) == BLOCKING
  {
    var info := TWO_CHILDREN.info;
    assert [1, 2, 4, 3][1..] == [2, 4, 3] && [2, 4, 3][1..] == [4, 3] && [4, 3][1..] == [3];
    assert MarkAwaited(info, [1, 2, 4, 3], 1, 3) == MarkAwaited(info, [4, 3], 1, 3);
    var marked := info[4 := Info(3, 1, true, READY, 2)];
    assert MarkAwaited(info, [4, 3], 1, 3) == MarkAwaited(marked, [3], 1, 3) == marked;
    assert TWO_CHILDREN.threads[2] == 4 && IsAwaited(info, 4, 1, 3);
    assert Remove([1, 2, 4, 3], 2) == [1, 4, 3];
  }

  lemma YoungerIsNext()
    ensures Dispatch(BLOCKING) == 4
  {
    assert BehindCurrent(BLOCKING) + BLOCKING.threads == [1, 4, 3] && [1, 4, 3][1..] == [4, 3];
    assert FirstIn(BLOCKING.info, [4, 3], READY) == 4;
  }

  lemma YoungerIsDispatched()
    ensures Schedule(BLOCKING) == YOUNGER_RUNS
  {
    YoungerIsNext();
  }

  lemma ParentWaits()
    ensures OneCallLeads(TWO_CHILDREN, WaitCall(3), YOUNGER_RUNS)
  {
    YoungerIsAwaited();
    YoungerIsDispatched();
    assert WaitPid(TWO_CHILDREN, 3) == Schedule(BLOCKING);
  }

  lemma OlderIsNext()
    ensures Dispatch(YOUNGER_RUNS) == 3
  {
    assert BehindCurrent(YOUNGER_RUNS) == [3];
  }

  lemma YoungerGivesWay()
    ensures OneCallLeads(YOUNGER_RUNS, Reschedule, OLDER_RUNS)
  {
    OlderIsNext();
  }

  lemma ToOlder(calls: seq<Call>, t: Sys)
    requires Leads(OLDER_RUNS, calls, t)
    ensures Leads(PARENT, [ForkCall(4, PAGE), WaitCall(3), Reschedule] + calls, t)
  {
    ForksAgain();
    ParentWaits();
    YoungerGivesWay();
    ThreeCallsLead(PARENT, ForkCall(4, PAGE), TWO_CHILDREN, WaitCall(3), YOUNGER_RUNS, Reschedule, OLDER_RUNS, calls,
      t);
  }

  lemma OlderFromBoot(calls: seq<Call>, t: Sys) returns (run: seq<Call>)
    requires Leads(OLDER_RUNS, calls, t)
    ensures Leads(Boot(1), run, t)
  {
    ToOlder(calls, t);
    run := [ForkCall(4, PAGE), WaitCall(3), Reschedule] + calls;
    FromBoot(run, t);
    run := [Create(2, PAGE), Reschedule, UserCall] + ([ForkCall(3, PAGE)] + run);
  }

  /** Killing the child that a parent waits for blocks the parent for good. */
  lemma KillingTheAwaited() returns (calls: seq<Call>)
    ensures Leads(Boot(1), calls, OLDER_RUNS) && Allowed(OLDER_RUNS, KillCall(3))
    ensures 2 in Kill(OLDER_RUNS, 3).blocked && Stranded(Kill(OLDER_RUNS, 3), 2)
  {
    assert Leads(OLDER_RUNS, [], OLDER_RUNS);
    calls := OlderFromBoot([], OLDER_RUNS);
    BootedInv(calls, OLDER_RUNS);
    KillStrands(OLDER_RUNS, 3, 2);
  }

  // ---------------------------------------------------------------------------
  // An exit that loses a process

  const THREE_CHILDREN :=
    Sys([1, 4, 3, 5], [2], 3, 1, map[1 := IDLE, 2 := Info(1, 0, false, READY, 2), 3 := Info(2, 1, false, RUNNING, 2),
                                     4 := Info(3, 1, true, READY, 2), 5 := Info(4, 2, false, READY, 2)], 4)

  const BLOCKING_TOO :=
    Sys([1, 4, 5], [3, 2], 3, 1, map[1 := IDLE, 2 := Info(1, 0, false, READY, 2), 3 := Info(2, 1, false, BLOCKED, 2),
                                     4 := Info(3, 1, true, READY, 2), 5 := Info(4, 2, true, READY, 2)], 4)

  /** The older child waits for its own child 5, in front of its parent, and the younger one runs. */
  const BOTH_WAIT :=
    Sys([1, 4, 5], [3, 2], 4, 1, map[1 := IDLE, 2 := Info(1, 0, false, READY, 2), 3 := Info(2, 1, false, READY, 2),
                                     4 := Info(3, 1, true, RUNNING, 2), 5 := Info(4, 2, true, READY, 2)], 4)

  lemma OlderForks()
    ensures OneCallLeads(OLDER_RUNS, ForkCall(5, PAGE), THREE_CHILDREN)
  {
    assert [1, 4, 3][1..] == [4, 3] && [4, 3][1..] == [3];
    assert IndexOf([4, 3], 3) == 1;
    assert IndexOf(OLDER_RUNS.threads, 3) == 2;
  }

  lemma GrandchildIsAwaited()
    ensures Wait(THREE_CHILDREN, 4) == BLOCKING_TOO
  {
    var info := THREE_CHILDREN.info;
    assert [1, 4, 3, 5][1..] == [4, 3, 5] && [4, 3, 5][1..] == [3, 5] && [3, 5][1..] == [5];
    assert MarkAwaited(info, [1, 4, 3, 5], 2, 4) == MarkAwaited(info, [3, 5], 2, 4);
    var marked := info[5 := Info(4, 2, true, READY, 2)];
    assert MarkAwaited(info, [3, 5], 2, 4) == MarkAwaited(info, [5], 2, 4) == marked;
    assert THREE_CHILDREN.threads[3] == 5 && IsAwaited(info, 5, 2, 4);
    assert IndexOf([4, 3, 5], 3) == 1;
    assert Remove([1, 4, 3, 5], 3) == [1, 4, 5];
  }

  lemma YoungerIsFirst()
    ensures Dispatch(BLOCKING_TOO) == 4
  {
    assert BehindCurrent(BLOCKING_TOO) + BLOCKING_TOO.threads == [1, 4, 5] && [1, 4, 5][1..] == [4, 5];
    assert FirstIn(BLOCKING_TOO.info, [4, 5], READY) == 4;
  }

  lemma YoungerRunsAgain()
    ensures Schedule(BLOCKING_TOO) == BOTH_WAIT
  {
    YoungerIsFirst();
  }

  lemma OlderWaits()
    ensures OneCallLeads(THREE_CHILDREN, WaitCall(4), BOTH_WAIT)
  {
    GrandchildIsAwaited();
    YoungerRunsAgain();
    assert WaitPid(THREE_CHILDREN, 4) == Schedule(BLOCKING_TOO);
  }

  /** The exit of the younger child wakes the parent, and the older one, in front of it, is on no list any more. */
  lemma ExitLosesOlder()
    requires Inv(BOTH_WAIT)
    ensures Allowed(BOTH_WAIT, ExitCall) && 3 in Members(BOTH_WAIT) && 3 !in Members(Exit(BOTH_WAIT))
  {
    assert BOTH_WAIT.blocked[0] == 3 && BOTH_WAIT.blocked[1] == 2;
    assert WaitingParent(BOTH_WAIT, 2);
    ExitWithParent(BOTH_WAIT, 2);
    RequeuedIsReady(BOTH_WAIT, Exit(BOTH_WAIT), 2);
    assert [3, 2][1..] == [2] && IndexOf([2], 2) == 0;
    assert IndexOf(BOTH_WAIT.blocked, 2) == 1;
  }

  lemma ToBothWait() returns (calls: seq<Call>)
    ensures Leads(OLDER_RUNS, calls, BOTH_WAIT)
  {
    OlderForks();
    OlderWaits();
    CallLeads(THREE_CHILDREN, WaitCall(4), BOTH_WAIT, [], BOTH_WAIT);
    calls := [ForkCall(5, PAGE)] + ([WaitCall(4)] + []);
    CallLeads(OLDER_RUNS, ForkCall(5, PAGE), THREE_CHILDREN, [WaitCall(4)] + [], BOTH_WAIT);
  }

  /** A run from boot, after which an exit loses a process that nobody killed. */
  lemma LosingAProcess() returns (calls: seq<Call>)
    ensures Leads(Boot(1), calls, BOTH_WAIT) && Allowed(BOTH_WAIT, ExitCall)
    ensures 3 in Members(BOTH_WAIT) && 3 !in Members(Exit(BOTH_WAIT)) && !WakesHead(BOTH_WAIT, ExitCall)
  {
    calls := ToBothWait();
    calls := OlderFromBoot(calls, BOTH_WAIT);
    BootedInv(calls, BOTH_WAIT);
    ExitLosesOlder();
    assert BOTH_WAIT.blocked[0] == 3 && WaitingParent(BOTH_WAIT, 2);
  }
}
