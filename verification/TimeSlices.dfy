/**
  The time-slice budget of user processes.
 */
module TimeSlices {
  import opened ProcessLists
  import opened Wrappers
  import opened ProcessRuns

  /** What a process adds to the budget: its slice, if it is a live user process. */
  ghost function Share(info: map<nat, Info>, p: nat): nat {
    if Live(info, p) && info[p].pid != 0 then info[p].slice else 0
  }

  ghost function Sum(info: map<nat, Info>, s: seq<nat>): nat {
    if s == [] then 0 else Share(info, s[0]) + Sum(info, s[1..])
  }

  /** The slices of all live user processes on both lists. */
  ghost function Spent(s: Sys): nat {
    Sum(s.info, s.threads) + Sum(s.info, s.blocked)
  }

  // ---------------------------------------------------------------------------
  // Sums

  lemma {:induction false} SumConcat(info: map<nat, Info>, a: seq<nat>, b: seq<nat>)
    ensures Sum(info, a + b) == Sum(info, a) + Sum(info, b)
  {
    if a == [] {
      assert a + b == b;
    } else {
      assert (a + b)[1..] == a[1..] + b;
      SumConcat(info, a[1..], b);
    }
  }

  lemma SumSplit(info: map<nat, Info>, s: seq<nat>, k: nat)
    requires k <= |s|
    ensures Sum(info, s) == Sum(info, s[..k]) + Sum(info, s[k..])
  {
    SumConcat(info, s[..k], s[k..]);
    assert s[..k] + s[k..] == s;
  }

  lemma SumOne(info: map<nat, Info>, p: nat)
    ensures Sum(info, [p]) == Share(info, p)
  {
  }

  lemma SumInsert(info: map<nat, Info>, s: seq<nat>, p: nat, q: nat)
    requires p in s
    ensures Sum(info, InsertAfter(s, p, q)) == Sum(info, s) + Share(info, q)
  {
    var k := IndexOf(s, p) + 1;
    SumConcat(info, s[..k] + [q], s[k..]);
    SumConcat(info, s[..k], [q]);
    SumSplit(info, s, k);
    SumOne(info, q);
  }

  lemma SumRemove(info: map<nat, Info>, s: seq<nat>, p: nat)
    requires p in s
    ensures Sum(info, Remove(s, p)) + Share(info, p) == Sum(info, s)
  {
    var k := IndexOf(s, p);
    SumConcat(info, s[..k], s[k + 1..]);
    SumSplit(info, s, k);
    assert s[k..] == [p] + s[k + 1..];
  }

  /** Shares that do not grow make a sum that does not grow. */
  lemma {:induction false} SumNoMore(info: map<nat, Info>, info': map<nat, Info>, s: seq<nat>)
    requires forall p | p in s :: Share(info', p) <= Share(info, p)
    ensures Sum(info', s) <= Sum(info, s)
  {
    if s != [] {
      assert s[0] in s && forall p | p in s[1..] :: p in s;
      SumNoMore(info, info', s[1..]);
    }
  }

  /** Only `give` loses and only `take` gains, each once in the list if at all. */
  lemma {:induction false} SumTransfer(info: map<nat, Info>, info': map<nat, Info>, s: seq<nat>, give: nat, take: nat,
      amount: nat)
    requires Distinct(s) && give != take
    requires forall p | p in s && p != give && p != take :: Share(info', p) <= Share(info, p)
    requires give in s ==> Share(info', give) + amount <= Share(info, give)
    requires take in s ==> Share(info', take) <= Share(info, take) + amount
    ensures Sum(info', s) + (if give in s then amount else 0) <= Sum(info, s) + (if take in s then amount else 0)
  {
    if s != [] {
      var r := s[1..];
      assert s == [s[0]] + r;
      assert s[0] !in r;
      assert forall p | p in r :: p in s;
      SumTransfer(info, info', r, give, take, amount);
    }
  }

  // ---------------------------------------------------------------------------
  // Inheritance

  lemma {:induction false} InheritOthers(info: map<nat, Info>, s: seq<nat>, cur: nat, p: nat)
    requires p in info && cur in info && info[p].pid != info[cur].ppid
    ensures p in Inherit(info, s, cur) && Inherit(info, s, cur)[p] == info[p]
  {
    if s != [] {
      var given := if s[0] in info && info[s[0]].pid == info[cur].ppid
                   then info[s[0] := info[s[0]].(slice := info[s[0]].slice + info[cur].slice)] else info;
      InheritOthers(given, s[1..], cur, p);
    }
  }

  lemma {:induction false} InheritParent(info: map<nat, Info>, s: seq<nat>, cur: nat, p: nat)
    requires Distinct(s) && p in info && cur in info && info[p].pid == info[cur].ppid != info[cur].pid
    ensures p in Inherit(info, s, cur)
    ensures Inherit(info, s, cur)[p].slice == info[p].slice + (if p in s then info[cur].slice else 0)
  {
    if s != [] {
      var given := if s[0] in info && info[s[0]].pid == info[cur].ppid
                   then info[s[0] := info[s[0]].(slice := info[s[0]].slice + info[cur].slice)] else info;
      assert s == [s[0]] + s[1..] && s[0] !in s[1..];
      InheritParent(given, s[1..], cur, p);
    }
  }

  lemma DistinctLists(s: Sys)
    requires ListsOk(s)
    ensures Distinct(s.threads + s.blocked)
  {
    var r := s.threads + s.blocked;
    forall i: nat, j: nat | i < j < |r| ensures r[i] != r[j] {
      assert i < |s.threads| && j >= |s.threads| ==> r[i] in s.threads && r[j] in s.blocked;
    }
  }

  /** An exiting user process gives its whole slice to its parent, wherever that is listed, and to nobody else. */
  lemma ExitPassesSliceOn(s: Sys, p: nat)
    requires Inv(s) && p in Members(s) && s.info[s.cur].pid != 0
    ensures p in Exit(s).info
    ensures Exit(s).info[p].slice
            == s.info[p].slice + (if s.info[p].pid == s.info[s.cur].ppid then s.info[s.cur].slice else 0)
  {
    var info := SetState(s.info, s.cur, ZOMBIE);
    assert s.cur in Members(s) && Exit(s).info == Exited(s);
    DistinctLists(s);
    if s.info[p].pid == s.info[s.cur].ppid {
      InheritParent(info, s.threads + s.blocked, s.cur, p);
    } else {
      InheritOthers(info, s.threads + s.blocked, s.cur, p);
    }
  }

  // ---------------------------------------------------------------------------
  // The budget

  lemma ExitSpendsNoMore(s: Sys)
    requires Inv(s) && s.info[s.cur].state == RUNNING
    ensures Spent(Exit(s)) <= Spent(s)
  {
    var t := Exit(s);
    var info := Exited(s);
    var me := s.info[s.cur];
    DistinctLists(s);
    SumConcat(s.info, s.threads, s.blocked);
    SumConcat(info, s.threads, s.blocked);
    ExitShares(s);
    assert s.cur in Members(s);
    if me.pid != 0 && me.ppid != 0 && exists p :: p in Members(s) && s.info[p].pid == me.ppid {
      var parent :| parent in Members(s) && s.info[parent].pid == me.ppid;
      SumTransfer(s.info, info, s.threads + s.blocked, s.cur, parent, me.slice);
    } else {
      SumNoMore(s.info, info, s.threads + s.blocked);
    }
    WakeSpendsNoMore(s, t);
  }

  lemma ExitShares(s: Sys)
    requires Inv(s) && s.info[s.cur].state == RUNNING
    ensures forall p | p in Members(s) :: Share(Exited(s), p) <=
              (if p == s.cur then 0
               else if s.info[p].pid != 0 && s.info[p].pid == s.info[s.cur].ppid
                 then Share(s.info, p) + s.info[s.cur].slice
               else Share(s.info, p))
    ensures Share(s.info, s.cur) == if s.info[s.cur].pid == 0 then 0 else s.info[s.cur].slice
  {
    assert s.cur in Members(s) && Exit(s).info == Exited(s);
    forall p | p in Members(s)
      ensures Share(Exited(s), p) <=
              (if p == s.cur then 0
               else if s.info[p].pid != 0 && s.info[p].pid == s.info[s.cur].ppid
                 then Share(s.info, p) + s.info[s.cur].slice
               else Share(s.info, p))
    {
      ExitInfo(s, p);
      if s.info[s.cur].pid != 0 {
        ExitPassesSliceOn(s, p);
      } else if s.info[p].pid != 0 {
        InheritOthers(SetState(s.info, s.cur, ZOMBIE), s.threads + s.blocked, s.cur, p);
      }
    }
  }

  /** Moving the parent from list to list, and losing who is in front of it. */
  lemma MovingSpendsNoMore(info: map<nat, Info>, threads: seq<nat>, blocked: seq<nat>, place: nat, p: nat)
    requires place in threads && p in blocked
    ensures Sum(info, InsertAfter(threads, place, p)) + Sum(info, blocked[IndexOf(blocked, p) + 1..])
            <= Sum(info, threads) + Sum(info, blocked)
  {
    var k := IndexOf(blocked, p);
    SumInsert(info, threads, place, p);
    SumSplit(info, blocked, k);
    assert blocked[k..] == [p] + blocked[k + 1..];
  }

  lemma WakeSpendsNoMore(s: Sys, t: Sys)
    requires Inv(s) && s.info[s.cur].state == RUNNING && t == Exit(s)
    ensures Spent(t) <= Sum(Exited(s), s.threads) + Sum(Exited(s), s.blocked)
  {
    if p :| WaitingParent(s, p) {
      ExitPlace(s, p);
      ExitIsWake(s, p);
      MovingSpendsNoMore(Exited(s), s.threads, s.blocked, WakeAfter(Exited(s), s.threads, s.cur), p);
      assert p != 0 by {
        assert p in Members(s);
      }
    } else {
      ExitWithoutParent(s);
    }
  }

  lemma ForkSpendsNoMore(s: Sys, p: nat, page: Info)
    requires Inv(s) && s.info[s.cur].pid != 0 && s.info[s.cur].state == RUNNING && Unused(s, p)
    ensures Spent(Fork(s, p, page)) <= Spent(s)
  {
    var t := Fork(s, p, page);
    var half := s.info[s.cur].slice / 2;
    assert s.cur in Members(s);
    ForkInfo(s, p, page);
    SumInsert(t.info, s.threads, s.cur, p);
    assert Share(t.info, p) == half;
    forall q | q in s.threads || q in s.blocked ensures q in Members(s) && q in s.info
        && (q != s.cur ==> t.info[q] == s.info[q]) {
      assert q in Members(s);
    }
    SumTransfer(s.info, t.info, s.threads, s.cur, p, half);
    SumNoMore(s.info, t.info, s.blocked);
  }

  lemma WaitSpendsNoMore(s: Sys, pid: nat)
    requires Inv(s) && s.info[s.cur].state == RUNNING
    ensures Spent(WaitPid(s, pid)) <= Spent(s)
  {
    WaitLists(s, pid);
    WaitWaits(s, pid);
    WaitStates(s, pid);
    BlockingSpendsNoMore(s, pid);
    ScheduleSpendsNoMore(Wait(s, pid));
  }

  lemma BlockingSpendsNoMore(s: Sys, pid: nat)
    requires Inv(s) && s.info[s.cur].state == RUNNING
    ensures Spent(Wait(s, pid)) <= Spent(s)
  {
    var m := Wait(s, pid);
    forall p | p in s.threads || p in s.blocked ensures Share(m.info, p) <= Share(s.info, p) {
      assert p in Members(s);
      WaitInfo(s, pid, p);
    }
    SumNoMore(s.info, m.info, s.threads);
    SumNoMore(s.info, m.info, s.blocked);
    SumRemove(m.info, s.threads, s.cur);
    SumConcat(m.info, [s.cur], s.blocked);
    SumOne(m.info, s.cur);
  }

  lemma ScheduleSpendsNoMore(s: Sys)
    requires Dispatchable(s)
    ensures Spent(Schedule(s)) <= Spent(s)
  {
    var t := Schedule(s);
    ScheduleKeepsInv(s);
    ScheduleKeepsStates(s);
    DispatchedIsThread(s);
    forall p | p in Members(s) ensures Share(t.info, p) <= Share(s.info, p) {
      ScheduleInfo(s, p);
    }
    assert forall p | p in s.threads || p in s.blocked :: p in Members(s);
    SumNoMore(s.info, t.info, s.threads);
    SumNoMore(s.info, t.info, s.blocked);
  }

  lemma KillSpendsNoMore(s: Sys, pid: nat)
    requires Inv(s)
    ensures Spent(Kill(s, pid)) <= Spent(s)
  {
    var p := FindPid(s.info, s.threads, pid);
    var q := FindPid(s.info, s.blocked, pid);
    if p != 0 {
      SumRemove(s.info, s.threads, p);
    } else if q != 0 {
      SumRemove(s.info, s.blocked, q);
    }
  }

  lemma CreateSpendsNoMore(s: Sys, p: nat, page: Info)
    requires Inv(s) && Unused(s, p) && page.pid == 0
    ensures Spent(CreateThread(s, p, page)) <= Spent(s)
  {
    var t := CreateThread(s, p, page);
    assert forall q | q in s.threads || q in s.blocked :: q in Members(s) && q != p;
    SumConcat(t.info, s.threads, [p]);
    SumOne(t.info, p);
    SumNoMore(s.info, t.info, s.threads);
    SumNoMore(s.info, t.info, s.blocked);
  }

  lemma {:induction false} NoUserNoSum(info: map<nat, Info>, s: seq<nat>)
    requires forall p | p in s && p in info :: info[p].pid == 0
    ensures Sum(info, s) == 0
  {
    if s != [] {
      assert s[0] in s && forall p | p in s[1..] :: p in s;
      NoUserNoSum(info, s[1..]);
    }
  }

  lemma StartSpendsMaxSlice(s: Sys)
    requires Inv(s) && s.count == 0 && s.cur != s.main && s.info[s.cur].state == RUNNING
    ensures Spent(StartUser(s)) == MAXSLICE
  {
    var t := StartUser(s);
    assert forall p | p in s.threads || p in s.blocked :: p in Members(s);
    assert s.cur in Members(s);
    SumRemove(t.info, s.threads, s.cur);
    RemoveFacts(s.threads, s.cur);
    NoUserNoSum(t.info, Remove(s.threads, s.cur));
    NoUserNoSum(t.info, s.blocked);
  }

  /** Only user processes fork. */
  ghost predicate UserForks(s: Sys, calls: seq<Call>)
    requires AllowedRun(s, calls)
    decreases |calls|
  {
    calls != [] ==> (calls[0].ForkCall? ==> s.info[s.cur].pid != 0) && UserForks(Next(s, calls[0]), calls[1..])
  }

  lemma StepSpendsNoMore(s: Sys, call: Call)
    requires Inv(s) && Allowed(s, call) && (call.ForkCall? ==> s.info[s.cur].pid != 0)
    ensures Spent(Next(s, call)) <= if call.UserCall? then MAXSLICE else Spent(s)
  {
    match call
    case Reschedule => ScheduleSpendsNoMore(s);
    case Create(p, page) => CreateSpendsNoMore(s, p, page);
    case UserCall => StartSpendsMaxSlice(s);
    case ForkCall(p, page) => ForkSpendsNoMore(s, p, page);
    case WaitCall(pid) => WaitSpendsNoMore(s, pid);
    case ExitCall => ExitSpendsNoMore(s);
    case KillCall(pid) => KillSpendsNoMore(s, pid);
  }

  /** The slices of the live user processes never add up to more than MAXSLICE. */
  lemma {:induction false} BudgetIsKept(s: Sys, calls: seq<Call>)
    requires Inv(s) && AllowedRun(s, calls) && UserForks(s, calls) && Spent(s) <= MAXSLICE
    ensures Spent(After(s, calls)) <= MAXSLICE
    decreases |calls|
  {
    if calls != [] {
      StepKeepsInv(s, calls[0]);
      StepSpendsNoMore(s, calls[0]);
      BudgetIsKept(Next(s, calls[0]), calls[1..]);
    }
  }

  /** From boot on, the lists are well formed and the budget is kept. */
  lemma BootedRun(main: nat, calls: seq<Call>)
    requires main != 0 && AllowedRun(Boot(main), calls) && UserForks(Boot(main), calls)
    ensures Inv(After(Boot(main), calls)) && Spent(After(Boot(main), calls)) <= MAXSLICE
  {
    BootInv(main);
    EveryRunKeepsInv(Boot(main), calls);
    SumOne(Boot(main).info, main);
    BudgetIsKept(Boot(main), calls);
  }
}
