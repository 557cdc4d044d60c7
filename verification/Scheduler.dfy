/**
  The process lists in memory: PCBs chained by `next`, and the list surgery of `schedule`,
  `create_thread`, `sys_fork`, `sys_waitpid`, `sys_kill` and `thread_on_completion`.

  Each method is proved against the function of ProcessLists with its name; ProcessRuns proves
  what those functions keep.
 */
module Scheduler {
  import opened ProcessLists
  import opened Wrappers
  import opened ProcessRuns

  // ---------------------------------------------------------------------------
  // Chains

  /** The process at place `i`, or NULL behind the last. */
  function At(s: seq<nat>, i: nat): nat {
    if i < |s| then s[i] else 0
  }

  ghost predicate LinkAt(next: map<nat, nat>, s: seq<nat>, i: nat)
    requires i < |s|
  {
    s[i] != 0 && s[i] in next && next[s[i]] == At(s, i + 1)
  }

  /** The PCBs of `s` are linked in order from `head` to NULL. */
  ghost predicate Linked(next: map<nat, nat>, head: nat, s: seq<nat>) {
    head == At(s, 0) && forall i: nat {:trigger LinkAt(next, s, i)} | i < |s| :: LinkAt(next, s, i)
  }

  /** `next` after `q` has been put behind `p`. */
  function AfterInsert(next: map<nat, nat>, p: nat, q: nat): map<nat, nat> {
    if p in next then next[p := q][q := next[p]] else next
  }

  lemma LinkedMember(next: map<nat, nat>, head: nat, s: seq<nat>, p: nat) returns (i: nat)
    requires Linked(next, head, s) && p in s
    ensures i < |s| && s[i] == p && i == IndexOf(s, p) && LinkAt(next, s, i)
  {
    i := IndexOf(s, p);
  }

  lemma LinkedSuffix(next: map<nat, nat>, head: nat, s: seq<nat>, k: nat)
    requires Linked(next, head, s) && k <= |s|
    ensures Linked(next, At(s, k), s[k..])
  {
    forall i: nat | i < |s[k..]| ensures LinkAt(next, s[k..], i) {
      assert LinkAt(next, s, k + i);
    }
  }

  lemma LinkedFrame(next: map<nat, nat>, next': map<nat, nat>, head: nat, s: seq<nat>)
    requires Linked(next, head, s) && forall p | p in s && p in next :: p in next' && next'[p] == next[p]
    ensures Linked(next', head, s)
  {
    forall i: nat | i < |s| ensures LinkAt(next', s, i) {
      assert LinkAt(next, s, i);
    }
  }

  /** Insertion behind place `k`. */
  lemma LinkedInsert(next: map<nat, nat>, head: nat, s: seq<nat>, k: nat, q: nat)
    requires Linked(next, head, s) && Distinct(s) && k < |s| && q != 0 && q !in s
    ensures Linked(AfterInsert(next, s[k], q), head, s[..k + 1] + [q] + s[k + 1..])
  {
    var r := s[..k + 1] + [q] + s[k + 1..];
    var next' := AfterInsert(next, s[k], q);
    assert LinkAt(next, s, k);
    forall i: nat | i < |r| ensures LinkAt(next', r, i) {
      var j := if i <= k then i else i - 1;
      assert LinkAt(next, s, j);
      if i == k + 1 {
        assert r[i] == q && At(r, i + 1) == At(s, k + 1);
      } else {
        assert r[i] == s[j] && (i != k ==> At(r, i + 1) == At(s, j + 1));
      }
    }
  }

  /** Unlinking the process behind place `k`. */
  lemma LinkedRemove(next: map<nat, nat>, head: nat, s: seq<nat>, k: nat)
    requires Linked(next, head, s) && Distinct(s) && k + 1 < |s| && s[k + 1] in next
    ensures Linked(next[s[k] := next[s[k + 1]]], head, s[..k + 1] + s[k + 2..])
  {
    var r := s[..k + 1] + s[k + 2..];
    var next' := next[s[k] := next[s[k + 1]]];
    assert LinkAt(next, s, k + 1);
    forall i: nat | i < |r| ensures LinkAt(next', r, i) {
      var j := if i <= k then i else i + 1;
      assert LinkAt(next, s, j);
      assert r[i] == s[j] && At(r, i + 1) == At(s, if i < k then i + 1 else i + 2);
    }
  }

  lemma LinkedPush(next: map<nat, nat>, head: nat, s: seq<nat>, p: nat)
    requires Linked(next, head, s) && p != 0 && p !in s
    ensures Linked(next[p := head], p, [p] + s)
  {
    var r := [p] + s;
    var next' := next[p := head];
    forall i: nat | i < |r| ensures LinkAt(next', r, i) {
      if i > 0 {
        assert LinkAt(next, s, i - 1);
      }
    }
  }

  // ---------------------------------------------------------------------------
  // Searches over a list split in two

  lemma {:induction false} FirstInSplit(info: map<nat, Info>, a: seq<nat>, b: seq<nat>, st: State)
    ensures FirstIn(info, a + b, st) == if FirstIn(info, a, st) != 0 then FirstIn(info, a, st) else FirstIn(info, b, st)
  {
    if a == [] {
      assert a + b == b;
    } else {
      assert (a + b)[1..] == a[1..] + b;
      FirstInSplit(info, a[1..], b, st);
    }
  }

  lemma {:induction false} InheritSplit(info: map<nat, Info>, a: seq<nat>, b: seq<nat>, cur: nat)
    ensures Inherit(info, a + b, cur) == Inherit(Inherit(info, a, cur), b, cur)
  {
    if a == [] {
      assert a + b == b;
    } else {
      var given := if a[0] in info && cur in info && info[a[0]].pid == info[cur].ppid
                   then info[a[0] := info[a[0]].(slice := info[a[0]].slice + info[cur].slice)] else info;
      assert (a + b)[1..] == a[1..] + b;
      InheritSplit(given, a[1..], b, cur);
    }
  }

  /** The PCBs after the switch from `me` to `n`. */
  function Switched(info: map<nat, Info>, me: nat, main: nat, n: nat): map<nat, Info>
    requires me in info && n in info
  {
    var left := if me == main || info[me].state == ZOMBIE then ZOMBIE else READY;
    var after := info[me := info[me].(state := left)];
    after[n := after[n].(state := RUNNING)]
  }

  lemma ScheduleIsSwitch(s: Sys, n: nat)
    requires s.cur in s.info && n in s.info && n == Dispatch(s)
    ensures Schedule(s) == s.(cur := n, info := Switched(s.info, s.cur, s.main, n))
  {
  }

  class Scheduler {
    var info: map<nat, Info>
    var next: map<nat, nat>
    var threadlist: nat
    var blockedlist: nat
    var currentthread: nat
    var mainthread: nat
    var processcount: nat
    ghost var threads: seq<nat>
    ghost var blocked: seq<nat>

    ghost function Abs(): Sys
      reads this
    {
      Sys(threads, blocked, currentthread, mainthread, info, processcount)
    }

    ghost predicate Valid()
      reads this
    {
      ListsOk(Abs()) && Linked(next, threadlist, threads) && Linked(next, blockedlist, blocked)
    }

    /** Both lists are chained, acyclic and disjoint. */
    ghost predicate Chained()
      reads this
    {
      && Linked(next, threadlist, threads) && Linked(next, blockedlist, blocked)
      && Distinct(threads) && Distinct(blocked) && forall p | p in threads :: p !in blocked
    }

    ghost predicate Chain(head: nat, s: seq<nat>)
      reads this
    {
      Linked(next, head, s) && forall p | p in s :: p in info
    }

    // -------------------------------------------------------------------------
    // The search loops

    method FindState(head: nat, ghost s: seq<nat>, st: State) returns (temp: nat)
      requires Chain(head, s)
      ensures temp == FirstIn(info, s, st)
    {
      temp := head;
      ghost var k := 0;
      while temp != 0
        invariant k <= |s| && temp == At(s, k) && FirstIn(info, s, st) == FirstIn(info, s[k..], st)
        decreases |s| - k
      {
        assert LinkAt(next, s, k) && s[k..][1..] == s[k + 1..];
        if info[temp].state == st {
          return;
        }
        temp, k := next[temp], k + 1;
      }
      assert k < |s| ==> LinkAt(next, s, k);
    }

    /** The process with id `pid` and the one in front of it. */
    method FindById(head: nat, ghost s: seq<nat>, pid: nat) returns (prev: nat, temp: nat)
      requires Chain(head, s)
      ensures temp == FindPid(info, s, pid)
      ensures temp != 0 ==> var k := IndexOf(s, temp); k < |s| && prev == (if k == 0 then 0 else s[k - 1])
    {
      prev, temp := 0, head;
      ghost var k := 0;
      while temp != 0
        invariant k <= |s| && temp == At(s, k) && FindPid(info, s, pid) == FindPid(info, s[k..], pid)
        invariant prev == if k == 0 then 0 else s[k - 1]
        invariant forall j | 0 <= j < k :: s[j] in info && info[s[j]].pid != pid
        decreases |s| - k
      {
        assert LinkAt(next, s, k) && s[k..][1..] == s[k + 1..];
        if info[temp].pid == pid {
          assert IndexOf(s, temp) == k;
          return;
        }
        prev, temp, k := temp, next[temp], k + 1;
      }
      assert k < |s| ==> LinkAt(next, s, k);
    }

    method FindSibling(p: nat) returns (temp2: nat)
      requires Chain(threadlist, threads) && p in info
      ensures temp2 == Sibling(info, threads, p)
    {
      temp2 := threadlist;
      ghost var k := 0;
      while temp2 != 0
        invariant k <= |threads| && temp2 == At(threads, k)
        invariant Sibling(info, threads, p) == Sibling(info, threads[k..], p)
        decreases |threads| - k
      {
        assert LinkAt(next, threads, k) && threads[k..][1..] == threads[k + 1..];
        if info[temp2].state != ZOMBIE && p != temp2 && info[p].ppid == info[temp2].ppid {
          return;
        }
        temp2, k := next[temp2], k + 1;
      }
      assert k < |threads| ==> LinkAt(next, threads, k);
    }

    // -------------------------------------------------------------------------
    // schedule

    /** The first search: the ready process behind `me`, or NULL. */
    method FindBehind(me: nat) returns (n: nat)
      requires Chain(threadlist, threads) && me in threads
      ensures n == FirstIn(info, threads[IndexOf(threads, me) + 1..], READY)
    {
      ghost var i := LinkedMember(next, threadlist, threads, me);
      n := 0;
      if next[me] != 0 {
        LinkedSuffix(next, threadlist, threads, i + 1);
        n := FindState(next[me], threads[i + 1..], READY);
      }
      assert i + 1 < |threads| ==> LinkAt(next, threads, i + 1);
    }

    /** The process to run next, or NULL. */
    method PickNext() returns (n: nat)
      requires Chain(threadlist, threads) && currentthread in info
      requires currentthread in threads || info[currentthread].state == BLOCKED
      ensures n == FirstIn(info, BehindCurrent(Abs()) + threads, READY)
    {
      var me := currentthread;
      n := 0;
      FirstInSplit(info, BehindCurrent(Abs()), threads, READY);
      if info[me].state != BLOCKED {
        n := FindBehind(me);
      }
      if n == 0 {
        n := FindState(threadlist, threads, READY);
      }
    }

    /** The states of the process that is left and the one that runs next. */
    method Switch(me: nat, n: nat)
      requires me in info && n in info
      modifies `info, `currentthread
      ensures currentthread == n && info == Switched(old(info), me, mainthread, n)
    {
      if me == mainthread {
        info := info[me := info[me].(state := ZOMBIE)];
      } else if info[me].state != ZOMBIE {
        info := info[me := info[me].(state := READY)];
      }
      info := info[n := info[n].(state := RUNNING)];
      currentthread := n;
    }

    /** The switch itself is the assignment to `currentthread`. */
    method Reschedule()
      requires Chain(threadlist, threads) && currentthread in info && mainthread in info
      requires currentthread in threads || info[currentthread].state == BLOCKED
      modifies `info, `currentthread
      ensures Abs() == Schedule(old(Abs()))
    {
      var n := PickNext();
      if n == 0 {
        n := mainthread;
      }
      ScheduleIsSwitch(Abs(), n);
      Switch(currentthread, n);
    }

    // -------------------------------------------------------------------------
    // create_thread, fork

    method LastThread() returns (temp: nat)
      requires Valid()
      ensures temp == threads[|threads| - 1]
    {
      temp := threadlist;
      ghost var k := 0;
      assert LinkAt(next, threads, 0);
      while next[temp] != 0
        invariant k < |threads| && temp == threads[k] && LinkAt(next, threads, k)
        decreases |threads| - k
      {
        assert LinkAt(next, threads, k + 1);
        temp, k := next[temp], k + 1;
      }
      assert k + 1 < |threads| ==> LinkAt(next, threads, k + 1);
    }

    /** Put `q` behind `p` on the thread list. */
    method InsertBehind(p: nat, q: nat)
      requires Valid() && p in threads && Unused(Abs(), q) && p in next && q in info
      modifies `next, `threads
      ensures Valid() && threads == InsertAfter(old(threads), p, q)
    {
      InsertedLinks(Abs(), next, threadlist, blockedlist, p, q);
      InsertedLists(Abs(), p, q);
      var temp := next[p];
      next := next[p := q];
      next := next[q := temp];
      threads := InsertAfter(threads, p, q);
    }

    /** `create_thread` on the PCB page `thread`. */
    method CreateThread(thread: nat)
      requires Valid() && thread in info && Unused(Abs(), thread)
      modifies `info, `next, `threads
      ensures Valid() && Abs() == ProcessLists.CreateThread(old(Abs()), thread, old(info)[thread])
    {
      info := info[thread := info[thread].(state := READY, slice := 1)];
      var temp := LastThread();
      ghost var i := LinkedMember(next, threadlist, threads, temp);
      InsertAtEnd(threads, thread);
      InsertBehind(temp, thread);
    }

    /** What `copy_process` does to the scheduling fields of the two PCBs. */
    method CopyProcess(me: nat, child: nat)
      requires me in info && child in info && me != child
      modifies `info, `processcount
      ensures processcount == old(processcount) + 1
      ensures var was := old(info);
        info == was[me := was[me].(slice := was[me].slice / 2)]
                   [child := Info(processcount, was[me].pid, was[child].isWait, READY, was[me].slice / 2)]
    {
      info := info[child := info[child].(state := READY, slice := info[me].slice / 2)];
      info := info[me := info[me].(slice := info[me].slice / 2)];
      processcount := processcount + 1;
      info := info[child := info[child].(pid := processcount, ppid := info[me].pid)];
    }

    /** `sys_fork` with the PCB page `child`. */
    method Fork(child: nat)
      requires Valid() && child in info && Unused(Abs(), child) && currentthread in threads
      modifies `info, `next, `threads, `processcount
      ensures Valid() && Abs() == ProcessLists.Fork(old(Abs()), child, old(info)[child])
    {
      var me := currentthread;
      assert me in Members(Abs());
      ghost var i := LinkedMember(next, threadlist, threads, me);
      CopyProcess(me, child);
      InsertBehind(me, child);
    }

    // -------------------------------------------------------------------------
    // waitpid

    /** The first loop of `sys_waitpid`. */
    method MarkAwaited(parentId: nat, pid: nat) returns (setwait: bool)
      requires Chain(threadlist, threads)
      modifies `info
      ensures info == ProcessLists.MarkAwaited(old(info), threads, parentId, pid)
      ensures setwait <==> AnyAwaited(old(info), threads, parentId, pid)
    {
      var temp := threadlist;
      setwait := false;
      ghost var k, was := 0, info;
      while temp != 0
        invariant k <= |threads| && temp == At(threads, k) && info.Keys == was.Keys
        invariant ProcessLists.MarkAwaited(was, threads, parentId, pid)
                  == ProcessLists.MarkAwaited(info, threads[k..], parentId, pid)
        invariant setwait <==> AnyAwaited(was, threads[..k], parentId, pid)
        invariant forall p | p in info :: IsAwaited(info, p, parentId, pid) == IsAwaited(was, p, parentId, pid)
        decreases |threads| - k
      {
        assert LinkAt(next, threads, k) && threads[k..][1..] == threads[k + 1..]
            && threads[..k + 1] == threads[..k] + [temp];
        if info[temp].ppid == parentId && parentId != 0 && info[temp].pid == pid {
          info := info[temp := info[temp].(isWait := true)];
          setwait := true;
        }
        temp, k := next[temp], k + 1;
      }
      assert k < |threads| ==> LinkAt(next, threads, k);
      assert threads[..k] == threads;
    }

    /** Unlink a thread behind `prev`. */
    method UnlinkThread(prev: nat, temp: nat)
      requires Chained() && temp in threads
      requires var k := IndexOf(threads, temp); 0 < k && prev == threads[k - 1]
      modifies `next, `threads
      ensures threads == Remove(old(threads), temp) && Linked(next, threadlist, threads)
              && Linked(next, blockedlist, blocked)
    {
      ghost var k := LinkedMember(next, threadlist, threads, temp);
      UnlinkedLinks(next, threadlist, threads, blockedlist, blocked, k - 1);
      next := next[prev := next[temp]];
      threads := Remove(threads, temp);
    }

    /** Move the current process, which `prev` links to, to the front of the blocked list. */
    method Block(prev: nat)
      requires Valid() && currentthread in threads
      requires var k := IndexOf(threads, currentthread); 0 < k && prev == threads[k - 1]
      modifies `next, `threads, `blocked, `blockedlist
      ensures threads == Remove(old(threads), currentthread) && blocked == [currentthread] + old(blocked)
      ensures Linked(next, threadlist, threads) && Linked(next, blockedlist, blocked)
    {
      var me := currentthread;
      ghost var k := LinkedMember(next, threadlist, threads, me);
      RemoveFacts(threads, me);
      UnlinkThread(prev, me);
      LinkedPush(next, blockedlist, blocked, me);
      LinkedFrame(next, next[me := blockedlist], threadlist, threads);
      if blockedlist == 0 {
        blockedlist := me;
        next := next[me := 0];
      } else {
        next := next[me := blockedlist];
        blockedlist := me;
      }
      blocked := [me] + blocked;
    }

    /** The caller, ready meanwhile, marks the child it waits for. */
    method MarkChild(pid: nat) returns (setwait: bool)
      requires Chain(threadlist, threads) && currentthread in info
      modifies `info
      ensures var parent := old(info)[currentthread].pid;
        && info == SetState(ProcessLists.MarkAwaited(old(info), threads, parent, pid), currentthread, READY)
        && (setwait <==> AnyAwaited(old(info), threads, parent, pid))
    {
      ghost var was, me := info, currentthread;
      var parentId := info[currentthread].pid;
      info := info[currentthread := info[currentthread].(state := READY)];
      MarkedState(was, threads, parentId, pid, me, READY);
      AwaitedState(was, threads, parentId, pid, me, READY);
      setwait := MarkAwaited(parentId, pid);
    }

    /** Take the caller off the thread list, by its process id. */
    method Unlist(ghost s: Sys)
      requires Valid() && Inv(s) && s.threads == threads && s.cur == currentthread && s.main == mainthread
      requires s.info[s.cur].pid != 0 && SamePids(s.info, info)
      modifies `next, `threads, `blocked, `blockedlist
      ensures threads == Remove(old(threads), currentthread) && blocked == [currentthread] + old(blocked)
      ensures Linked(next, threadlist, threads) && Linked(next, blockedlist, blocked)
    {
      assert forall p | p in threads :: p in Members(s);
      CallerIsFound(s, info);
      var prev, temp := FindById(threadlist, threads, info[currentthread].pid);
      if prev != 0 {
        Block(prev);
      }
    }

    /** `sys_waitpid` up to its call of `schedule`. */
    method EnterWait(pid: nat)
      requires Valid() && Inv(Abs()) && info[currentthread].state == RUNNING
      modifies this
      ensures Abs() == Wait(old(Abs()), pid) && Linked(next, threadlist, threads) && Linked(next, blockedlist, blocked)
    {
      ghost var s := Abs();
      ListedAreNodes(s);
      var setwait := MarkChild(pid);
      MarkedPids(s, pid, info);
      if setwait {
        Unlist(s);
      }
      info := info[currentthread := info[currentthread].(state := BLOCKED)];
    }

    method WaitPid(pid: nat)
      requires Valid() && Inv(Abs()) && info[currentthread].state == RUNNING
      modifies this
      ensures Valid() && Abs() == ProcessLists.WaitPid(old(Abs()), pid)
    {
      ghost var s := Abs();
      WaitKeepsInv(s, pid);
      EnterWait(pid);
      WaitLists(s, pid);
      assert currentthread in Members(Abs()) && mainthread in Members(Abs());
      assert forall p | p in threads :: p in Members(Abs());
      WaitInfo(s, pid, s.cur);
      Reschedule();
    }

    // -------------------------------------------------------------------------
    // exit

    /** The first running thread, which is the current one, and what follows it if it is not the head. */
    method FindRunning() returns (temp: nat, after: nat)
      requires Valid() && Inv(Abs()) && info[currentthread].state == RUNNING
      ensures temp == currentthread && (threads[0] != temp ==> temp in next && after == next[temp])
    {
      temp, after := threadlist, 0;
      ghost var s, k := Abs(), 0;
      ghost var n := LinkedMember(next, threadlist, threads, currentthread);
      assert LinkAt(next, threads, 0);
      assert forall p | p in threads :: p in Members(s);
      while info[temp].state != RUNNING
        invariant k <= n && temp == threads[k] && LinkAt(next, threads, k) && (k > 0 ==> after == next[temp])
        decreases n - k
      {
        assert LinkAt(next, threads, k + 1);
        temp, k := next[temp], k + 1;
        after := next[temp];
      }
    }

    /** Every process of the list that is the parent of the current one inherits its slice. */
    method PassSlice(head: nat, ghost s: seq<nat>)
      requires Chain(head, s) && currentthread in info
      modifies `info
      ensures info == Inherit(old(info), s, currentthread) && info.Keys == old(info).Keys
    {
      var temp1 := head;
      ghost var k, was := 0, info;
      while temp1 != 0
        invariant k <= |s| && temp1 == At(s, k) && info.Keys == was.Keys
        invariant Inherit(was, s, currentthread) == Inherit(info, s[k..], currentthread)
        decreases |s| - k
      {
        assert LinkAt(next, s, k) && s[k..][1..] == s[k + 1..];
        if info[currentthread].ppid == info[temp1].pid {
          info := info[temp1 := info[temp1].(slice := info[temp1].slice + info[currentthread].slice)];
        }
        temp1, k := next[temp1], k + 1;
      }
      assert k < |s| ==> LinkAt(next, s, k);
    }

    /** Put the blocked process `parent` between `place` and `after`, and cut the blocked list behind it. */
    method Requeue(place: nat, after: nat, parent: nat)
      requires Chained() && place in threads && place in next && after == next[place] && parent in blocked
               && parent in next
      modifies `next, `threads, `blocked, `blockedlist
      ensures threads == InsertAfter(old(threads), place, parent)
      ensures blocked == old(blocked)[IndexOf(old(blocked), parent) + 1..]
      ensures Linked(next, threadlist, threads) && Linked(next, blockedlist, blocked)
    {
      ghost var k := LinkedMember(next, blockedlist, blocked, parent);
      ghost var i := LinkedMember(next, threadlist, threads, place);
      WokenLinks(next, threadlist, threads, blockedlist, blocked, i, k);
      blockedlist := next[parent];
      next := next[place := parent];
      next := next[parent := after];
      threads, blocked := InsertAfter(threads, place, parent), blocked[k + 1..];
    }

    /** Look for the parent on the blocked list and put it behind `place`. */
    method WakeBehind(place: nat, after: nat, pid: nat)
      requires Chained() && Chain(blockedlist, blocked) && place in threads && place in next
               && after == next[place] && place != 0
      modifies `next, `threads, `blocked, `blockedlist
      ensures Abs() == Wake(old(Abs()), place, FindPid(info, old(blocked), pid))
      ensures Linked(next, threadlist, threads) && Linked(next, blockedlist, blocked)
    {
      var prev, parent := FindById(blockedlist, blocked, pid);
      WakeParts(Abs(), place, parent);
      if parent != 0 {
        ghost var k := LinkedMember(next, blockedlist, blocked, parent);
        Requeue(place, after, parent);
      }
    }

    /** The first half of `thread_on_completion`. */
    method Retire() returns (temp: nat, after: nat)
      requires Valid() && Inv(Abs()) && info[currentthread].state == RUNNING
      modifies `info
      ensures Valid() && info == Exited(old(Abs()))
      ensures temp == currentthread && (threads[0] != temp ==> temp in next && after == next[temp])
    {
      assert forall p | p in threads || p in blocked :: p in Members(Abs());
      temp, after := FindRunning();
      info := info[temp := info[temp].(state := ZOMBIE)];
      InheritSplit(info, threads, blocked, currentthread);
      PassSlice(threadlist, threads);
      PassSlice(blockedlist, blocked);
    }

    /** The second half: the parent of an awaited process is woken. */
    method WakeParent(temp: nat, after: nat)
      requires Valid() && temp in threads && temp == currentthread
      requires info[temp].ppid != 0 ==> temp in next && after == next[temp]
      modifies `next, `threads, `blocked, `blockedlist
      ensures var parent := FindPid(info, old(blocked), info[temp].ppid);
              Abs() == Wake(old(Abs()), WakeAfter(info, old(threads), temp), parent)
      ensures Linked(next, threadlist, threads) && Linked(next, blockedlist, blocked)
    {
      assert temp in Members(Abs()) && forall p | p in threads :: p in Members(Abs());
      if info[temp].ppid > 0 && info[temp].isWait {
        var anotherChild := FindSibling(temp);
        if anotherChild == 0 {
          WakeBehind(temp, after, info[temp].ppid);
        } else if !info[anotherChild].isWait {
          ghost var i := LinkedMember(next, threadlist, threads, anotherChild);
          WakeBehind(anotherChild, next[anotherChild], info[anotherChild].ppid);
        }
      }
    }

    method ThreadOnCompletion()
      requires Valid() && Inv(Abs()) && info[currentthread].state == RUNNING
      modifies this
      ensures Valid() && Abs() == Exit(old(Abs()))
    {
      ghost var s := Abs();
      ExitKeepsInv(s);
      ExitFields(s);
      assert currentthread in Members(s);
      var temp, after := Retire();
      ExitedParent(s);
      WakeParent(temp, after);
    }

    // -------------------------------------------------------------------------
    // kill

    /** Unlink a blocked process, the first one or one behind `prev`. */
    method UnlinkBlocked(prev: nat, temp: nat)
      requires Chained() && temp in blocked
      requires var k := IndexOf(blocked, temp); prev == if k == 0 then 0 else blocked[k - 1]
      modifies `next, `blocked, `blockedlist
      ensures blocked == Remove(old(blocked), temp) && Linked(next, threadlist, threads)
              && Linked(next, blockedlist, blocked)
    {
      ghost var k := LinkedMember(next, blockedlist, blocked, temp);
      if prev != 0 {
        UnlinkedLinks(next, blockedlist, blocked, threadlist, threads, k - 1);
        next := next[prev := next[temp]];
      } else {
        assert k > 0 ==> LinkAt(next, blocked, k - 1);
        LinkedSuffix(next, blockedlist, blocked, 1);
        assert Remove(blocked, temp) == blocked[1..];
        blockedlist := next[temp];
      }
      blocked := Remove(blocked, temp);
    }

    /** The searches of `sys_kill`: the head of the thread list stays. */
    method Unlink(pid: nat)
      requires Chained() && Chain(threadlist, threads) && Chain(blockedlist, blocked)
      modifies `next, `threads, `blocked, `blockedlist
      ensures Abs() == ProcessLists.Kill(old(Abs()), pid)
      ensures Linked(next, threadlist, threads) && Linked(next, blockedlist, blocked)
    {
      var prev, current := FindById(threadlist, threads, pid);
      if current != 0 {
        if prev != 0 {
          UnlinkThread(prev, current);
        } else {
          assert IndexOf(threads, current) > 0 ==> LinkAt(next, threads, IndexOf(threads, current) - 1);
        }
      } else {
        prev, current := FindById(blockedlist, blocked, pid);
        if current != 0 {
          UnlinkBlocked(prev, current);
        }
      }
    }

    /** `sys_kill(pid, 9)` of another process. */
    method Kill(pid: nat)
      requires Valid() && Inv(Abs()) && pid != info[currentthread].pid
      modifies `next, `threads, `blocked, `blockedlist
      ensures Valid() && Abs() == ProcessLists.Kill(old(Abs()), pid)
    {
      KillKeepsInv(Abs(), pid);
      assert forall p | p in threads || p in blocked :: p in Members(Abs());
      Unlink(pid);
    }
  }

  /** The current process still has its parent id after it has become a zombie; the head of the list has none. */
  lemma ExitedParent(s: Sys)
    requires Inv(s)
    ensures s.cur in Exited(s) && Exited(s)[s.cur].ppid == s.info[s.cur].ppid
    ensures s.info[s.cur].ppid != 0 ==> s.threads[0] != s.cur
  {
    ExitInfo(s, s.cur);
  }

  /** Unlinking from one list leaves the other alone. */
  lemma UnlinkedLinks(next: map<nat, nat>, head: nat, s: seq<nat>, head': nat, s': seq<nat>, k: nat)
    requires Linked(next, head, s) && Linked(next, head', s') && Distinct(s) && forall p | p in s :: p !in s'
    requires k + 1 < |s| && s[k + 1] in next
    ensures var next' := next[s[k] := next[s[k + 1]]];
            Linked(next', head, s[..k + 1] + s[k + 2..]) && Linked(next', head', s')
  {
    LinkedRemove(next, head, s, k);
    assert s[k] in s;
    LinkedFrame(next, next[s[k] := next[s[k + 1]]], head', s');
  }

  lemma WakeParts(s: Sys, place: nat, parent: nat)
    requires place != 0 && (parent != 0 ==> parent in s.blocked)
    ensures Wake(s, place, parent) ==
            if parent == 0 then s
            else s.(threads := InsertAfter(s.threads, place, parent),
                    blocked := s.blocked[IndexOf(s.blocked, parent) + 1..])
  {
  }

  lemma WokenLinks(next: map<nat, nat>, threadlist: nat, threads: seq<nat>, blockedlist: nat, blocked: seq<nat>,
      i: nat, k: nat)
    requires Linked(next, threadlist, threads) && Linked(next, blockedlist, blocked) && Distinct(threads)
             && Distinct(blocked)
    requires forall p | p in threads :: p !in blocked
    requires i < |threads| && k < |blocked| && LinkAt(next, blocked, k) && LinkAt(next, threads, i)
    ensures var next' := AfterInsert(next, threads[i], blocked[k]);
      && Linked(next', threadlist, threads[..i + 1] + [blocked[k]] + threads[i + 1..])
      && Linked(next', next[blocked[k]], blocked[k + 1..])
  {
    LinkedInsert(next, threadlist, threads, i, blocked[k]);
    LinkedSuffix(next, blockedlist, blocked, k + 1);
    assert threads[i] in threads && forall p | p in blocked[k + 1..] :: p in blocked && p != blocked[k];
    LinkedFrame(next, AfterInsert(next, threads[i], blocked[k]), At(blocked, k + 1), blocked[k + 1..]);
  }

  lemma InsertedLinks(s: Sys, next: map<nat, nat>, threadlist: nat, blockedlist: nat, p: nat, q: nat)
    requires ListsOk(s) && Linked(next, threadlist, s.threads) && Linked(next, blockedlist, s.blocked)
    requires p in s.threads && Unused(s, q)
    ensures Linked(AfterInsert(next, p, q), threadlist, InsertAfter(s.threads, p, q))
    ensures Linked(AfterInsert(next, p, q), blockedlist, s.blocked)
  {
    assert q !in s.threads && q !in s.blocked by {
      assert forall x | x in s.threads || x in s.blocked :: x in Members(s);
    }
    var i := LinkedMember(next, threadlist, s.threads, p);
    LinkedInsert(next, threadlist, s.threads, i, q);
    LinkedFrame(next, AfterInsert(next, p, q), blockedlist, s.blocked);
  }

  lemma InsertedLists(s: Sys, p: nat, q: nat)
    requires ListsOk(s) && p in s.threads && Unused(s, q) && q in s.info
    ensures ListsOk(s.(threads := InsertAfter(s.threads, p, q)))
  {
    var t := s.(threads := InsertAfter(s.threads, p, q));
    assert forall x | x in s.threads || x in s.blocked :: x in Members(s);
    InsertFacts(s.threads, p, q);
    assert forall x | x in Members(t) :: x in Members(s) || x == q;
    assert forall x | x in Members(s) :: x in Members(t);
  }

  lemma ListedAreNodes(s: Sys)
    requires ListsOk(s)
    ensures forall p | p in s.threads :: p in s.info
    ensures forall p | p in s.blocked :: p in s.info
  {
    assert forall p | p in s.threads || p in s.blocked :: p in Members(s);
  }

  ghost predicate AnyAwaited(info: map<nat, Info>, s: seq<nat>, parent: nat, pid: nat) {
    exists p :: p in s && IsAwaited(info, p, parent, pid)
  }

  ghost predicate SamePids(info: map<nat, Info>, info': map<nat, Info>) {
    forall p | p in info :: p in info' && info'[p].pid == info[p].pid
  }

  lemma AwaitedState(info: map<nat, Info>, s: seq<nat>, parent: nat, pid: nat, q: nat, st: State)
    requires q in info
    ensures AnyAwaited(info[q := info[q].(state := st)], s, parent, pid) <==> AnyAwaited(info, s, parent, pid)
  {
    var info' := info[q := info[q].(state := st)];
    assert forall p :: IsAwaited(info', p, parent, pid) <==> IsAwaited(info, p, parent, pid);
  }

  lemma MarkedPids(s: Sys, pid: nat, info: map<nat, Info>)
    requires Inv(s)
    requires info == SetState(ProcessLists.MarkAwaited(s.info, s.threads, s.info[s.cur].pid, pid), s.cur, READY)
    ensures SamePids(s.info, info) && forall p | p in Members(s) :: p in info
    ensures SetState(info, s.cur, BLOCKED)
            == SetState(ProcessLists.MarkAwaited(s.info, s.threads, s.info[s.cur].pid, pid), s.cur, BLOCKED)
    ensures s.cur in info
  {
    forall p | p in s.info ensures p in info && info[p].pid == s.info[p].pid {
      MarkInfo(s.info, s.threads, s.info[s.cur].pid, pid, p);
    }
  }

  /** Marking the awaited children and setting a state commute. */
  lemma {:induction false} MarkedState(info: map<nat, Info>, s: seq<nat>, parent: nat, pid: nat, p: nat, st: State)
    requires p in info
    ensures p in ProcessLists.MarkAwaited(info, s, parent, pid)
    ensures ProcessLists.MarkAwaited(info[p := info[p].(state := st)], s, parent, pid)
            == SetState(ProcessLists.MarkAwaited(info, s, parent, pid), p, st)
  {
    if s != [] {
      var marked := if IsAwaited(info, s[0], parent, pid) then info[s[0] := info[s[0]].(isWait := true)] else info;
      var info' := info[p := info[p].(state := st)];
      var marked' := if IsAwaited(info', s[0], parent, pid) then info'[s[0] := info'[s[0]].(isWait := true)] else info';
      assert marked' == marked[p := marked[p].(state := st)];
      MarkedState(marked, s[1..], parent, pid, p, st);
    }
  }

  /** The thread that `sys_waitpid` finds by its own process id is the caller, and it is not the first one. */
  lemma CallerIsFound(s: Sys, info: map<nat, Info>)
    requires Inv(s) && s.info[s.cur].pid != 0
    requires SamePids(s.info, info)
    ensures FindPid(info, s.threads, s.info[s.cur].pid) == s.cur && 0 < IndexOf(s.threads, s.cur)
    ensures s.threads[IndexOf(s.threads, s.cur) - 1] != 0
  {
    var pid := s.info[s.cur].pid;
    assert s.cur in Members(s) && s.main in Members(s);
    FindPidFinds(info, s.threads, pid, s.cur);
    assert FindPid(info, s.threads, pid) in Members(s);
    assert s.threads[IndexOf(s.threads, s.cur) - 1] in Members(s);
  }

  lemma InsertAtEnd(s: seq<nat>, q: nat)
    requires Distinct(s) && s != []
    ensures InsertAfter(s, s[|s| - 1], q) == s + [q]
  {
    AtIndex(s, s[|s| - 1], |s| - 1);
  }
}
