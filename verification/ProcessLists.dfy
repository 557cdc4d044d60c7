/**
  The process lists as sequences: what `schedule`, `sys_fork`, `sys_waitpid`, `sys_kill`,
  `create_thread` and `thread_on_completion` do to them.

  A process is the address of its PCB.  `info` holds the PCB fields other than `next`.
 */
module ProcessLists {

  datatype State = RUNNING | READY | ZOMBIE | BLOCKED

  datatype Info = Info(pid: nat, ppid: nat, isWait: bool, state: State, slice: nat)

  /** `threadlist`, `blockedlist`, `currentthread`, `mainthread`, the PCBs, and `processcount`. */
  datatype Sys = Sys(threads: seq<nat>, blocked: seq<nat>, cur: nat, main: nat, info: map<nat, Info>, count: nat)

  function IndexOf(s: seq<nat>, p: nat): (k: nat)
    ensures k <= |s| && (k < |s| <==> p in s) && (k < |s| ==> s[k] == p) && p !in s[..k]
  {
    if s == [] then 0 else if s[0] == p then 0 else IndexOf(s[1..], p) + 1
  }

  /** The first process of the list in state `st`, or 0. */
  function FirstIn(info: map<nat, Info>, s: seq<nat>, st: State): (p: nat)
    ensures p != 0 ==> p in s && p in info && info[p].state == st
  {
    if s == [] then 0
    else if s[0] != 0 && s[0] in info && info[s[0]].state == st then s[0]
    else FirstIn(info, s[1..], st)
  }

  /** The first process of the list with process id `pid`, or 0. */
  function FindPid(info: map<nat, Info>, s: seq<nat>, pid: nat): (p: nat)
    ensures p != 0 ==> p in s && p in info && info[p].pid == pid
  {
    if s == [] then 0
    else if s[0] != 0 && s[0] in info && info[s[0]].pid == pid then s[0]
    else FindPid(info, s[1..], pid)
  }

  function InsertAfter(s: seq<nat>, p: nat, q: nat): seq<nat> {
    var k := IndexOf(s, p);
    if k < |s| then s[..k + 1] + [q] + s[k + 1..] else s
  }

  function Remove(s: seq<nat>, p: nat): seq<nat> {
    var k := IndexOf(s, p);
    if k < |s| then s[..k] + s[k + 1..] else s
  }

  function SetState(info: map<nat, Info>, p: nat, st: State): map<nat, Info> {
    if p in info then info[p := info[p].(state := st)] else info
  }

  // ---------------------------------------------------------------------------
  // The operations

  /** The threads behind the current one, where `schedule` looks first. */
  function BehindCurrent(s: Sys): seq<nat> {
    if s.cur in s.threads && s.cur in s.info && s.info[s.cur].state != BLOCKED
    then s.threads[IndexOf(s.threads, s.cur) + 1..] else []
  }

  /** `schedule`: the next ready process after the current one in cyclic order; `mainthread` if none is. */
  function Dispatch(s: Sys): nat {
    var next := FirstIn(s.info, BehindCurrent(s) + s.threads, READY);
    if next == 0 then s.main else next
  }

  function StateAfterDispatch(s: Sys): State
    requires s.cur in s.info
  {
    if s.cur == s.main || s.info[s.cur].state == ZOMBIE then ZOMBIE else READY
  }

  function Schedule(s: Sys): Sys
    requires s.cur in s.info
  {
    var next := Dispatch(s);
    s.(cur := next, info := SetState(SetState(s.info, s.cur, StateAfterDispatch(s)), next, RUNNING))
  }

  /** `create_thread`: a new ready thread at the end of the list. */
  function CreateThread(s: Sys, p: nat, page: Info): Sys {
    s.(threads := s.threads + [p], info := s.info[p := page.(state := READY, slice := 1)])
  }

  /** `sys_fork`: the child comes right behind its parent and gets half of its slice.  Nothing sets its wait flag:
      it is what the recycled page holds. */
  function Fork(s: Sys, p: nat, page: Info): Sys
    requires s.cur in s.info
  {
    var me := s.info[s.cur];
    var child := Info(s.count + 1, me.pid, page.isWait, READY, me.slice / 2);
    s.(threads := InsertAfter(s.threads, s.cur, p),
       info := s.info[s.cur := me.(slice := me.slice / 2)][p := child],
       count := s.count + 1)
  }

  /** `MAXSLICE`, the slice of the first user process. */
  const MAXSLICE: nat := 8

  /** `user_process`: the current kernel thread becomes the first user process. */
  function StartUser(s: Sys): Sys
    requires s.cur in s.info
  {
    s.(info := s.info[s.cur := s.info[s.cur].(pid := 1, ppid := 0, slice := MAXSLICE)], count := 1)
  }

  /** A thread `sys_waitpid(pid)` marks: a child of the caller with that id. */
  predicate IsAwaited(info: map<nat, Info>, p: nat, parent: nat, pid: nat) {
    p in info && info[p].ppid == parent && parent != 0 && info[p].pid == pid
  }

  function MarkAwaited(info: map<nat, Info>, s: seq<nat>, parent: nat, pid: nat): map<nat, Info> {
    if s == [] then info
    else
      var marked := if IsAwaited(info, s[0], parent, pid) then info[s[0] := info[s[0]].(isWait := true)] else info;
      MarkAwaited(marked, s[1..], parent, pid)
  }

  /** `sys_waitpid` up to its call of `schedule`. */
  function Wait(s: Sys, pid: nat): Sys
    requires s.cur in s.info
  {
    var parent := s.info[s.cur].pid;
    var info := SetState(MarkAwaited(s.info, s.threads, parent, pid), s.cur, BLOCKED);
    if exists p :: p in s.threads && IsAwaited(s.info, p, parent, pid)
    then s.(threads := Remove(s.threads, s.cur), blocked := [s.cur] + s.blocked, info := info)
    else s.(info := info)
  }

  function WaitPid(s: Sys, pid: nat): Sys
    requires s.cur in s.info
    ensures s.cur in Wait(s, pid).info
  {
    MarkKeepsKeys(s.info, s.threads, s.info[s.cur].pid, pid);
    Schedule(Wait(s, pid))
  }

  lemma {:induction false} MarkKeepsKeys(info: map<nat, Info>, s: seq<nat>, parent: nat, pid: nat)
    ensures MarkAwaited(info, s, parent, pid).Keys == info.Keys
  {
    if s != [] {
      var marked := if IsAwaited(info, s[0], parent, pid) then info[s[0] := info[s[0]].(isWait := true)] else info;
      MarkKeepsKeys(marked, s[1..], parent, pid);
      assert marked.Keys == info.Keys;
    }
  }

  /** The slice of `cur` goes to every process of the list whose id is its parent id, one after the other. */
  function Inherit(info: map<nat, Info>, s: seq<nat>, cur: nat): map<nat, Info> {
    if s == [] then info
    else
      var given := if s[0] in info && cur in info && info[s[0]].pid == info[cur].ppid
                   then info[s[0] := info[s[0]].(slice := info[s[0]].slice + info[cur].slice)] else info;
      Inherit(given, s[1..], cur)
  }

  /** Another child of the same parent that is alive and on the thread list, or 0. */
  function Sibling(info: map<nat, Info>, s: seq<nat>, p: nat): (q: nat)
    requires p in info
    ensures q != 0 ==> q in s && q in info && q != p && info[q].state != ZOMBIE && info[q].ppid == info[p].ppid
  {
    if s == [] then 0
    else if s[0] != 0 && s[0] in info && s[0] != p && info[s[0]].state != ZOMBIE
        && info[s[0]].ppid == info[p].ppid then s[0]
    else Sibling(info, s[1..], p)
  }

  /** Where `thread_on_completion` puts the parent of an awaited process: behind it, behind a sibling that is
      still alive, or nowhere (0). */
  function WakeAfter(info: map<nat, Info>, threads: seq<nat>, cur: nat): nat
    requires cur in info
  {
    if info[cur].ppid == 0 || !info[cur].isWait then 0
    else
      var q := Sibling(info, threads, cur);
      if q == 0 then cur else if info[q].isWait then 0 else q
  }

  /** The PCBs after the exiting process has become a zombie and its parents have inherited its slice. */
  function Exited(s: Sys): map<nat, Info> {
    Inherit(SetState(s.info, s.cur, ZOMBIE), s.threads + s.blocked, s.cur)
  }

  /** The blocked parent goes behind `place`.  Taking it off the blocked list also drops what is in front of it. */
  function Wake(s: Sys, place: nat, parent: nat): Sys {
    if place == 0 || parent == 0 then s
    else
      var k := IndexOf(s.blocked, parent);
      s.(threads := InsertAfter(s.threads, place, parent),
         blocked := if k < |s.blocked| then s.blocked[k + 1..] else [])
  }

  /** `thread_on_completion` of the current process. */
  function Exit(s: Sys): Sys
    requires s.cur in s.info
  {
    var info := Exited(s);
    var place := if s.cur in info then WakeAfter(info, s.threads, s.cur) else 0;
    Wake(s.(info := info), place, FindPid(info, s.blocked, s.info[s.cur].ppid))
  }

  /** `sys_kill(pid, 9)` of another process. */
  function Kill(s: Sys, pid: nat): Sys {
    var p := FindPid(s.info, s.threads, pid);
    var q := FindPid(s.info, s.blocked, pid);
    if p != 0 then (if IndexOf(s.threads, p) == 0 then s else s.(threads := Remove(s.threads, p)))
    else if q != 0 then s.(blocked := Remove(s.blocked, q))
    else s
  }
}
