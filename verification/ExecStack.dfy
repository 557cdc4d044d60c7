/**
  How `do_execvpe` lays arguments and environment out on the new user stack, and that a started
  program reads exactly the lists it was given back from it.

  User memory is an array of bytes indexed by address; the stack grows down from `ursp`.
 */
module ExecStack {
  import opened CStrings
  import opened Wrappers

  ghost predicate AreCStrings(list: seq<seq<Byte>>) {
    forall s | s in list :: IsCString(s)
  }

  // ---------------------------------------------------------------------------
  // The layout

  /** `n` bytes of `v`, the least significant first. */
  function LittleEndian(v: nat, n: nat): (b: seq<Byte>)
    ensures |b| == n
  {
    if n == 0 then [] else [v % 256] + LittleEndian(v / 256, n - 1)
  }

  function Word(v: nat): (b: seq<Byte>)
    ensures |b| == 8
  {
    LittleEndian(v, 8)
  }

  /** The strings one behind the other, each with its NUL. */
  function Strings(list: seq<seq<Byte>>): seq<Byte> {
    if list == [] then [] else list[0] + [0] + Strings(list[1..])
  }

  /** Pointers to the strings of `list`, which end at `end`, and a final NULL. */
  function Pointers(list: seq<seq<Byte>>, end: int): (b: seq<Byte>)
    requires |Strings(list)| <= end
    ensures |b| == 8 * |list| + 8
  {
    if list == [] then Word(0) else Word(end - |Strings(list)|) + Pointers(list[1..], end)
  }

  /** The bytes of a whole frame. */
  function FrameSize(args: seq<seq<Byte>>, envs: seq<seq<Byte>>): nat {
    24 + (8 * |args| + 8) + (8 * |envs| + 8) + |Strings(args)| + |Strings(envs)|
  }

  /** The word in `slot` is the address `p` of an array of pointers to the strings that end at `end`. */
  ghost predicate ListIn(m: seq<Byte>, slot: nat, p: nat, list: seq<seq<Byte>>, end: nat) {
    && |Strings(list)| < end && p < |m| && Holds(m, slot, Word(p))
    && Holds(m, p, Pointers(list, end)) && Holds(m, end - |Strings(list)|, Strings(list))
  }

  /** The frame at `sp`, below `top`: argc, argv and envp, both pointer arrays, the argument strings, which end at
      `argEnd`, and the environment strings, with nothing between them. */
  ghost predicate FrameAt(m: seq<Byte>, sp: nat, args: seq<seq<Byte>>, envs: seq<seq<Byte>>, argEnd: nat, top: nat) {
    && sp == top - FrameSize(args, envs) && argEnd == top - |Strings(envs)| && Holds(m, sp, Word(|args|))
    && ListIn(m, sp + 8, sp + 24, args, argEnd) && ListIn(m, sp + 16, EnvpOf(sp, args), envs, top)
  }

  /** The environment pointers come behind the head and the argument pointers. */
  function EnvpOf(sp: nat, args: seq<seq<Byte>>): nat {
    sp + 24 + 8 * |args| + 8
  }

  /** Nothing outside `lo` to `hi` has changed. */
  ghost predicate SameOutside(m: seq<Byte>, m': seq<Byte>, lo: int, hi: int) {
    |m'| == |m| && forall i {:trigger m'[i]} | 0 <= i < |m| && (i < lo || hi <= i) :: m'[i] == m[i]
  }

  // ---------------------------------------------------------------------------
  // What the started program reads

  function Value(m: seq<Byte>, a: nat, n: nat): nat
    requires a + n <= |m|
    decreases |m| - a
  {
    if n == 0 then 0 else m[a] + 256 * Value(m, a + 1, n - 1)
  }

  function WordAt(m: seq<Byte>, a: nat): nat {
    if a + 8 <= |m| then Value(m, a, 8) else 0
  }

  /** The strings that the pointers at `a` up to the next NULL lead to. */
  function StringsAt(m: seq<Byte>, a: nat): seq<seq<Byte>>
    decreases |m| - a
  {
    if WordAt(m, a) == 0 || |m| < a + 8 then [] else [StringAt(m, WordAt(m, a))] + StringsAt(m, a + 8)
  }

  // ---------------------------------------------------------------------------
  // Pushing

  lemma HoldsJoin(m: seq<Byte>, a: int, x: seq<Byte>, y: seq<Byte>)
    requires Holds(m, a, x) && Holds(m, a + |x|, y)
    ensures Holds(m, a, x + y)
  {
    forall i | 0 <= i < |x + y| ensures m[a + i] == (x + y)[i] {
      assert i >= |x| ==> (x + y)[i] == y[i - |x|];
    }
  }

  lemma HoldsKept(m: seq<Byte>, m': seq<Byte>, a: int, b: seq<Byte>, lo: int, hi: int)
    requires Holds(m, a, b) && SameOutside(m, m', lo, hi) && (hi <= a || a + |b| <= lo)
    ensures Holds(m', a, b)
  {
  }

  lemma SuffixStrings(list: seq<seq<Byte>>, k: nat)
    requires k < |list|
    ensures Strings(list[k..]) == list[k] + [0] + Strings(list[k + 1..])
    ensures |Strings(list[k..])| <= |Strings(list)|
  {
    assert list[k..][1..] == list[k + 1..];
    SuffixFits(list, k);
  }

  lemma {:induction false} SuffixFits(list: seq<seq<Byte>>, k: nat)
    requires k <= |list|
    ensures |Strings(list[k..])| <= |Strings(list)|
  {
    if k == 0 {
      assert list[0..] == list;
    } else {
      SuffixFits(list[1..], k - 1);
      assert list[1..][k - 1..] == list[k..];
    }
  }

  lemma SuffixPointers(list: seq<seq<Byte>>, k: nat, end: nat)
    requires k < |list| && |Strings(list)| <= end
    ensures |Strings(list[k..])| <= end && |Strings(list[k + 1..])| <= end
    ensures Pointers(list[k..], end) == Word(end - |Strings(list[k..])|) + Pointers(list[k + 1..], end)
  {
    SuffixFits(list, k);
    SuffixFits(list, k + 1);
    FirstPointerOf(list[k..], end);
    assert list[k..][1..] == list[k + 1..] && list[k..] != [];
  }

  lemma FirstPointerOf(list: seq<seq<Byte>>, end: nat)
    requires list != [] && |Strings(list)| <= end && |Strings(list[1..])| <= end
    ensures Pointers(list, end) == Word(end - |Strings(list)|) + Pointers(list[1..], end)
  {
  }

  class UserStack {
    const mem: array<Byte>
    var ursp: nat

    constructor (mem: array<Byte>, ursp: nat)
      ensures this.mem == mem && this.ursp == ursp
    {
      this.mem, this.ursp := mem, ursp;
    }

    /** `kstrcopy(a, s)`. */
    method Copy(a: nat, s: seq<Byte>)
      requires a + |s| + 1 <= mem.Length
      modifies mem
      ensures Holds(mem[..], a, s + [0]) && SameOutside(old(mem[..]), mem[..], a, a + |s| + 1)
    {
      var i := 0;
      while i < |s|
        invariant i <= |s| && Holds(mem[..], a, s[..i]) && SameOutside(old(mem[..]), mem[..], a, a + i)
      {
        mem[a + i] := s[i];
        i := i + 1;
      }
      mem[a + i] := 0;
    }

    /** Store a 64-bit word. */
    method Store(a: nat, v: nat)
      requires a + 8 <= mem.Length
      modifies mem
      ensures Holds(mem[..], a, Word(v)) && SameOutside(old(mem[..]), mem[..], a, a + 8)
    {
      ghost var b := Word(v);
      var i, rest := 0, v;
      while i < 8
        invariant i <= 8 && Holds(mem[..], a, b[..i]) && SameOutside(old(mem[..]), mem[..], a, a + i)
        invariant b[i..] == LittleEndian(rest, 8 - i)
      {
        assert b[i] == rest % 256 && b[i + 1..] == b[i..][1..];
        mem[a + i] := rest % 256;
        i, rest := i + 1, rest / 256;
      }
      assert b[..8] == b;
    }

    /** Push the strings of a list below `stack`, the last one first. */
    method PushStrings(list: seq<seq<Byte>>, stack: nat) returns (bottom: nat)
      requires |Strings(list)| <= stack <= mem.Length
      modifies mem
      ensures bottom == stack - |Strings(list)| && Holds(mem[..], bottom, Strings(list))
      ensures SameOutside(old(mem[..]), mem[..], bottom, stack)
    {
      bottom := stack;
      var i := |list|;
      while i > 0
        invariant 0 <= i <= |list| && bottom == stack - |Strings(list[i..])| && |Strings(list[i..])| <= |Strings(list)|
        invariant Holds(mem[..], bottom, Strings(list[i..])) && SameOutside(old(mem[..]), mem[..], bottom, stack)
      {
        i := i - 1;
        SuffixStrings(list, i);
        ghost var m := mem[..];
        bottom := bottom - |list[i]| - 1;
        Copy(bottom, list[i]);
        HoldsKept(m, mem[..], bottom + |list[i]| + 1, Strings(list[i + 1..]), bottom, bottom + |list[i]| + 1);
        HoldsJoin(mem[..], bottom, list[i] + [0], Strings(list[i + 1..]));
      }
      assert list[0..] == list;
    }

    /** Store the address of string `i` of a list in front of the pointers to those behind it. */
    method PushPointer(list: seq<seq<Byte>>, i: nat, temp: nat, end: nat, slot: nat)
      requires i < |list| && |Strings(list)| <= end && |Strings(list[i..])| <= end && |Strings(list[i + 1..])| <= end
      requires temp == end - |Strings(list[i..])| && slot + 8 <= mem.Length
               && Holds(mem[..], slot + 8, Pointers(list[i + 1..], end))
      modifies mem
      ensures Holds(mem[..], slot, Pointers(list[i..], end)) && SameOutside(old(mem[..]), mem[..], slot, slot + 8)
    {
      SuffixPointers(list, i, end);
      ghost var m := mem[..];
      Store(slot, temp);
      HoldsKept(m, mem[..], slot + 8, Pointers(list[i + 1..], end), slot, slot + 8);
      HoldsJoin(mem[..], slot, Word(temp), Pointers(list[i + 1..], end));
    }

    /** The second pass over a list: NULL, then the addresses of the strings that end at `end`, counted down again. */
    method PushPointers(list: seq<seq<Byte>>, end: nat)
      requires |Strings(list)| <= end && 8 * |list| + 8 <= ursp <= mem.Length
      modifies this, mem
      ensures ursp == old(ursp) - (8 * |list| + 8) && Holds(mem[..], ursp, Pointers(list, end))
      ensures SameOutside(old(mem[..]), mem[..], ursp, old(ursp))
    {
      ursp := ursp - 8;
      Store(ursp, 0);
      var temp, i := end, |list|;
      ghost var slot := ursp;
      while i >= 1
        invariant 0 <= i <= |list| && |Strings(list[i..])| <= end && ursp == old(ursp) - 8
                  && slot == ursp - 8 * (|list| - i)
        invariant temp == end - |Strings(list[i..])| && Holds(mem[..], slot, Pointers(list[i..], end))
        invariant SameOutside(old(mem[..]), mem[..], slot, old(ursp))
      {
        SuffixStrings(list, i - 1);
        temp := temp - |list[i - 1]| - 1;
        PushPointer(list, i - 1, temp, end, ursp - 8 * (|list| - i + 1));
        i, slot := i - 1, slot - 8;
      }
      assert list[0..] == list;
      ursp := ursp - 8 * |list|;
    }

    /** argc, argv and envp. */
    method PushHead(argc: nat, envtemp: nat)
      requires 24 <= ursp <= mem.Length
      modifies this, mem
      ensures ursp == old(ursp) - 24 && SameOutside(old(mem[..]), mem[..], ursp, old(ursp))
      ensures Holds(mem[..], ursp, Word(argc)) && Holds(mem[..], ursp + 8, Word(old(ursp)))
      ensures Holds(mem[..], ursp + 16, Word(envtemp))
    {
      Store(ursp - 8, envtemp);
      ghost var m := mem[..];
      Store(ursp - 16, ursp);
      HoldsKept(m, mem[..], ursp - 8, Word(envtemp), ursp - 16, ursp - 8);
      m := mem[..];
      Store(ursp - 24, argc);
      HoldsKept(m, mem[..], ursp - 8, Word(envtemp), ursp - 24, ursp - 16);
      HoldsKept(m, mem[..], ursp - 16, Word(ursp), ursp - 24, ursp - 16);
      ursp := ursp - 24;
    }

    /** Both groups of strings. */
    method PushBoth(args: seq<seq<Byte>>, envs: seq<seq<Byte>>) returns (argtemp: nat, stack: nat)
      requires |Strings(args)| + |Strings(envs)| <= ursp <= mem.Length
      modifies mem
      ensures argtemp == ursp - |Strings(envs)| && stack == argtemp - |Strings(args)|
      ensures Holds(mem[..], stack, Strings(args)) && Holds(mem[..], argtemp, Strings(envs))
      ensures SameOutside(old(mem[..]), mem[..], stack, ursp)
    {
      argtemp := PushStrings(envs, ursp);
      ghost var m := mem[..];
      stack := PushStrings(args, argtemp);
      HoldsKept(m, mem[..], argtemp, Strings(envs), stack, argtemp);
    }

    /** Both pointer arrays. */
    method PushArrays(args: seq<seq<Byte>>, envs: seq<seq<Byte>>, argtemp: nat, temp: nat) returns (envtemp: nat)
      requires |Strings(args)| <= argtemp && |Strings(envs)| <= temp
      requires 8 * |args| + 8 + 8 * |envs| + 8 <= ursp <= mem.Length
      modifies this, mem
      ensures envtemp == old(ursp) - (8 * |envs| + 8) && ursp == envtemp - (8 * |args| + 8)
      ensures Holds(mem[..], ursp, Pointers(args, argtemp)) && Holds(mem[..], envtemp, Pointers(envs, temp))
      ensures SameOutside(old(mem[..]), mem[..], ursp, old(ursp))
    {
      PushPointers(envs, temp);
      envtemp := ursp;
      ghost var m := mem[..];
      PushPointers(args, argtemp);
      HoldsKept(m, mem[..], envtemp, Pointers(envs, temp), ursp, envtemp);
    }

    /** The stack part of `do_execvpe`. */
    method DoExecvpe(args: seq<seq<Byte>>, envs: seq<seq<Byte>>) returns (argtemp: nat)
      requires FrameSize(args, envs) <= ursp <= mem.Length
      modifies this, mem
      ensures FrameAt(mem[..], ursp, args, envs, argtemp, old(ursp))
      ensures SameOutside(old(mem[..]), mem[..], ursp, old(ursp))
    {
      ghost var m0 := mem[..];
      var temp := ursp;
      var stack;
      argtemp, stack := PushBoth(args, envs);
      ghost var m1 := mem[..];
      ursp := stack;
      var envtemp := PushArrays(args, envs, argtemp, temp);
      ghost var m2 := mem[..];
      var argv := ursp;
      PushHead(|args|, envtemp);
      FrameIsBuilt(m0, m1, m2, mem[..], ursp, argv, envtemp, stack, argtemp, temp, args, envs);
    }
  }

  /** The strings survive the pointers, and both survive the head. */
  lemma FrameIsBuilt(m0: seq<Byte>, m1: seq<Byte>, m2: seq<Byte>, m3: seq<Byte>, sp: nat, argv: nat, envp: nat,
      stack: nat, argEnd: nat, top: nat, args: seq<seq<Byte>>, envs: seq<seq<Byte>>)
    requires argEnd == top - |Strings(envs)| && stack == argEnd - |Strings(args)|
    requires envp == stack - (8 * |envs| + 8) && argv == envp - (8 * |args| + 8) && sp == argv - 24
    requires Holds(m1, stack, Strings(args)) && Holds(m1, argEnd, Strings(envs)) && SameOutside(m0, m1, stack, top)
    requires Holds(m2, argv, Pointers(args, argEnd)) && Holds(m2, envp, Pointers(envs, top))
             && SameOutside(m1, m2, argv, stack)
    requires Holds(m3, sp, Word(|args|)) && Holds(m3, sp + 8, Word(argv)) && Holds(m3, sp + 16, Word(envp))
    requires SameOutside(m2, m3, sp, argv)
    ensures FrameAt(m3, sp, args, envs, argEnd, top) && SameOutside(m0, m3, sp, top)
  {
    HoldsKept(m1, m2, stack, Strings(args), argv, stack);
    HoldsKept(m2, m3, stack, Strings(args), sp, argv);
    HoldsKept(m1, m2, argEnd, Strings(envs), argv, stack);
    HoldsKept(m2, m3, argEnd, Strings(envs), sp, argv);
    HoldsKept(m2, m3, argv, Pointers(args, argEnd), sp, argv);
    HoldsKept(m2, m3, envp, Pointers(envs, top), sp, argv);
  }

  // ---------------------------------------------------------------------------
  // Reading it back

  function Power256(n: nat): (p: nat)
    ensures 0 < p
  {
    if n == 0 then 1 else 256 * Power256(n - 1)
  }

  lemma {:induction false} ValueOfBytes(m: seq<Byte>, a: nat, v: nat, n: nat)
    requires v < Power256(n) && Holds(m, a, LittleEndian(v, n))
    ensures Value(m, a, n) == v
    decreases n
  {
    if n > 0 {
      var b := LittleEndian(v, n);
      HoldsTail(m, a, b, 1);
      assert b[1..] == LittleEndian(v / 256, n - 1) && m[a] == b[0];
      ValueOfBytes(m, a + 1, v / 256, n - 1);
    }
  }

  lemma PowerIs64()
    ensures Power256(8) == TWO64
  {
    assert Power256(4) == 0x1_0000_0000;
  }

  lemma ReadsWord(m: seq<Byte>, a: nat, v: nat)
    requires Holds(m, a, Word(v)) && v < TWO64
    ensures WordAt(m, a) == v && a + 8 <= |m|
  {
    PowerIs64();
    ValueOfBytes(m, a, v, 8);
  }

  lemma FirstString(m: seq<Byte>, list: seq<seq<Byte>>, end: nat)
    requires list != [] && Holds(m, end - |Strings(list)|, Strings(list))
    ensures Holds(m, end - |Strings(list)|, list[0] + [0]) && Holds(m, end - |Strings(list[1..])|, Strings(list[1..]))
  {
    var k := |list[0]| + 1;
    HoldsTail(m, end - |Strings(list)|, Strings(list), k);
    assert Strings(list)[..k] == list[0] + [0] && Strings(list)[k..] == Strings(list[1..]);
  }

  lemma FirstPointer(m: seq<Byte>, p: nat, list: seq<seq<Byte>>, end: nat)
    requires list != [] && |Strings(list)| <= end && Holds(m, p, Pointers(list, end))
    ensures Holds(m, p, Word(end - |Strings(list)|)) && Holds(m, p + 8, Pointers(list[1..], end))
  {
    var b := Pointers(list, end);
    HoldsTail(m, p, b, 8);
    assert b[..8] == Word(end - |Strings(list)|) && b[8..] == Pointers(list[1..], end);
  }

  /** The pointers at `p` lead to exactly the strings that end at `end`. */
  lemma {:induction false} ReadsStrings(m: seq<Byte>, p: nat, list: seq<seq<Byte>>, end: nat)
    requires AreCStrings(list) && |m| < TWO64 && |Strings(list)| < end <= |m|
    requires Holds(m, p, Pointers(list, end)) && Holds(m, end - |Strings(list)|, Strings(list))
    ensures StringsAt(m, p) == list
    decreases |list|
  {
    if list == [] {
      ReadsWord(m, p, 0);
    } else {
      assert list[0] in list && forall s | s in list[1..] :: s in list;
      FirstPointer(m, p, list, end);
      FirstString(m, list, end);
      ReadsWord(m, p, end - |Strings(list)|);
      ReadsString(m, end - |Strings(list)|, list[0]);
      ReadsStrings(m, p + 8, list[1..], end);
    }
  }

  lemma ReadsFrom(m: seq<Byte>, slot: nat, p: nat, list: seq<seq<Byte>>, end: nat)
    requires AreCStrings(list) && |m| < TWO64 && ListIn(m, slot, p, list, end)
    ensures StringsAt(m, WordAt(m, slot)) == list
  {
    ReadsWord(m, slot, p);
    ReadsStrings(m, p, list, end);
  }

  lemma ArgsReadBack(m: seq<Byte>, sp: nat, args: seq<seq<Byte>>, envs: seq<seq<Byte>>, argEnd: nat, top: nat)
    requires AreCStrings(args) && |m| < TWO64 && FrameAt(m, sp, args, envs, argEnd, top)
    ensures WordAt(m, sp) == |args|
    ensures StringsAt(m, WordAt(m, sp + 8)) == args
  {
    ReadsWord(m, sp, |args|);
    var slot, argv := sp + 8, sp + 24;
    ReadsFrom(m, slot, argv, args, argEnd);
  }

  lemma EnvsReadBack(m: seq<Byte>, sp: nat, args: seq<seq<Byte>>, envs: seq<seq<Byte>>, argEnd: nat, top: nat)
    requires AreCStrings(envs) && |m| < TWO64 && FrameAt(m, sp, args, envs, argEnd, top)
    ensures StringsAt(m, WordAt(m, sp + 16)) == envs
  {
    var slot, envp := sp + 16, EnvpOf(sp, args);
    ReadsFrom(m, slot, envp, envs, top);
  }

  lemma SlotHolds(m: seq<Byte>, slot: nat, p: nat, list: seq<seq<Byte>>, end: nat)
    requires |m| < TWO64 && ListIn(m, slot, p, list, end)
    ensures WordAt(m, slot) == p
  {
    ReadsWord(m, slot, p);
  }

  lemma HeadWords(m: seq<Byte>, sp: nat, args: seq<seq<Byte>>, envs: seq<seq<Byte>>, argEnd: nat, top: nat, slot: nat,
      argv: nat, next: nat, envp: nat)
    requires |m| < TWO64 && FrameAt(m, sp, args, envs, argEnd, top)
    requires slot == sp + 8 && argv == sp + 24 && next == sp + 16 && envp == EnvpOf(sp, args)
    ensures WordAt(m, slot) == argv && WordAt(m, next) == envp
  {
    SlotHolds(m, slot, argv, args, argEnd);
    SlotHolds(m, next, envp, envs, top);
  }

  /** Where the strings of a frame are. */
  lemma StringsOfFrame(m: seq<Byte>, sp: nat, args: seq<seq<Byte>>, envs: seq<seq<Byte>>, argEnd: nat, top: nat,
      strings: nat)
    requires FrameAt(m, sp, args, envs, argEnd, top) && strings == EnvpOf(sp, args) + 8 * (|envs| + 1)
    ensures argEnd == strings + |Strings(args)| && top == argEnd + |Strings(envs)|
    ensures Holds(m, strings, Strings(args)) && Holds(m, argEnd, Strings(envs))
  {
  }

  /** The frame has no gaps: argv is behind the three head words, envp behind the NULL of argv, the first
      argument behind the NULL of envp, the first environment string behind the last argument, and the old top
      behind the last. */
  lemma FrameIsGapless(m: seq<Byte>, sp: nat, args: seq<seq<Byte>>, envs: seq<seq<Byte>>, argEnd: nat, top: nat,
      argv: nat, envp: nat, strings: nat)
    requires |m| < TWO64 && FrameAt(m, sp, args, envs, argEnd, top)
    requires argv == sp + 24 && envp == argv + 8 * (|args| + 1) && strings == envp + 8 * (|envs| + 1)
    ensures WordAt(m, sp + 8) == argv && WordAt(m, sp + 16) == envp
    ensures Holds(m, strings, Strings(args)) && argEnd == strings + |Strings(args)|
    ensures Holds(m, argEnd, Strings(envs)) && top == argEnd + |Strings(envs)|
  {
    HeadWords(m, sp, args, envs, argEnd, top, sp + 8, argv, sp + 16, envp);
    StringsOfFrame(m, sp, args, envs, argEnd, top, strings);
  }

  /** Round trip: from the frame that `do_execvpe` leaves, `_start` finds argc, argv and envp, and following the
      pointers from there yields exactly the argument and environment lists, for all lists that fit. */
  lemma ExecRoundTrip(m: seq<Byte>, sp: nat, args: seq<seq<Byte>>, envs: seq<seq<Byte>>, argEnd: nat, top: nat)
    requires AreCStrings(args) && AreCStrings(envs) && |m| < TWO64 && FrameAt(m, sp, args, envs, argEnd, top)
    ensures WordAt(m, sp) == |args|
    ensures StringsAt(m, WordAt(m, sp + 8)) == args && StringsAt(m, WordAt(m, sp + 16)) == envs
  {
    ArgsReadBack(m, sp, args, envs, argEnd, top);
    EnvsReadBack(m, sp, args, envs, argEnd, top);
  }
}
