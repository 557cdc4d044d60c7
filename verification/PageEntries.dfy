/**
  64-bit page-table entries and the masks the kernel applies to them.

  The kernel reads and writes entries as raw 64-bit integers.  The rest of the
  project works on `Word`, which splits such an integer into the fields the MMU
  and the fault handler look at.  `View` loses nothing (`ViewIsInjective`), so a
  memory of `Word`s is a memory of 64-bit integers.
 */
module PageEntries {

  type Frame = nat

  /** bits 63..12 | bit 0 | bit 1 | bit 2 | bit 9 | the remaining low bits */
  datatype Word = Word(frame: Frame, present: bool, writable: bool, user: bool, cow: bool, rest: nat)

  const ZERO := Word(0, false, false, false, false, 0)

  function View(w: bv64): Word {
    Word((w >> 12) as nat, w & 0x1 != 0, w & 0x2 != 0, w & 0x4 != 0, w & 0x200 != 0, (w & 0xdf8) as nat)
  }

  /** `& 0xfffffffffffffffd` followed by `| 0x200` */
  function Mark(w: Word): Word {
    w.(writable := false, cow := true)
  }

  /** `| 0x205` */
  function Share(w: Word): Word {
    w.(present := true, user := true, cow := true)
  }

  /** `| 7` */
  function Grant(w: Word): Word {
    w.(present := true, writable := true, user := true)
  }

  /** A page-aligned address stored with no flag bits. */
  function Base(f: Frame): Word {
    Word(f, false, false, false, false, 0)
  }

  /** A table or page address `| 7`: present, writable and for user code. */
  function User(f: Frame): (w: Word)
    ensures w.present && w.frame == f
  {
    Grant(Base(f))
  }

  /** A table or page address `| 3`: present and writable, for the kernel only. */
  function Kernel(f: Frame): Word {
    Word(f, true, true, false, false, 0)
  }

  /** The test of the fault handler on a PML4 entry: present and marked copy-on-write. */
  predicate CowEnabled(w: Word) {
    w.cow && w.present
  }

  lemma BitsOfNat(v: bv64, w: bv64)
    requires v as nat == w as nat
    ensures v == w
  {
    assert (v as nat) as bv64 == v;
    assert (w as nat) as bv64 == w;
  }

  lemma ViewIsInjective(v: bv64, w: bv64)
    requires View(v) == View(w)
    ensures v == w
  {
    BitsOfNat(v >> 12, w >> 12);
    BitsOfNat(v & 0xdf8, w & 0xdf8);
  }

  /** The masks in the kernel act on the fields as `Mark`, `Share`, `Grant` and `Base` say. */
  lemma MasksActOnFields(w: bv64)
    ensures View((w & 0xfffffffffffffffd) | 0x200) == Mark(View(w))
    ensures View(w | 0x205) == Share(View(w))
    ensures View(w | 7) == Grant(View(w))
    ensures View(w & 0xfffffffffffff000) == Base(View(w).frame)
    ensures w == 0 <==> View(w) == ZERO
  {
    assert ((w & 0xfffffffffffffffd) | 0x200) >> 12 == w >> 12;
    assert (w | 0x205) >> 12 == w >> 12;
    assert (w | 7) >> 12 == w >> 12;
    assert (w & 0xfffffffffffff000) >> 12 == w >> 12;
    assert ((w & 0xfffffffffffffffd) | 0x200) & 0xdf8 == w & 0xdf8;
    assert (w | 0x205) & 0xdf8 == w & 0xdf8;
    assert (w | 7) & 0xdf8 == w & 0xdf8;
    assert (w & 0xfffffffffffff000) & 0xdf8 == 0;
    assert View(0) == ZERO;
    if View(w) == ZERO {
      ViewIsInjective(w, 0);
    }
  }

  lemma KernelBits(w: bv64)
    ensures View((w & 0xfffffffffffff000) | 3) == Kernel(View(w).frame)
  {
    assert ((w & 0xfffffffffffff000) | 3) >> 12 == w >> 12;
    assert ((w & 0xfffffffffffff000) | 3) & 0xdf8 == 0;
  }

  lemma UserBits(w: bv64)
    ensures View((w & 0xfffffffffffff000) | 7) == User(View(w).frame)
  {
    assert ((w & 0xfffffffffffff000) | 7) >> 12 == w >> 12;
    assert ((w & 0xfffffffffffff000) | 7) & 0xdf8 == 0;
  }

  /** `is_cow_enabled` masks the entry with 0x200 and with 1. */
  lemma CowTestBits(w: bv64)
    ensures CowEnabled(View(w)) <==> w & 0x200 != 0 && w & 0x1 == 0x1
  {
  }
}
