/**
  The ustar archive in memory and its linear scan: `getsize` and `findfile`.

  The layout of a header is that of IEEE Std 1003.1, `pax` utility, section "ustar Interchange
  Format": 512 bytes, the name in bytes 0 to 99, the size in octal in bytes 124 to 134.
 */
module Archive {
  import opened CStrings

  const TWO32: nat := 0x1_0000_0000

  // ---------------------------------------------------------------------------
  // Sizes

  /** A C `char` is signed. */
  function Signed(b: Byte): (c: int)
    ensures -128 <= c < 128 && (c - b) % 256 == 0
  {
    if b < 128 then b else b - 256
  }

  /** The sum that `getsize` builds from the `j` leading characters, the last of them weighing `count`.
      Both the weight and each product are 32 bits wide. */
  function Weigh(field: seq<Byte>, j: nat, count: nat): nat
    requires j <= |field|
    decreases j
  {
    if j == 0 then 0
    else (Signed(field[j - 1]) - '0' as int) * count % TWO32 + Weigh(field, j - 1, count * 8 % TWO32)
  }

  /** What `getsize` returns for the 12 bytes of a size field. */
  function GetSize(field: seq<Byte>): nat
    requires |field| == 12
  {
    Weigh(field, |field| - 1, 1)
  }

  method ComputeSize(field: seq<Byte>) returns (size: nat)
    requires |field| == 12
    ensures size == GetSize(field)
  {
    var j, count := 11, 1;
    size := 0;
    while j > 0
      invariant 0 <= j <= 11 && 0 <= count && GetSize(field) == size + Weigh(field, j, count)
    {
      size := size + (Signed(field[j - 1]) - '0' as int) * count % TWO32;
      j, count := j - 1, count * 8 % TWO32;
    }
  }

  /** The `k` last characters by their places, for any characters at all: 8 to the place times the signed character less
      '0', cut to 32 bits. */
  function PlaceSum(field: seq<Byte>, k: nat): nat
    requires |field| == 12 && k <= 11
  {
    if k == 0 then 0 else PlaceSum(field, k - 1) + (Signed(field[11 - k]) - 48) * Power8(k - 1) % TWO32
  }

  lemma SmallWeights(k: nat)
    requires k <= 10
    ensures Power8(k) < TWO32
  {
    if k < 10 {
      SmallPower(k);
    } else {
      TopPower();
    }
  }

  /** The weight of the place to the left. */
  lemma NextWeight(k: nat)
    requires k < 10
    ensures Power8(k) * 8 % TWO32 == Power8(k + 1)
  {
    SmallWeights(k + 1);
  }

  /** One character, weighed by its place. */
  lemma PlaceOfOne(field: seq<Byte>, j: nat, c: nat, next: nat)
    requires |field| == 12 && 0 < j <= 11 && c == Power8(11 - j) && next == c * 8 % TWO32
    ensures Weigh(field, j, c) + PlaceSum(field, 11 - j) == Weigh(field, j - 1, next) + PlaceSum(field, 12 - j)
  {
    var product := (Signed(field[j - 1]) - 48) * c % TWO32;
    assert Weigh(field, j, c) == product + Weigh(field, j - 1, next);
    assert 12 - j - 1 == 11 - j && 11 - (12 - j) == j - 1;
    assert PlaceSum(field, 12 - j) == PlaceSum(field, 11 - j) + product;
  }

  lemma {:induction false} WeighIsPlaceSum(field: seq<Byte>, j: nat, c: nat)
    requires |field| == 12 && j <= 11 && (0 < j ==> c == Power8(11 - j))
    ensures Weigh(field, j, c) + PlaceSum(field, 11 - j) == PlaceSum(field, 11)
    decreases j
  {
    if j > 1 {
      NextWeight(11 - j);
    }
    if j > 0 {
      var next := c * 8 % TWO32;
      PlaceOfOne(field, j, c, next);
      WeighIsPlaceSum(field, j - 1, next);
    }
  }

  /** `getsize` on whatever 12 bytes the header holds. */
  lemma GetSizeIsPlaceSum(field: seq<Byte>)
    requires |field| == 12
    ensures GetSize(field) == PlaceSum(field, 11)
  {
    WeighIsPlaceSum(field, 11, 1);
  }

  /** The number that the `j` leading octal digits denote. */
  function Octal(field: seq<Byte>, j: nat): int
    requires j <= |field|
    decreases j
  {
    if j == 0 then 0 else 8 * Octal(field, j - 1) + (field[j - 1] - '0' as int)
  }

  /** The number a size field denotes. */
  function Number(field: seq<Byte>): int
    requires |field| == 12
  {
    Octal(field, |field| - 1)
  }

  ghost predicate OctalDigits(field: seq<Byte>) {
    |field| == 12 && forall i | 0 <= i < 11 :: '0' as int <= field[i] <= '7' as int
  }

  function Power8(k: nat): nat {
    if k == 0 then 1 else 8 * Power8(k - 1)
  }

  lemma DigitTimes(d: int, c: nat)
    requires 0 <= d <= 7
    ensures 0 <= d * c <= 7 * c
  {
  }

  lemma NoWrap(p: int)
    requires 0 <= p < TWO32
    ensures p % TWO32 == p
  {
  }

  lemma WeighStep(field: seq<Byte>, j: nat, c: nat)
    requires OctalDigits(field) && 1 <= j <= 11 && c <= 0x800_0000
    ensures Weigh(field, j, c) == (field[j - 1] - '0' as int) * c + Weigh(field, j - 1, 8 * c)
  {
    var d := field[j - 1] - '0' as int;
    DigitTimes(d, c);
    NoWrap(d * c);
    NoWrap(c * 8);
  }

  /** One more digit: from the weights to the number. */
  lemma Factor(weighed: int, rest: int, c: nat, d: int, o: int, n: int, wrapped: int)
    requires weighed == d * c + rest && rest == 8 * c * o + wrapped && n == 8 * o + d
    ensures weighed == c * n + wrapped
  {
    assert c * n == c * (8 * o) + c * d;
  }

  /** What the first digit loses. */
  function Wrapped(field: seq<Byte>): int
    requires |field| == 12
  {
    var top := (field[0] - '0' as int) * 0x4000_0000;
    top % TWO32 - top
  }

  lemma FirstDigit(field: seq<Byte>)
    requires OctalDigits(field)
    ensures Weigh(field, 1, 0x4000_0000) == 0x4000_0000 * Octal(field, 1) + Wrapped(field)
  {
    assert Octal(field, 1) == field[0] - '0' as int;
    assert Weigh(field, 0, 0x4000_0000 * 8 % TWO32) == 0;
  }

  lemma MoreDigits(field: seq<Byte>, j: nat, c: nat)
    requires OctalDigits(field) && 2 <= j <= 11 && c <= 0x800_0000
    requires Weigh(field, j - 1, 8 * c) == 8 * c * Octal(field, j - 1) + Wrapped(field)
    ensures Weigh(field, j, c) == c * Octal(field, j) + Wrapped(field)
  {
    WeighStep(field, j, c);
    Factor(Weigh(field, j, c), Weigh(field, j - 1, 8 * c), c, field[j - 1] - '0' as int, Octal(field, j - 1),
           Octal(field, j), Wrapped(field));
  }

  /** All digits but the first weigh what they denote. */
  lemma {:induction false} WeighIsOctal(field: seq<Byte>, j: nat, c: nat)
    requires OctalDigits(field) && 1 <= j <= 11 && c == Power8(11 - j)
    ensures Weigh(field, j, c) == c * Octal(field, j) + Wrapped(field)
    decreases j
  {
    if j == 1 {
      TopPower();
      FirstDigit(field);
    } else {
      SmallPower(11 - j);
      WeighIsOctal(field, j - 1, 8 * c);
      MoreDigits(field, j, c);
    }
  }

  lemma TopPower()
    ensures Power8(10) == 0x4000_0000 && Power8(9) == 0x800_0000
  {
    assert Power8(3) == 512 && Power8(6) == 512 * 512;
  }

  lemma {:induction false} SmallPower(k: nat)
    requires k <= 9
    ensures Power8(k) <= 0x800_0000
    decreases 9 - k
  {
    if k == 9 {
      TopPower();
    } else {
      SmallPower(k + 1);
    }
  }

  lemma Between(d: int, p: nat, o: int, e: int)
    requires d * p <= o < (d + 1) * p && 0 <= e <= 7
    ensures d * (8 * p) <= 8 * o + e < (d + 1) * (8 * p)
  {
    assert d * (8 * p) == 8 * (d * p) && (d + 1) * (8 * p) == 8 * ((d + 1) * p);
  }

  lemma {:induction false} OctalBound(field: seq<Byte>, j: nat, p: nat)
    requires OctalDigits(field) && 1 <= j <= 11 && p == Power8(j - 1)
    ensures (field[0] - '0' as int) * p <= Octal(field, j) < (field[0] - '0' as int + 1) * p
    decreases j
  {
    if j == 1 {
      assert Octal(field, 1) == field[0] - '0' as int;
    } else {
      var q := Power8(j - 2);
      OctalBound(field, j - 1, q);
      assert p == 8 * q;
      Between(field[0] - '0' as int, q, Octal(field, j - 1), field[j - 1] - '0' as int);
    }
  }

  lemma TopDigit(d: int)
    requires 0 <= d <= 7
    ensures d * 0x4000_0000 == d * 0x4000_0000 % TWO32 <==> d < 4
  {
  }

  /** `getsize` is right exactly for the sizes below 2^32: the product with the weight of the first digit is cut to
      32 bits. */
  lemma GetSizeIsExact(field: seq<Byte>)
    requires OctalDigits(field)
    ensures GetSize(field) == Number(field) <==> Number(field) < TWO32
    ensures Number(field) < TWO32 <==> field[0] < '4' as int
  {
    TopPower();
    WeighIsOctal(field, |field| - 1, 1);
    OctalBound(field, |field| - 1, 0x4000_0000);
    TopDigit(field[0] - '0' as int);
  }

  // ---------------------------------------------------------------------------
  // The scan

  function SizeAt(m: seq<Byte>, a: nat): nat
    requires a + 512 <= |m|
  {
    GetSize(m[a + 124..a + 136])
  }

  /** Where the scan looks for the header after the one at `a`. */
  function After(a: nat, size: nat): (b: nat)
    ensures a < b
  {
    a + (size / 512 + 1) * 512 + if size % 512 != 0 then 512 else 0
  }

  /** The headers from `a` on end in a NUL inside of the memory. */
  ghost predicate Terminated(m: seq<Byte>, a: nat)
    decreases |m| - a
  {
    a < |m| && (m[a] != 0 ==> a + 512 <= |m| && Terminated(m, After(a, SizeAt(m, a))))
  }

  /** The addresses of the headers from `a` on. */
  ghost function Headers(m: seq<Byte>, a: nat): seq<nat>
    requires Terminated(m, a)
    decreases |m| - a
  {
    if m[a] == 0 then [] else [a] + Headers(m, After(a, SizeAt(m, a)))
  }

  /** The first of the headers with that name, or 0. */
  ghost function FirstNamed(m: seq<Byte>, headers: seq<nat>, name: seq<Byte>): nat {
    if headers == [] then 0
    else if StringAt(m, headers[0]) == name then headers[0]
    else FirstNamed(m, headers[1..], name)
  }

  /** From one header to the next, as both loops over the archive do it. */
  method StepOver(address: nat, size: nat) returns (next: nat)
    ensures next == After(address, size)
  {
    next := address + (size / 512 + 1) * 512;
    if size % 512 != 0 {
      next := next + 512;
    }
  }

  /** `findfile` in the archive at `start`. */
  method FindFile(m: seq<Byte>, start: nat, filename: seq<Byte>) returns (found: nat)
    requires Terminated(m, start)
    ensures found == FirstNamed(m, Headers(m, start), filename)
  {
    var address := start;
    while m[address] != 0
      invariant Terminated(m, address)
                && FirstNamed(m, Headers(m, start), filename) == FirstNamed(m, Headers(m, address), filename)
      decreases |m| - address
    {
      assert Headers(m, address)[1..] == Headers(m, After(address, SizeAt(m, address)));
      var size := ComputeSize(m[address + 124..address + 136]);
      var name := ReadString(m, address);
      var c := Compare(name, filename);
      if c == 0 {
        return address;
      }
      address := StepOver(address, size);
    }
    found := 0;
  }

  method ReadString(m: seq<Byte>, a: nat) returns (s: seq<Byte>)
    ensures s == StringAt(m, a)
  {
    var i := a;
    s := [];
    while i < |m| && m[i] != 0
      invariant a <= i && (a <= |m| ==> i <= |m|) && StringAt(m, a) == s + StringAt(m, i)
      decreases |m| - i
    {
      s, i := s + [m[i]], i + 1;
    }
  }

  // ---------------------------------------------------------------------------
  // Well-formed archives

  datatype Entry = Entry(name: seq<Byte>, data: seq<Byte>)

  /** A ustar header and its data at `a`: the name, and the size in octal. */
  ghost predicate EntryAt(m: seq<Byte>, a: nat, e: Entry) {
    && IsCString(e.name) && 0 < |e.name| < 100 && Holds(m, a, e.name + [0])
    && a + 512 <= |m| && OctalDigits(m[a + 124..a + 136]) && Number(m[a + 124..a + 136]) == |e.data| < TWO32
    && Holds(m, a + 512, e.data)
  }

  /** The entries one after the other, each rounded up to whole blocks, and a NUL behind the last. */
  ghost predicate IsArchive(m: seq<Byte>, a: nat, entries: seq<Entry>)
    decreases |entries|
  {
    if entries == [] then a < |m| && m[a] == 0
    else EntryAt(m, a, entries[0]) && IsArchive(m, a + 512 * (1 + (|entries[0].data| + 511) / 512), entries[1..])
  }

  lemma EntryIsRead(m: seq<Byte>, a: nat, e: Entry)
    requires EntryAt(m, a, e)
    ensures m[a] != 0 && StringAt(m, a) == e.name && SizeAt(m, a) == |e.data|
    ensures After(a, SizeAt(m, a)) == a + 512 * (1 + (|e.data| + 511) / 512)
  {
    ReadsString(m, a, e.name);
    GetSizeIsExact(m[a + 124..a + 136]);
  }

  ghost predicate ReadAt(m: seq<Byte>, headers: seq<nat>, entries: seq<Entry>, k: nat)
    requires k < |headers| == |entries|
  {
    var a := headers[k];
    && StringAt(m, a) == entries[k].name && a + 512 <= |m| && SizeAt(m, a) == |entries[k].data|
    && Holds(m, a + 512, entries[k].data)
  }

  /** The scan of a well-formed archive visits exactly its headers, and reads every name, size and content. */
  lemma {:induction false} ScanVisitsTheHeaders(m: seq<Byte>, a: nat, entries: seq<Entry>)
    requires IsArchive(m, a, entries)
    ensures Terminated(m, a) && |Headers(m, a)| == |entries|
    ensures AllRead(m, Headers(m, a), entries)
    decreases |entries|
  {
    if entries != [] {
      EntryIsRead(m, a, entries[0]);
      var b := After(a, SizeAt(m, a));
      ScanVisitsTheHeaders(m, b, entries[1..]);
      OneMoreRead(m, a, Headers(m, b), entries);
    }
  }

  ghost predicate AllRead(m: seq<Byte>, headers: seq<nat>, entries: seq<Entry>) {
    && |headers| == |entries|
    && forall k: nat {:trigger ReadAt(m, headers, entries, k)} | k < |entries| :: ReadAt(m, headers, entries, k)
  }

  lemma OneMoreRead(m: seq<Byte>, a: nat, rest: seq<nat>, entries: seq<Entry>)
    requires entries != [] && EntryAt(m, a, entries[0]) && AllRead(m, rest, entries[1..])
    ensures AllRead(m, [a] + rest, entries)
  {
    EntryIsRead(m, a, entries[0]);
    forall k: nat | k < |entries| ensures ReadAt(m, [a] + rest, entries, k) {
      if k > 0 {
        assert ReadAt(m, rest, entries[1..], k - 1);
      }
    }
  }
}
