/** Bytes and NUL-terminated strings in memory. */
module CStrings {

  type Byte = b: int | 0 <= b < 256

  /** The characters of a C string: no NUL among them. */
  ghost predicate IsCString(s: seq<Byte>) {
    forall i | 0 <= i < |s| :: s[i] != 0
  }

  /** The bytes `b` lie at `a`. */
  ghost predicate Holds(m: seq<Byte>, a: int, b: seq<Byte>) {
    0 <= a && a + |b| <= |m| && forall i {:trigger b[i]} | 0 <= i < |b| :: m[a + i] == b[i]
  }

  lemma HoldsTail(m: seq<Byte>, a: int, b: seq<Byte>, k: nat)
    requires Holds(m, a, b) && k <= |b|
    ensures Holds(m, a, b[..k]) && Holds(m, a + k, b[k..])
  {
    forall i | 0 <= i < |b[k..]| ensures m[a + k + i] == b[k..][i] {
      assert b[k..][i] == b[k + i];
    }
  }

  /** The string at `a`: everything up to the next NUL. */
  function StringAt(m: seq<Byte>, a: nat): seq<Byte>
    decreases |m| - a
  {
    if a < |m| && m[a] != 0 then [m[a]] + StringAt(m, a + 1) else []
  }

  lemma {:induction false} ReadsString(m: seq<Byte>, a: nat, s: seq<Byte>)
    requires IsCString(s) && Holds(m, a, s + [0])
    ensures StringAt(m, a) == s
    decreases |s|
  {
    assert m[a] == (s + [0])[0];
    if s != [] {
      assert (s + [0])[1..] == s[1..] + [0];
      HoldsTail(m, a, s + [0], 1);
      ReadsString(m, a + 1, s[1..]);
    }
  }

  /** `kstrcmp`: 0 for equal strings, else -1. */
  method Compare(string1: seq<Byte>, string2: seq<Byte>) returns (r: int)
    ensures r == if string1 == string2 then 0 else -1
  {
    if |string1| != |string2| {
      return -1;
    }
    for i := 0 to |string1|
      invariant string1[..i] == string2[..i]
    {
      if string1[i] != string2[i] {
        return -1;
      }
    }
    assert string1[..|string1|] == string1 && string2[..|string2|] == string2;
    return 0;
  }
}
