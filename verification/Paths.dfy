/** File names and their components, as `load_tarfs` and `find_file` cut them. */
module Paths {
  import opened CStrings

  type Name = seq<Byte>

  const SLASH: Byte := 47

  /** The components of `cur + rest`, none of which ends in `cur`.  Each keeps its slash; the last has none. */
  function SplitFrom(cur: Name, rest: Name): (c: seq<Name>)
    ensures c != []
    decreases |rest|
  {
    if rest == [] then [cur]
    else if rest[0] == SLASH then [cur + [SLASH]] + SplitFrom([], rest[1..])
    else SplitFrom(cur + [rest[0]], rest[1..])
  }

  function Split(name: Name): (c: seq<Name>)
    ensures c != []
  {
    SplitFrom([], name)
  }

  function Join(c: seq<Name>): Name {
    if c == [] then [] else c[0] + Join(c[1..])
  }

  lemma {:induction false} JoinOfSplit(cur: Name, rest: Name)
    ensures Join(SplitFrom(cur, rest)) == cur + rest
    decreases |rest|
  {
    if rest == [] {
      assert Join([cur]) == cur + Join([]);
    } else if rest[0] == SLASH {
      JoinOfSplit([], rest[1..]);
      assert SplitFrom(cur, rest)[1..] == SplitFrom([], rest[1..]);
      assert cur + rest == cur + [SLASH] + ([] + rest[1..]);
    } else {
      JoinOfSplit(cur + [rest[0]], rest[1..]);
      assert cur + rest == cur + [rest[0]] + rest[1..];
    }
  }

  /** Different names have different components. */
  lemma SplitIsInjective(a: Name, b: Name)
    requires Split(a) == Split(b)
    ensures a == b
  {
    JoinOfSplit([], a);
    JoinOfSplit([], b);
    assert [] + a == a && [] + b == b;
  }

  predicate IsFolder(c: Name) {
    c != [] && c[|c| - 1] == SLASH
  }

  /** Every component but the last ends in its only slash, and the last has none. */
  lemma {:induction false} SplitShape(cur: Name, rest: Name)
    requires SLASH !in cur
    ensures var c := SplitFrom(cur, rest);
      && (forall i | 0 <= i < |c| - 1 :: IsFolder(c[i]) && SLASH !in c[i][..|c[i]| - 1]) && SLASH !in c[|c| - 1]
      && (rest != [] && rest[|rest| - 1] != SLASH ==> c[|c| - 1] != [])
      && (rest != [] && rest[|rest| - 1] == SLASH ==> c[|c| - 1] == [])
    decreases |rest|
  {
    if rest == [] {
    } else if rest[0] == SLASH {
      SplitShape([], rest[1..]);
      if rest[1..] == [] {
        assert SplitFrom([], rest[1..]) == [[]];
      }
    } else {
      SplitShape(cur + [rest[0]], rest[1..]);
      if rest[1..] == [] {
        assert SplitFrom(cur + [rest[0]], rest[1..]) == [cur + [rest[0]]];
      }
    }
  }

  /** A folder in front is one more component in front. */
  lemma {:induction false} SplitBehindFolder(cur: Name, folder: Name, name: Name)
    requires SLASH !in folder
    ensures SplitFrom(cur, folder + [SLASH] + name) == [cur + folder + [SLASH]] + Split(name)
    decreases |folder|
  {
    var all := folder + [SLASH] + name;
    if folder == [] {
      assert all[0] == SLASH && all[1..] == name && cur + folder == cur;
    } else {
      assert all[0] == folder[0] && all[1..] == folder[1..] + [SLASH] + name;
      SplitBehindFolder(cur + [folder[0]], folder[1..], name);
      assert cur + [folder[0]] + folder[1..] == cur + folder;
    }
  }

  /** The components of a folder path: those of the name but the last, which is empty. */
  function FolderPath(name: Name): (c: seq<Name>)
    ensures name == [] ==> c == []
  {
    Split(name)[..|Split(name)| - 1]
  }

  /** What comes behind a folder path is cut on its own. */
  lemma {:induction false} SplitBehindPath(cur: Name, name: Name, y: Name)
    requires IsFolder(name)
    ensures SplitFrom(cur, name + y) == SplitFrom(cur, name)[..|SplitFrom(cur, name)| - 1] + Split(y)
    decreases |name|
  {
    assert (name + y)[0] == name[0] && (name + y)[1..] == name[1..] + y;
    if |name| == 1 {
      assert name[1..] == [] && [] + y == y;
      assert SplitFrom(cur, name) == [cur + [SLASH], []];
    } else if name[0] == SLASH {
      SplitBehindPath([], name[1..], y);
      assert SplitFrom(cur, name) == [cur + [SLASH]] + SplitFrom([], name[1..]);
    } else {
      SplitBehindPath(cur + [name[0]], name[1..], y);
    }
  }

  lemma {:induction false} JoinConcat(a: seq<Name>, b: seq<Name>)
    ensures Join(a + b) == Join(a) + Join(b)
  {
    if a == [] {
      assert a + b == b;
    } else {
      assert (a + b)[1..] == a[1..] + b && (a + b)[0] == a[0];
      JoinConcat(a[1..], b);
    }
  }

  lemma JoinOfFolder(name: Name)
    requires name == [] || IsFolder(name)
    ensures Join(FolderPath(name)) == name && forall i | 0 <= i < |FolderPath(name)| :: IsFolder(FolderPath(name)[i])
  {
    var c := Split(name);
    JoinOfSplit([], name);
    SplitShape([], name);
    assert c == FolderPath(name) + [c[|c| - 1]] && [] + name == name;
    JoinConcat(FolderPath(name), [c[|c| - 1]]);
    assert Join([c[|c| - 1]]) == c[|c| - 1];
    if name == [] {
      assert c == [[]];
    }
  }

  lemma PrefixOfRest(a: Name, b: Name)
    requires a <= b
    ensures b == a + b[|a|..]
  {
  }

  /** A name lies in or below a folder exactly when it begins with the folder's path. */
  lemma BelowIsPrefix(folder: Name, name: Name)
    requires folder == [] || IsFolder(folder)
    ensures FolderPath(folder) <= Split(name)[..|Split(name)| - 1] <==> folder <= name
  {
    var p, c := FolderPath(folder), Split(name);
    var dirs := c[..|c| - 1];
    if folder <= name && folder != [] {
      PrefixOfRest(folder, name);
      SplitBehindPath([], folder, name[|folder|..]);
      assert c == p + Split(name[|folder|..]);
      assert dirs[..|p|] == p;
    }
    if p <= dirs {
      JoinOfFolder(folder);
      JoinOfSplit([], name);
      assert c == p + c[|p|..] && [] + name == name;
      JoinConcat(p, c[|p|..]);
    }
  }

  /** The loop of `load_tarfs` over the characters of a name. */
  method SplitName(name: Name) returns (subName: seq<Name>)
    ensures subName == Split(name)
  {
    var i := 0;
    var cur: Name := [];
    subName := [];
    assert name[0..] == name;
    while i < |name|
      invariant i <= |name| && Split(name) == subName + SplitFrom(cur, name[i..])
    {
      assert name[i..][1..] == name[i + 1..];
      cur := cur + [name[i]];
      if name[i] == SLASH {
        subName, cur := subName + [cur], [];
      }
      i := i + 1;
    }
    subName := subName + [cur];
  }

  /** The loop of `find_file`: a slash at the very end opens no further component. */
  method SplitPath(fileName: Name) returns (subName: seq<Name>)
    requires fileName != []
    ensures subName == if IsFolder(fileName) then Split(fileName)[..|Split(fileName)| - 1] else Split(fileName)
  {
    var i := 0;
    var cur: Name := [];
    subName := [];
    assert fileName[0..] == fileName;
    while i < |fileName|
      invariant i <= |fileName|
      invariant i < |fileName| || !IsFolder(fileName) ==> Split(fileName) == subName + SplitFrom(cur, fileName[i..])
      invariant i == |fileName| && IsFolder(fileName) ==> Split(fileName) == subName + [cur, []]
    {
      assert fileName[i..][1..] == fileName[i + 1..];
      cur := cur + [fileName[i]];
      if fileName[i] == SLASH {
        if i != |fileName| - 1 {
          subName, cur := subName + [cur], [];
        } else {
          assert SplitFrom([], fileName[i + 1..]) == [[]];
        }
      }
      i := i + 1;
    }
    assert IsFolder(fileName) ==> subName + [cur, []] == subName + [cur] + [[]];
    subName := subName + [cur];
  }
}
