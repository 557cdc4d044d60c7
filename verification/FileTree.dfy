/**
  The directory tree that `load_tarfs` builds, and `find_file` on it.

  A node is known by its inode; the `filesys_tnode` that names it is copied into the child array
  of its directory, the inode is not.
 */
module FileTree {
  import opened CStrings
  import opened Archive
  import opened Paths
  import opened Wrappers

  datatype Node = Node(name: Name, size: nat, start: nat, dir: bool, dirs: seq<nat>, files: seq<nat>)

  /** One archive entry: the folders of its name, its file name (empty for a folder), and its data. */
  datatype Rec = Rec(dirs: seq<Name>, file: Name, size: nat, start: nat)

  function RecOf(comps: seq<Name>, size: nat, start: nat): Rec
    requires comps != []
  {
    Rec(comps[..|comps| - 1], comps[|comps| - 1], size, start)
  }

  // ---------------------------------------------------------------------------
  // Lookup

  /** `find_file_from_root`: the node reached from `cur`, or 0. */
  function FindFrom(nodes: map<nat, Node>, cur: nat, path: seq<Name>): nat
    requires path != []
    decreases |path|, 0
  {
    if cur !in nodes || nodes[cur].name != path[0] then 0
    else if |path| == 1 then cur
    else if !nodes[cur].dir then 0
    else
      var ret := FindIn(nodes, nodes[cur].dirs, path[1..]);
      if ret != 0 then ret else FindIn(nodes, nodes[cur].files, path[1..])
  }

  /** The first child from which the path leads somewhere. */
  function FindIn(nodes: map<nat, Node>, children: seq<nat>, path: seq<Name>): nat
    requires path != []
    decreases |path|, 1 + |children|
  {
    if children == [] then 0
    else
      var ret := FindFrom(nodes, children[0], path);
      if ret != 0 then ret else FindIn(nodes, children[1..], path)
  }

  // ---------------------------------------------------------------------------
  // What the tree stands for

  /** The path of the entry `d` of the folder `at`. */
  function Inside(at: seq<Name>, d: Name): (p: seq<Name>)
    ensures |p| == |at| + 1 && p[|at|] == d && p[..|at|] == at
  {
    at + [d]
  }

  /** The files of the folder `at`, in the order of the archive. */
  function Files(recs: seq<Rec>, at: seq<Name>): (files: seq<Rec>)
    ensures forall r | r in files :: r in recs && r.dirs == at && r.file != []
  {
    if recs == [] then []
    else if recs[0].dirs == at && recs[0].file != [] then [recs[0]] + Files(recs[1..], at)
    else Files(recs[1..], at)
  }

  /** The first entry of that name. */
  function FirstMatch(recs: seq<Rec>, at: seq<Name>, file: Name): Option<Rec> {
    if recs == [] then None
    else if recs[0].dirs == at && recs[0].file == file then Some(recs[0])
    else FirstMatch(recs[1..], at, file)
  }

  ghost predicate FileOk(nodes: map<nat, Node>, f: nat, rec: Rec) {
    f != 0 && f in nodes && nodes[f].name == rec.file && nodes[f].size == rec.size
        && nodes[f].start == rec.start && !nodes[f].dir
  }

  ghost predicate FilesOk(nodes: map<nat, Node>, ids: seq<nat>, recs: seq<Rec>) {
    |ids| == |recs| && forall k: nat {:trigger ids[k]} | k < |ids| :: FileOk(nodes, ids[k], recs[k])
  }

  /** `c` is the inode of one of the folders in `at`. */
  ghost predicate ChildOk(nodes: map<nat, Node>, place: map<seq<Name>, nat>, at: seq<Name>, c: nat) {
    c in nodes && Inside(at, nodes[c].name) in place && place[Inside(at, nodes[c].name)] == c
  }

  /** `id` is the inode of the folder `at`. */
  ghost predicate FolderOk(nodes: map<nat, Node>, place: map<seq<Name>, nat>, recs: seq<Rec>, at: seq<Name>, id: nat) {
    && id != 0 && id in nodes && nodes[id].dir
    && (at != [] ==> nodes[id].name == at[|at| - 1] && IsFolder(at[|at| - 1]))
    && FilesOk(nodes, nodes[id].files, Files(recs, at))
    && (forall c {:trigger ChildOk(nodes, place, at, c)} | c in nodes[id].dirs :: ChildOk(nodes, place, at, c))
    && (forall d {:trigger Inside(at, d)} | Inside(at, d) in place :: place[Inside(at, d)] in nodes[id].dirs)
  }

  /** The folders are exactly `place`, and hold exactly the files of `recs`. */
  ghost predicate TreeOk(nodes: map<nat, Node>, place: map<seq<Name>, nat>, recs: seq<Rec>) {
    && [] in place
    && (forall p, q | p in place && q in place && place[p] == place[q] :: p == q)
    && (forall p {:trigger FolderOk(nodes, place, recs, p, place[p])} | p in place ::
          FolderOk(nodes, place, recs, p, place[p]))
    && (forall p {:trigger p in place} | p in place && p != [] :: p[..|p| - 1] in place)
    && (forall r | r in recs :: r.dirs in place && SLASH !in r.file)
  }

  /** The first entry in or below the folder `p`. */
  function FirstBelow(recs: seq<Rec>, p: seq<Name>): Option<Rec> {
    if recs == [] then None else if p <= recs[0].dirs then Some(recs[0]) else FirstBelow(recs[1..], p)
  }

  /** There is a folder exactly for every entry in or below it; it has the size of the first of them. */
  ghost predicate FoldersOf(nodes: map<nat, Node>, place: map<seq<Name>, nat>, recs: seq<Rec>) {
    && (forall p {:trigger p in place} :: p in place <==> p == [] || FirstBelow(recs, p).Some?)
    && (forall p {:trigger place[p]} | p in place && p != [] ::
          place[p] in nodes && FirstBelow(recs, p).Some? && nodes[place[p]].size == FirstBelow(recs, p).value.size)
  }

  lemma {:induction false} FirstBelowAppend(recs: seq<Rec>, rec: Rec, p: seq<Name>)
    ensures FirstBelow(recs + [rec], p)
            == if FirstBelow(recs, p).Some? then FirstBelow(recs, p) else if p <= rec.dirs then Some(rec) else None
  {
    if recs == [] {
      assert [] + [rec] == [rec] && [rec][1..] == [];
    } else {
      assert (recs + [rec])[1..] == recs[1..] + [rec] && (recs + [rec])[0] == recs[0];
      FirstBelowAppend(recs[1..], rec, p);
    }
  }

  /** The nodes that were there have the size that they had. */
  ghost predicate SizesKept(nodes: map<nat, Node>, nodes': map<nat, Node>) {
    forall c {:trigger nodes'[c]} {:trigger nodes[c]} | c in nodes :: c in nodes' && nodes'[c].size == nodes[c].size
  }

  /** The folders on the way to `dirs` have been added, with that size, and no other. */
  ghost predicate FoldersAdded(nodes: map<nat, Node>, place: map<seq<Name>, nat>, nodes': map<nat, Node>,
      place': map<seq<Name>, nat>, dirs: seq<Name>, size: nat) {
    && SizesKept(nodes, nodes')
    && (forall p {:trigger p in place'} :: p in place' <==> p in place || p <= dirs)
    && (forall p {:trigger place'[p]} | p in place' ::
          if p in place then place'[p] == place[p]
          else place'[p] in nodes' && nodes'[place'[p]].size == size)
  }

  /** Such an addition keeps pace with the entry. */
  lemma FoldersOfMore(nodes: map<nat, Node>, place: map<seq<Name>, nat>, recs: seq<Rec>, nodes': map<nat, Node>,
      place': map<seq<Name>, nat>, rec: Rec)
    requires FoldersOf(nodes, place, recs) && FoldersAdded(nodes, place, nodes', place', rec.dirs, rec.size)
    ensures FoldersOf(nodes', place', recs + [rec])
  {
    forall p: seq<Name>
      ensures p in place' <==> p == [] || FirstBelow(recs + [rec], p).Some?
      ensures p in place' && p != [] ==>
                && place'[p] in nodes' && FirstBelow(recs + [rec], p).Some?
                && nodes'[place'[p]].size == FirstBelow(recs + [rec], p).value.size
    {
      FirstBelowAppend(recs, rec, p);
      assert p in place' <==> p in place || p <= rec.dirs;
    }
  }

  // ---------------------------------------------------------------------------
  // Lookup finds the first entry of the name

  /** What `find_file_from_root` does with the rest of a path at a folder. */
  function Below(nodes: map<nat, Node>, id: nat, path: seq<Name>): nat
    requires path != [] && id in nodes
  {
    var ret := FindIn(nodes, nodes[id].dirs, path);
    if ret != 0 then ret else FindIn(nodes, nodes[id].files, path)
  }

  /** Of children without namesakes, only the one of the right name can lead anywhere. */
  lemma {:induction false} FindAmong(nodes: map<nat, Node>, children: seq<nat>, path: seq<Name>, c: nat)
    requires path != [] && forall x | x in children && x in nodes && nodes[x].name == path[0] :: x == c
    ensures FindIn(nodes, children, path) == if c in children then FindFrom(nodes, c, path) else 0
    decreases |children|
  {
    if children != [] {
      FindAmong(nodes, children[1..], path, c);
      assert c in children <==> c == children[0] || c in children[1..];
    }
  }

  lemma {:induction false} FindNone(nodes: map<nat, Node>, children: seq<nat>, path: seq<Name>)
    requires path != [] && forall x | x in children && x in nodes :: nodes[x].name != path[0]
    ensures FindIn(nodes, children, path) == 0
    decreases |children|
  {
    if children != [] {
      FindNone(nodes, children[1..], path);
    }
  }

  lemma {:induction false} FindAmongFiles(nodes: map<nat, Node>, ids: seq<nat>, recs: seq<Rec>, at: seq<Name>,
      file: Name)
    requires FilesOk(nodes, ids, Files(recs, at)) && file != []
    ensures match FirstMatch(recs, at, file)
            case None => FindIn(nodes, ids, [file]) == 0
            case Some(rec) => FileOk(nodes, FindIn(nodes, ids, [file]), rec)
    decreases |recs|
  {
    if recs != [] {
      var rest := Files(recs[1..], at);
      if recs[0].dirs == at && recs[0].file != [] {
        assert FileOk(nodes, ids[0], recs[0]);
        forall k: nat | k < |ids[1..]| ensures FileOk(nodes, ids[1..][k], rest[k]) {
          assert FileOk(nodes, ids[k + 1], Files(recs, at)[k + 1]);
        }
        FindAmongFiles(nodes, ids[1..], recs[1..], at, file);
      } else {
        FindAmongFiles(nodes, ids, recs[1..], at, file);
      }
    }
  }

  lemma {:induction false} PrefixIsFolder(nodes: map<nat, Node>, place: map<seq<Name>, nat>, recs: seq<Rec>,
      p: seq<Name>, k: nat)
    requires TreeOk(nodes, place, recs) && p in place && k <= |p|
    ensures p[..k] in place
    decreases |p|
  {
    if k == |p| {
      assert p[..k] == p;
    } else {
      PrefixIsFolder(nodes, place, recs, p[..|p| - 1], k);
      assert p[..|p| - 1][..k] == p[..k];
    }
  }

  lemma {:induction false} NoMatch(recs: seq<Rec>, at: seq<Name>, file: Name)
    requires forall r | r in recs :: r.dirs != at
    ensures FirstMatch(recs, at, file) == None
  {
    if recs != [] {
      NoMatch(recs[1..], at, file);
    }
  }

  lemma NamesOfFolder(nodes: map<nat, Node>, place: map<seq<Name>, nat>, recs: seq<Rec>, at: seq<Name>)
    requires TreeOk(nodes, place, recs) && at in place
    ensures place[at] in nodes
    ensures var n := nodes[place[at]];
      && (forall c | c in n.dirs :: c in nodes && IsFolder(nodes[c].name) && Inside(at, nodes[c].name) in place
                                    && place[Inside(at, nodes[c].name)] == c)
      && (forall f | f in n.files && f in nodes :: SLASH !in nodes[f].name)
  {
    var id := place[at];
    assert FolderOk(nodes, place, recs, at, id);
    forall c | c in nodes[id].dirs
      ensures c in nodes && IsFolder(nodes[c].name) && Inside(at, nodes[c].name) in place
              && place[Inside(at, nodes[c].name)] == c
    {
      assert ChildOk(nodes, place, at, c);
      var p := Inside(at, nodes[c].name);
      assert FolderOk(nodes, place, recs, p, place[p]);
    }
    forall f | f in nodes[id].files && f in nodes ensures SLASH !in nodes[f].name {
      var k :| 0 <= k < |nodes[id].files| && nodes[id].files[k] == f;
      assert FileOk(nodes, nodes[id].files[k], Files(recs, at)[k]);
      assert Files(recs, at)[k] in Files(recs, at);
    }
  }

  /** `f` is the node of the entry, or NULL. */
  ghost predicate FoundAs(nodes: map<nat, Node>, f: nat, rec: Option<Rec>) {
    match rec
    case None => f == 0
    case Some(r) => FileOk(nodes, f, r)
  }

  /** The last component is looked for among the files. */
  lemma FindsFile(nodes: map<nat, Node>, place: map<seq<Name>, nat>, recs: seq<Rec>, at: seq<Name>, file: Name)
    requires TreeOk(nodes, place, recs) && at in place && file != [] && SLASH !in file
    ensures place[at] in nodes && FoundAs(nodes, Below(nodes, place[at], [file]), FirstMatch(recs, at, file))
  {
    NamesOfFolder(nodes, place, recs, at);
    assert FolderOk(nodes, place, recs, at, place[at]);
    FindNone(nodes, nodes[place[at]].dirs, [file]);
    FindAmongFiles(nodes, nodes[place[at]].files, recs, at, file);
  }

  /** A folder component leads to that folder, or nowhere. */
  lemma FindsFolder(nodes: map<nat, Node>, place: map<seq<Name>, nat>, recs: seq<Rec>, at: seq<Name>, path: seq<Name>)
    requires TreeOk(nodes, place, recs) && at in place && |path| > 1 && IsFolder(path[0])
    ensures place[at] in nodes
    ensures var inner := at + [path[0]];
            if inner in place
            then place[inner] in nodes && Below(nodes, place[at], path) == Below(nodes, place[inner], path[1..])
            else Below(nodes, place[at], path) == 0
  {
    NamesOfFolder(nodes, place, recs, at);
    var n, inner := nodes[place[at]], Inside(at, path[0]);
    assert FolderOk(nodes, place, recs, at, place[at]);
    FindNone(nodes, n.files, path);
    if inner in place {
      assert FolderOk(nodes, place, recs, inner, place[inner]);
      FindAmong(nodes, n.dirs, path, place[inner]);
    } else {
      FindNone(nodes, n.dirs, path);
    }
  }

  lemma MissingFolderHasNoFolder(nodes: map<nat, Node>, place: map<seq<Name>, nat>, recs: seq<Rec>, at: seq<Name>,
      d: Name, rest: seq<Name>)
    requires TreeOk(nodes, place, recs) && at + [d] !in place
    ensures at + [d] + rest !in place
  {
    var dirs := at + [d] + rest;
    assert dirs[..|at| + 1] == at + [d];
    if dirs in place {
      PrefixIsFolder(nodes, place, recs, dirs, |at| + 1);
    }
  }

  /** A folder component at the end of the path leads to the folder itself. */
  lemma FindsFolderItself(nodes: map<nat, Node>, place: map<seq<Name>, nat>, recs: seq<Rec>, at: seq<Name>, d: Name)
    requires TreeOk(nodes, place, recs) && at in place && IsFolder(d)
    ensures place[at] in nodes
    ensures Below(nodes, place[at], [d]) == if at + [d] in place then place[at + [d]] else 0
  {
    NamesOfFolder(nodes, place, recs, at);
    var n, inner := nodes[place[at]], Inside(at, d);
    assert FolderOk(nodes, place, recs, at, place[at]);
    FindNone(nodes, n.files, [d]);
    if inner in place {
      assert FolderOk(nodes, place, recs, inner, place[inner]);
      FindAmong(nodes, n.dirs, [d], place[inner]);
    } else {
      FindNone(nodes, n.dirs, [d]);
    }
  }

  /** Below a folder, a path of folders leads to the last of them, or nowhere if there is none. */
  lemma {:induction false} FindsFolderPath(nodes: map<nat, Node>, place: map<seq<Name>, nat>, recs: seq<Rec>,
      at: seq<Name>, dirs: seq<Name>)
    requires TreeOk(nodes, place, recs) && at in place
    requires dirs != [] && (forall i | 0 <= i < |dirs| :: IsFolder(dirs[i]))
    ensures place[at] in nodes
    ensures Below(nodes, place[at], dirs) == if at + dirs in place then place[at + dirs] else 0
    decreases |dirs|
  {
    if |dirs| == 1 {
      assert dirs == [dirs[0]];
      FindsFolderItself(nodes, place, recs, at, dirs[0]);
    } else {
      OneDeeper(at, dirs);
      FindsFolder(nodes, place, recs, at, dirs);
      if at + [dirs[0]] in place {
        FindsFolderPath(nodes, place, recs, at + [dirs[0]], dirs[1..]);
      } else {
        MissingFolderHasNoFolder(nodes, place, recs, at, dirs[0], dirs[1..]);
      }
    }
  }

  lemma MissingFolderHasNoEntry(nodes: map<nat, Node>, place: map<seq<Name>, nat>, recs: seq<Rec>, at: seq<Name>,
      d: Name, rest: seq<Name>, file: Name)
    requires TreeOk(nodes, place, recs) && at + [d] !in place
    ensures FirstMatch(recs, at + [d] + rest, file) == None
  {
    var dirs := at + [d] + rest;
    assert dirs[..|at| + 1] == at + [d];
    forall r | r in recs ensures r.dirs != dirs {
      if r.dirs == dirs {
        PrefixIsFolder(nodes, place, recs, r.dirs, |at| + 1);
      }
    }
    NoMatch(recs, dirs, file);
  }

  lemma FirstOfPath(dirs: seq<Name>, file: Name)
    requires dirs != []
    ensures (dirs + [file])[0] == dirs[0] && (dirs + [file])[1..] == dirs[1..] + [file]
  {
  }

  lemma OneDeeper(at: seq<Name>, dirs: seq<Name>)
    requires dirs != []
    ensures at + dirs == at + [dirs[0]] + dirs[1..]
  {
  }

  /** Below a folder, the lookup finds the node of the first entry of that name. */
  lemma {:induction false} FindsFirstMatch(nodes: map<nat, Node>, place: map<seq<Name>, nat>, recs: seq<Rec>,
      at: seq<Name>, dirs: seq<Name>, file: Name)
    requires TreeOk(nodes, place, recs) && at in place && (forall i | 0 <= i < |dirs| :: IsFolder(dirs[i]))
    requires file != [] && SLASH !in file
    ensures place[at] in nodes
    ensures FoundAs(nodes, Below(nodes, place[at], dirs + [file]), FirstMatch(recs, at + dirs, file))
    decreases |dirs|
  {
    if dirs == [] {
      assert at + dirs == at && dirs + [file] == [file];
      FindsFile(nodes, place, recs, at, file);
    } else {
      OneDeeper(at, dirs);
      FirstOfPath(dirs, file);
      FindsFolder(nodes, place, recs, at, dirs + [file]);
      if at + [dirs[0]] in place {
        FindsFirstMatch(nodes, place, recs, at + [dirs[0]], dirs[1..], file);
      } else {
        MissingFolderHasNoEntry(nodes, place, recs, at, dirs[0], dirs[1..], file);
      }
    }
  }

  // ---------------------------------------------------------------------------
  // Insertion

  lemma FilesKept(nodes: map<nat, Node>, nodes': map<nat, Node>, ids: seq<nat>, recs: seq<Rec>)
    requires FilesOk(nodes, ids, recs)
    requires forall f | f in nodes && !nodes[f].dir :: f in nodes' && nodes'[f] == nodes[f]
    ensures FilesOk(nodes', ids, recs)
  {
    forall k: nat | k < |ids| ensures FileOk(nodes', ids[k], recs[k]) {
      assert FileOk(nodes, ids[k], recs[k]);
    }
  }

  function WithFolder(nodes: map<nat, Node>, id: nat, c: nat, name: Name, size: nat): map<nat, Node>
    requires id in nodes
  {
    nodes[c := Node(name, size, 0, true, [], [])][id := nodes[id].(dirs := nodes[id].dirs + [c])]
  }

  /** A folder other than the one that gets a new child. */
  lemma OtherFolderKept(nodes: map<nat, Node>, place: map<seq<Name>, nat>, recs: seq<Rec>, at: seq<Name>, name: Name,
      size: nat, c: nat, p: seq<Name>)
    requires TreeOk(nodes, place, recs) && at in place && p in place && p != at
    requires Inside(at, name) !in place && c !in nodes && place[at] in nodes
    ensures FolderOk(WithFolder(nodes, place[at], c, name, size), place[Inside(at, name) := c], recs, p, place[p])
  {
    var id := place[p];
    var nodes' := WithFolder(nodes, place[at], c, name, size);
    var place' := place[Inside(at, name) := c];
    assert FolderOk(nodes, place, recs, p, id);
    assert FolderOk(nodes, place, recs, at, place[at]);
    FilesKept(nodes, nodes', nodes[id].files, Files(recs, p));
    forall x | x in nodes'[id].dirs ensures ChildOk(nodes', place', p, x) {
      assert ChildOk(nodes, place, p, x);
    }
    forall d | Inside(p, d) in place' ensures place'[Inside(p, d)] in nodes'[id].dirs {
      assert Inside(p, d)[..|p|] == p && Inside(at, name)[..|at|] == at;
    }
  }

  lemma GrownFolder(nodes: map<nat, Node>, place: map<seq<Name>, nat>, recs: seq<Rec>, at: seq<Name>, name: Name,
      size: nat, c: nat)
    requires TreeOk(nodes, place, recs) && at in place
    requires Inside(at, name) !in place && c !in nodes && place[at] in nodes
    ensures FolderOk(WithFolder(nodes, place[at], c, name, size), place[Inside(at, name) := c], recs, at, place[at])
  {
    var id := place[at];
    var nodes' := WithFolder(nodes, id, c, name, size);
    var place' := place[Inside(at, name) := c];
    assert FolderOk(nodes, place, recs, at, id);
    FilesKept(nodes, nodes', nodes[id].files, Files(recs, at));
    forall x | x in nodes'[id].dirs ensures ChildOk(nodes', place', at, x) {
      if x != c {
        assert ChildOk(nodes, place, at, x);
      }
    }
    forall d | Inside(at, d) in place' ensures place'[Inside(at, d)] in nodes'[id].dirs {
      assert Inside(at, d)[|at|] == d && Inside(at, name)[|at|] == name;
    }
  }

  lemma {:induction false} NoFiles(recs: seq<Rec>, at: seq<Name>)
    requires forall r | r in recs :: r.dirs != at
    ensures Files(recs, at) == []
  {
    if recs != [] {
      NoFiles(recs[1..], at);
    }
  }

  lemma NewFolder(nodes: map<nat, Node>, place: map<seq<Name>, nat>, recs: seq<Rec>, at: seq<Name>, name: Name,
      size: nat, c: nat)
    requires TreeOk(nodes, place, recs) && at in place && IsFolder(name)
    requires Inside(at, name) !in place && c !in nodes && c != 0 && place[at] in nodes
    ensures var p := Inside(at, name);
            FolderOk(WithFolder(nodes, place[at], c, name, size), place[p := c], recs, p, c)
  {
    var p := Inside(at, name);
    var place' := place[p := c];
    NoFiles(recs, p);
    forall d ensures Inside(p, d) !in place' {
      assert Inside(p, d)[..|Inside(p, d)| - 1] == p;
    }
  }

  /** A new folder inside of `at`. */
  lemma AddFolder(nodes: map<nat, Node>, place: map<seq<Name>, nat>, recs: seq<Rec>, at: seq<Name>, name: Name,
      size: nat, c: nat)
    requires TreeOk(nodes, place, recs) && at in place && IsFolder(name)
    requires Inside(at, name) !in place && c !in nodes && c != 0
    ensures place[at] in nodes
    ensures TreeOk(WithFolder(nodes, place[at], c, name, size), place[Inside(at, name) := c], recs)
  {
    assert FolderOk(nodes, place, recs, at, place[at]);
    var nodes' := WithFolder(nodes, place[at], c, name, size);
    var place' := place[Inside(at, name) := c];
    NewFolder(nodes, place, recs, at, name, size, c);
    GrownFolder(nodes, place, recs, at, name, size, c);
    forall p | p in place' ensures FolderOk(nodes', place', recs, p, place'[p]) {
      if p in place && p != at {
        OtherFolderKept(nodes, place, recs, at, name, size, c, p);
      }
    }
    forall p, q | p in place' && q in place' && place'[p] == place'[q] ensures p == q {
      assert p in place ==> FolderOk(nodes, place, recs, p, place[p]);
      assert q in place ==> FolderOk(nodes, place, recs, q, place[q]);
    }
  }

  function WithFile(nodes: map<nat, Node>, id: nat, c: nat, rec: Rec): map<nat, Node>
    requires id in nodes
  {
    nodes[c := Node(rec.file, rec.size, rec.start, false, [], [])][id := nodes[id].(files := nodes[id].files + [c])]
  }

  lemma {:induction false} FilesAppend(recs: seq<Rec>, rec: Rec, at: seq<Name>)
    ensures Files(recs + [rec], at) == Files(recs, at) + (if rec.dirs == at && rec.file != [] then [rec] else [])
  {
    if recs == [] {
      assert [] + [rec] == [rec];
      assert [rec][1..] == [];
    } else {
      FilesAppend(recs[1..], rec, at);
      assert (recs + [rec])[1..] == recs[1..] + [rec];
    }
  }

  /** A new file of the folder `rec.dirs`. */
  lemma AddFile(nodes: map<nat, Node>, place: map<seq<Name>, nat>, recs: seq<Rec>, rec: Rec, c: nat)
    requires TreeOk(nodes, place, recs) && rec.dirs in place && rec.file != [] && SLASH !in rec.file
             && c !in nodes && c != 0
    ensures place[rec.dirs] in nodes
    ensures TreeOk(WithFile(nodes, place[rec.dirs], c, rec), place, recs + [rec])
  {
    var at := rec.dirs;
    assert FolderOk(nodes, place, recs, at, place[at]);
    var nodes' := WithFile(nodes, place[at], c, rec);
    forall p | p in place ensures FolderOk(nodes', place, recs + [rec], p, place[p]) {
      FolderKeepsFile(nodes, place, recs, rec, c, p);
    }
  }

  lemma FolderKeepsFile(nodes: map<nat, Node>, place: map<seq<Name>, nat>, recs: seq<Rec>, rec: Rec, c: nat,
      p: seq<Name>)
    requires TreeOk(nodes, place, recs) && rec.dirs in place && rec.file != [] && SLASH !in rec.file
             && c !in nodes && c != 0
    requires p in place && place[rec.dirs] in nodes
    ensures FolderOk(WithFile(nodes, place[rec.dirs], c, rec), place, recs + [rec], p, place[p])
  {
    var id := place[p];
    var nodes' := WithFile(nodes, place[rec.dirs], c, rec);
    assert FolderOk(nodes, place, recs, p, id);
    assert FolderOk(nodes, place, recs, rec.dirs, place[rec.dirs]);
    FilesKept(nodes, nodes', nodes[id].files, Files(recs, p));
    FilesAppend(recs, rec, p);
    forall x | x in nodes'[id].dirs ensures ChildOk(nodes', place, p, x) {
      assert ChildOk(nodes, place, p, x);
    }
  }

  /** An entry without a file only leaves its folders behind. */
  lemma AddFolderEntry(nodes: map<nat, Node>, place: map<seq<Name>, nat>, recs: seq<Rec>, rec: Rec)
    requires TreeOk(nodes, place, recs) && rec.dirs in place && rec.file == []
    ensures TreeOk(nodes, place, recs + [rec])
  {
    forall p | p in place ensures FolderOk(nodes, place, recs + [rec], p, place[p]) {
      assert FolderOk(nodes, place, recs, p, place[p]);
      FilesAppend(recs, rec, p);
    }
  }

  // ---------------------------------------------------------------------------
  // The file system

  /** What fits into the buffers of `load_tarfs`: six components of ten characters.  A single component is cut with
      a character too many. */
  predicate Storable(comps: seq<Name>) {
    && 2 <= |comps| <= 6 && |comps[|comps| - 1]| <= 8 && SLASH !in comps[|comps| - 1]
    && (forall i | 0 <= i < |comps| - 1 :: IsFolder(comps[i]) && |comps[i]| <= 9)
  }

  /** "rootfs/" */
  const ROOTFS: Name := [114, 111, 111, 116, 102, 115, 47]

  class FileSystem {
    var nodes: map<nat, Node>
    /** The root "/" with the other mounts, and the mount point of the archive. */
    var root: nat
    var rootfs: nat
    /** Every later inode is new. */
    var next: nat
    ghost var place: map<seq<Name>, nat>
    ghost var recs: seq<Rec>

    ghost predicate Valid()
      reads this
    {
      SystemOk(nodes, place, recs, root, rootfs, next)
    }

    /** `initialise_file_system` and `initialise_tarfs` up to the loading, without the devices. */
    constructor ()
      ensures Valid() && recs == [] && FoldersOf(nodes, place, recs)
    {
      root, rootfs, next := 1, 4, 5;
      nodes := map[1 := Node([SLASH], 0, 0, true, [2, 3, 4], []),
                   2 := Node([100, 101, 118, 47], 0, 0, true, [], []),
                   3 := Node([112, 114, 111, 99, 47], 0, 0, true, [], []),
                   4 := Node(ROOTFS, 0, 0, true, [], [])];
      place, recs := map[[] := 4], [];
    }

    /** `create_t_node`. */
    method CreateNode(name: Name) returns (c: nat)
      modifies `nodes, `next
      ensures c == old(next) && next == c + 1 && nodes == old(nodes)[c := Node(name, 0, 0, false, [], [])]
    {
      c := next;
      next := next + 1;
      nodes := nodes[c := Node(name, 0, 0, false, [], [])];
    }

    /** `folder_exist`. */
    method FolderExist(current: nat, folderName: Name) returns (sub: nat)
      requires current in nodes && forall c | c in nodes[current].dirs :: c in nodes && c != 0
      ensures sub == 0 ==> forall c | c in nodes[current].dirs :: nodes[c].name != folderName
      ensures sub != 0 ==> sub in nodes[current].dirs && nodes[sub].name == folderName
    {
      var i := 0;
      while i < |nodes[current].dirs|
        invariant i <= |nodes[current].dirs|
                  && forall k | 0 <= k < i :: nodes[nodes[current].dirs[k]].name != folderName
      {
        sub := nodes[current].dirs[i];
        var c := Compare(nodes[sub].name, folderName);
        if c == 0 {
          return;
        }
        i := i + 1;
      }
      sub := 0;
    }

    /** A new node becomes a subdirectory. */
    method HangFolder(active: nat, name: Name, size: nat) returns (node: nat)
      requires AllBelow(nodes, next) && active in nodes
      modifies `nodes, `next
      ensures node == old(next) && next == node + 1 && nodes == WithFolder(old(nodes), active, node, name, size)
    {
      node := CreateNode(name);
      nodes := nodes[node := nodes[node].(dir := true, size := size)];
      nodes := nodes[active := nodes[active].(dirs := nodes[active].dirs + [node])];
    }

    /** A new node becomes a file. */
    method HangFile(active: nat, ghost at: seq<Name>, name: Name, size: nat, start: nat) returns (node: nat)
      requires AllBelow(nodes, next) && active in nodes
      modifies `nodes, `next
      ensures node == old(next) && next == node + 1
              && nodes == WithFile(old(nodes), active, node, Rec(at, name, size, start))
    {
      node := CreateNode(name);
      nodes := nodes[node := nodes[node].(size := size, start := start)];
      nodes := nodes[active := nodes[active].(files := nodes[active].files + [node])];
    }

    /** Component `l`, with a slash: the folder it names, created if need be. */
    method EnterFolder(active: nat, subName: seq<Name>, l: nat, size: nat) returns (node: nat)
      requires Valid() && l < |subName| && subName[..l] in place && active == place[subName[..l]]
               && IsFolder(subName[l])
      modifies `nodes, `next, `place
      ensures Valid() && subName[..l + 1] in place && node == place[subName[..l + 1]]
      ensures OneFolderAdded(old(nodes), old(place), nodes, place, subName[..l + 1], size)
    {
      FolderIsNode(nodes, place, recs, subName[..l]);
      node := FolderExist(active, subName[l]);
      if node == 0 {
        node := NewFolderAt(active, subName, l, size);
      } else {
        FolderIsThere(nodes, place, recs, subName, l, node);
      }
    }

    /** `folder_exist` has found nothing. */
    method NewFolderAt(active: nat, subName: seq<Name>, l: nat, size: nat) returns (node: nat)
      requires Valid() && l < |subName| && subName[..l] in place && active == place[subName[..l]]
      requires IsFolder(subName[l]) && active in nodes
      requires forall c | c in nodes[active].dirs :: c in nodes && c != 0 && nodes[c].name != subName[l]
      modifies `nodes, `next, `place
      ensures Valid() && subName[..l + 1] in place && node == place[subName[..l + 1]]
      ensures OneFolderAdded(old(nodes), old(place), nodes, place, subName[..l + 1], size)
    {
      FolderIsMissing(nodes, place, recs, root, rootfs, next, subName, l, size);
      HungFolder(nodes, place, recs, subName, l, size, next);
      node := HangFolder(active, subName[l], size);
      place := place[subName[..l + 1] := node];
    }

    /** The component without a slash: a new file.  `file_exist` compares the addresses of two different buffers, so it
        never finds a file of that name. */
    method EnterFile(active: nat, ghost at: seq<Name>, name: Name, size: nat, start: nat) returns (node: nat)
      requires Valid() && at in place && active == place[at] && name != [] && SLASH !in name
      modifies `nodes, `next, `recs
      ensures Valid() && recs == old(recs) + [Rec(at, name, size, start)] && SizesKept(old(nodes), nodes)
    {
      ghost var rec := Rec(at, name, size, start);
      FolderIsNode(nodes, place, recs, at);
      FileEntered(nodes, place, recs, root, rootfs, next, rec);
      node := HangFile(active, at, name, size, start);
      recs := recs + [rec];
    }

    /** The components of one name. */
    method LoadEntry(subName: seq<Name>, size: nat, start: nat)
      requires Valid() && Storable(subName)
      modifies `nodes, `next, `place, `recs
      ensures Valid() && recs == old(recs) + [RecOf(subName, size, start)]
      ensures FoldersAdded(old(nodes), old(place), nodes, place, subName[..|subName| - 1], size)
    {
      ghost var k := |subName| - 1;
      var active, l := rootfs, 0;
      RootIsFolder(nodes, place, recs, root, rootfs, next);
      NothingAdded(nodes, place, subName[..0], size);
      while l < |subName|
        invariant 0 <= l <= k + 1 && Valid()
        invariant l <= k ==> recs == old(recs) && subName[..l] in place && active == place[subName[..l]]
        invariant l == k + 1 ==> recs == old(recs) + [RecOf(subName, size, start)]
        invariant FoldersAdded(old(nodes), old(place), nodes, place, subName[..if l <= k then l else k], size)
      {
        ghost var nodes0, place0 := nodes, place;
        ComponentAt(subName, size, start, l);
        if subName[l] == [] {
          FolderEntryEntered(nodes, place, recs, root, rootfs, next, RecOf(subName, size, start));
          recs := recs + [RecOf(subName, size, start)];
          break;
        }
        if subName[l][|subName[l]| - 1] == SLASH {
          active := EnterFolder(active, subName, l, size);
          AddedOneMore(old(nodes), old(place), nodes0, place0, nodes, place, subName, l, size);
        } else {
          active := EnterFile(active, subName[..l], subName[l], size, start);
          AddedAndKept(old(nodes), old(place), nodes0, place, nodes, subName[..l], size);
        }
        l := l + 1;
      }
    }

    /** `find_file_from_root`. */
    method FindFileFromRoot(current: nat, fileName: seq<Name>, depth: nat) returns (ret: nat)
      requires Closed(nodes) && current in nodes && depth < |fileName| && forall c | c in nodes :: c != 0
      ensures ret == FindFrom(nodes, current, fileName[depth..])
      decreases |fileName| - depth, 0
    {
      ghost var path := fileName[depth..];
      assert depth + 1 < |fileName| ==> path[1..] == fileName[depth + 1..];
      ret := 0;
      var cmp := Compare(nodes[current].name, fileName[depth]);
      if cmp == 0 {
        if depth == |fileName| - 1 {
          return current;
        }
        if nodes[current].dir {
          ret := FindAmongChildren(nodes[current].dirs, fileName, depth + 1);
          if ret == 0 {
            ret := FindAmongChildren(nodes[current].files, fileName, depth + 1);
          }
        }
      }
    }

    /** Either of its loops. */
    method FindAmongChildren(children: seq<nat>, fileName: seq<Name>, depth: nat) returns (ret: nat)
      requires Closed(nodes) && depth < |fileName| && (forall c | c in nodes :: c != 0)
               && forall c | c in children :: c in nodes
      ensures ret == FindIn(nodes, children, fileName[depth..])
      decreases |fileName| - depth, 1
    {
      var i := 0;
      ret := 0;
      while i < |children|
        invariant i <= |children|
                  && FindIn(nodes, children, fileName[depth..]) == FindIn(nodes, children[i..], fileName[depth..])
      {
        assert children[i..][1..] == children[i + 1..];
        ret := FindFileFromRoot(children[i], fileName, depth);
        if ret != 0 {
          return;
        }
        i := i + 1;
      }
    }

    /** `find_file`. */
    method FindFile(fileName: Name) returns (found: nat)
      requires Valid() && (fileName != [] ==> Searchable(Components(fileName)))
      ensures found == if fileName != [] && fileName[0] == SLASH then FindFrom(nodes, root, Components(fileName)) else 0
    {
      found := 0;
      if fileName != [] && fileName[0] == SLASH {
        var subName := SplitPath(fileName);
        assert subName[0..] == subName;
        found := FindFileFromRoot(root, subName, 0);
      }
    }

    /** The entry of the header at `address`. */
    method LoadHeader(m: seq<Byte>, address: nat) returns (size: nat)
      requires Valid() && address + 512 <= |m| && Storable(Split(StringAt(m, address)))
      modifies `nodes, `next, `place, `recs
      ensures Valid() && size == SizeAt(m, address) && recs == old(recs) + [RecAt(m, address)]
      ensures old(FoldersOf(nodes, place, recs)) ==> FoldersOf(nodes, place, recs)
    {
      ghost var nodes0, place0, recs0 := nodes, place, recs;
      size := ComputeSize(m[address + 124..address + 136]);
      var name := ReadString(m, address);
      var subName := SplitName(name);
      LoadEntry(subName, size, address + 512);
      if FoldersOf(nodes0, place0, recs0) {
        FoldersOfMore(nodes0, place0, recs0, nodes, place, RecAt(m, address));
      }
    }

    /** One round of the loop of `load_tarfs`. */
    method LoadNext(m: seq<Byte>, address: nat) returns (b: nat)
      requires Valid() && Terminated(m, address) && m[address] != 0 && AllStorable(m, Headers(m, address))
      modifies `nodes, `next, `place, `recs
      ensures Valid() && address < b && Terminated(m, b) && AllStorable(m, Headers(m, b))
      ensures recs + RecsOf(m, Headers(m, b)) == old(recs) + RecsOf(m, Headers(m, address))
      ensures old(FoldersOf(nodes, place, recs)) ==> FoldersOf(nodes, place, recs)
    {
      RecsStep(m, address);
      LoadedOneMore(m, address, recs);
      var size := LoadHeader(m, address);
      b := StepOver(address, size);
    }

    /** `load_tarfs` from the archive at `start`. */
    method LoadTarfs(m: seq<Byte>, start: nat)
      requires Valid() && Terminated(m, start) && AllStorable(m, Headers(m, start))
      modifies `nodes, `next, `place, `recs
      ensures Valid() && recs == old(recs) + RecsOf(m, Headers(m, start))
      ensures old(FoldersOf(nodes, place, recs)) ==> FoldersOf(nodes, place, recs)
    {
      var address := start;
      while m[address] != 0
        invariant Valid() && Terminated(m, address) && AllStorable(m, Headers(m, address))
        invariant recs + RecsOf(m, Headers(m, address)) == old(recs) + RecsOf(m, Headers(m, start))
        invariant old(FoldersOf(nodes, place, recs)) ==> FoldersOf(nodes, place, recs)
        decreases |m| - address
      {
        address := LoadNext(m, address);
      }
      assert recs + [] == recs;
    }
  }

  /** At most one folder has been added, with that size. */
  ghost predicate OneFolderAdded(nodes: map<nat, Node>, place: map<seq<Name>, nat>, nodes': map<nat, Node>,
      place': map<seq<Name>, nat>, dir: seq<Name>, size: nat) {
    && SizesKept(nodes, nodes') && dir in place' && place' == place[dir := place'[dir]]
    && if dir in place then place'[dir] == place[dir] else place'[dir] in nodes' && nodes'[place'[dir]].size == size
  }

  lemma HungFolder(nodes: map<nat, Node>, place: map<seq<Name>, nat>, recs: seq<Rec>, subName: seq<Name>, l: nat,
      size: nat, c: nat)
    requires TreeOk(nodes, place, recs) && l < |subName| && subName[..l] in place && place[subName[..l]] in nodes
    requires c !in nodes && forall x | x in nodes[place[subName[..l]]].dirs :: x in nodes && x != 0
    requires forall x | x in nodes[place[subName[..l]]].dirs :: nodes[x].name != subName[l]
    ensures OneFolderAdded(nodes, place, WithFolder(nodes, place[subName[..l]], c, subName[l], size),
              place[subName[..l + 1] := c], subName[..l + 1], size)
  {
    assert subName[..l + 1] == subName[..l] + [subName[l]];
    FolderFound(nodes, place, recs, subName[..l], subName[l], 0);
  }

  lemma NothingAdded(nodes: map<nat, Node>, place: map<seq<Name>, nat>, dirs: seq<Name>, size: nat)
    requires [] in place && dirs == []
    ensures FoldersAdded(nodes, place, nodes, place, dirs, size)
  {
  }

  lemma AddedOneMore(nodes: map<nat, Node>, place: map<seq<Name>, nat>, nodes1: map<nat, Node>,
      place1: map<seq<Name>, nat>, nodes2: map<nat, Node>, place2: map<seq<Name>, nat>, subName: seq<Name>, l: nat,
      size: nat)
    requires l < |subName| && FoldersAdded(nodes, place, nodes1, place1, subName[..l], size)
    requires OneFolderAdded(nodes1, place1, nodes2, place2, subName[..l + 1], size)
    ensures FoldersAdded(nodes, place, nodes2, place2, subName[..l + 1], size)
  {
    forall p: seq<Name> ensures p in place2 <==> p in place || p <= subName[..l + 1] {
      PrefixOneMore(subName, l, p);
      assert p in place1 <==> p in place || p <= subName[..l];
    }
  }

  lemma PrefixOneMore(subName: seq<Name>, l: nat, p: seq<Name>)
    requires l < |subName|
    ensures p <= subName[..l + 1] <==> p <= subName[..l] || p == subName[..l + 1]
  {
    if p <= subName[..l + 1] && |p| <= l {
      assert p == subName[..l + 1][..|p|] == subName[..l][..|p|];
    }
    if p <= subName[..l] {
      assert p == subName[..l][..|p|] == subName[..l + 1][..|p|];
    }
  }

  lemma AddedAndKept(nodes: map<nat, Node>, place: map<seq<Name>, nat>, nodes1: map<nat, Node>,
      place1: map<seq<Name>, nat>, nodes2: map<nat, Node>, dirs: seq<Name>, size: nat)
    requires FoldersAdded(nodes, place, nodes1, place1, dirs, size) && SizesKept(nodes1, nodes2)
    ensures FoldersAdded(nodes, place, nodes2, place1, dirs, size)
  {
  }

  lemma LoadedOneMore(m: seq<Byte>, a: nat, recs: seq<Rec>)
    requires Terminated(m, a) && m[a] != 0 && AllStorable(m, Headers(m, a))
    ensures recs + [RecAt(m, a)] + RecsOf(m, Headers(m, After(a, SizeAt(m, a)))) == recs + RecsOf(m, Headers(m, a))
  {
    RecsStep(m, a);
  }

  ghost predicate AllStorable(m: seq<Byte>, headers: seq<nat>) {
    forall h | h in headers :: Storable(Split(StringAt(m, h)))
  }

  /** The entry that the header at `h` stands for. */
  function RecAt(m: seq<Byte>, h: nat): Rec {
    RecOf(Split(StringAt(m, h)), if h + 512 <= |m| then SizeAt(m, h) else 0, h + 512)
  }

  /** How `find_file` cuts a path. */
  function Components(path: Name): (c: seq<Name>)
    requires path != []
    ensures c != []
  {
    if IsFolder(path) && |Split(path)| > 1 then Split(path)[..|Split(path)| - 1] else Split(path)
  }

  /** All components but the last are folders. */
  lemma ComponentAt(comps: seq<Name>, size: nat, start: nat, l: nat)
    requires Storable(comps) && l < |comps|
    ensures l < |comps| - 1 ==> IsFolder(comps[l])
    ensures l == |comps| - 1 ==>
              !IsFolder(comps[l]) && RecOf(comps, size, start) == Rec(comps[..l], comps[l], size, start)
  {
  }

  /** What fits into the buffers of `find_file`. */
  predicate Searchable(comps: seq<Name>) {
    0 < |comps| <= 6 && |comps[|comps| - 1]| <= 8 && forall i | 0 <= i < |comps| - 1 :: |comps[i]| <= 9
  }

  /** The entries that the headers stand for. */
  function RecsOf(m: seq<Byte>, headers: seq<nat>): seq<Rec> {
    if headers == [] then [] else [RecAt(m, headers[0])] + RecsOf(m, headers[1..])
  }

  lemma RecsStep(m: seq<Byte>, a: nat)
    requires Terminated(m, a) && m[a] != 0 && AllStorable(m, Headers(m, a))
    ensures var next := After(a, SizeAt(m, a));
      && Terminated(m, next) && Storable(Split(StringAt(m, a))) && AllStorable(m, Headers(m, next))
      && RecsOf(m, Headers(m, a)) == [RecAt(m, a)] + RecsOf(m, Headers(m, next))
  {
    var rest := Headers(m, After(a, SizeAt(m, a)));
    assert Headers(m, a) == [a] + rest;
    assert a in Headers(m, a) && forall h | h in rest :: h in Headers(m, a);
  }

  /** The whole state: the tree below the mount point, the root above it, and fresh inodes from `next` on. */
  ghost predicate SystemOk(nodes: map<nat, Node>, place: map<seq<Name>, nat>, recs: seq<Rec>, root: nat, rootfs: nat,
      next: nat) {
    && TreeOk(nodes, place, recs) && place[[]] == rootfs && Mounted(nodes, place, root, rootfs) && AllBelow(nodes, next)
    && Closed(nodes)
  }

  lemma RootIsFolder(nodes: map<nat, Node>, place: map<seq<Name>, nat>, recs: seq<Rec>, root: nat, rootfs: nat,
      next: nat)
    requires SystemOk(nodes, place, recs, root, rootfs, next)
    ensures [] in place && place[[]] == rootfs
  {
  }

  lemma FolderIsNode(nodes: map<nat, Node>, place: map<seq<Name>, nat>, recs: seq<Rec>, at: seq<Name>)
    requires TreeOk(nodes, place, recs) && at in place
    ensures place[at] in nodes && forall c | c in nodes[place[at]].dirs :: c in nodes && c != 0
  {
    assert FolderOk(nodes, place, recs, at, place[at]);
    forall c | c in nodes[place[at]].dirs ensures c in nodes && c != 0 {
      assert ChildOk(nodes, place, at, c);
      var p := Inside(at, nodes[c].name);
      assert FolderOk(nodes, place, recs, p, place[p]);
    }
  }

  /** What `folder_exist` has found. */
  lemma FolderFound(nodes: map<nat, Node>, place: map<seq<Name>, nat>, recs: seq<Rec>, at: seq<Name>, name: Name,
      sub: nat)
    requires TreeOk(nodes, place, recs) && at in place && place[at] in nodes
    requires forall c | c in nodes[place[at]].dirs :: c in nodes && c != 0
    requires sub == 0 ==> forall c | c in nodes[place[at]].dirs :: nodes[c].name != name
    requires sub != 0 ==> sub in nodes[place[at]].dirs && nodes[sub].name == name
    ensures sub == 0 ==> at + [name] !in place
    ensures sub != 0 ==> at + [name] in place && place[at + [name]] == sub
  {
    assert FolderOk(nodes, place, recs, at, place[at]);
    var p := Inside(at, name);
    assert p in place ==> FolderOk(nodes, place, recs, p, place[p]);
    if sub != 0 {
      assert ChildOk(nodes, place, at, sub);
    }
  }

  /** `folder_exist` has found the folder of the first `l + 1` components. */
  lemma FolderIsThere(nodes: map<nat, Node>, place: map<seq<Name>, nat>, recs: seq<Rec>, subName: seq<Name>, l: nat,
      sub: nat)
    requires TreeOk(nodes, place, recs) && l < |subName| && subName[..l] in place && place[subName[..l]] in nodes
    requires sub in nodes[place[subName[..l]]].dirs && sub in nodes && nodes[sub].name == subName[l] && sub != 0
    requires forall c | c in nodes[place[subName[..l]]].dirs :: c in nodes && c != 0
    ensures subName[..l + 1] in place && place[subName[..l + 1]] == sub
  {
    assert subName[..l + 1] == subName[..l] + [subName[l]];
    FolderFound(nodes, place, recs, subName[..l], subName[l], sub);
  }

  /** It has not, and the new folder takes its place. */
  lemma FolderIsMissing(nodes: map<nat, Node>, place: map<seq<Name>, nat>, recs: seq<Rec>, root: nat, rootfs: nat,
      next: nat, subName: seq<Name>, l: nat, size: nat)
    requires SystemOk(nodes, place, recs, root, rootfs, next) && l < |subName| && subName[..l] in place
    requires IsFolder(subName[l]) && place[subName[..l]] in nodes
    requires forall c | c in nodes[place[subName[..l]]].dirs :: c in nodes && c != 0 && nodes[c].name != subName[l]
    ensures var nodes' := WithFolder(nodes, place[subName[..l]], next, subName[l], size);
            SystemOk(nodes', place[subName[..l + 1] := next], recs, root, rootfs, next + 1)
  {
    assert subName[..l + 1] == subName[..l] + [subName[l]];
    FolderFound(nodes, place, recs, subName[..l], subName[l], 0);
    FolderEntered(nodes, place, recs, root, rootfs, next, subName[..l], subName[l], size);
  }

  lemma FolderEntered(nodes: map<nat, Node>, place: map<seq<Name>, nat>, recs: seq<Rec>, root: nat, rootfs: nat,
      next: nat, at: seq<Name>, name: Name, size: nat)
    requires SystemOk(nodes, place, recs, root, rootfs, next) && at in place && IsFolder(name) && at + [name] !in place
    ensures place[at] in nodes
    ensures var nodes' := WithFolder(nodes, place[at], next, name, size);
            SystemOk(nodes', place[at + [name] := next], recs, root, rootfs, next + 1)
  {
    assert Inside(at, name) == at + [name];
    AddFolder(nodes, place, recs, at, name, size, next);
    MountedKept(nodes, place, root, rootfs, at, name, size, next);
  }

  lemma FileEntered(nodes: map<nat, Node>, place: map<seq<Name>, nat>, recs: seq<Rec>, root: nat, rootfs: nat,
      next: nat, rec: Rec)
    requires SystemOk(nodes, place, recs, root, rootfs, next) && rec.dirs in place
    requires rec.file != [] && SLASH !in rec.file
    ensures place[rec.dirs] in nodes
    ensures SystemOk(WithFile(nodes, place[rec.dirs], next, rec), place, recs + [rec], root, rootfs, next + 1)
  {
    AddFile(nodes, place, recs, rec, next);
    MountedKeptByFile(nodes, place, root, rootfs, rec, next);
  }

  lemma FolderEntryEntered(nodes: map<nat, Node>, place: map<seq<Name>, nat>, recs: seq<Rec>, root: nat, rootfs: nat,
      next: nat, rec: Rec)
    requires SystemOk(nodes, place, recs, root, rootfs, next) && rec.dirs in place && rec.file == []
    ensures SystemOk(nodes, place, recs + [rec], root, rootfs, next)
  {
    AddFolderEntry(nodes, place, recs, rec);
  }

  /** Children are nodes. */
  ghost predicate Closed(nodes: map<nat, Node>) {
    forall id | id in nodes :: (forall c | c in nodes[id].dirs :: c in nodes)
        && (forall c | c in nodes[id].files :: c in nodes)
  }

  ghost predicate AllBelow(nodes: map<nat, Node>, next: nat) {
    next > 0 && forall c | c in nodes :: 0 < c < next
  }

  /** The root has the archive mounted as "rootfs/", next to folders of other names, and no files. */
  ghost predicate Mounted(nodes: map<nat, Node>, place: map<seq<Name>, nat>, root: nat, rootfs: nat) {
    && root != 0 && root in nodes && nodes[root].name == [SLASH] && nodes[root].dir && nodes[root].files == []
    && rootfs in nodes[root].dirs && rootfs in nodes && nodes[rootfs].name == ROOTFS
    && (forall c | c in nodes[root].dirs :: c in nodes && (nodes[c].name == ROOTFS ==> c == rootfs))
    && (forall p | p in place :: place[p] != root)
  }

  lemma MountedKept(nodes: map<nat, Node>, place: map<seq<Name>, nat>, root: nat, rootfs: nat, at: seq<Name>,
      name: Name, size: nat, c: nat)
    requires Mounted(nodes, place, root, rootfs) && at in place && place[at] in nodes && c !in nodes
    ensures Mounted(WithFolder(nodes, place[at], c, name, size), place[Inside(at, name) := c], root, rootfs)
  {
  }

  lemma MountedKeptByFile(nodes: map<nat, Node>, place: map<seq<Name>, nat>, root: nat, rootfs: nat, rec: Rec, c: nat)
    requires Mounted(nodes, place, root, rootfs) && rec.dirs in place && place[rec.dirs] in nodes && c !in nodes
    ensures Mounted(WithFile(nodes, place[rec.dirs], c, rec), place, root, rootfs)
  {
  }
}
