/**
  The path tree agrees with the linear scan of the archive: `find_file` finds a file exactly when
  `findfile` does, and both lead to the same bytes.
 */
module FileLookup {
  import opened CStrings
  import opened Archive
  import opened Paths
  import opened FileTree
  import opened Wrappers

  /** "/rootfs/" */
  const MOUNT: Name := [SLASH] + ROOTFS

  lemma ComponentsOfMounted(name: Name)
    requires name != [] && !IsFolder(name)
    ensures Components(MOUNT + name) == [[SLASH], ROOTFS] + Split(name)
  {
    var folder := ROOTFS[..|ROOTFS| - 1];
    assert MOUNT + name == [] + [SLASH] + (ROOTFS + name) && ROOTFS + name == folder + [SLASH] + name;
    SplitBehindFolder([], [], ROOTFS + name);
    SplitBehindFolder([], folder, name);
    assert [] + [] + [SLASH] == [SLASH] && [] + folder + [SLASH] == ROOTFS;
    assert [[SLASH]] + ([ROOTFS] + Split(name)) == [[SLASH], ROOTFS] + Split(name);
    assert (MOUNT + name)[|MOUNT + name| - 1] == name[|name| - 1];
  }

  /** The way from the root to the mount point. */
  lemma ThroughTheMount(nodes: map<nat, Node>, place: map<seq<Name>, nat>, recs: seq<Rec>, root: nat, rootfs: nat,
      next: nat, path: seq<Name>)
    requires SystemOk(nodes, place, recs, root, rootfs, next) && path != []
    ensures rootfs in nodes && FindFrom(nodes, root, [[SLASH], ROOTFS] + path) == Below(nodes, rootfs, path)
  {
    assert FolderOk(nodes, place, recs, [], place[[]]);
    var p1 := [ROOTFS] + path;
    assert ([[SLASH], ROOTFS] + path)[1..] == p1 && p1[1..] == path;
    FindAmong(nodes, nodes[root].dirs, p1, rootfs);
    FindNone(nodes, nodes[root].files, p1);
  }

  /** The headers of a name are the entries with its components. */
  lemma {:induction false} MatchIsScan(m: seq<Byte>, headers: seq<nat>, name: Name)
    requires 0 !in headers
    ensures var h := FirstNamed(m, headers, name);
            var path := Split(name);
            FirstMatch(RecsOf(m, headers), path[..|path| - 1], path[|path| - 1])
            == if h == 0 then None else Some(RecAt(m, h))
  {
    if headers != [] {
      MatchIsScan(m, headers[1..], name);
      var path, here := Split(name), Split(StringAt(m, headers[0]));
      if path[..|path| - 1] == here[..|here| - 1] && path[|path| - 1] == here[|here| - 1] {
        assert path == path[..|path| - 1] + [path[|path| - 1]] && here == here[..|here| - 1] + [here[|here| - 1]];
        SplitIsInjective(name, StringAt(m, headers[0]));
      }
    }
  }

  lemma {:induction false} HeadersAreAbove(m: seq<Byte>, a: nat)
    requires Terminated(m, a)
    ensures forall h | h in Headers(m, a) :: a <= h && h + 512 <= |m|
    decreases |m| - a
  {
    if m[a] != 0 {
      HeadersAreAbove(m, After(a, SizeAt(m, a)));
    }
  }

  lemma {:induction false} FirstNamedIsHeader(m: seq<Byte>, headers: seq<nat>, name: Name)
    ensures FirstNamed(m, headers, name) != 0 ==> FirstNamed(m, headers, name) in headers
  {
    if headers != [] {
      FirstNamedIsHeader(m, headers[1..], name);
    }
  }

  /** Both found nothing, or the node found is a file with the start and the size of the data of the header found. */
  ghost predicate Agrees(m: seq<Byte>, nodes: map<nat, Node>, h: nat, f: nat) {
    && (f == 0 <==> h == 0)
    && (h != 0 ==>
          && f in nodes && h + 512 <= |m|
          && !nodes[f].dir && nodes[f].start == h + 512 && nodes[f].size == SizeAt(m, h))
  }

  /** The path tree agrees with the scan: for every file name, `find_file("/rootfs/" + name)` succeeds exactly when
      `findfile(name)` does, and its node then has the start and the size of that header's data. */
  lemma TreeAgreesWithScan(m: seq<Byte>, start: nat, nodes: map<nat, Node>, place: map<seq<Name>, nat>, root: nat,
      rootfs: nat, next: nat, name: Name)
    requires 0 < start && Terminated(m, start)
    requires SystemOk(nodes, place, RecsOf(m, Headers(m, start)), root, rootfs, next)
    requires name != [] && !IsFolder(name)
    ensures Agrees(m, nodes, FirstNamed(m, Headers(m, start), name), FindFrom(nodes, root, Components(MOUNT + name)))
  {
    var headers := Headers(m, start);
    var recs := RecsOf(m, headers);
    var path := Split(name);
    HeadersAreAbove(m, start);
    FirstNamedIsHeader(m, headers, name);
    ComponentsOfMounted(name);
    SplitShape([], name);
    ThroughTheMount(nodes, place, recs, root, rootfs, next, path);
    var dirs, file := path[..|path| - 1], path[|path| - 1];
    assert [] + dirs == dirs && dirs + [file] == path;
    FindsFirstMatch(nodes, place, recs, [], dirs, file);
    MatchIsScan(m, headers, name);
  }

  /** The first entry of that name. */
  function FirstEntry(entries: seq<Entry>, name: Name): Option<Entry> {
    if entries == [] then None
    else if entries[0].name == name then Some(entries[0])
    else FirstEntry(entries[1..], name)
  }

  /** The `size` bytes from `start` on are the content of the entry. */
  ghost predicate Delivers(m: seq<Byte>, start: nat, size: nat, e: Entry) {
    size == |e.data| && Holds(m, start, e.data)
  }

  /** `h` is the header of the entry, or NULL. */
  ghost predicate HeaderOf(m: seq<Byte>, h: nat, entry: Option<Entry>) {
    match entry
    case None => h == 0
    case Some(e) => h != 0 && h + 512 <= |m| && Delivers(m, h + 512, SizeAt(m, h), e)
  }

  /** `f` is a node for the entry, or NULL. */
  ghost predicate NodeOf(m: seq<Byte>, nodes: map<nat, Node>, f: nat, entry: Option<Entry>) {
    match entry
    case None => f == 0
    case Some(e) => f in nodes && Delivers(m, nodes[f].start, nodes[f].size, e)
  }

  lemma NodeOfHeader(m: seq<Byte>, nodes: map<nat, Node>, h: nat, f: nat, entry: Option<Entry>)
    requires Agrees(m, nodes, h, f) && HeaderOf(m, h, entry)
    ensures NodeOf(m, nodes, f, entry)
  {
  }

  lemma {:induction false} ScanFindsFirstEntry(m: seq<Byte>, a: nat, entries: seq<Entry>, name: Name)
    requires 0 < a && IsArchive(m, a, entries)
    ensures Terminated(m, a)
    ensures HeaderOf(m, FirstNamed(m, Headers(m, a), name), FirstEntry(entries, name))
    decreases |entries|
  {
    if entries != [] {
      EntryIsRead(m, a, entries[0]);
      var b := After(a, SizeAt(m, a));
      ScanFindsFirstEntry(m, b, entries[1..], name);
      assert Headers(m, a)[1..] == Headers(m, b);
    }
  }

  /** For every well-formed archive and file name, opening the path yields the content of the first entry of that name,
      and nothing if there is no such entry. */
  lemma TreeServesFirstEntry(m: seq<Byte>, start: nat, entries: seq<Entry>, nodes: map<nat, Node>,
      place: map<seq<Name>, nat>, root: nat, rootfs: nat, next: nat, name: Name)
    requires 0 < start && IsArchive(m, start, entries) && Terminated(m, start)
    requires SystemOk(nodes, place, RecsOf(m, Headers(m, start)), root, rootfs, next)
    requires name != [] && !IsFolder(name)
    ensures NodeOf(m, nodes, FindFrom(nodes, root, Components(MOUNT + name)), FirstEntry(entries, name))
  {
    var h, f := FirstNamed(m, Headers(m, start), name), FindFrom(nodes, root, Components(MOUNT + name));
    assert HeaderOf(m, h, FirstEntry(entries, name)) by {
      ScanFindsFirstEntry(m, start, entries, name);
    }
    assert Agrees(m, nodes, h, f) by {
      TreeAgreesWithScan(m, start, nodes, place, root, rootfs, next, name);
    }
    NodeOfHeader(m, nodes, h, f, FirstEntry(entries, name));
  }

  // ---------------------------------------------------------------------------
  // Folders

  lemma ComponentsOfFolder(name: Name)
    requires name == [] || IsFolder(name)
    ensures Components(MOUNT + name) == [[SLASH], ROOTFS] + FolderPath(name)
  {
    var folder := ROOTFS[..|ROOTFS| - 1];
    assert MOUNT + name == [] + [SLASH] + (ROOTFS + name) && ROOTFS + name == folder + [SLASH] + name;
    SplitBehindFolder([], [], ROOTFS + name);
    SplitBehindFolder([], folder, name);
    assert [] + [] + [SLASH] == [SLASH] && [] + folder + [SLASH] == ROOTFS;
    assert [[SLASH]] + ([ROOTFS] + Split(name)) == [[SLASH], ROOTFS] + Split(name);
    assert IsFolder(MOUNT + name) by {
      assert (MOUNT + name)[|MOUNT + name| - 1] == if name == [] then SLASH else name[|name| - 1];
    }
  }

  /** The mount point itself. */
  lemma FindsTheMount(nodes: map<nat, Node>, place: map<seq<Name>, nat>, recs: seq<Rec>, root: nat, rootfs: nat,
      next: nat)
    requires SystemOk(nodes, place, recs, root, rootfs, next)
    ensures FindFrom(nodes, root, [[SLASH], ROOTFS]) == rootfs
  {
    assert FolderOk(nodes, place, recs, [], place[[]]);
    assert [[SLASH], ROOTFS][1..] == [ROOTFS];
    FindAmong(nodes, nodes[root].dirs, [ROOTFS], rootfs);
  }

  /** The path of a folder leads to that folder, or nowhere if there is none. */
  lemma FindsFolderOfTree(nodes: map<nat, Node>, place: map<seq<Name>, nat>, recs: seq<Rec>, root: nat, rootfs: nat,
      next: nat, name: Name)
    requires SystemOk(nodes, place, recs, root, rootfs, next) && (name == [] || IsFolder(name))
    ensures FindFrom(nodes, root, Components(MOUNT + name))
            == if FolderPath(name) in place then place[FolderPath(name)] else 0
  {
    var dirs := FolderPath(name);
    ComponentsOfFolder(name);
    JoinOfFolder(name);
    if dirs == [] {
      assert [[SLASH], ROOTFS] + dirs == [[SLASH], ROOTFS];
      FindsTheMount(nodes, place, recs, root, rootfs, next);
    } else {
      assert [] + dirs == dirs;
      ThroughTheMount(nodes, place, recs, root, rootfs, next, dirs);
      FindsFolderPath(nodes, place, recs, [], dirs);
    }
  }

  /** The first entry whose name begins with that of the folder. */
  function FirstInFolder(entries: seq<Entry>, name: Name): Option<Entry> {
    if entries == [] then None
    else if name <= entries[0].name then Some(entries[0])
    else FirstInFolder(entries[1..], name)
  }

  lemma {:induction false} FirstBelowIsEntry(m: seq<Byte>, a: nat, entries: seq<Entry>, name: Name)
    requires IsArchive(m, a, entries) && (name == [] || IsFolder(name))
    ensures Terminated(m, a)
    ensures var rec, entry := FirstBelow(RecsOf(m, Headers(m, a)), FolderPath(name)), FirstInFolder(entries, name);
            (rec.Some? <==> entry.Some?) && (rec.Some? ==> rec.value.size == |entry.value.data|)
    decreases |entries|
  {
    if entries != [] {
      EntryIsRead(m, a, entries[0]);
      FirstBelowIsEntry(m, After(a, SizeAt(m, a)), entries[1..], name);
      BelowIsPrefix(name, entries[0].name);
      assert RecsOf(m, Headers(m, a))[0] == RecAt(m, a);
    }
  }

  /** `f` is a directory with the size of the entry, or NULL. */
  ghost predicate FolderNode(nodes: map<nat, Node>, f: nat, entry: Option<Entry>) {
    match entry
    case None => f == 0
    case Some(e) => f != 0 && f in nodes && nodes[f].dir && nodes[f].size == |e.data|
  }

  /** For every well-formed archive that was loaded, the path of a folder is found exactly when some entry lies in or
      below it; it is the directory of that path, with the size of the first such entry. */
  lemma TreeServesFolders(m: seq<Byte>, start: nat, entries: seq<Entry>, nodes: map<nat, Node>,
      place: map<seq<Name>, nat>, recs: seq<Rec>, root: nat, rootfs: nat, next: nat, name: Name)
    requires IsArchive(m, start, entries) && Terminated(m, start) && recs == RecsOf(m, Headers(m, start))
    requires SystemOk(nodes, place, recs, root, rootfs, next) && FoldersOf(nodes, place, recs) && IsFolder(name)
    ensures FolderNode(nodes, FindFrom(nodes, root, Components(MOUNT + name)), FirstInFolder(entries, name))
    ensures FolderPath(name) in place ==>
              FindFrom(nodes, root, Components(MOUNT + name)) == place[FolderPath(name)]
  {
    FindsFolderOfTree(nodes, place, recs, root, rootfs, next, name);
    FirstBelowIsEntry(m, start, entries, name);
    JoinOfFolder(name);
    if FolderPath(name) in place {
      assert FolderOk(nodes, place, recs, FolderPath(name), place[FolderPath(name)]);
    }
  }

  /** `find_file` on the path of a folder, as `sys_chdir` and `do_dopen` call it. */
  method OpenFolder(fs: FileSystem, ghost m: seq<Byte>, ghost start: nat, ghost entries: seq<Entry>, name: Name)
    returns (found: nat)
    requires IsArchive(m, start, entries) && Terminated(m, start)
    requires fs.Valid() && fs.recs == RecsOf(m, Headers(m, start)) && FoldersOf(fs.nodes, fs.place, fs.recs)
    requires IsFolder(name) && Searchable(Components(MOUNT + name))
    ensures FolderNode(fs.nodes, found, FirstInFolder(entries, name))
    ensures FolderPath(name) in fs.place ==> found == fs.place[FolderPath(name)]
  {
    TreeServesFolders(m, start, entries, fs.nodes, fs.place, fs.recs, fs.root, fs.rootfs, fs.next, name);
    found := fs.FindFile(MOUNT + name);
  }

  // ---------------------------------------------------------------------------
  // The limit of `find_file`

  /** Components that fit into the buffers, at most `n` of them. */
  predicate Fits(c: seq<Name>, n: nat) {
    0 < |c| <= n && |c[|c| - 1]| <= 8 && forall i | 0 <= i < |c| - 1 :: |c[i]| <= 9
  }

  lemma FitsBehindTwo(a: Name, b: Name, c: seq<Name>)
    requires c != [] && |a| <= 9 && |b| <= 9
    ensures Searchable([a, b] + c) <==> Fits(c, 4)
  {
    var all := [a, b] + c;
    assert all[|all| - 1] == c[|c| - 1];
    if Fits(c, 4) {
      assert forall i | 2 <= i < |all| - 1 :: all[i] == c[i - 2];
    }
    if Searchable(all) {
      assert forall i | 0 <= i < |c| - 1 :: all[i + 2] == c[i];
    }
  }

  /** The path of a file fits the buffers of `find_file` exactly when its name has at most four components that fit.
      `load_tarfs` stores names of five and six components as well; for those `find_file` writes behind `sub_name`. */
  lemma PathFits(name: Name)
    requires name != [] && !IsFolder(name)
    ensures Searchable(Components(MOUNT + name)) <==> Fits(Split(name), 4)
    ensures Storable(Split(name)) ==> (Fits(Split(name), 4) <==> |Split(name)| <= 4)
  {
    ComponentsOfMounted(name);
    FitsBehindTwo([SLASH], ROOTFS, Split(name));
  }

  /** Opening a file of the loaded archive. */
  method OpenMounted(fs: FileSystem, m: seq<Byte>, start: nat, ghost entries: seq<Entry>, name: Name)
    returns (found: nat)
    requires 0 < start && IsArchive(m, start, entries) && Terminated(m, start)
    requires fs.Valid() && fs.recs == RecsOf(m, Headers(m, start))
    requires name != [] && !IsFolder(name) && Searchable(Components(MOUNT + name))
    ensures NodeOf(m, fs.nodes, found, FirstEntry(entries, name))
    ensures Agrees(m, fs.nodes, FirstNamed(m, Headers(m, start), name), found)
  {
    TreeServesFirstEntry(m, start, entries, fs.nodes, fs.place, fs.root, fs.rootfs, fs.next, name);
    TreeAgreesWithScan(m, start, fs.nodes, fs.place, fs.root, fs.rootfs, fs.next, name);
    found := fs.FindFile(MOUNT + name);
  }
}
