/** The copy of a project's folder into the session directory, on one disk: the copy that was there is removed
    before the folder is read again, so what is read from under it is gone, unless the copy itself put it back. */
module ProjectCopy {
  import opened Wrappers
  import opened ProjectFiles

  // --- The disk

  /** What a path names: a folder, a file, or a link to another path. */
  datatype Item = Dir(readable: bool) | Data(content: Bytes) | Link(target: Path)

  type Items = map<Path, Item>

  /** Every path lies in a folder. */
  ghost predicate Placed(items: Items) {
    && [] in items && items[[]].Dir?
    && forall q :: q in items && q != [] ==> Parent(q) in items && items[Parent(q)].Dir?
  }

  /** What a walk sees at a path, links followed. */
  function Seen(items: Items, q: Path): Entry
    requires q in items
  {
    match items[q]
    case Dir(readable) => Folder(readable)
    case Data(content) => File(content)
    case Link(target) =>
      if target !in items then Broken
      else match items[target]
        case Dir(_) => FolderLink
        case Data(content) => FileLink(content)
        case Link(_) => Broken
  }

  /** The paths under `root`, relative to it. */
  function Relative(items: Items, root: Path): (paths: set<Path>)
    ensures forall p :: p in paths <==> root + p in items
  {
    var paths := set q | q in items && root <= q :: q[|root|..];
    assert forall q: Path :: root <= q ==> q == root + q[|root|..];
    assert forall p: Path :: root <= root + p && (root + p)[|root|..] == p;
    paths
  }

  /** A project's folder, as its walk sees it. */
  function View(items: Items, folder: Path): Tree {
    map p | p in Relative(items, folder) :: Seen(items, folder + p)
  }

  /** What lies under `root`, by relative path. */
  function Below(items: Items, root: Path): Items {
    map p | p in Relative(items, root) :: items[root + p]
  }

  /** Where the bytes of a path are. */
  function Source(items: Items, q: Path): Path {
    if q in items && items[q].Link? then items[q].target else q
  }

  /** A disk without what lies under `root`. */
  function Cleared(items: Items, root: Path): Items {
    map q | q in items && !(root <= q) :: items[q]
  }

  /** Something other than a folder is on the way to `p`, or at it. */
  predicate Blocked(items: Items, p: Path) {
    exists k :: 0 <= k <= |p| && p[..k] in items && !items[p[..k]].Dir?
  }

  /** The disk's calls. One fails on a conflict with what is there, and, where `faulty`, whenever it likes. */
  class Disk {
    const faulty: bool
    var items: Items

    constructor (faulty: bool, items: Items)
      ensures this.faulty == faulty && this.items == items
    {
      this.faulty := faulty;
      this.items := items;
    }

    method Fault() returns (fault: bool)
      ensures fault ==> faulty
    {
      var likes: bool := *;
      fault := faulty && likes;
    }

    /** Removes a folder with all it holds, or a link itself; a fault can leave any part of it. */
    method RemoveDirAll(p: Path) returns (ok: bool)
      requires p in items
      modifies this
      ensures ok ==> !old(items)[p].Data? && items == Cleared(old(items), p)
      ensures !ok ==> faulty || (old(items)[p].Data? && items == old(items))
      ensures !ok ==> OutsideStands(old(items), items, p)
    {
      var fault := Fault();
      ok := !fault && !items[p].Data?;
      if ok {
        items := Cleared(items, p);
      } else if fault {
        var gone: set<Path> := *;
        items := map q | q in items && !(q in gone && p <= q) :: items[q];
      }
    }

    /** Makes the folder at `p` and every folder above it that is missing. */
    method CreateDirAll(p: Path) returns (ok: bool)
      modifies this
      ensures ok ==> !Blocked(old(items), p) && items == (map k | 0 <= k <= |p| :: p[..k] := Dir(true)) + old(items)
      ensures !ok ==> items == old(items) && (faulty || Blocked(items, p))
    {
      var fault := Fault();
      ok := !fault && !Blocked(items, p);
      if ok {
        items := (map k | 0 <= k <= |p| :: p[..k] := Dir(true)) + items;
      }
    }

    /** Copies the file `from` names to `to`, where nothing is. */
    method CopyFile(from: Path, to: Path) returns (ok: bool)
      requires to != [] && to !in items && Parent(to) in items && items[Parent(to)].Dir?
      modifies this
      ensures ok ==> var q := Source(old(items), from);
        q in old(items) && old(items)[q].Data? && items == old(items)[to := old(items)[q]]
      ensures !ok ==>
        items == old(items) && (faulty || !(Source(items, from) in items && items[Source(items, from)].Data?))
    {
      var fault := Fault();
      var q := if from in items && items[from].Link? then items[from].target else from;
      ok := !fault && q in items && items[q].Data?;
      if ok {
        items := items[to := items[q]];
      }
    }
  }

  // --- What a copy reads

  /** Where the copy of `folder` into `copy` reads the listed file `f`, once what was under the copy is gone: a
      link there is gone too. */
  function Reads(items: Items, folder: Path, copy: Path, f: Path): Path {
    if copy <= folder + f then folder + f else Source(items, folder + f)
  }

  /** The listed file whose bytes file `i` of the list gets: its own, where they are read outside the copy; those
      of an earlier file that was copied to where they are read; and none, where no file was. */
  ghost function Origin(items: Items, folder: Path, copy: Path, files: seq<Path>, i: nat): (origin: Option<nat>)
    requires i < |files|
    ensures origin.Some? ==> origin.value <= i
  {
    var q := Reads(items, folder, copy, files[i]);
    if !(copy <= q) then Some(i)
    else if k: nat :| k < i && copy + files[k] == q then Origin(items, folder, copy, files, k)
    else None
  }

  /** Every listed file has bytes to be copied. */
  ghost predicate AllRead(items: Items, folder: Path, copy: Path, files: seq<Path>) {
    forall i: nat :: i < |files| ==> Origin(items, folder, copy, files, i).Some?
  }

  /** The first listed file that has none. */
  ghost predicate FirstUnread(items: Items, folder: Path, copy: Path, files: seq<Path>, f: Path) {
    exists i: nat :: i < |files| && files[i] == f && Origin(items, folder, copy, files, i).None?
                     && forall j: nat :: j < i ==> Origin(items, folder, copy, files, j).Some?
  }

  /** The bytes of file `i` of the list in a copy that read them all. */
  ghost function Got(items: Items, folder: Path, copy: Path, files: seq<Path>, i: nat): Bytes
    requires i < |files| && Origin(items, folder, copy, files, i).Some?
  {
    Content(View(items, folder), files[Origin(items, folder, copy, files, i).value])
  }

  /** The bytes the walk saw at a file. */
  function Content(tree: Tree, p: Path): Bytes {
    if p in tree && IsFile(tree[p]) then tree[p].content else []
  }

  /** Every listed file gets the bytes the walk saw. */
  ghost predicate AllSame(items: Items, folder: Path, copy: Path, files: seq<Path>) {
    forall i: nat :: i < |files| ==>
      && Origin(items, folder, copy, files, i).Some?
      && Got(items, folder, copy, files, i) == Content(View(items, folder), files[i])
  }

  /** The tree with each link to a file replaced by the file. */
  function Resolved(tree: Tree): Items {
    map p | p in tree && (tree[p].Folder? || IsFile(tree[p])) ::
      if tree[p].Folder? then Dir(true) else Data(tree[p].content)
  }

  // --- The folders

  /** Nothing that was there changed, and what is new is folders, above the copy or in it. */
  ghost predicate OnlyFolders(copy: Path, base: Items, items: Items) {
    && (forall q :: q in base ==> q in items && items[q] == base[q])
    && (forall q :: q in items && q !in base ==> items[q] == Dir(true) && (q <= copy || copy <= q))
  }

  /** The copy's folder and those above it are there, and the folders of `paths` in it, and nothing else is new. */
  ghost predicate FoldersMade(tree: Tree, copy: Path, base: Items, items: Items, paths: seq<Path>) {
    && OnlyFolders(copy, base, items)
    && (forall q :: q in items && q !in base ==> q <= copy || (copy <= q && q[|copy|..] in Folders(tree)))
    && (forall k :: 0 <= k <= |copy| ==> copy[..k] in items && items[copy[..k]].Dir?)
    && (forall p :: p in paths ==> copy + p in items)
  }

  /** Every path above one in the tree is a folder of it. */
  lemma {:induction false} PrefixIsFolder(tree: Tree, p: Path, k: nat)
    requires WellFormed(tree) && p in Folders(tree) && k <= |p|
    ensures p[..k] in Folders(tree) + {[]}
    decreases |p|
  {
    if k == |p| {
      assert p[..k] == p;
    } else if Parent(p) != [] {
      assert Parent(p) in Folders(tree);
      PrefixIsFolder(tree, Parent(p), k);
      assert Parent(p)[..k] == p[..k];
    } else {
      assert p[..k] == [];
    }
  }

  /** What is above a folder of the copy is above the copy, or a folder of the copy. */
  lemma AboveInCopy(tree: Tree, copy: Path, p: Path, k: nat)
    requires WellFormed(tree) && p in Folders(tree) && k <= |copy + p|
    ensures (copy + p)[..k] <= copy || (copy <= (copy + p)[..k] && (copy + p)[..k][|copy|..] in Folders(tree))
    ensures k <= |copy| ==> (copy + p)[..k] == copy[..k]
  {
    if k > |copy| {
      assert (copy + p)[..k][|copy|..] == p[..k - |copy|];
      PrefixIsFolder(tree, p, k - |copy|);
      assert (copy + p)[..k] == copy + p[..k - |copy|];
    } else {
      assert (copy + p)[..k] == copy[..k];
    }
  }

  lemma NotBlocked(tree: Tree, copy: Path, base: Items, items: Items, paths: seq<Path>, p: Path)
    requires WellFormed(tree) && p in Folders(tree) && FoldersMade(tree, copy, base, items, paths)
    requires forall q :: q in base ==> !(copy <= q)
    ensures !Blocked(items, copy + p)
  {
    forall k | 0 <= k <= |copy + p| && (copy + p)[..k] in items ensures items[(copy + p)[..k]].Dir? {
      AboveInCopy(tree, copy, p, k);
    }
  }

  lemma FolderAdded(tree: Tree, copy: Path, base: Items, items: Items, paths: seq<Path>, p: Path)
    requires WellFormed(tree) && p in Folders(tree) && FoldersMade(tree, copy, base, items, paths)
    ensures FoldersMade(tree, copy, base, (map k | 0 <= k <= |copy + p| :: (copy + p)[..k] := Dir(true)) + items,
                        paths + [p])
  {
    var to := copy + p;
    var made := (map k | 0 <= k <= |to| :: to[..k] := Dir(true)) + items;
    assert to[..|to|] == to;
    forall q | q in made && q !in base
      ensures made[q] == Dir(true) && (q <= copy || (copy <= q && q[|copy|..] in Folders(tree)))
    {
      if q !in items {
        var k :| 0 <= k <= |to| && q == to[..k];
        AboveInCopy(tree, copy, p, k);
      }
    }
  }

  lemma RootAdded(tree: Tree, copy: Path, base: Items)
    requires !Blocked(base, copy)
    ensures FoldersMade(tree, copy, base, (map k | 0 <= k <= |copy| :: copy[..k] := Dir(true)) + base, [])
  {
  }

  /** One more folder of the copy. */
  method AddFolder(tree: Tree, disk: Disk, copy: Path, p: Path, ghost base: Items, ghost paths: seq<Path>)
    returns (ok: bool)
    requires WellFormed(tree) && p in Folders(tree) && FoldersMade(tree, copy, base, disk.items, paths)
    requires forall q :: q in base ==> !(copy <= q)
    modifies disk
    ensures FoldersMade(tree, copy, base, disk.items, if ok then paths + [p] else paths)
    ensures !disk.faulty ==> ok
  {
    NotBlocked(tree, copy, base, disk.items, paths, p);
    FolderAdded(tree, copy, base, disk.items, paths, p);
    ok := disk.CreateDirAll(copy + p);
  }

  /** The copy's folder, and the folders found, in it. */
  method MakeFolders(tree: Tree, paths: seq<Path>, disk: Disk, copy: Path) returns (failed: Option<Path>)
    requires WellFormed(tree) && forall p :: p in paths ==> p in Folders(tree)
    requires Blocked(disk.items, copy) || forall q :: q in disk.items ==> !(copy <= q)
    modifies disk
    ensures OnlyFolders(copy, old(disk.items), disk.items)
    ensures failed.None? ==> FoldersMade(tree, copy, old(disk.items), disk.items, paths)
    ensures !disk.faulty ==> failed == if Blocked(old(disk.items), copy) then Some([]) else None
  {
    ghost var base := disk.items;
    var ok := disk.CreateDirAll(copy);
    if !ok {
      return Some([]);
    }
    RootAdded(tree, copy, base);
    for i := 0 to |paths|
      invariant FoldersMade(tree, copy, base, disk.items, paths[..i])
    {
      ok := AddFolder(tree, disk, copy, paths[i], base, paths[..i]);
      if !ok {
        return Some(paths[i]);
      }
      assert paths[..i + 1] == paths[..i] + [paths[i]];
    }
    assert paths[..|paths|] == paths;
    failed := None;
  }

  // --- The files

  /** The first `n` files of a list lie in the copy as `gets` says, and nothing else is new. */
  ghost predicate Put(copy: Path, files: seq<Path>, made: Items, items: Items, gets: nat -> Item, n: nat)
    requires n <= |files|
  {
    && (forall i: nat :: i < n ==> copy + files[i] in items && items[copy + files[i]] == gets(i))
    && (forall q :: q in made ==> q in items && items[q] == made[q])
    && (forall q :: q in items && q !in made ==> exists i: nat :: i < n && q == copy + files[i])
  }

  lemma OneMorePut(copy: Path, files: seq<Path>, made: Items, items: Items, gets: nat -> Item, n: nat)
    requires n < |files| && Put(copy, files, made, items, gets, n) && copy + files[n] !in items
    ensures Put(copy, files, made, items[copy + files[n] := gets(n)], gets, n + 1)
  {
    var to := copy + files[n];
    forall q | q in items[to := gets(n)] && q !in made ensures exists i: nat :: i < n + 1 && q == copy + files[i] {
      if q in items {
        var i: nat :| i < n && q == copy + files[i];
      } else {
        assert q == to;
      }
    }
  }

  /** What each listed file becomes. */
  ghost function Gets(items: Items, folder: Path, copy: Path, files: seq<Path>): nat -> Item {
    (i: nat) =>
      if i < |files| && Origin(items, folder, copy, files, i).Some? then Data(Got(items, folder, copy, files, i))
      else Dir(true)
  }

  /** The first `n` files of the list lie in the copy, each with the bytes it gets, and nothing else is new. */
  ghost predicate FilesCopied(before: Items, folder: Path, copy: Path, files: seq<Path>, made: Items, items: Items,
                              n: nat)
    requires n <= |files|
  {
    && (forall i: nat :: i < n ==> Origin(before, folder, copy, files, i).Some?)
    && Put(copy, files, made, items, Gets(before, folder, copy, files), n)
  }

  /** A copy about to take its files: the folder's own are as they were, outside the copy, where its folders are. */
  ghost predicate Copying(before: Items, folder: Path, copy: Path, found: Found, made: Items) {
    && Placed(before) && folder in before && before[folder].Dir?
    && Lists(found, View(before, folder)) && Walkable(View(before, folder))
    && FoldersMade(View(before, folder), copy, Cleared(before, copy), made, found.folders)
  }

  lemma ViewIsWellFormed(items: Items, folder: Path)
    requires Placed(items) && folder in items && items[folder].Dir?
    ensures WellFormed(View(items, folder))
  {
    var tree := View(items, folder);
    assert folder + [] == folder;
    forall p | p in tree && p != [] ensures Parent(p) in tree && tree[Parent(p)].Folder? {
      assert Parent(folder + p) == folder + Parent(p);
    }
  }

  lemma MadeIsFolder(tree: Tree, copy: Path, before: Items, made: Items, paths: seq<Path>, q: Path)
    requires FoldersMade(tree, copy, Cleared(before, copy), made, paths) && copy <= q && q in made
    ensures made[q] == Dir(true)
  {
    assert q !in Cleared(before, copy);
  }

  /** Under the copy there are folders, and the files copied so far. */
  lemma InTheCopy(before: Items, folder: Path, copy: Path, found: Found, made: Items, items: Items, n: nat, q: Path)
    requires Copying(before, folder, copy, found, made) && n <= |found.files| && copy <= q
    requires FilesCopied(before, folder, copy, found.files, made, items, n)
    ensures q in items && !items[q].Data? ==> items[q].Dir?
    ensures q in items && items[q].Data? <==> exists k: nat :: k < n && copy + found.files[k] == q
  {
    var gets := Gets(before, folder, copy, found.files);
    forall k: nat | k < n && copy + found.files[k] == q ensures q in items && items[q].Data? {
      assert items[copy + found.files[k]] == gets(k);
    }
    if q in made {
      MadeIsFolder(View(before, folder), copy, before, made, found.folders, q);
    } else if q in items {
      var k: nat :| k < n && q == copy + found.files[k];
    }
  }

  lemma FilesAreDistinct(found: Found, tree: Tree, copy: Path, j: nat, k: nat)
    requires Lists(found, tree) && j < |found.files| && k < |found.files|
    requires copy + found.files[j] == copy + found.files[k]
    ensures j == k
  {
    assert (copy + found.files[j])[|copy|..] == found.files[j];
    assert (copy + found.files[k])[|copy|..] == found.files[k];
  }

  /** A listed file was there, itself or where its link leads. */
  lemma ListedIsThere(before: Items, folder: Path, found: Found, f: Path)
    requires Lists(found, View(before, folder)) && f in found.files
    ensures var p := folder + f; var q := Source(before, p); var tree := View(before, folder);
      && p in before && !before[p].Dir? && q in before && before[q] == Data(Content(tree, f))
      && f in tree && IsFile(tree[f])
  {
    assert f in Elements(found.files);
  }

  /** During the copy a listed file is read where it was to be. */
  lemma SourceIsReads(before: Items, folder: Path, copy: Path, found: Found, made: Items, items: Items, n: nat)
    requires Copying(before, folder, copy, found, made) && n < |found.files|
    requires FilesCopied(before, folder, copy, found.files, made, items, n)
    ensures Source(items, folder + found.files[n]) == Reads(before, folder, copy, found.files[n])
  {
    var p := folder + found.files[n];
    ListedIsThere(before, folder, found, found.files[n]);
    if copy <= p {
      InTheCopy(before, folder, copy, found, made, items, n, p);
    } else {
      assert p in Cleared(before, copy) && items[p] == before[p];
    }
  }

  /** A file read under the copy gets what the file copied there did. */
  lemma OriginIsOnes(before: Items, folder: Path, copy: Path, found: Found, k: nat, n: nat)
    requires Lists(found, View(before, folder)) && k < n < |found.files|
    requires copy + found.files[k] == Reads(before, folder, copy, found.files[n])
    ensures Origin(before, folder, copy, found.files, n) == Origin(before, folder, copy, found.files, k)
  {
    forall j: nat | j < n && copy + found.files[j] == copy + found.files[k] ensures j == k {
      FilesAreDistinct(found, View(before, folder), copy, j, k);
    }
  }

  /** What is read for file `n` of the list is what it gets, and can be read exactly if it gets any. */
  lemma ReadsItsOrigin(before: Items, folder: Path, copy: Path, found: Found, made: Items, items: Items, n: nat)
    requires Copying(before, folder, copy, found, made) && n < |found.files|
    requires FilesCopied(before, folder, copy, found.files, made, items, n)
    ensures var q := Source(items, folder + found.files[n]);
      var origin := Origin(before, folder, copy, found.files, n);
      && (q in items && items[q].Data? <==> origin.Some?)
      && (origin.Some? ==> q in items && items[q] == Data(Got(before, folder, copy, found.files, n)))
  {
    var q := Reads(before, folder, copy, found.files[n]);
    SourceIsReads(before, folder, copy, found, made, items, n);
    if copy <= q {
      InTheCopy(before, folder, copy, found, made, items, n, q);
      if k: nat :| k < n && copy + found.files[k] == q {
        OriginIsOnes(before, folder, copy, found, k, n);
      }
    } else {
      ListedIsThere(before, folder, found, found.files[n]);
      assert q in Cleared(before, copy) && items[q] == before[q];
    }
  }

  /** Where the next file goes nothing is yet. */
  lemma NextIsNew(before: Items, folder: Path, copy: Path, found: Found, made: Items, items: Items, n: nat)
    requires Copying(before, folder, copy, found, made) && n < |found.files|
    requires FilesCopied(before, folder, copy, found.files, made, items, n)
    ensures copy + found.files[n] !in items
  {
    var f := found.files[n];
    assert copy <= copy + f && (copy + f)[|copy|..] == f && f in Elements(found.files);
    ListedIsThere(before, folder, found, f);
    assert folder + [] == folder && f != [];
    assert f !in Folders(View(before, folder));
    assert copy + f !in made;
    forall k: nat | k < n ensures copy + found.files[k] != copy + f {
      assert (copy + found.files[k])[|copy|..] == found.files[k];
    }
  }

  /** Where the next file goes there is a folder. */
  lemma RoomForNext(before: Items, folder: Path, copy: Path, found: Found, made: Items, items: Items, n: nat)
    requires Copying(before, folder, copy, found, made) && n < |found.files|
    requires FilesCopied(before, folder, copy, found.files, made, items, n)
    ensures var to := copy + found.files[n];
      to != [] && Parent(to) in items && items[Parent(to)].Dir?
  {
    var tree, f := View(before, folder), found.files[n];
    ViewIsWellFormed(before, folder);
    ListedIsThere(before, folder, found, f);
    assert folder + [] == folder && f != [];
    assert Parent(copy + f) == copy + Parent(f);
    assert copy[..|copy|] == copy && copy + [] == copy;
    assert Parent(f) != [] ==> Parent(f) in Elements(found.folders);
    FolderIsMade(tree, copy, Cleared(before, copy), made, found.folders, Parent(f));
  }

  lemma FolderIsMade(tree: Tree, copy: Path, base: Items, made: Items, paths: seq<Path>, p: Path)
    requires FoldersMade(tree, copy, base, made, paths) && (p in paths || p == [])
    requires forall q :: q in base ==> !(copy <= q)
    ensures copy + p in made && made[copy + p].Dir?
  {
    assert copy + [] == copy == copy[..|copy|];
    assert copy <= copy + p;
  }

  lemma NextIsCopied(before: Items, folder: Path, copy: Path, files: seq<Path>, made: Items, items: Items, n: nat,
                     item: Item)
    requires n < |files| && FilesCopied(before, folder, copy, files, made, items, n) && copy + files[n] !in items
    requires Origin(before, folder, copy, files, n).Some? && item == Data(Got(before, folder, copy, files, n))
    ensures FilesCopied(before, folder, copy, files, made, items[copy + files[n] := item], n + 1)
  {
    var gets := Gets(before, folder, copy, files);
    assert gets(n) == item;
    OneMorePut(copy, files, made, items, gets, n);
  }

  /** The next file, from where it is read. */
  method CopyNext(disk: Disk, folder: Path, copy: Path, found: Found, n: nat, ghost before: Items, ghost made: Items)
    returns (ok: bool)
    requires n < |found.files| && Copying(before, folder, copy, found, made)
    requires FilesCopied(before, folder, copy, found.files, made, disk.items, n)
    modifies disk
    ensures ok ==> FilesCopied(before, folder, copy, found.files, made, disk.items, n + 1)
    ensures !ok ==> disk.items == old(disk.items)
    ensures !disk.faulty ==> (ok <==> Origin(before, folder, copy, found.files, n).Some?)
  {
    var f := found.files[n];
    ghost var items := disk.items;
    ReadsItsOrigin(before, folder, copy, found, made, items, n);
    RoomForNext(before, folder, copy, found, made, items, n);
    NextIsNew(before, folder, copy, found, made, items, n);
    ok := disk.CopyFile(folder + f, copy + f);
    if ok {
      NextIsCopied(before, folder, copy, found.files, made, items, n, items[Source(items, folder + f)]);
    }
  }

  /** The files found, copied into the folders, each from where it is read. */
  method CopyFiles(disk: Disk, folder: Path, copy: Path, found: Found, ghost before: Items)
    returns (failed: Option<Path>, ghost n: nat)
    requires Copying(before, folder, copy, found, disk.items)
    modifies disk
    ensures n <= |found.files| && (failed.None? ==> n == |found.files|)
    ensures FilesCopied(before, folder, copy, found.files, old(disk.items), disk.items, n)
    ensures !disk.faulty ==> (failed.None? <==> AllRead(before, folder, copy, found.files))
    ensures !disk.faulty && failed.Some? ==> FirstUnread(before, folder, copy, found.files, failed.value)
  {
    ghost var made := disk.items;
    n := 0;
    for i := 0 to |found.files|
      invariant n == i && FilesCopied(before, folder, copy, found.files, made, disk.items, n)
      invariant !disk.faulty ==> forall j: nat :: j < i ==> Origin(before, folder, copy, found.files, j).Some?
    {
      var ok := CopyNext(disk, folder, copy, found, i, before, made);
      if !ok {
        return Some(found.files[i]), n;
      }
      n := n + 1;
    }
    failed := None;
  }

  // --- What the copy holds

  /** A whole copy has the folders found, and the files, each with the bytes it gets. */
  lemma InAWholeCopy(before: Items, folder: Path, copy: Path, found: Found, made: Items, items: Items, p: Path)
    requires Copying(before, folder, copy, found, made)
    requires FilesCopied(before, folder, copy, found.files, made, items, |found.files|)
    ensures var tree := View(before, folder);
      && (copy + p in items <==> p in Resolved(tree))
      && (p == [] || p in Folders(tree) ==>
            copy + p in items && items[copy + p] == Dir(true) && Resolved(tree)[p] == Dir(true))
      && (p in Files(tree) ==> p in found.files)
  {
    var tree, q := View(before, folder), copy + p;
    assert folder + [] == folder;
    assert copy <= q && q[|copy|..] == p;
    assert p in Folders(tree) ==> p in Elements(found.folders);
    assert p in Files(tree) ==> p in Elements(found.files);
    assert q !in Cleared(before, copy);
    if p == [] || p in Folders(tree) {
      FolderIsMade(tree, copy, Cleared(before, copy), made, found.folders, p);
    } else if p in Files(tree) {
      var i: nat :| i < |found.files| && found.files[i] == p;
    } else if q in items {
      NotElsewhere(before, folder, copy, found, made, items, p);
    }
  }

  lemma NotElsewhere(before: Items, folder: Path, copy: Path, found: Found, made: Items, items: Items, p: Path)
    requires Copying(before, folder, copy, found, made) && copy + p in items
    requires FilesCopied(before, folder, copy, found.files, made, items, |found.files|)
    ensures var tree := View(before, folder); p == [] || p in Folders(tree) || p in Files(tree)
  {
    var tree, q := View(before, folder), copy + p;
    assert copy <= q && q[|copy|..] == p && q !in Cleared(before, copy);
    if q in made {
      assert q <= copy ==> p == [];
    } else {
      var i: nat :| i < |found.files| && q == copy + found.files[i];
      assert (copy + found.files[i])[|copy|..] == found.files[i];
      assert found.files[i] in Elements(found.files);
    }
  }

  lemma FileInAWholeCopy(before: Items, folder: Path, copy: Path, files: seq<Path>, made: Items, items: Items, i: nat)
    requires i < |files| && FilesCopied(before, folder, copy, files, made, items, |files|)
    ensures Origin(before, folder, copy, files, i).Some?
    ensures copy + files[i] in items && items[copy + files[i]] == Data(Got(before, folder, copy, files, i))
  {
    assert Gets(before, folder, copy, files)(i) == Data(Got(before, folder, copy, files, i));
  }

  lemma SameFileAt(before: Items, folder: Path, copy: Path, found: Found, made: Items, items: Items, i: nat)
    requires Copying(before, folder, copy, found, made) && AllSame(before, folder, copy, found.files)
    requires FilesCopied(before, folder, copy, found.files, made, items, |found.files|) && i < |found.files|
    ensures var tree, p := View(before, folder), found.files[i];
      p in Resolved(tree) && copy + p in items && items[copy + p] == Resolved(tree)[p]
  {
    FileInAWholeCopy(before, folder, copy, found.files, made, items, i);
    ListedIsThere(before, folder, found, found.files[i]);
  }

  lemma SameAt(before: Items, folder: Path, copy: Path, found: Found, made: Items, items: Items, p: Path)
    requires Copying(before, folder, copy, found, made) && AllSame(before, folder, copy, found.files)
    requires FilesCopied(before, folder, copy, found.files, made, items, |found.files|)
    ensures var tree := View(before, folder);
      && (copy + p in items <==> p in Resolved(tree))
      && (p in Resolved(tree) ==> items[copy + p] == Resolved(tree)[p])
  {
    InAWholeCopy(before, folder, copy, found, made, items, p);
    if p in found.files {
      var i: nat :| i < |found.files| && found.files[i] == p;
      SameFileAt(before, folder, copy, found, made, items, i);
    }
  }

  lemma SameIsWhole(before: Items, folder: Path, copy: Path, found: Found, made: Items, items: Items)
    requires Copying(before, folder, copy, found, made) && AllSame(before, folder, copy, found.files)
    requires FilesCopied(before, folder, copy, found.files, made, items, |found.files|)
    ensures Below(items, copy) == Resolved(View(before, folder))
  {
    var below, resolved := Below(items, copy), Resolved(View(before, folder));
    forall p ensures p in below <==> p in resolved
      ensures p in below && p in resolved ==> below[p] == resolved[p]
    {
      SameAt(before, folder, copy, found, made, items, p);
    }
  }

  lemma WholeIsSame(before: Items, folder: Path, copy: Path, found: Found, made: Items, items: Items, i: nat)
    requires Copying(before, folder, copy, found, made) && i < |found.files|
    requires FilesCopied(before, folder, copy, found.files, made, items, |found.files|)
    requires Below(items, copy) == Resolved(View(before, folder))
    ensures Origin(before, folder, copy, found.files, i).Some?
    ensures Got(before, folder, copy, found.files, i) == Content(View(before, folder), found.files[i])
  {
    var f := found.files[i];
    FileInAWholeCopy(before, folder, copy, found.files, made, items, i);
    ListedIsThere(before, folder, found, f);
    assert Below(items, copy)[f] == items[copy + f];
    assert Resolved(View(before, folder))[f] == Data(Content(View(before, folder), f));
  }

  /** A whole copy is the tree the walk saw, exactly if every file got the bytes the walk saw. */
  lemma WholeExactlyWhenSame(before: Items, folder: Path, copy: Path, found: Found, made: Items, items: Items)
    requires Copying(before, folder, copy, found, made)
    requires FilesCopied(before, folder, copy, found.files, made, items, |found.files|)
    ensures Below(items, copy) == Resolved(View(before, folder)) <==> AllSame(before, folder, copy, found.files)
  {
    if AllSame(before, folder, copy, found.files) {
      SameIsWhole(before, folder, copy, found, made, items);
    }
    if Below(items, copy) == Resolved(View(before, folder)) {
      forall i: nat | i < |found.files|
        ensures Origin(before, folder, copy, found.files, i).Some?
        ensures Got(before, folder, copy, found.files, i) == Content(View(before, folder), found.files[i])
      {
        WholeIsSame(before, folder, copy, found, made, items, i);
      }
    }
  }

  // --- What the walk and the copy mean on the disk

  /** A path names a file, itself or through its link. */
  ghost predicate LeadsToFile(items: Items, q: Path) {
    q in items && (items[q].Data? || (items[q].Link? && items[q].target in items && items[items[q].target].Data?))
  }

  /** A folder can be walked exactly if every folder under it can be listed, and every link under it leads to a
      file. */
  lemma WalkableOnDisk(items: Items, folder: Path)
    ensures Walkable(View(items, folder)) <==>
      forall p :: p in Relative(items, folder) ==>
        (items[folder + p].Dir? && items[folder + p].readable) || LeadsToFile(items, folder + p)
  {
    var tree := View(items, folder);
    forall p | p in tree
      ensures (!tree[p].FolderLink? && !tree[p].Broken? && (tree[p].Folder? ==> tree[p].readable))
        <==> (items[folder + p].Dir? && items[folder + p].readable) || LeadsToFile(items, folder + p)
    {
    }
  }

  /** A walk refused for a link to a folder, or for a path, names one that is. */
  lemma BlamedOnDisk(items: Items, folder: Path, error: Error)
    requires Blames(error, View(items, folder))
    ensures error.LinkedFolder? ==>
      var q := folder + error.path; q in items && items[q].Link? && IsDir(items, items[q].target)
    ensures error.Io? ==>
      var q := folder + error.path;
      && q in items && !items[q].Data? && !LeadsToFile(items, q)
      && (items[q].Dir? ==> !items[q].readable) && (items[q].Link? ==> !IsDir(items, items[q].target))
  {
  }

  /** A walked folder's copy has its folders, and each file's own bytes or those its link leads to. */
  lemma ResolvedOnDisk(items: Items, folder: Path, p: Path)
    requires Walkable(View(items, folder))
    ensures var resolved := Resolved(View(items, folder)); var q := folder + p;
      && (p in resolved <==> q in items)
      && (q in items && items[q].Dir? ==> resolved[p] == Dir(true))
      && (q in items && items[q].Data? ==> resolved[p] == items[q])
      && (q in items && items[q].Link? ==> items[q].target in items && resolved[p] == items[items[q].target])
  {
  }

  /** A walk counts each file it found by its own bytes, or by those its link leads to. */
  lemma FilesCountOnDisk(items: Items, folder: Path, p: Path, others: set<Path>)
    requires p !in others && folder + p in items
    ensures var tree, item := View(items, folder), items[folder + p];
      var total, rest := TotalLength(tree, others + {p}), TotalLength(tree, others);
      && (item.Dir? ==> total == rest)
      && (item.Data? ==> p in Files(tree) && total == rest + |item.content|)
      && (item.Link? && item.target in items && items[item.target].Data? ==>
            p in Files(tree) && total == rest + |items[item.target].content|)
  {
    TotalLengthAdds(View(items, folder), others, p);
  }

  // --- The project's copy

  /** The bytes a copied folder may hold. */
  const COPY_LIMIT: nat := 256 * 1024 * 1024

  predicate IsDir(items: Items, q: Path) { q in items && items[q].Dir? }

  /** A folder the copy takes. */
  ghost predicate Copyable(items: Items, folder: Path) {
    && IsDir(items, folder) && Walkable(View(items, folder))
    && TotalLength(View(items, folder), Files(View(items, folder))) <= COPY_LIMIT
  }

  /** Only folders are above the copy, and at it nothing, a folder, or a link to something. */
  ghost predicate Reachable(items: Items, copy: Path) {
    && (forall k :: 0 <= k < |copy| && copy[..k] in items ==> items[copy[..k]].Dir?)
    && (copy in items ==> !items[copy].Data? && Exists(items, copy))
  }

  /** A path leads to something. */
  predicate Exists(items: Items, q: Path) {
    q in items && (items[q].Link? ==> items[q].target in items && !items[items[q].target].Link?)
  }

  /** What is outside the copy stands, but for missing folders above it. */
  ghost predicate OutsideStands(before: Items, items: Items, copy: Path) {
    && (forall q :: q in before && !(copy <= q) ==> q in items && items[q] == before[q])
    && (forall q :: q in items && !(copy <= q) && q !in before ==> q <= copy && items[q] == Dir(true))
  }

  lemma {:induction false} NothingBelow(items: Items, root: Path, q: Path)
    requires Placed(items) && root !in items && q in items
    ensures !(root <= q)
    decreases |q|
  {
    if root <= q {
      assert q != root;
      assert root <= Parent(q);
      NothingBelow(items, root, Parent(q));
    }
  }

  lemma AbsentIsClear(items: Items, root: Path)
    requires Placed(items) && root !in items
    ensures Cleared(items, root) == items
  {
    forall q | q in items ensures !(root <= q) {
      NothingBelow(items, root, q);
    }
  }

  /** What a copy that stopped has of its own: its folders, and the files it had copied. */
  ghost predicate OnlyOwn(before: Items, folder: Path, copy: Path, files: seq<Path>, items: Items) {
    forall q :: q in items && copy <= q && items[q].Data? ==>
      exists i: nat :: i < |files| && q == copy + files[i] && items[q] == Gets(before, folder, copy, files)(i)
  }

  /** Removes the old copy, if there is one. */
  method RemoveOld(disk: Disk, copy: Path) returns (ok: bool)
    requires Placed(disk.items)
    modifies disk
    ensures !ok ==> OutsideStands(old(disk.items), disk.items, copy)
    ensures !ok && !disk.faulty ==> disk.items == old(disk.items) && !Reachable(old(disk.items), copy)
    ensures ok ==>
      || (disk.items == Cleared(old(disk.items), copy)
          && (Blocked(disk.items, copy) <==> !Reachable(old(disk.items), copy)))
      || (disk.items == old(disk.items) && Blocked(disk.items, copy) && !Reachable(disk.items, copy))
  {
    ok := true;
    if Exists(disk.items, copy) {
      ClearedIsReachable(disk.items, copy);
      ok := disk.RemoveDirAll(copy);
    } else if copy !in disk.items {
      AbsentIsClear(disk.items, copy);
      BlockedAbove(disk.items, copy);
    } else {
      DanglingBlocks(disk.items, copy);
    }
  }

  lemma DanglingBlocks(items: Items, copy: Path)
    requires copy in items && !Exists(items, copy)
    ensures Blocked(items, copy) && !Reachable(items, copy)
  {
    assert copy[..|copy|] == copy && items[copy].Link?;
  }

  lemma ClearedIsReachable(items: Items, copy: Path)
    requires Placed(items) && Exists(items, copy)
    ensures Reachable(items, copy) <==> !items[copy].Data?
    ensures !Blocked(Cleared(items, copy), copy)
  {
    AboveIsFolders(items, copy);
    assert copy[..|copy|] == copy;
  }

  lemma BlockedAbove(items: Items, copy: Path)
    requires copy !in items
    ensures Blocked(items, copy) <==> !Reachable(items, copy)
  {
    assert copy[..|copy|] == copy;
  }

  lemma {:induction false} AboveIsFolders(items: Items, p: Path)
    requires Placed(items) && p in items
    ensures forall k :: 0 <= k < |p| ==> p[..k] in items && items[p[..k]].Dir?
    decreases |p|
  {
    if p != [] {
      AboveIsFolders(items, Parent(p));
      forall k | 0 <= k < |p| ensures p[..k] in items && items[p[..k]].Dir? {
        if k < |p| - 1 {
          assert Parent(p)[..k] == p[..k];
        } else {
          assert p[..k] == Parent(p);
        }
      }
    }
  }

  lemma StandsOutside(before: Items, copy: Path, made: Items)
    requires OnlyFolders(copy, Cleared(before, copy), made) || OnlyFolders(copy, before, made)
    ensures OutsideStands(before, made, copy)
  {
    forall q | q in before && !(copy <= q) ensures q in made && made[q] == before[q] {
      assert q in Cleared(before, copy);
    }
  }

  lemma FilesStandOutside(before: Items, folder: Path, copy: Path, files: seq<Path>, made: Items, items: Items, n: nat)
    requires n <= |files| && FilesCopied(before, folder, copy, files, made, items, n)
    requires OutsideStands(before, made, copy)
    ensures OutsideStands(before, items, copy)
  {
    forall q | q in items && q !in made ensures copy <= q {
      var i: nat :| i < n && q == copy + files[i];
    }
  }

  lemma FilesAreOwn(before: Items, folder: Path, copy: Path, files: seq<Path>, made: Items, items: Items, n: nat)
    requires n <= |files| && FilesCopied(before, folder, copy, files, made, items, n)
    requires OnlyFolders(copy, Cleared(before, copy), made)
    ensures OnlyOwn(before, folder, copy, files, items)
  {
    forall q | q in items && copy <= q && items[q].Data?
      ensures exists i: nat :: i < |files| && q == copy + files[i] && items[q] == Gets(before, folder, copy, files)(i)
    {
      assert q !in Cleared(before, copy);
      var i: nat :| i < n && q == copy + files[i];
    }
  }

  /** The copy of a folder the walk took, over what was there: the old copy goes first. Without faults it succeeds
      exactly if the copy can be made there and every file can still be read; what is left of one that does not is
      its own. */
  method Replace(disk: Disk, folder: Path, copy: Path, found: Found) returns (result: Result<(), Error>)
    requires Placed(disk.items) && Copyable(disk.items, folder) && Lists(found, View(disk.items, folder))
    modifies disk
    ensures result.Failure? ==> result.error.Io?
    ensures OutsideStands(old(disk.items), disk.items, copy)
    ensures result.Success? ==>
      (Below(disk.items, copy) == Resolved(View(old(disk.items), folder))
       <==> AllSame(old(disk.items), folder, copy, found.files))
    ensures !disk.faulty ==>
      (result.Success? <==> Reachable(old(disk.items), copy) && AllRead(old(disk.items), folder, copy, found.files))
    ensures !disk.faulty && result.Failure? ==>
      if Reachable(old(disk.items), copy)
      then FirstUnread(old(disk.items), folder, copy, found.files, result.error.path)
      else result.error.path == []
    ensures !disk.faulty && Reachable(old(disk.items), copy) ==>
      OnlyOwn(old(disk.items), folder, copy, found.files, disk.items)
  {
    ghost var before := disk.items;
    ViewIsWellFormed(before, folder);
    assert forall p :: p in found.folders ==> p in Elements(found.folders);
    var tree := View(disk.items, folder);
    var ok := RemoveOld(disk, copy);
    if !ok {
      return Failure(Io([]));
    }
    var failed := MakeFolders(tree, found.folders, disk, copy);
    ghost var made := disk.items;
    StandsOutside(before, copy, made);
    if failed.Some? {
      return Failure(Io(failed.value));
    }
    ghost var n;
    failed, n := CopyFiles(disk, folder, copy, found, before);
    FilesStandOutside(before, folder, copy, found.files, made, disk.items, n);
    FilesAreOwn(before, folder, copy, found.files, made, disk.items, n);
    if failed.Some? {
      return Failure(Io(failed.value));
    }
    WholeExactlyWhenSame(before, folder, copy, found, made, disk.items);
    result := Success(());
  }

  /** The folder of a document copied into the session directory, in place of a copy already there. It is refused
      without a folder, for a document whose paths leave it, for a folder that cannot be walked, and over the limit;
      a refusal leaves the disk as it was. Past those, the old copy is gone, and without faults the new one is
      there exactly if it can be made there and every file found can still be read. */
  method CopyProject(hasFolder: bool, pathsLeave: bool, disk: Disk, folder: Path, copy: Path)
    returns (result: Result<(), Error>, ghost found: Found)
    requires Placed(disk.items)
    modifies disk
    ensures result == Failure(NoFolder) <==> !hasFolder
    ensures result == Failure(PathsLeaveFolder) <==> hasFolder && pathsLeave
    ensures hasFolder && !pathsLeave && !IsDir(old(disk.items), folder) ==> result == Failure(Io([]))
    ensures hasFolder && !pathsLeave && IsDir(old(disk.items), folder) ==>
      var tree := View(old(disk.items), folder); var total := TotalLength(tree, Files(tree));
      && (Walkable(tree) ==> (result == Failure(FolderTooLarge(total)) <==> total > COPY_LIMIT))
      && (!Walkable(tree) ==> result.Failure? && Blames(result.error, tree))
    ensures result.Failure? && result.error.FolderTooLarge? ==>
      hasFolder && !pathsLeave && IsDir(old(disk.items), folder) && Walkable(View(old(disk.items), folder))
    ensures !hasFolder || pathsLeave || !Copyable(old(disk.items), folder) ==>
      result.Failure? && disk.items == old(disk.items)
    ensures hasFolder && !pathsLeave && Copyable(old(disk.items), folder) && result.Failure? ==> result.error.Io?
    ensures OutsideStands(old(disk.items), disk.items, copy)
    ensures result.Success? ==> Lists(found, View(old(disk.items), folder))
    ensures result.Success? ==>
      (Below(disk.items, copy) == Resolved(View(old(disk.items), folder))
       <==> AllSame(old(disk.items), folder, copy, found.files))
    ensures hasFolder && !pathsLeave && Copyable(old(disk.items), folder) && !disk.faulty ==>
      && Lists(found, View(old(disk.items), folder))
      && (result.Success? <==> Reachable(old(disk.items), copy) && AllRead(old(disk.items), folder, copy, found.files))
      && (Reachable(old(disk.items), copy) ==> OnlyOwn(old(disk.items), folder, copy, found.files, disk.items))
      && (result.Failure? && Reachable(old(disk.items), copy) ==>
            FirstUnread(old(disk.items), folder, copy, found.files, result.error.path))
  {
    found := Found([], [], 0);
    if !hasFolder {
      return Failure(NoFolder), found;
    }
    if pathsLeave {
      return Failure(PathsLeaveFolder), found;
    }
    if !IsDir(disk.items, folder) {
      return Failure(Io([])), found;
    }
    ViewIsWellFormed(disk.items, folder);
    var walked := Of(View(disk.items, folder));
    if walked.Failure? {
      return Failure(walked.error), found;
    }
    found := walked.value;
    if walked.value.bytes > COPY_LIMIT {
      return Failure(FolderTooLarge(walked.value.bytes)), found;
    }
    result := Replace(disk, folder, copy, walked.value);
  }

  // --- Which folders can be read back

  /** Nothing listed is read under the copy. */
  ghost predicate ReadsOutside(items: Items, folder: Path, copy: Path, files: seq<Path>) {
    forall f :: f in files ==> !(copy <= Reads(items, folder, copy, f))
  }

  /** A folder of which nothing is read under the copy is read back whole, in whatever order it was listed. */
  lemma OutsideIsWhole(items: Items, folder: Path, copy: Path, files: seq<Path>)
    requires ReadsOutside(items, folder, copy, files)
    ensures AllRead(items, folder, copy, files) && AllSame(items, folder, copy, files)
  {
    forall i: nat | i < |files| ensures Origin(items, folder, copy, files, i) == Some(i) {
      assert files[i] in files;
    }
  }

  /** A folder that is the copy, or lies in it, cannot be read back, if it has a file at all. */
  lemma InsideIsLost(items: Items, folder: Path, copy: Path, files: seq<Path>)
    requires copy <= folder && files != []
    ensures !AllRead(items, folder, copy, files)
  {
    assert copy <= folder + files[0];
    assert Origin(items, folder, copy, files, 0).None?;
  }

  lemma {:induction false} InsideHasNoOrigin(items: Items, folder: Path, copy: Path, files: seq<Path>, i: nat)
    requires copy <= folder && i < |files|
    ensures Origin(items, folder, copy, files, i).None?
    decreases i
  {
    assert copy <= folder + files[i];
    forall k: nat | k < i ensures Origin(items, folder, copy, files, k).None? {
      InsideHasNoOrigin(items, folder, copy, files, k);
    }
  }

  /** What is left of the copy once its own folder, or one in it, was to be copied: no file at all. */
  lemma InsideLeavesNoFile(before: Items, folder: Path, copy: Path, files: seq<Path>, items: Items)
    requires copy <= folder && OnlyOwn(before, folder, copy, files, items)
    ensures forall q :: q in items && copy <= q ==> !items[q].Data?
  {
    forall q | q in items && copy <= q ensures !items[q].Data? {
      if items[q].Data? {
        var i: nat :| i < |files| && q == copy + files[i] && items[q] == Gets(before, folder, copy, files)(i);
        InsideHasNoOrigin(before, folder, copy, files, i);
      }
    }
  }

  lemma Cancels(a: Path, b: Path, c: Path)
    ensures a + b == a + c <==> b == c
  {
    assert (a + b)[|a|..] == b && (a + c)[|a|..] == c;
  }

  lemma OriginUnder(items: Items, folder: Path, copy: Path, files: seq<Path>, i: nat, k: nat)
    requires Distinct(files) && k < i < |files|
    requires copy <= Reads(items, folder, copy, files[i]) == copy + files[k]
    ensures Origin(items, folder, copy, files, i) == Origin(items, folder, copy, files, k)
  {
    forall j: nat | j < i && copy + files[j] == copy + files[k] ensures j == k {
      Cancels(copy, files[j], files[k]);
    }
  }

  lemma UnderIsReadAfter(items: Items, folder: Path, copy: Path, files: seq<Path>, i: nat, f: Path)
    requires Distinct(files) && i < |files| && copy <= Reads(items, folder, copy, files[i]) == copy + f
    ensures Origin(items, folder, copy, files, i).Some?
            <==> exists k: nat :: k < i && files[k] == f && Origin(items, folder, copy, files, k).Some?
  {
    if k: nat :| k < i && files[k] == f {
      OriginUnder(items, folder, copy, files, i, k);
      forall j: nat | j < i && files[j] == f ensures j == k {
      }
    } else {
      forall k: nat | k < i ensures copy + files[k] != copy + f {
        Cancels(copy, files[k], f);
      }
    }
  }

  /** A file of the old copy in a folder around it is read back exactly where the file it was a copy of is listed
      before it, and so copied to its place again. */
  lemma AroundIsReadAfterItsOriginal(items: Items, folder: Path, inner: Path, files: seq<Path>, i: nat, f: Path)
    requires Distinct(files) && i < |files| && files[i] == inner + f
    ensures Origin(items, folder, folder + inner, files, i).Some?
            <==> exists k: nat :: k < i && files[k] == f && Origin(items, folder, folder + inner, files, k).Some?
  {
    assert folder + (inner + f) == (folder + inner) + f;
    UnderIsReadAfter(items, folder, folder + inner, files, i, f);
  }

  /** A project folder with one file, in a folder of its own, and the session's directory, whose copy of the
      project holds that file too. */
  function Around(content: Bytes, copied: Bytes): Items {
    map[[] := Dir(true), ["p"] := Dir(true), ["p", "b"] := Dir(true), ["p", "b", "a"] := Data(content),
        ["p", "s"] := Dir(true), ["p", "s", "b"] := Dir(true), ["p", "s", "b", "a"] := Data(copied)]
  }

  /** Listed after its original it is read back, with the original's bytes, which need not be its own; listed
      before it, it is lost. A walk may list either first. */
  lemma AroundDependsOnTheOrder(content: Bytes, copied: Bytes)
    ensures var items, folder, copy := Around(content, copied), ["p"], ["p", "s"];
      var file, inner := ["b", "a"], ["s", "b", "a"];
      && AllRead(items, folder, copy, [file, inner])
      && (AllSame(items, folder, copy, [file, inner]) <==> content == copied)
      && !AllRead(items, folder, copy, [inner, file])
  {
    var items, folder, copy := Around(content, copied), ["p"], ["p", "s"];
    var file, inner := ["b", "a"], ["s", "b", "a"];
    AroundReads(items, content, copied);
    assert Origin(items, folder, copy, [file, inner], 0) == Some(0);
    assert Origin(items, folder, copy, [file, inner], 1) == Some(0) by {
      assert copy + [file, inner][0] == ["p", "s", "b", "a"];
    }
    assert Origin(items, folder, copy, [inner, file], 0).None?;
  }

  lemma AroundReads(items: Items, content: Bytes, copied: Bytes)
    requires items == Around(content, copied)
    ensures var folder, copy := ["p"], ["p", "s"];
      && Reads(items, folder, copy, ["b", "a"]) == ["p", "b", "a"] && !(copy <= ["p", "b", "a"])
      && Reads(items, folder, copy, ["s", "b", "a"]) == ["p", "s", "b", "a"] && copy <= ["p", "s", "b", "a"]
      && Content(View(items, folder), ["b", "a"]) == content && Content(View(items, folder), ["s", "b", "a"]) == copied
  {
    assert ["p"] + ["b", "a"] == ["p", "b", "a"] && ["p"] + ["s", "b", "a"] == ["p", "s", "b", "a"];
    assert ["p", "b", "a"][1] == "b" && ["p", "s"][1] == "s" && "b"[0] != "s"[0];
  }
}
