/** The walk of a project's folder. A link to a file stands for the file it names; a link to a folder is
    refused, as it could hold the folder itself. */
module ProjectFiles {
  import opened Wrappers

  /** A path relative to the project's folder, as its components. */
  type Path = seq<string>

  type Bytes = seq<char>

  /** What a name in a folder is: a folder, which may refuse to be listed, a file, a link to one, a link to
      a folder, or a name whose metadata cannot be read, as a link to nothing. */
  datatype Entry = Folder(readable: bool) | File(content: Bytes) | FileLink(content: Bytes) | FolderLink | Broken

  /** A folder's whole content by relative path, the folder itself included. */
  type Tree = map<Path, Entry>

  function Parent(p: Path): Path
    requires p != []
  {
    p[..|p| - 1]
  }

  ghost predicate WellFormed(tree: Tree) {
    && [] in tree && tree[[]].Folder?
    && forall p :: p in tree && p != [] ==> Parent(p) in tree && tree[Parent(p)].Folder?
  }

  predicate IsFile(entry: Entry) { entry.File? || entry.FileLink? }

  /** The names a listing of `dir` gives. */
  function Names(tree: Tree, dir: Path): (names: set<string>)
    ensures forall name :: name in names <==> dir + [name] in tree
  {
    var names := set p | p in tree && p != [] && Parent(p) == dir :: p[|p| - 1];
    assert forall p :: p in tree && p != [] ==> p == Parent(p) + [p[|p| - 1]];
    assert forall name :: Parent(dir + [name]) == dir && (dir + [name])[|dir|] == name;
    names
  }

  ghost function Folders(tree: Tree): set<Path> { set p | p in tree && p != [] && tree[p].Folder? }

  ghost function Files(tree: Tree): set<Path> { set p | p in tree && IsFile(tree[p]) }

  /** A folder the walk takes: all of it can be listed, and no link leads to a folder or to nothing. */
  ghost predicate Walkable(tree: Tree) {
    forall p :: p in tree ==> !tree[p].FolderLink? && !tree[p].Broken? && (tree[p].Folder? ==> tree[p].readable)
  }

  function Length(tree: Tree, p: Path): nat {
    if p in tree && IsFile(tree[p]) then |tree[p].content| else 0
  }

  /** The bytes of the files at `paths`. */
  ghost function TotalLength(tree: Tree, paths: set<Path>): nat {
    if paths == {} then 0
    else
      var p :| p in paths;
      Length(tree, p) + TotalLength(tree, paths - {p})
  }

  lemma {:induction false} TotalLengthAdds(tree: Tree, paths: set<Path>, p: Path)
    requires p !in paths
    ensures TotalLength(tree, paths + {p}) == TotalLength(tree, paths) + Length(tree, p)
  {
    var all := paths + {p};
    var q :| q in all && TotalLength(tree, all) == Length(tree, q) + TotalLength(tree, all - {q});
    if q == p {
      assert all - {q} == paths;
    } else {
      TotalLengthAdds(tree, paths - {q}, p);
      assert all - {q} == paths - {q} + {p};
      TotalLengthAdds(tree, paths - {q}, q);
      assert paths - {q} + {q} == paths;
    }
  }

  ghost predicate Distinct<T>(items: seq<T>) {
    forall i, j :: 0 <= i < j < |items| ==> items[i] != items[j]
  }

  ghost function Elements<T>(items: seq<T>): set<T> { set item | item in items }

  lemma AppendDistinct<T>(items: seq<T>, item: T)
    requires Distinct(items) && item !in items
    ensures Distinct(items + [item]) && Elements(items + [item]) == Elements(items) + {item}
  {
    assert (items + [item])[|items|] == item;
    assert forall i :: i in items ==> i in items + [item];
  }

  datatype Error = Io(path: Path) | LinkedFolder(path: Path) | NoFolder | PathsLeaveFolder | FolderTooLarge(bytes: nat)

  datatype Found = Found(folders: seq<Path>, files: seq<Path>, bytes: nat)

  /** The walk found each folder and file of `tree` once, and the bytes of all its files. */
  ghost predicate Lists(found: Found, tree: Tree) {
    && Distinct(found.folders) && Elements(found.folders) == Folders(tree)
    && Distinct(found.files) && Elements(found.files) == Files(tree)
    && found.bytes == TotalLength(tree, Files(tree))
  }

  /** `error` names what stopped the walk. */
  ghost predicate Blames(error: Error, tree: Tree) {
    match error
    case LinkedFolder(p) => p in tree && tree[p].FolderLink?
    case Io(p) => p in tree && (tree[p].Broken? || tree[p] == Folder(false))
    case _ => false
  }

  // --- The state of a walk

  /** Everything in `dir` named in `names` is found, and none of it stops the walk. */
  ghost predicate Taken(tree: Tree, found: Found, dir: Path, names: set<string>) {
    forall name :: name in names && dir + [name] in tree ==>
      var p := dir + [name];
      && (tree[p].Folder? ==> p in Elements(found.folders))
      && (IsFile(tree[p]) ==> p in Elements(found.files))
      && !tree[p].FolderLink? && !tree[p].Broken?
  }

  /** All found so far lies in a folder of `walked`, or in `dir` under one of `names`. */
  ghost predicate Within(paths: set<Path>, walked: set<Path>, dir: Path, names: set<string>) {
    forall p :: p in paths ==> p != [] && (Parent(p) in walked || (Parent(p) == dir && p[|p| - 1] in names))
  }

  ghost predicate Walking(tree: Tree, found: Found, pending: seq<Path>, walked: set<Path>) {
    && Distinct(found.folders) && Elements(found.folders) <= Folders(tree)
    && Distinct(found.files) && Elements(found.files) <= Files(tree)
    && found.bytes == TotalLength(tree, Elements(found.files))
    && Distinct(pending) && walked !! Elements(pending)
    && walked <= Folders(tree) + {[]}
  }

  /** With nothing pending, the walked folders are all there are, and all of them are found. */
  lemma {:induction false} ParentsWalked(tree: Tree, found: Found, walked: set<Path>, p: Path)
    requires WellFormed(tree) && p in tree && p != []
    requires walked == Elements(found.folders) + {[]}
    requires forall d :: d in walked ==> Taken(tree, found, d, Names(tree, d))
    ensures Parent(p) in walked
  {
    var d := Parent(p);
    if d != [] {
      ParentsWalked(tree, found, walked, d);
      var name := d[|d| - 1];
      assert d == Parent(d) + [name];
      assert name in Names(tree, Parent(d));
    }
  }

  /** A walked folder's name is found, or stops the walk. */
  lemma NameIsTaken(tree: Tree, found: Found, walked: set<Path>, p: Path)
    requires WellFormed(tree) && p in tree && p != []
    requires walked == Elements(found.folders) + {[]}
    requires forall d :: d in walked ==> Taken(tree, found, d, Names(tree, d))
    ensures tree[p].Folder? ==> p in Elements(found.folders)
    ensures IsFile(tree[p]) ==> p in Elements(found.files)
    ensures !tree[p].FolderLink? && !tree[p].Broken?
  {
    ParentsWalked(tree, found, walked, p);
    var dir, name := Parent(p), p[|p| - 1];
    assert p == dir + [name];
    assert name in Names(tree, dir);
    assert Taken(tree, found, dir, Names(tree, dir));
  }

  /** Nothing found is missing, of folders and of files. */
  lemma FoundIsAll(tree: Tree, found: Found)
    requires WellFormed(tree)
    requires Elements(found.folders) <= Folders(tree) && Elements(found.files) <= Files(tree)
    requires forall p :: p in tree && p != [] ==>
      (tree[p].Folder? ==> p in Elements(found.folders)) && (IsFile(tree[p]) ==> p in Elements(found.files))
    ensures Elements(found.folders) == Folders(tree) && Elements(found.files) == Files(tree)
  {
    forall p | p in Folders(tree) ensures p in Elements(found.folders) {
    }
    forall p | p in Files(tree) ensures p in Elements(found.files) {
      assert p != [];
    }
  }

  /** The walk's result, once no folder is pending. */
  lemma WalkIsWhole(tree: Tree, found: Found, walked: set<Path>)
    requires WellFormed(tree) && Walking(tree, found, [], walked)
    requires walked == Elements(found.folders) + {[]}
    requires forall d :: d in walked ==>
      d in tree && tree[d] == Folder(true) && Taken(tree, found, d, Names(tree, d))
    ensures Lists(found, tree) && Walkable(tree)
  {
    forall p | p in tree && p != []
      ensures tree[p].Folder? ==> p in Elements(found.folders)
      ensures IsFile(tree[p]) ==> p in Elements(found.files)
      ensures !tree[p].FolderLink? && !tree[p].Broken?
    {
      NameIsTaken(tree, found, walked, p);
    }
    FoundIsAll(tree, found);
  }

  ghost function AllFound(found: Found): set<Path> { Elements(found.folders) + Elements(found.files) }

  /** The walk is in folder `dir`, of which it has seen the names `seen`. */
  ghost predicate Inside(tree: Tree, found: Found, pending: seq<Path>, walked: set<Path>, dir: Path, seen: set<string>)
  {
    && Walking(tree, found, pending, walked)
    && dir !in walked && dir !in pending
    && walked + Elements(pending) + {dir} == Elements(found.folders) + {[]}
    && (forall d :: d in walked ==> Taken(tree, found, d, Names(tree, d)))
    && Within(AllFound(found), walked, dir, seen)
    && Taken(tree, found, dir, seen)
  }

  lemma TakenStays(tree: Tree, found: Found, found': Found, dir: Path, names: set<string>)
    requires Taken(tree, found, dir, names)
    requires Elements(found.folders) <= Elements(found'.folders) && Elements(found.files) <= Elements(found'.files)
    ensures Taken(tree, found', dir, names)
  {
  }

  lemma AllTakenStays(tree: Tree, found: Found, found': Found, walked: set<Path>)
    requires forall d :: d in walked ==> Taken(tree, found, d, Names(tree, d))
    requires Elements(found.folders) <= Elements(found'.folders) && Elements(found.files) <= Elements(found'.files)
    ensures forall d :: d in walked ==> Taken(tree, found', d, Names(tree, d))
  {
    forall d | d in walked ensures Taken(tree, found', d, Names(tree, d)) {
      TakenStays(tree, found, found', d, Names(tree, d));
    }
  }

  lemma TakenGrows(tree: Tree, found: Found, found': Found, dir: Path, seen: set<string>, name: string)
    requires Taken(tree, found, dir, seen) && Taken(tree, found', dir, {name})
    requires Elements(found.folders) <= Elements(found'.folders) && Elements(found.files) <= Elements(found'.files)
    ensures Taken(tree, found', dir, seen + {name})
  {
    TakenStays(tree, found, found', dir, seen);
  }

  /** A name not seen yet is not found yet, and is where the walk is once it is. */
  lemma NewInside(paths: set<Path>, walked: set<Path>, dir: Path, seen: set<string>, name: string)
    requires Within(paths, walked, dir, seen) && name !in seen && dir !in walked
    ensures dir + [name] !in paths && dir + [name] != dir && dir + [name] != []
    ensures Within(paths + {dir + [name]}, walked, dir, seen + {name})
  {
    var inner := dir + [name];
    assert Parent(inner) == dir && inner[|inner| - 1] == name;
  }

  lemma TakeFolder(tree: Tree, found: Found, pending: seq<Path>, walked: set<Path>, dir: Path, seen: set<string>,
                   name: string)
    requires Inside(tree, found, pending, walked, dir, seen) && name !in seen
    requires dir + [name] in tree && tree[dir + [name]].Folder?
    ensures Inside(tree, found.(folders := found.folders + [dir + [name]]), pending + [dir + [name]], walked, dir,
                   seen + {name})
  {
    var inner := dir + [name];
    var found' := found.(folders := found.folders + [inner]);
    NewInside(AllFound(found), walked, dir, seen, name);
    assert inner !in Elements(pending) && inner !in walked;
    AppendDistinct(found.folders, inner);
    AppendDistinct(pending, inner);
    assert AllFound(found') == AllFound(found) + {inner};
    AllTakenStays(tree, found, found', walked);
    TakenGrows(tree, found, found', dir, seen, name);
  }

  lemma TakeFile(tree: Tree, found: Found, pending: seq<Path>, walked: set<Path>, dir: Path, seen: set<string>,
                 name: string)
    requires Inside(tree, found, pending, walked, dir, seen) && name !in seen
    requires dir + [name] in tree && IsFile(tree[dir + [name]])
    ensures Inside(tree,
                   found.(files := found.files + [dir + [name]], bytes := found.bytes + Length(tree, dir + [name])),
                   pending, walked, dir, seen + {name})
  {
    var inner := dir + [name];
    var found' := found.(files := found.files + [inner], bytes := found.bytes + Length(tree, inner));
    NewInside(AllFound(found), walked, dir, seen, name);
    AppendDistinct(found.files, inner);
    TotalLengthAdds(tree, Elements(found.files), inner);
    assert AllFound(found') == AllFound(found) + {inner};
    AllTakenStays(tree, found, found', walked);
    TakenGrows(tree, found, found', dir, seen, name);
  }

  /** One entry of a folder: a folder is found and put on the stack, a file found and counted, and a link to
      a folder or a name with no metadata stops the walk. */
  method ListEntry(tree: Tree, dir: Path, name: string, found: Found, pending: seq<Path>, ghost walked: set<Path>,
                   ghost seen: set<string>)
    returns (result: Result<(Found, seq<Path>), Error>)
    requires Inside(tree, found, pending, walked, dir, seen) && name in Names(tree, dir) - seen
    ensures result.Failure? ==> Blames(result.error, tree) && !Walkable(tree)
    ensures result.Success? ==> Inside(tree, result.value.0, result.value.1, walked, dir, seen + {name})
  {
    var inner := dir + [name];
    match tree[inner] {
      case Broken => return Failure(Io(inner));
      case FolderLink => return Failure(LinkedFolder(inner));
      case Folder(_) =>
        TakeFolder(tree, found, pending, walked, dir, seen, name);
        return Success((found.(folders := found.folders + [inner]), pending + [inner]));
      case _ =>
        TakeFile(tree, found, pending, walked, dir, seen, name);
        return Success((found.(bytes := found.bytes + |tree[inner].content|, files := found.files + [inner]), pending));
    }
  }

  /** The entries of one folder, in any order. */
  method ListFolder(tree: Tree, dir: Path, found: Found, pending: seq<Path>, ghost walked: set<Path>)
    returns (result: Result<(Found, seq<Path>), Error>)
    requires Inside(tree, found, pending, walked, dir, {})
    ensures result.Failure? ==> Blames(result.error, tree) && !Walkable(tree)
    ensures result.Success? ==> Inside(tree, result.value.0, result.value.1, walked, dir, Names(tree, dir))
  {
    var names := Names(tree, dir);
    result := Success((found, pending));
    assert names - names == {};
    while names != {}
      invariant names <= Names(tree, dir)
      invariant result.Success? && Inside(tree, result.value.0, result.value.1, walked, dir, Names(tree, dir) - names)
      decreases names
    {
      var name :| name in names;
      assert Names(tree, dir) - (names - {name}) == Names(tree, dir) - names + {name};
      result := ListEntry(tree, dir, name, result.value.0, result.value.1, walked, Names(tree, dir) - names);
      if result.Failure? {
        return;
      }
      names := names - {name};
    }
    assert Names(tree, dir) - {} == Names(tree, dir);
  }

  /** Between two folders of the walk. */
  ghost predicate Between(tree: Tree, found: Found, pending: seq<Path>, walked: set<Path>) {
    && Walking(tree, found, pending, walked)
    && walked + Elements(pending) == Elements(found.folders) + {[]}
    && (forall d :: d in walked ==> d in tree && tree[d] == Folder(true) && Taken(tree, found, d, Names(tree, d)))
    && (forall p :: p in AllFound(found) ==> p != [] && Parent(p) in walked)
  }

  lemma Enter(tree: Tree, found: Found, pending: seq<Path>, walked: set<Path>, dir: Path, rest: seq<Path>)
    requires Between(tree, found, pending, walked) && pending == rest + [dir]
    ensures Inside(tree, found, rest, walked, dir, {})
  {
    assert forall i :: 0 <= i < |rest| ==> pending[i] == rest[i];
    assert pending[|rest|] == dir;
    assert Elements(pending) == Elements(rest) + {dir} by {
      assert forall p :: p in pending <==> p in rest || p == dir;
    }
  }

  lemma Leave(tree: Tree, found: Found, pending: seq<Path>, walked: set<Path>, dir: Path)
    requires Inside(tree, found, pending, walked, dir, Names(tree, dir)) && dir in tree && tree[dir] == Folder(true)
    requires dir in Folders(tree) + {[]}
    requires forall d :: d in walked ==> d in tree && tree[d] == Folder(true)
    ensures Between(tree, found, pending, walked + {dir})
  {
  }

  /** The walk of a project's folder: it succeeds exactly on a walkable one, and lists all of it. */
  method Of(tree: Tree) returns (result: Result<Found, Error>)
    requires WellFormed(tree)
    ensures result.Success? <==> Walkable(tree)
    ensures result.Success? ==> Lists(result.value, tree)
    ensures result.Failure? ==> Blames(result.error, tree)
  {
    var found, pending := Found([], [], 0), [[]];
    ghost var walked: set<Path> := {};
    while pending != []
      invariant Between(tree, found, pending, walked)
      decreases Folders(tree) + {[]} - walked
    {
      var relative := pending[|pending| - 1];
      Enter(tree, found, pending, walked, relative, pending[..|pending| - 1]);
      pending := pending[..|pending| - 1];
      assert relative in Folders(tree) + {[]};
      if !tree[relative].readable {
        return Failure(Io(relative));
      }
      var listed := ListFolder(tree, relative, found, pending, walked);
      if listed.Failure? {
        return Failure(listed.error);
      }
      found, pending := listed.value.0, listed.value.1;
      Leave(tree, found, pending, walked, relative);
      walked := walked + {relative};
    }
    WalkIsWhole(tree, found, walked);
    return Success(found);
  }
}
