/** What a restore writes to, and where in it the paths of a snapshot go. */
module Disks {
  import opened Base
  import opened Paths

  /** What lies on a disk: files with their bytes, and directories. */
  datatype Disk = Disk(files: map<Path, Bytes>, dirs: set<Path>)

  /** q is a directory on the way to p. */
  predicate Above(q: Path, p: Path) {
    q.rooted == p.rooted && q.parts < p.parts
  }

  function Ancestors(p: Path): set<Path> {
    set i | 0 <= i < |p.parts| :: Path(p.rooted, p.parts[..i])
  }

  lemma AncestorsAreAbove(p: Path, q: Path)
    ensures q in Ancestors(p) <==> Above(q, p)
  {
    if Above(q, p) {
      assert q.parts == p.parts[..|q.parts|];
    }
  }

  lemma AboveAll(p: Path)
    ensures forall q :: q in Ancestors(p) <==> Above(q, p)
  {
    forall q
      ensures q in Ancestors(p) <==> Above(q, p)
    {
      AncestorsAreAbove(p, q);
    }
  }

  /** The directories on the way to a file or directory are there, and nothing is both. */
  ghost predicate IsDisk(d: Disk) {
    && d.files.Keys !! d.dirs
    && forall q, p {:trigger Above(q, p)} :: Above(q, p) && (p in d.files || p in d.dirs) ==> q in d.dirs
  }

  predicate FileAbove(files: map<Path, Bytes>, path: Path) {
    exists q :: q in Ancestors(path) && q in files
  }

  /** Where no file can be made: at a directory, and below a file. */
  predicate Blocked(d: Disk, path: Path) {
    path in d.dirs || FileAbove(d.files, path)
  }

  lemma DirsMade(d: Disk, path: Path)
    requires IsDisk(d) && !FileAbove(d.files, path)
    ensures IsDisk(d.(dirs := d.dirs + Ancestors(path))) && path !in Ancestors(path)
    ensures path !in d.dirs ==> IsDisk(Disk(d.files[path := []], d.dirs + Ancestors(path)))
  {
    AboveAll(path);
    forall q, p | Above(q, p) && p in Ancestors(path)
      ensures q in Ancestors(path)
    {
      assert Above(q, path);
    }
  }

  /** Where no directory can be made: at a file, and below one. */
  predicate Obstructed(files: map<Path, Bytes>, path: Path) {
    path in files || FileAbove(files, path)
  }

  /** The directory is there, unless a file is in its way. */
  predicate DirMade(d: Disk, path: Path) {
    path in d.dirs || Obstructed(d.files, path)
  }

  lemma PathMade(d: Disk, path: Path)
    requires IsDisk(d) && !Obstructed(d.files, path)
    ensures IsDisk(d.(dirs := d.dirs + Ancestors(path) + {path}))
  {
    DirsMade(d, path);
    AboveAll(path);
  }

  class FileSystem {
    const reliable: bool
    var files: map<Path, Bytes>
    var dirs: set<Path>

    ghost function Now(): Disk
      reads this
    {
      Disk(files, dirs)
    }

    /** Makes the directories on the way and an empty file; an unreliable file system may refuse either. */
    method Create(path: Path) returns (ok: bool)
      requires IsDisk(Now())
      modifies this
      ensures IsDisk(Now()) && old(dirs) <= dirs <= old(dirs) + Ancestors(path)
      ensures ok ==> !Blocked(old(Now()), path)
      ensures ok ==> files == old(files)[path := []] && dirs == old(dirs) + Ancestors(path)
      ensures !ok ==> files == old(files)
      ensures reliable && !Blocked(old(Now()), path) ==> ok
    {
      var refused: bool := *;
      if (refused && !reliable) || FileAbove(files, path) {
        return false;
      }
      DirsMade(Now(), path);
      dirs := dirs + Ancestors(path);
      refused := *;
      if (refused && !reliable) || path in dirs {
        return false;
      }
      files := files[path := []];
      ok := true;
    }

    method Append(path: Path, data: Bytes) returns (ok: bool)
      requires path in files && IsDisk(Now())
      modifies this`files
      ensures IsDisk(Now())
      ensures reliable ==> ok
      ensures files == if ok then old(files)[path := old(files)[path] + data] else old(files)
    {
      var refused: bool := *;
      if refused && !reliable {
        return false;
      }
      files := files[path := files[path] + data];
      ok := true;
    }

    /**
      Makes a directory and those on the way to it, if no file is in the way; an unreliable file system may not.
      Nobody asks whether it has.
     */
    method MakeDirs(path: Path)
      requires IsDisk(Now())
      modifies this`dirs
      ensures IsDisk(Now()) && old(dirs) <= dirs <= old(dirs) + Ancestors(path) + {path}
      ensures reliable ==> DirMade(Now(), path)
    {
      var refused: bool := *;
      if (refused && !reliable) || Obstructed(files, path) {
        return;
      }
      PathMade(Now(), path);
      dirs := dirs + Ancestors(path) + {path};
    }
  }

  // ----- The places of a snapshot's paths

  /** A path that a search builds: good names, joined. */
  ghost predicate TreePath(p: Str) {
    exists names :: GoodNames(names) && names != [] && PathOf(names) == p
  }

  lemma OneNameMore(names: seq<Str>, name: Str)
    requires GoodNames(names) && GoodName(name)
    ensures TreePath(Join(PathOf(names), name))
  {
    var more := names + [name];
    assert more[..|more| - 1] == names;
    assert GoodNames(more) && PathOf(more) == Join(PathOf(names), name);
  }

  /** Where a path from a snapshot goes. */
  function TargetOf(targetDir: Str, p: Str): Path {
    var r := SafeJoinTarget(targetDir, p);
    if r.Ok? then r.value else Path(false, [])
  }

  /** Different paths go to different places, and none is refused. */
  lemma TargetsDiffer(targetDir: Str, p: Str, p': Str)
    requires TreePath(p) && TreePath(p')
    ensures SafeJoinTarget(targetDir, p) == Ok(TargetOf(targetDir, p))
    ensures TargetOf(targetDir, p) == TargetOf(targetDir, p') <==> p == p'
  {
    var names :| GoodNames(names) && names != [] && PathOf(names) == p;
    var names' :| GoodNames(names') && names' != [] && PathOf(names') == p';
    SafeJoinOfNames(targetDir, names);
    SafeJoinOfNames(targetDir, names');
    if TargetOf(targetDir, p) == TargetOf(targetDir, p') {
      SafeJoinInjective(targetDir, names, names');
    }
  }
}
