/** Slash-separated paths: how they are joined, taken apart, cleaned and kept inside a directory. */
module Paths {
  import opened Base
  import opened Codec
  import opened Sorting

  const SLASH: byte := 47
  const BACKSLASH: byte := 92
  const DOT: Str := [46]
  const DOTDOT: Str := [46, 46]

  // ----- Names

  /** A name that a file may have. */
  predicate PlainName(name: Str) {
    name != [] && name != DOT && name != DOTDOT && SLASH !in name
  }

  /** A name that a restore accepts. */
  predicate GoodName(name: Str) {
    PlainName(name) && BACKSLASH !in name
  }

  function Join(dir: Str, name: Str): Str {
    if dir == [] then name else dir + [SLASH] + name
  }

  function JoinTreePath(base: Str, name: Str): Result<Str, Fault> {
    if name == [] || name == DOT || name == DOTDOT then Err(BadName)
    else if SLASH in name || BACKSLASH in name then Err(BadName)
    else Ok(Join(base, name))
  }

  /** The path that is built by joining names one after the other. */
  function PathOf(names: seq<Str>): Str {
    if names == [] then [] else Join(PathOf(names[..|names| - 1]), names[|names| - 1])
  }

  ghost predicate GoodNames(names: seq<Str>) {
    forall i :: 0 <= i < |names| ==> GoodName(names[i])
  }

  // ----- Parent and base

  /** Where the last slash is, or -1. */
  function LastSlash(s: Str): (i: int)
    ensures -1 <= i < |s|
    ensures i >= 0 ==> s[i] == SLASH
    ensures forall j :: i < j < |s| ==> s[j] != SLASH
  {
    if s == [] then -1
    else if s[|s| - 1] == SLASH then |s| - 1
    else LastSlash(s[..|s| - 1])
  }

  /** The directory of a clean relative path; empty at the top. */
  function ParentDir(rel: Str): Str {
    if LastSlash(rel) < 0 then [] else rel[..LastSlash(rel)]
  }

  function BaseName(rel: Str): Str {
    rel[LastSlash(rel) + 1..]
  }

  /** Joining a name to a directory can be undone. */
  lemma JoinParts(dir: Str, name: Str)
    requires SLASH !in name
    ensures ParentDir(Join(dir, name)) == dir && BaseName(Join(dir, name)) == name
  {
    var s := Join(dir, name);
    if dir == [] {
      assert LastSlash(s) == -1;
    } else {
      assert s[|dir|] == SLASH;
      assert forall j :: |dir| < j < |s| ==> s[j] == name[j - |dir| - 1];
      assert LastSlash(s) == |dir|;
    }
  }

  // ----- Components

  /** What lies between the slashes. */
  function Split(s: Str): (r: seq<Str>)
    ensures r != []
  {
    if s == [] then [[]]
    else
      var r := Split(s[1..]);
      if s[0] == SLASH then [[]] + r else [[s[0]] + r[0]] + r[1..]
  }

  lemma {:induction false} SplitName(name: Str)
    requires SLASH !in name
    ensures Split(name) == [name]
  {
    if name != [] {
      SplitName(name[1..]);
      assert name == [name[0]] + name[1..];
    }
  }

  lemma {:induction false} SplitJoined(a: Str, b: Str)
    ensures Split(a + [SLASH] + b) == Split(a) + Split(b)
  {
    var s := a + [SLASH] + b;
    if a == [] {
      assert s[1..] == b;
    } else {
      assert s[1..] == a[1..] + [SLASH] + b;
      SplitJoined(a[1..], b);
    }
  }

  /** A path built from names splits into just those names. */
  lemma {:induction false} SplitPathOf(names: seq<Str>)
    requires GoodNames(names) && names != []
    ensures Split(PathOf(names)) == names
    ensures PathOf(names) != []
  {
    var init, last := names[..|names| - 1], names[|names| - 1];
    SplitName(last);
    if init == [] {
      assert names == [last];
    } else {
      SplitPathOf(init);
      SplitJoined(PathOf(init), last);
      assert names == init + [last];
    }
  }

  /** Different positions in a tree have different paths. */
  lemma PathOfInjective(names: seq<Str>, names': seq<Str>)
    requires GoodNames(names) && GoodNames(names')
    ensures PathOf(names) == PathOf(names') <==> names == names'
  {
    if names != [] {
      SplitPathOf(names);
    }
    if names' != [] {
      SplitPathOf(names');
    }
  }

  // ----- Cleaning

  /** A cleaned path: rooted or not, and its components. */
  datatype Path = Path(rooted: bool, parts: seq<Str>)

  /** Processes components from left to right: "." and "" vanish, ".." takes the component before it away. */
  function CleanParts(rooted: bool, todo: seq<Str>, done: seq<Str>): seq<Str>
    decreases |todo|
  {
    if todo == [] then done
    else
      var c, rest := todo[0], todo[1..];
      if c == [] || c == DOT then CleanParts(rooted, rest, done)
      else if c == DOTDOT then
        if done != [] && done[|done| - 1] != DOTDOT then CleanParts(rooted, rest, done[..|done| - 1])
        else if rooted then CleanParts(rooted, rest, done)
        else CleanParts(rooted, rest, done + [c])
      else CleanParts(rooted, rest, done + [c])
  }

  function Clean(s: Str): Path {
    var rooted := s != [] && s[0] == SLASH;
    Path(rooted, CleanParts(rooted, Split(s), []))
  }

  function Render(p: Path): Str {
    if p.rooted then [SLASH] + PathOf(p.parts)
    else if p.parts == [] then DOT
    else PathOf(p.parts)
  }

  /** Joins two path strings and cleans the result; an empty one is ignored. */
  function JoinClean(a: Str, b: Str): Path {
    if a == [] then Clean(b) else if b == [] then Clean(a) else Clean(a + [SLASH] + b)
  }

  function CommonPrefix(a: seq<Str>, b: seq<Str>): nat {
    if a != [] && b != [] && a[0] == b[0] then 1 + CommonPrefix(a[1..], b[1..]) else 0
  }

  /** The components that lead from base to target. */
  function Relative(base: Path, target: Path): Option<seq<Str>>
  {
    if base == target then Some([])
    else if base.rooted != target.rooted then None
    else
      var n := CommonPrefix(base.parts, target.parts);
      CommonPrefixBound(base.parts, target.parts);
      if n < |base.parts| && base.parts[n] == DOTDOT then None
      else Some(seq(|base.parts| - n, _ => DOTDOT) + target.parts[n..])
  }

  lemma {:induction false} CommonPrefixBound(a: seq<Str>, b: seq<Str>)
    ensures CommonPrefix(a, b) <= |a| && CommonPrefix(a, b) <= |b|
  {
    if a != [] && b != [] && a[0] == b[0] {
      CommonPrefixBound(a[1..], b[1..]);
    }
  }

  /** Where a path from a snapshot ends up below the target directory, unless it is refused. */
  function SafeJoinTarget(targetDir: Str, relPath: Str): Result<Path, Fault> {
    var cleanRel := Clean(relPath);
    if !cleanRel.rooted && cleanRel.parts == [] then Err(BadPath)
    else if cleanRel.rooted then Err(BadPath)
    else
      var full := JoinClean(targetDir, Render(cleanRel));
      match Relative(Clean(targetDir), full)
      case None => Err(BadPath)
      case Some(rel) => if rel != [] && rel[0] == DOTDOT then Err(BadPath) else Ok(full)
  }

  // ----- What becomes of paths built from names

  lemma {:induction false} CleanGoodNames(rooted: bool, names: seq<Str>, done: seq<Str>)
    requires GoodNames(names)
    ensures CleanParts(rooted, names, done) == done + names
    decreases |names|
  {
    if names != [] {
      assert GoodNames(names[1..]);
      CleanGoodNames(rooted, names[1..], done + [names[0]]);
      assert done + [names[0]] + names[1..] == done + names;
    } else {
      assert done + names == done;
    }
  }

  lemma {:induction false} CleanInTwo(rooted: bool, a: seq<Str>, b: seq<Str>, done: seq<Str>)
    ensures CleanParts(rooted, a + b, done) == CleanParts(rooted, b, CleanParts(rooted, a, done))
    decreases |a|
  {
    if a == [] {
      assert a + b == b;
    } else {
      assert (a + b)[1..] == a[1..] + b;
      var c := a[0];
      if c == [] || c == DOT {
        CleanInTwo(rooted, a[1..], b, done);
      } else if c == DOTDOT && done != [] && done[|done| - 1] != DOTDOT {
        CleanInTwo(rooted, a[1..], b, done[..|done| - 1]);
      } else if c == DOTDOT && rooted {
        CleanInTwo(rooted, a[1..], b, done);
      } else {
        CleanInTwo(rooted, a[1..], b, done + [c]);
      }
    }
  }

  lemma {:induction false} CommonPrefixOfExtension(a: seq<Str>, b: seq<Str>)
    ensures CommonPrefix(a, a + b) == |a|
  {
    if a != [] {
      assert (a + b)[1..] == a[1..] + b;
      CommonPrefixOfExtension(a[1..], b);
    }
  }

  lemma CleanPathOf(names: seq<Str>)
    requires GoodNames(names) && names != []
    ensures Clean(PathOf(names)) == Path(false, names)
  {
    var s := PathOf(names);
    SplitPathOf(names);
    CleanGoodNames(false, names, []);
    assert [] + names == names;
    assert s[0] == SLASH ==> Split(s)[0] == [];
    assert GoodName(names[0]);
  }

  lemma JoinCleanOfNames(targetDir: Str, names: seq<Str>)
    requires GoodNames(names) && names != []
    ensures var t := Clean(targetDir);
            JoinClean(targetDir, PathOf(names)) == Path(t.rooted, t.parts + names)
  {
    var t := Clean(targetDir);
    CleanPathOf(names);
    SplitPathOf(names);
    if targetDir == [] {
      assert Split([]) == [[]];
      assert t == Path(false, []);
      assert [] + names == names;
    } else {
      var s := targetDir + [SLASH] + PathOf(names);
      SplitJoined(targetDir, PathOf(names));
      CleanInTwo(t.rooted, Split(targetDir), names, []);
      CleanGoodNames(t.rooted, names, t.parts);
      assert s[0] == targetDir[0];
    }
  }

  lemma RelativeToExtended(t: Path, names: seq<Str>)
    requires names != []
    ensures Relative(t, Path(t.rooted, t.parts + names)) == Some(names)
  {
    CommonPrefixOfExtension(t.parts, names);
    assert (t.parts + names)[|t.parts|..] == names;
    assert seq(0, _ => DOTDOT) + names == names;
    assert |t.parts + names| != |t.parts|;
  }

  /**
    A path built from names is never refused, and lands exactly below the target directory:
    its location is that of the target followed by the names.
   */
  lemma SafeJoinOfNames(targetDir: Str, names: seq<Str>)
    requires GoodNames(names) && names != []
    ensures var t := Clean(targetDir);
            SafeJoinTarget(targetDir, PathOf(names)) == Ok(Path(t.rooted, t.parts + names))
  {
    CleanPathOf(names);
    JoinCleanOfNames(targetDir, names);
    RelativeToExtended(Clean(targetDir), names);
    assert GoodName(names[0]);
  }

  /** So no two of them end up in the same place. */
  lemma SafeJoinInjective(targetDir: Str, names: seq<Str>, names': seq<Str>)
    requires GoodNames(names) && names != [] && GoodNames(names') && names' != []
    requires SafeJoinTarget(targetDir, PathOf(names)) == SafeJoinTarget(targetDir, PathOf(names'))
    ensures names == names'
  {
    SafeJoinOfNames(targetDir, names);
    SafeJoinOfNames(targetDir, names');
    var n := |Clean(targetDir).parts|;
    assert (Clean(targetDir).parts + names)[n..] == names;
    assert (Clean(targetDir).parts + names')[n..] == names';
  }

  // ----- The order in which directories are built

  function SlashCount(s: Str): nat {
    if s == [] then 0 else (if s[0] == SLASH then 1 else 0) + SlashCount(s[1..])
  }

  /** Deeper directories first, and later names first among those of one depth. */
  predicate DirBefore(a: Str, b: Str) {
    SlashCount(a) > SlashCount(b) || (SlashCount(a) == SlashCount(b) && Less(b, a))
  }

  lemma DirBeforeOrdering()
    ensures Ordering(DirBefore)
    ensures forall a, b :: a != b ==> DirBefore(a, b) || DirBefore(b, a)
  {
    forall x
      ensures !DirBefore(x, x)
    {
      LessTotal(x, x);
    }
    forall x, y | x != y
      ensures DirBefore(x, y) || DirBefore(y, x)
    {
      LessTotal(x, y);
    }
    forall x, y, z | DirBefore(x, y) && DirBefore(y, z)
      ensures DirBefore(x, z)
    {
      DirBeforeTransitive(x, y, z);
    }
    forall x, y, z | DirBefore(x, z)
      ensures DirBefore(x, y) || DirBefore(y, z)
    {
      LessTotal(x, y);
      if !DirBefore(x, y) && x != y {
        DirBeforeTransitive(y, x, z);
      }
    }
  }

  lemma DirBeforeTransitive(x: Str, y: Str, z: Str)
    requires DirBefore(x, y) && DirBefore(y, z)
    ensures DirBefore(x, z)
  {
    if SlashCount(x) == SlashCount(y) == SlashCount(z) {
      LessTransitive(z, y, x);
    }
  }

  lemma {:induction false} SlashCountConcat(a: Str, b: Str)
    ensures SlashCount(a + b) == SlashCount(a) + SlashCount(b)
  {
    if a == [] {
      assert a + b == b;
    } else {
      assert (a + b)[1..] == a[1..] + b;
      SlashCountConcat(a[1..], b);
    }
  }

  lemma {:induction false} NoSlashes(a: Str)
    requires SLASH !in a
    ensures SlashCount(a) == 0
  {
    if a != [] {
      NoSlashes(a[1..]);
    }
  }

  /** A directory comes before its parent, at the top as well, where both have depth zero. */
  lemma ChildBeforeParent(dir: Str, name: Str)
    requires SLASH !in name && name != []
    ensures DirBefore(Join(dir, name), dir)
  {
    NoSlashes(name);
    if dir != [] {
      SlashCountConcat(dir + [SLASH], name);
      SlashCountConcat(dir, [SLASH]);
    }
  }
}
