/** Applying a patch on a branch: backup, overlay update, verify, roll back.

    File operations and everything else outside fail whenever the methods of `Folder` and `Host`
    say so, and these count their failures. The contracts hold for every choice, and say that
    nothing but such a failure, a signalled token or a clash of names makes an operation fail. */
module PatchService {
  import opened Basics
  import opened FileTrees
  import opened PatchRecord

  datatype Outcome = Returned(result: bool) | Threw

  /** How far a rollback came before it ended or swallowed an exception. */
  datatype Stage = NoBackup | BeforeCopy | CopyFailed | Restored

  /** The part of At(t, p) that a copy has done after the files of p and the directories `done`. */
  function Part(t: Tree, p: Path, done: set<Path>): Tree {
    Tree(map f | f in t.files && p < f && (|f| == |p| + 1 || f[..|p| + 1] in done) :: t.files[f],
         set d | d in t.dirs && p <= d && (d == p || d[..|p| + 1] in done))
  }

  function SubDirs(t: Tree, p: Path): set<Path> {
    set d | d in t.dirs && |d| == |p| + 1 && p < d
  }

  function Below(t: Tree, p: Path): set<Path> {
    set d | d in t.dirs && p <= d
  }

  lemma FewerBelow(t: Tree, p: Path, d: Path)
    requires p in t.dirs && p < d
    ensures Below(t, d) < Below(t, p)
  {
    assert p in Below(t, p) && p !in Below(t, d);
  }

  lemma UnderChild(p: Path, d: Path, q: Path)
    requires p < d && |d| == |p| + 1
    ensures d <= q <==> p < q && q[..|p| + 1] == d
    ensures forall k :: 0 <= k < |d| ==> d[..k] == p[..k]
  {}

  lemma PartAll(t: Tree, p: Path)
    requires WellFormed(t) && p in t.dirs
    ensures Part(t, p, SubDirs(t, p)) == At(t, p)
  {
    var x, y := Part(t, p, SubDirs(t, p)), At(t, p);
    forall q | (q in t.files || q in t.dirs) && p < q
      ensures (|q| == |p| + 1 && q in t.files) || q[..|p| + 1] in SubDirs(t, p)
    {
      if |q| == |p| + 1 {
        assert q[..|p| + 1] == q;
      } else {
        PrefixIsDir(t, q, |p| + 1);
      }
    }
    forall f | f in y.files ensures f in x.files {
      assert p !in t.files && f != p && p < f;
    }
    forall d | d in y.dirs ensures d in x.dirs {
      assert d == p || p < d;
    }
    assert x.files.Keys == y.files.Keys;
    assert x.dirs == y.dirs;
  }

  lemma PartAdd(t: Tree, p: Path, done: set<Path>, d: Path)
    requires WellFormed(t) && d in SubDirs(t, p)
    ensures Overlay(Part(t, p, done), At(t, d)) == Part(t, p, done + {d})
  {
    forall q | q in t.files || q in t.dirs ensures d <= q <==> p < q && q[..|p| + 1] == d {
      UnderChild(p, d, q);
    }
    var x, y := Overlay(Part(t, p, done), At(t, d)), Part(t, p, done + {d});
    assert x.files.Keys == y.files.Keys;
    assert x.dirs == y.dirs;
  }

  lemma OverlayAssociates(a: Tree, b: Tree, c: Tree)
    ensures Overlay(Overlay(a, b), c) == Overlay(a, Overlay(b, c))
  {
    assert (a.files + b.files) + c.files == a.files + (b.files + c.files);
  }

  /** No file of one tree stands where the other has a directory. */
  ghost predicate Fits(src: Tree, dest: Tree) {
    src.files.Keys !! dest.dirs && src.dirs !! dest.files.Keys
  }

  lemma FitsNotBlocked(src: Tree, dest: Tree, p: Path)
    requires WellFormed(src) && p in src.dirs && Fits(src, dest)
    ensures !Blocked(dest, p)
  {
    PrefixesAreDirs(src, p);
    forall k | 0 <= k <= |p| ensures p[..k] !in dest.files {
      assert p[..k] in Prefixes(p);
    }
  }

  /** Laying a part of the source over the destination brings in no clash. */
  lemma OverlayFits(src: Tree, dest: Tree, part: Tree)
    requires WellFormed(src) && Fits(src, dest)
    requires part.files.Keys <= src.files.Keys && part.dirs <= src.dirs
    ensures Fits(src, Overlay(dest, part))
  {}

  lemma AlmostNothing(src: Tree, p: Path)
    ensures At(src, p) == Tree(map[], {p}) ==> Part(src, p, {}).files == map[] && SubDirs(src, p) == {}
  {
    if At(src, p) == Tree(map[], {p}) {
      forall f | f in Part(src, p, {}).files ensures f in At(src, p).files {
        assert p <= f;
      }
      forall d | d in SubDirs(src, p) ensures d in At(src, p).dirs && d != p {
        assert p < d && |d| != |p|;
      }
    }
  }

  /** `CopyDirectoryAsync`: in whatever order the entries come, success means that everything at
      or below p has been laid over the destination. */
  method CopyDirectory(src: Tree, p: Path, dest: Folder, token: Token) returns (ok: bool)
    requires WellFormed(src) && p in src.dirs
    requires dest.Valid() && forall k :: 0 <= k < |p| ==> p[..k] in dest.dirs
    modifies dest, token
    ensures dest.Valid() && old(dest.dirs) <= dest.dirs && (old(token.Cancelled()) ==> token.Cancelled())
    ensures ok ==>
              dest.Contents() == Overlay(old(dest.Contents()), At(src, p)) && dest.Failures() == old(dest.Failures())
    ensures ok ==> token.Cancelled() == old(token.Cancelled())
    // A token signalled from the start stops everything but the creation of p itself.
    ensures old(token.Cancelled()) ==> dest.files == old(dest.files) && dest.dirs <= old(dest.dirs) + {p}
    ensures old(token.Cancelled()) && ok ==> At(src, p) == Tree(map[], {p})
    ensures At(src, p) == Tree(map[], {p}) && p in old(dest.dirs) ==> ok
    // Nothing else makes a copy fail.
    ensures dest.Failures() >= old(dest.Failures())
    ensures !ok ==> token.Cancelled() || dest.Failures() > old(dest.Failures()) || !Fits(src, old(dest.Contents()))
    decreases Below(src, p), 1
  {
    ghost var was := dest.Contents();
    AlmostNothing(src, p);
    ok := dest.CreateDirectory(p);
    PrefixesWithin(p, was.dirs);
    if !ok {
      if Fits(src, was) {
        FitsNotBlocked(src, was, p);
      }
      return;
    }
    ok := CopyFiles(src, p, dest, token);
    if !ok {
      return;
    }
    assert dest.dirs == was.dirs + {p};
    assert Part(src, p, {}).dirs == {p};
    assert dest.Contents() == Overlay(was, Part(src, p, {}));
    PartAll(src, p);
    ok := CopySubDirs(src, p, dest, token, was);
  }

  /** The directories in p, each with everything in it. */
  method CopySubDirs(src: Tree, p: Path, dest: Folder, token: Token, ghost was: Tree) returns (ok: bool)
    requires WellFormed(src) && p in src.dirs && p in dest.dirs && dest.Valid()
    requires forall k :: 0 <= k < |p| ==> p[..k] in dest.dirs
    requires dest.Contents() == Overlay(was, Part(src, p, {}))
    modifies dest, token
    ensures dest.Valid() && old(dest.dirs) <= dest.dirs && (old(token.Cancelled()) ==> token.Cancelled())
    ensures ok ==> dest.Contents() == Overlay(was, At(src, p)) && dest.Failures() == old(dest.Failures())
    ensures ok ==> token.Cancelled() == old(token.Cancelled())
    ensures old(token.Cancelled()) ==> dest.Contents() == old(dest.Contents()) && (ok ==> SubDirs(src, p) == {})
    ensures SubDirs(src, p) == {} ==> ok
    ensures dest.Failures() >= old(dest.Failures())
    ensures !ok ==> token.Cancelled() || dest.Failures() > old(dest.Failures()) || !Fits(src, was)
    decreases Below(src, p), 0
  {
    var rest := SubDirs(src, p);
    ghost var done: set<Path> := {};
    while rest != {}
      invariant rest <= SubDirs(src, p) && done + rest == SubDirs(src, p)
      invariant old(dest.dirs) <= dest.dirs && dest.Failures() == old(dest.Failures())
      invariant token.Cancelled() == old(token.Cancelled())
      invariant dest.Valid() && (old(token.Cancelled()) ==> token.Cancelled() && rest == SubDirs(src, p))
      invariant dest.Contents() == Overlay(was, Part(src, p, done))
      invariant old(token.Cancelled()) ==> dest.Contents() == old(dest.Contents())
    {
      var dir :| dir in rest;
      token.Poll();
      if token.Cancelled() {
        return false;
      }
      ghost var sofar := Part(src, p, done);
      UnderChild(p, dir, dir);
      assert p[..|p|] == p;
      FewerBelow(src, p, dir);
      if Fits(src, was) {
        OverlayFits(src, was, sofar);
      }
      ok := CopyDirectory(src, dir, dest, token);
      if !ok {
        return;
      }
      OverlayAssociates(was, sofar, At(src, dir));
      PartAdd(src, p, done, dir);
      rest, done := rest - {dir}, done + {dir};
    }
    PartAll(src, p);
    ok := true;
  }

  lemma OneFileMore(was: map<Path, Content>, mine: map<Path, Content>, rest: set<Path>, file: Path)
    requires file in rest && rest <= mine.Keys
    ensures (was + (mine - rest))[file := mine[file]] == was + (mine - (rest - {file}))
  {}

  /** The files directly in p. */
  method CopyFiles(src: Tree, p: Path, dest: Folder, token: Token) returns (ok: bool)
    requires WellFormed(src) && p in src.dirs
    requires dest.Valid() && p in dest.dirs
    modifies dest, token
    ensures dest.Valid() && dest.dirs == old(dest.dirs) && (old(token.Cancelled()) ==> token.Cancelled())
    ensures ok ==> dest.files == old(dest.files) + Part(src, p, {}).files && dest.Failures() == old(dest.Failures())
    ensures ok ==> token.Cancelled() == old(token.Cancelled())
    ensures old(token.Cancelled()) ==> dest.files == old(dest.files)
    ensures old(token.Cancelled()) && ok ==> Part(src, p, {}).files == map[]
    ensures Part(src, p, {}).files == map[] ==> ok
    ensures dest.Failures() >= old(dest.Failures())
    ensures !ok ==> token.Cancelled() || dest.Failures() > old(dest.Failures()) || !(src.files.Keys !! dest.dirs)
  {
    ghost var was := dest.files;
    var mine := Part(src, p, {}).files;
    var rest := mine.Keys;
    while rest != {}
      invariant rest <= mine.Keys
      invariant dest.Valid() && dest.dirs == old(dest.dirs) && token.Cancelled() == old(token.Cancelled())
      invariant dest.files == was + (mine - rest) && dest.Failures() == old(dest.Failures())
      invariant old(token.Cancelled()) ==> rest == mine.Keys
    {
      var file :| file in rest;
      token.Poll();
      if token.Cancelled() {
        assert old(token.Cancelled()) ==> mine - rest == map[];
        return false;
      }
      assert Parent(file) == p;
      ok := dest.CopyFile(file, src.files[file]);
      if !ok {
        return;
      }
      OneFileMore(was, mine, rest, file);
      rest := rest - {file};
    }
    assert mine - {} == mine;
    ok := true;
  }

  lemma PrefixesWithin(p: Path, dirs: set<Path>)
    requires forall k :: 0 <= k < |p| ==> p[..k] in dirs
    ensures dirs + Prefixes(p) == dirs + {p}
  {
    assert p[..|p|] == p;
    assert p[..|p|] in Prefixes(p);
    forall q | q in Prefixes(p) ensures q in dirs + {p} {
      var k :| 0 <= k <= |p| && q == p[..k];
    }
  }

  // ----- Update -----

  /** The directories that hold a file, and their parents. */
  function FileDirs(files: set<Path>): set<Path> {
    set f, k | f in files && 0 <= k < |f| :: f[..k]
  }

  /** A tree with the files of a package laid over it; empty package directories are not created. */
  function Overlaid(t: Tree, pkg: Tree): Tree {
    Tree(t.files + pkg.files, t.dirs + FileDirs(pkg.files.Keys))
  }

  /** The flat loop of the update and the recursive copy of a package produce the same files; the
      trees are the same exactly when each package directory holds a file or existed before. */
  lemma OverlaysAgree(t: Tree, pkg: Tree)
    requires WellFormed(pkg)
    ensures Overlaid(t, pkg).files == Overlay(t, At(pkg, [])).files
    ensures Overlaid(t, pkg) == Overlay(t, At(pkg, [])) <==> pkg.dirs <= t.dirs + FileDirs(pkg.files.Keys)
  {
    assert At(pkg, []) == pkg;
    forall d | d in FileDirs(pkg.files.Keys) ensures d in pkg.dirs {
      var f, k :| f in pkg.files && 0 <= k < |f| && d == f[..k];
      PrefixIsDir(pkg, f, k);
    }
    assert Overlaid(t, pkg).dirs == t.dirs + pkg.dirs <==> pkg.dirs <= t.dirs + FileDirs(pkg.files.Keys);
  }

  /** Path by path: package files win, the others stay, and there are new directories exactly above
      package files. */
  lemma OverlaidPaths(t: Tree, pkg: Tree, p: Path)
    ensures var o := Overlaid(t, pkg);
            && (p in o.files <==> p in t.files || p in pkg.files)
            && (p in o.files ==> o.files[p] == if p in pkg.files then pkg.files[p] else t.files[p])
            && (p in o.dirs <==> p in t.dirs || exists f :: f in pkg.files && p < f)
  {
    if p in FileDirs(pkg.files.Keys) {
      var f, k :| f in pkg.files && 0 <= k < |f| && p == f[..k];
      assert p < f;
    }
    forall f | f in pkg.files && p < f ensures p in FileDirs(pkg.files.Keys) {
      assert p == f[..|p|];
    }
  }

  lemma FileDirsAdd(files: set<Path>, f: Path)
    requires f != []
    ensures FileDirs(files + {f}) == FileDirs(files) + Prefixes(Parent(f))
  {
    forall k | 0 <= k <= |f| - 1 ensures f[..k] == Parent(f)[..k] {}
    forall d | d in FileDirs(files + {f}) ensures d in FileDirs(files) + Prefixes(Parent(f)) {
      var g, k :| g in files + {f} && 0 <= k < |g| && d == g[..k];
      if g == f {
        assert d == Parent(f)[..k];
      }
    }
    forall d | d in Prefixes(Parent(f)) ensures d in FileDirs(files + {f}) {
      var k :| 0 <= k <= |f| - 1 && d == Parent(f)[..k];
      assert d == f[..k];
    }
  }

  /** A listing of the package: every file once, in any order. */
  ghost predicate Listing(pkg: Tree, list: seq<Path>) {
    && (forall k :: 0 <= k < |list| ==> list[k] in pkg.files && list[k] != [])
    && (forall j, k :: 0 <= j < k < |list| ==> list[j] != list[k])
    && (forall f {:trigger f in list} :: f in pkg.files ==> f in list)
  }

  /** The tree after the first n copies, and how many of them replaced a file. */
  function Copied(t: Tree, pkg: Tree, list: seq<Path>, n: nat): Tree
    requires n <= |list| && forall k :: 0 <= k < |list| ==> list[k] in pkg.files && list[k] != []
  {
    if n == 0 then t
    else
      var s, f := Copied(t, pkg, list, n - 1), list[n - 1];
      Tree(s.files[f := pkg.files[f]], s.dirs + Prefixes(Parent(f)))
  }

  function Replaced(t: Tree, pkg: Tree, list: seq<Path>, n: nat): nat
    requires n <= |list| && forall k :: 0 <= k < |list| ==> list[k] in pkg.files && list[k] != []
  {
    if n == 0 then 0
    else Replaced(t, pkg, list, n - 1) + if list[n - 1] in Copied(t, pkg, list, n - 1).files then 1 else 0
  }

  function Elements(list: seq<Path>): set<Path> {
    set f | f in list
  }

  /** The tree after the package files `done` have been copied. */
  function Partly(t: Tree, pkg: Tree, done: set<Path>): Tree
    requires done <= pkg.files.Keys
  {
    Tree(t.files + (map f | f in done :: pkg.files[f]), t.dirs + FileDirs(done))
  }

  lemma PartlyAdd(t: Tree, pkg: Tree, done: set<Path>, f: Path)
    requires done <= pkg.files.Keys && f in pkg.files && f != []
    ensures var x, y := Partly(t, pkg, done), Partly(t, pkg, done + {f});
            y.files == x.files[f := pkg.files[f]] && y.dirs == x.dirs + Prefixes(Parent(f))
  {
    FileDirsAdd(done, f);
    var x, y := Partly(t, pkg, done), Partly(t, pkg, done + {f});
    assert y.files.Keys == x.files[f := pkg.files[f]].Keys;
  }

  lemma ElementsAdd(list: seq<Path>, n: nat)
    requires 0 < n <= |list|
    ensures Elements(list[..n]) == Elements(list[..n - 1]) + {list[n - 1]}
  {
    assert list[..n] == list[..n - 1] + [list[n - 1]];
  }

  lemma {:induction false} CopiedIsPartly(t: Tree, pkg: Tree, list: seq<Path>, n: nat)
    requires Listing(pkg, list) && n <= |list|
    ensures Elements(list[..n]) <= pkg.files.Keys
    ensures Copied(t, pkg, list, n) == Partly(t, pkg, Elements(list[..n]))
  {
    if n == 0 {
      assert Elements(list[..0]) == {} && FileDirs({}) == {};
    } else {
      CopiedIsPartly(t, pkg, list, n - 1);
      ElementsAdd(list, n);
      PartlyAdd(t, pkg, Elements(list[..n - 1]), list[n - 1]);
    }
  }

  lemma AllElements(pkg: Tree, list: seq<Path>)
    requires Listing(pkg, list)
    ensures Elements(list[..|list|]) == pkg.files.Keys
  {
    assert list[..|list|] == list;
  }

  /** Whatever the order, the whole listing gives the overlaid tree. */
  lemma {:induction false} UpdateIsOverlay(t: Tree, pkg: Tree, list: seq<Path>)
    requires Listing(pkg, list)
    ensures Copied(t, pkg, list, |list|) == Overlaid(t, pkg)
  {
    CopiedIsPartly(t, pkg, list, |list|);
    AllElements(pkg, list);
    assert (map f | f in pkg.files.Keys :: pkg.files[f]) == pkg.files;
  }

  lemma CommonAdd(keys: set<Path>, done: set<Path>, f: Path)
    requires f !in done
    ensures |keys * (done + {f})| == |keys * done| + if f in keys then 1 else 0
  {
    assert keys * (done + {f}) == keys * done + if f in keys then {f} else {};
  }

  lemma IsNew(pkg: Tree, list: seq<Path>, n: nat)
    requires Listing(pkg, list) && n < |list|
    ensures list[n] !in Elements(list[..n])
  {}

  lemma OneMore(a: set<Path>, f: Path)
    requires f !in a
    ensures |a + {f}| == |a| + 1
  {}

  lemma {:induction false} DistinctElements(list: seq<Path>, n: nat)
    requires n <= |list| && forall j, k :: 0 <= j < k < |list| ==> list[j] != list[k]
    ensures |Elements(list[..n])| == n
  {
    if n == 0 {
      assert Elements(list[..0]) == {};
    } else {
      DistinctElements(list, n - 1);
      ElementsAdd(list, n);
      OneMore(Elements(list[..n - 1]), list[n - 1]);
    }
  }

  lemma ElementsCount(pkg: Tree, list: seq<Path>, n: nat)
    requires Listing(pkg, list) && n <= |list|
    ensures |Elements(list[..n])| == n
  {
    DistinctElements(list, n);
  }

  /** A file is found in place exactly when the tree had it: no copy came before its own. */
  lemma FoundIff(t: Tree, pkg: Tree, list: seq<Path>, n: nat)
    requires Listing(pkg, list) && n < |list|
    ensures list[n] in Copied(t, pkg, list, n).files <==> list[n] in t.files
  {
    CopiedIsPartly(t, pkg, list, n);
    IsNew(pkg, list, n);
  }

  lemma ReplacedNext(t: Tree, pkg: Tree, list: seq<Path>, n: nat)
    requires Listing(pkg, list) && 0 < n <= |list|
    ensures Replaced(t, pkg, list, n) == Replaced(t, pkg, list, n - 1) + if list[n - 1] in t.files then 1 else 0
  {
    FoundIff(t, pkg, list, n - 1);
  }

  lemma CommonNext(keys: set<Path>, pkg: Tree, list: seq<Path>, n: nat)
    requires Listing(pkg, list) && 0 < n <= |list|
    ensures |keys * Elements(list[..n])| == |keys * Elements(list[..n - 1])| + if list[n - 1] in keys then 1 else 0
  {
    ElementsAdd(list, n);
    IsNew(pkg, list, n - 1);
    CommonAdd(keys, Elements(list[..n - 1]), list[n - 1]);
  }

  lemma NoCounts(t: Tree, pkg: Tree, list: seq<Path>, n: nat)
    requires Listing(pkg, list) && n == 0
    ensures CountsAgree(t, pkg, list, n)
  {
    assert t.files.Keys * Elements(list[..n]) == {};
  }

  lemma CountsNext(t: Tree, pkg: Tree, list: seq<Path>, m: nat, n: nat)
    requires Listing(pkg, list) && n == m + 1 <= |list| && CountsAgree(t, pkg, list, m)
    ensures CountsAgree(t, pkg, list, n)
  {
    ReplacedNext(t, pkg, list, n);
    CommonNext(t.files.Keys, pkg, list, n);
  }

  ghost predicate CountsAgree(t: Tree, pkg: Tree, list: seq<Path>, n: nat)
    requires Listing(pkg, list) && n <= |list|
  {
    Replaced(t, pkg, list, n) == |t.files.Keys * Elements(list[..n])|
  }

  lemma {:induction false} CountsSoFar(t: Tree, pkg: Tree, list: seq<Path>, n: nat)
    requires Listing(pkg, list) && n <= |list|
    ensures CountsAgree(t, pkg, list, n)
  {
    if n == 0 {
      NoCounts(t, pkg, list, n);
    } else {
      var m := n - 1;
      CountsSoFar(t, pkg, list, m);
      CountsNext(t, pkg, list, m, n);
    }
  }

  /** Whatever the order, the files that both have are replaced and the rest of the package is added. */
  lemma {:induction false} UpdateCounts(t: Tree, pkg: Tree, list: seq<Path>)
    requires Listing(pkg, list)
    ensures Replaced(t, pkg, list, |list|) == |t.files.Keys * pkg.files.Keys| && |list| == |pkg.files.Keys|
  {
    CountsSoFar(t, pkg, list, |list|);
    ElementsCount(pkg, list, |list|);
    AllElements(pkg, list);
  }

  /** No file of the package stands where the application has a directory, or the other way round. */
  ghost predicate Clashfree(t: Tree, pkg: Tree) {
    pkg.files.Keys !! t.dirs && FileDirs(pkg.files.Keys) !! t.files.Keys
  }

  lemma FileDirsWithin(pkg: Tree)
    requires WellFormed(pkg)
    ensures FileDirs(pkg.files.Keys) <= pkg.dirs
  {
    forall d | d in FileDirs(pkg.files.Keys) ensures d in pkg.dirs {
      var f, k :| f in pkg.files && 0 <= k < |f| && d == f[..k];
      PrefixIsDir(pkg, f, k);
    }
  }

  lemma ParentsAreFileDirs(pkg: Tree, f: Path)
    requires f in pkg.files && f != []
    ensures Prefixes(Parent(f)) <= FileDirs(pkg.files.Keys)
  {
    forall d | d in Prefixes(Parent(f)) ensures d in FileDirs(pkg.files.Keys) {
      var k :| 0 <= k <= |f| - 1 && d == Parent(f)[..k];
      assert d == f[..k];
    }
  }

  lemma FileDirsMonotone(a: set<Path>, b: set<Path>)
    requires a <= b
    ensures FileDirs(a) <= FileDirs(b)
  {}

  /** Without a clash no round of the update is blocked by what is there, copied or not. */
  lemma NeverBlocked(t: Tree, pkg: Tree, list: seq<Path>, n: nat)
    requires WellFormed(pkg) && Clashfree(t, pkg) && Listing(pkg, list) && n < |list|
    ensures var s, f := Copied(t, pkg, list, n), list[n];
            !Blocked(s, Parent(f)) && f !in s.dirs && f !in Prefixes(Parent(f))
  {
    var s, f := Copied(t, pkg, list, n), list[n];
    var done := Elements(list[..n]);
    CopiedIsPartly(t, pkg, list, n);
    FileDirsWithin(pkg);
    FileDirsMonotone(done, pkg.files.Keys);
    ParentsAreFileDirs(pkg, f);
    forall k | 0 <= k <= |Parent(f)| ensures Parent(f)[..k] !in s.files {
      assert Parent(f)[..k] in Prefixes(Parent(f));
    }
  }

  /** A tree that holds all of the package shows that there was no clash. */
  lemma OverlaidIsClashfree(t: Tree, pkg: Tree)
    requires WellFormed(Overlaid(t, pkg))
    ensures Clashfree(t, pkg)
  {
    var o := Overlaid(t, pkg);
    assert o.files.Keys == t.files.Keys + pkg.files.Keys;
  }

  /** How the update leaves the application when it stops at its n-th file: the first n are
      copied, that one may be torn, and some of its directories may exist. */
  ghost predicate StoppedAt(t: Tree, pkg: Tree, list: seq<Path>, n: nat, now: Tree)
    requires Listing(pkg, list)
  {
    && n <= |list|
    && var s := Copied(t, pkg, list, n);
       if n == |list| then now == s
       else
         && s.files.Keys <= now.files.Keys && now.files - {list[n]} == s.files - {list[n]}
         && s.dirs <= now.dirs <= s.dirs + Prefixes(Parent(list[n]))
  }

  /** `ApplyUpdateAsync`: each package file is copied over the application. It is called with a
      complete backup in place, and counts what it replaced and added. */
  method ApplyUpdate(pkg: Tree, updateFiles: seq<Path>, app: Folder, backup: Folder, token: Token, host: Host)
    returns (r: Outcome, filesReplaced: nat, filesAdded: nat, ghost copied: nat)
    requires WellFormed(app.Contents()) && app != backup && WellFormed(pkg) && Listing(pkg, updateFiles)
    requires backup.Contents() == app.Contents()
    modifies app, token, host
    ensures app.Valid() && [] in app.dirs && (old(token.Cancelled()) ==> token.Cancelled())
    ensures StoppedAt(old(app.Contents()), pkg, updateFiles, copied, app.Contents())
    ensures r == Returned(true) ==>
              && app.Contents() == Overlaid(old(app.Contents()), pkg) && Clashfree(old(app.Contents()), pkg)
              // By UpdateCounts these are the files both have, and the rest of the package.
              && filesReplaced == Replaced(old(app.Contents()), pkg, updateFiles, |updateFiles|)
              && filesReplaced + filesAdded == |updateFiles|
    ensures app.Failures() >= old(app.Failures()) && host.Failures() >= old(host.Failures())
    ensures r != Returned(true) ==>
              || token.Cancelled() || app.Failures() > old(app.Failures()) || host.Failures() > old(host.Failures())
              || !Clashfree(old(app.Contents()), pkg)
    ensures r == Threw ==> host.Failures() > old(host.Failures())
  {
    filesReplaced, filesAdded, copied := 0, 0, 0;
    ghost var was := app.Contents();
    // Listing the package.
    var ok := host.Works();
    if !ok {
      r := CaughtFalse(host);
      StoppedBefore(was, pkg, updateFiles, 0);
      return;
    }
    ok, filesReplaced, filesAdded, copied := CopyAll(pkg, updateFiles, app, token);
    if !ok {
      r := CaughtFalse(host);
      return;
    }
    UpdateIsOverlay(was, pkg, updateFiles);
    OverlaidIsClashfree(was, pkg);
    ok := host.Works();
    if !ok {
      r := CaughtFalse(host);
      return;
    }
    r := Returned(true);
  }

  /** The update loop. */
  method CopyAll(pkg: Tree, updateFiles: seq<Path>, app: Folder, token: Token)
    returns (ok: bool, filesReplaced: nat, filesAdded: nat, ghost copied: nat)
    requires WellFormed(app.Contents()) && WellFormed(pkg) && Listing(pkg, updateFiles)
    modifies app, token
    ensures app.Valid() && [] in app.dirs && (old(token.Cancelled()) ==> token.Cancelled())
    ensures StoppedAt(old(app.Contents()), pkg, updateFiles, copied, app.Contents())
    ensures app.Failures() >= old(app.Failures())
    ensures if ok
            then
              && WellFormed(app.Contents()) && copied == |updateFiles| == filesReplaced + filesAdded
              && filesReplaced == Replaced(old(app.Contents()), pkg, updateFiles, |updateFiles|)
            else token.Cancelled() || app.Failures() > old(app.Failures()) || !Clashfree(old(app.Contents()), pkg)
  {
    filesReplaced, filesAdded, copied := 0, 0, 0;
    ghost var was := app.Contents();
    for i := 0 to |updateFiles|
      invariant WellFormed(app.Contents()) && (old(token.Cancelled()) ==> token.Cancelled())
      invariant app.Failures() == old(app.Failures())
      invariant app.Contents() == Copied(was, pkg, updateFiles, i) && copied == i
      invariant filesReplaced == Replaced(was, pkg, updateFiles, i) && filesReplaced + filesAdded == i
    {
      var fileExists;
      ok, fileExists := CopyNext(pkg, updateFiles, i, app, token, was);
      if !ok {
        return;
      }
      if fileExists {
        filesReplaced := filesReplaced + 1;
      } else {
        filesAdded := filesAdded + 1;
      }
      copied := i + 1;
    }
    ok := true;
  }

  /** The round of the i-th file. */
  method CopyNext(pkg: Tree, list: seq<Path>, i: nat, app: Folder, token: Token, ghost was: Tree)
    returns (ok: bool, fileExists: bool)
    requires WellFormed(app.Contents()) && WellFormed(pkg) && Listing(pkg, list) && i < |list|
    requires app.Contents() == Copied(was, pkg, list, i)
    modifies app, token
    ensures app.Valid() && [] in app.dirs && (old(token.Cancelled()) ==> token.Cancelled())
    ensures app.Failures() >= old(app.Failures())
    ensures if ok
            then
              && WellFormed(app.Contents()) && app.Contents() == Copied(was, pkg, list, i + 1)
              && app.Failures() == old(app.Failures())
              && Replaced(was, pkg, list, i + 1) == Replaced(was, pkg, list, i) + if fileExists then 1 else 0
            else
              && StoppedAt(was, pkg, list, i, app.Contents())
              && (token.Cancelled() || app.Failures() > old(app.Failures()) || !Clashfree(was, pkg))
  {
    var file := list[i];
    if Clashfree(was, pkg) {
      NeverBlocked(was, pkg, list, i);
    }
    CopiedNext(was, pkg, list, i);
    ok, fileExists := UpdateFile(file, pkg.files[file], app, token);
  }

  lemma CopiedNext(t: Tree, pkg: Tree, list: seq<Path>, n: nat)
    requires Listing(pkg, list) && n < |list|
    ensures var s, f := Copied(t, pkg, list, n), list[n];
            && Copied(t, pkg, list, n + 1) == Tree(s.files[f := pkg.files[f]], s.dirs + Prefixes(Parent(f)))
            && Replaced(t, pkg, list, n + 1) == Replaced(t, pkg, list, n) + if f in s.files then 1 else 0
  {}

  lemma StoppedBefore(t: Tree, pkg: Tree, list: seq<Path>, n: nat)
    requires Listing(pkg, list) && n <= |list|
    ensures StoppedAt(t, pkg, list, n, Copied(t, pkg, list, n))
  {}

  /** One round of the update loop. */
  method UpdateFile(file: Path, content: Content, app: Folder, token: Token) returns (ok: bool, fileExists: bool)
    requires WellFormed(app.Contents()) && file != []
    modifies app, token
    ensures app.Valid() && [] in app.dirs && (old(token.Cancelled()) ==> token.Cancelled())
    ensures old(app.files.Keys) <= app.files.Keys && app.files - {file} == old(app.files) - {file}
    ensures old(app.dirs) <= app.dirs <= old(app.dirs) + Prefixes(Parent(file))
    ensures ok ==>
              && app.files == old(app.files)[file := content] && app.dirs == old(app.dirs) + Prefixes(Parent(file))
              && (fileExists <==> file in old(app.files)) && app.Failures() == old(app.Failures())
    ensures app.Failures() >= old(app.Failures())
    ensures !ok ==>
              || token.Cancelled() || app.Failures() > old(app.Failures())
              || Blocked(old(app.Contents()), Parent(file)) || file in old(app.dirs) + Prefixes(Parent(file))
  {
    fileExists := false;
    token.Poll();
    if token.Cancelled() {
      return false, false;
    }
    ok := CreateParent(app, file);
    if !ok {
      return;
    }
    fileExists := file in app.files;
    assert Parent(file)[..|Parent(file)|] in Prefixes(Parent(file)) && Parent(file)[..|Parent(file)|] == Parent(file);
    ok := app.CopyFile(file, content);
  }

  /** The directory of a file, if it does not exist yet. */
  method CreateParent(app: Folder, file: Path) returns (ok: bool)
    requires WellFormed(app.Contents()) && file != []
    modifies app
    ensures app.Valid() && [] in app.dirs && app.files == old(app.files)
    ensures old(app.dirs) <= app.dirs <= old(app.dirs) + Prefixes(Parent(file))
    ensures ok ==> WellFormed(app.Contents()) && app.dirs == old(app.dirs) + Prefixes(Parent(file))
    ensures if ok then app.Failures() == old(app.Failures())
            else app.Failures() >= old(app.Failures()) &&
                 (app.Failures() > old(app.Failures()) || Blocked(old(app.Contents()), Parent(file)))
  {
    var destDir := Parent(file);
    if destDir !in app.dirs {
      ok := app.CreateDirectory(destDir);
      assert [] in app.dirs;
    } else {
      PrefixesAreDirs(app.Contents(), destDir);
      ok := true;
    }
  }

  /** A catch block that logs and returns false; the log itself can throw. */
  method CaughtFalse(host: Host) returns (r: Outcome)
    modifies host
    ensures host.Failures() == old(host.Failures()) + if r == Threw then 1 else 0
    ensures r == Returned(false) || r == Threw
  {
    var logged := host.Works();
    r := if logged then Returned(false) else Threw;
  }

  // ----- Rollback -----

  lemma FirstDir(t: Tree, d: Path)
    requires WellFormed(t) && d in t.dirs && d != []
    ensures d[..1] in t.dirs && |d[..1]| == 1
  {
    if |d| == 1 {
      assert d[..1] == d;
    } else {
      PrefixIsDir(t, d, 1);
    }
  }

  /** Below every directory there is a top-level one. */
  lemma OnlyRootLeft(t: Tree)
    requires WellFormed(t)
    ensures t.dirs == {[]} || exists d :: d in t.dirs && |d| == 1
  {
    if t.dirs != {[]} {
      var d :| d in t.dirs && d != [];
      FirstDir(t, d);
    }
  }

  /** The delete phase of a rollback: all files, then the top-level directories. */
  method DeleteAll(app: Folder) returns (ok: bool)
    requires app.Valid() && [] in app.dirs
    modifies app
    ensures app.Valid() && [] in app.dirs
    ensures ok ==> app.Contents() == EMPTY
    ensures app.Failures() == old(app.Failures()) + if ok then 0 else 1
  {
    var files := app.files.Keys;
    while files != {}
      invariant app.Valid() && [] in app.dirs && app.files.Keys == files && app.Failures() == old(app.Failures())
    {
      var file :| file in files;
      ok := app.DeleteFile(file);
      if !ok {
        return;
      }
      files := files - {file};
    }
    var directories := set d | d in app.dirs && |d| == 1;
    while directories != {}
      invariant app.Valid() && [] in app.dirs && app.files == map[] && app.Failures() == old(app.Failures())
      invariant directories == set d | d in app.dirs && |d| == 1
      decreases directories
    {
      var dir :| dir in directories;
      ok := app.DeleteDirectory(dir);
      if !ok {
        return;
      }
      assert app.files == map[];
      assert forall d :: |d| == 1 && dir <= d ==> d == dir;
      directories := directories - {dir};
    }
    OnlyRootLeft(app.Contents());
    assert app.dirs == {[]};
    ok := true;
  }

  /** The part of a rollback up to the end of its copy. */
  method PutBack(app: Folder, backup: Folder, token: Token, host: Host) returns (ok: bool, ghost stage: Stage)
    requires app != backup && app.Valid() && [] in app.dirs && backup.Valid() && [] in backup.dirs
    modifies app, token, host
    ensures app.Valid() && [] in app.dirs && (old(token.Cancelled()) ==> token.Cancelled())
    ensures app.Failures() >= old(app.Failures()) && host.Failures() >= old(host.Failures())
    ensures stage != NoBackup && (ok <==> stage == Restored)
    ensures ok ==> app.Contents() == backup.Contents()
    ensures app.Failures() + host.Failures() == old(app.Failures() + host.Failures()) ==>
              (ok <==> !token.Cancelled() || backup.Contents() == EMPTY)
    ensures app.Failures() + host.Failures() == old(app.Failures() + host.Failures()) && old(token.Cancelled()) ==>
              app.Contents() == EMPTY
  {
    stage := BeforeCopy;
    // Stopping the applications: only its logging can throw.
    ok := host.Works();
    if ok {
      ok := DeleteAll(app);
    }
    if ok {
      ok := CopyDirectory(backup.Contents(), [], app, token);
      assert [] in app.dirs;
      assert At(backup.Contents(), []) == backup.Contents();
      assert Overlay(EMPTY, backup.Contents()) == backup.Contents();
      stage := if ok then Restored else CopyFailed;
    }
  }

  /** `RollbackAsync`. It swallows its own exceptions, unless the log in its catch block throws.
      `upTo` and `signalled` are the failures and the token at the moment its copy ended, or before
      if it did not get that far: what fails later, such as the restart script, does no harm. */
  method Rollback(app: Folder, backup: Folder, token: Token, host: Host)
    returns (threw: bool, ghost stage: Stage, ghost upTo: nat, ghost signalled: bool)
    requires app != backup && app.Valid() && [] in app.dirs && backup.Valid()
    modifies app, token, host
    ensures app.Valid() && [] in app.dirs && (old(token.Cancelled()) ==> token.Cancelled())
    ensures app.Failures() >= old(app.Failures()) && host.Failures() >= old(host.Failures())
    ensures stage == Restored ==> app.Contents() == backup.Contents()
    ensures stage == NoBackup <==> [] !in backup.dirs
    ensures stage == NoBackup ==> app.Contents() == old(app.Contents())
    ensures threw ==> host.Failures() > old(host.Failures())
    ensures old(app.Failures() + host.Failures()) <= upTo <= app.Failures() + host.Failures()
    ensures signalled ==> token.Cancelled()
    // With a backup in place, and no failure up to the end of the copy, it is restored if and only
    // if the token is not signalled by then, or there is nothing to restore.
    ensures stage != NoBackup && upTo == old(app.Failures() + host.Failures()) ==>
              (stage == Restored <==> !signalled || backup.Contents() == EMPTY)
    // The token is not polled by the deletion: signalled from the start it leaves the folder empty.
    ensures old(token.Cancelled()) && stage != NoBackup && upTo == old(app.Failures() + host.Failures()) ==>
              app.Contents() == EMPTY
  {
    stage, threw := BeforeCopy, false;
    if [] !in backup.dirs {
      stage, upTo, signalled := NoBackup, app.Failures() + host.Failures(), token.Cancelled();
      threw := Swallowed(host);
      return;
    }
    var ok;
    ok, stage := PutBack(app, backup, token, host);
    upTo, signalled := app.Failures() + host.Failures(), token.Cancelled();
    if ok {
      // Writing and starting the restart script.
      threw := Swallowed(host);
    } else {
      var logged := host.Works();
      threw := !logged;
    }
  }

  /** An application of one file, rolled back from a complete backup under a signalled token, and
      nothing fails: the file is gone, although the backup has it. */
  method SignalledRollbackLosesFile(name: string, content: Content) returns (app: Folder, backup: Folder)
    ensures backup.Contents() == Tree(map[[name] := content], {[]}) && app.Contents() == EMPTY
  {
    var tree := Tree(map[[name] := content], {[]});
    assert Parent([name]) == [];
    app := new Folder(tree, k => false);
    backup := new Folder(tree, k => false);
    var host := new Host(k => false);
    var token := new Token(Some(0));
    var threw;
    ghost var stage, upTo, signalled;
    threw, stage, upTo, signalled := Rollback(app, backup, token, host);
    NoneFailed(app.fails, app.tried);
    NoneFailed(host.fails, host.calls);
  }

  /** A step whose exception is caught and logged; the log itself can throw. */
  method Swallowed(host: Host) returns (threw: bool)
    modifies host
    ensures host.Failures() >= old(host.Failures()) && (threw ==> host.Failures() > old(host.Failures()))
  {
    threw := false;
    var ok := host.Works();
    if !ok {
      var logged := host.Works();
      threw := !logged;
    }
  }
}
