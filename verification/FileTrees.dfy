/** Folders on disk: trees of files and directories, and the file operations that can fail. */
module FileTrees {
  import opened Basics

  type Path = seq<string>

  type Content = seq<Byte>

  /** Paths are relative to the folder; no directory at all means the folder does not exist. */
  datatype Tree = Tree(files: map<Path, Content>, dirs: set<Path>)

  const ABSENT := Tree(map[], {})
  const EMPTY := Tree(map[], {[]})

  function Parent(p: Path): Path
    requires p != []
  {
    p[..|p| - 1]
  }

  ghost predicate WellFormed(t: Tree) {
    && [] in t.dirs
    && t.files.Keys !! t.dirs
    && (forall p {:trigger Parent(p)} :: p in t.files && p != [] ==> Parent(p) in t.dirs)
    && (forall p {:trigger Parent(p)} :: p in t.dirs && p != [] ==> Parent(p) in t.dirs)
  }

  function Prefixes(p: Path): set<Path> {
    set k | 0 <= k <= |p| :: p[..k]
  }

  /** `over` wins where both have a file. */
  function Overlay(base: Tree, over: Tree): Tree {
    Tree(base.files + over.files, base.dirs + over.dirs)
  }

  /** Everything at or below p. */
  function At(t: Tree, p: Path): Tree {
    Tree(map f | f in t.files && p <= f :: t.files[f], set d | d in t.dirs && p <= d)
  }

  lemma {:induction false} PrefixIsDir(t: Tree, q: Path, k: nat)
    requires WellFormed(t) && (q in t.files || q in t.dirs) && k < |q|
    ensures q[..k] in t.dirs
    decreases |q|
  {
    assert Parent(q) in t.dirs;
    if k < |q| - 1 {
      PrefixIsDir(t, Parent(q), k);
      assert Parent(q)[..k] == q[..k];
    }
  }

  lemma PrefixesClosed(p: Path)
    ensures forall q {:trigger Parent(q)} :: q in Prefixes(p) && q != [] ==> Parent(q) in Prefixes(p)
  {
    forall q | q in Prefixes(p) && q != [] ensures Parent(q) in Prefixes(p) {
      var k :| 0 <= k <= |p| && q == p[..k];
      assert Parent(q) == p[..k - 1];
    }
  }

  lemma PrefixesAreDirs(t: Tree, p: Path)
    requires WellFormed(t) && p in t.dirs
    ensures Prefixes(p) <= t.dirs
  {
    forall k | 0 <= k <= |p| ensures p[..k] in t.dirs {
      if k < |p| {
        PrefixIsDir(t, p, k);
      } else {
        assert p[..k] == p;
      }
    }
  }

  /** Overlaying an older folder with the tree gives the tree back exactly when the older folder
      holds nothing besides. */
  lemma OverlayIsExactIff(stale: Tree, t: Tree)
    ensures Overlay(stale, t) == t <==> stale.files.Keys <= t.files.Keys && stale.dirs <= t.dirs
  {
    var o := Overlay(stale, t);
    assert o.files.Keys == stale.files.Keys + t.files.Keys;
    assert o.files.Keys == t.files.Keys ==> o.files == t.files;
    assert o.dirs == t.dirs <==> stale.dirs <= t.dirs;
  }

  // ----- What happens outside -----

  /** How many of the first n operations of a kind fail. */
  function Failed(fails: nat -> bool, n: nat): nat {
    if n == 0 then 0 else Failed(fails, n - 1) + if fails(n - 1) then 1 else 0
  }

  lemma {:induction false} NoneFailed(fails: nat -> bool, n: nat)
    requires forall k :: !fails(k)
    ensures Failed(fails, n) == 0
  {
    if n > 0 {
      NoneFailed(fails, n - 1);
    }
  }

  /** A token that is signalled before the poll number `at`, if ever, and stays signalled. */
  class Token {
    const at: Option<nat>
    var polls: nat

    constructor (at: Option<nat>)
      ensures this.at == at && polls == 0
    {
      this.at, polls := at, 0;
    }

    predicate Cancelled()
      reads this
    {
      at.Some? && at.value <= polls
    }

    method Poll()
      modifies this
      ensures old(Cancelled()) ==> Cancelled()
    {
      polls := polls + 1;
    }
  }

  /** What else a run depends on: logs, listings, scripts, phases that are not modelled. Which calls
      fail is fixed from outside. */
  class Host {
    const fails: nat -> bool
    var calls: nat

    constructor (fails: nat -> bool)
      ensures this.fails == fails && calls == 0
    {
      this.fails, calls := fails, 0;
    }

    ghost function Failures(): nat
      reads this
    {
      Failed(fails, calls)
    }

    method Works() returns (ok: bool)
      modifies this
      ensures Failures() == old(Failures()) + if ok then 0 else 1
    {
      ok := !fails(calls);
      calls := calls + 1;
    }
  }

  /** A file stands where the directory p or one above it would have to be. */
  ghost predicate Blocked(t: Tree, p: Path) {
    exists k :: 0 <= k <= |p| && p[..k] in t.files
  }

  /** Any operation may fail; false stands for the exception it throws. Which of those that the tree
      allows fail is fixed from outside. */
  class Folder {
    const fails: nat -> bool
    var files: map<Path, Content>
    var dirs: set<Path>
    var tried: nat

    constructor (tree: Tree, fails: nat -> bool)
      ensures Contents() == tree && this.fails == fails && tried == 0
    {
      this.fails, files, dirs, tried := fails, tree.files, tree.dirs, 0;
    }

    /** How many operations have failed although the tree allowed them. */
    ghost function Failures(): nat
      reads this`tried
    {
      Failed(fails, tried)
    }

    method Works() returns (ok: bool)
      modifies this`tried
      ensures Failures() == old(Failures()) + if ok then 0 else 1
    {
      ok := !fails(tried);
      tried := tried + 1;
    }

    function Contents(): Tree
      reads this`files, this`dirs
    {
      Tree(files, dirs)
    }

    ghost predicate Valid()
      reads this`files, this`dirs
    {
      Contents() == ABSENT || WellFormed(Contents())
    }

    method CreateDirectory(p: Path) returns (ok: bool)
      requires Valid()
      modifies this
      ensures Valid() && files == old(files)
      ensures ok ==> dirs == old(dirs) + Prefixes(p)
      ensures old(dirs) <= dirs <= old(dirs) + Prefixes(p)
      ensures if ok then Failures() == old(Failures())
              else Failures() >= old(Failures()) && p !in old(dirs) &&
                   (Failures() > old(Failures()) || Blocked(old(Contents()), p))
    {
      if p !in dirs {
        var works := Works();
        if !works {
          return false;
        }
        if exists k :: 0 <= k <= |p| && p[..k] in files {
          return false;
        }
      }
      PrefixesClosed(p);
      if p in dirs {
        PrefixesAreDirs(Contents(), p);
        assert dirs == dirs + Prefixes(p);
      }
      assert p[..0] in Prefixes(p) && p[..0] == [];
      dirs := dirs + Prefixes(p);
      return true;
    }

    /** A failed copy may leave part of the file behind. */
    method CopyFile(p: Path, content: Content) returns (ok: bool)
      requires Valid() && p != []
      modifies this
      ensures Valid() && dirs == old(dirs)
      ensures ok ==> files == old(files)[p := content]
      ensures old(files.Keys) <= files.Keys && files - {p} == old(files) - {p}
      ensures if ok then Failures() == old(Failures())
              else Failures() >= old(Failures()) && (Failures() > old(Failures()) || p in dirs || Parent(p) !in dirs)
    {
      if p in dirs || Parent(p) !in dirs {
        return false;
      }
      var works := Works();
      if !works {
        var torn: Content := *;
        files := files[p := torn];
        return false;
      }
      files := files[p := content];
      return true;
    }

    method DeleteFile(p: Path) returns (ok: bool)
      requires Valid()
      modifies this
      ensures Valid() && dirs == old(dirs)
      ensures files == if ok then old(files) - {p} else old(files)
      ensures Failures() == old(Failures()) + if ok then 0 else 1
    {
      var works := Works();
      if !works {
        return false;
      }
      files := files - {p};
      return true;
    }

    /** `Directory.Delete(d, true)`; a failed deletion may have removed part of the content. */
    method DeleteDirectory(d: Path) returns (ok: bool)
      requires Valid() && d != []
      modifies this
      ensures Valid()
      ensures ok ==> files == map f | f in old(files) && !(d <= f) :: old(files)[f]
      ensures ok ==> dirs == set q | q in old(dirs) && !(d <= q)
      ensures dirs <= old(dirs) && ([] in old(dirs) ==> [] in dirs)
      ensures Failures() == old(Failures()) + if ok then 0 else 1
    {
      files := map f | f in files && !(d <= f) :: files[f];
      var works := Works();
      if !works {
        return false;
      }
      dirs := set q | q in dirs && !(d <= q);
      return true;
    }
  }
}
