/** The normaliser that turns Windows and remote paths into rooted, single-slash ones. */
module Paths {
  import opened Basics
  import opened Topics

  /** `Replace("\\", "/")`. */
  function Slashed(s: string): (t: string)
    ensures |t| == |s| && '\\' !in t
  {
    seq(|s|, k requires 0 <= k < |s| => if s[k] == '\\' then '/' else s[k])
  }

  predicate HasDrive(s: string) {
    |s| > 2 && s[1] == ':'
  }

  function WithoutDrive(s: string): string {
    if HasDrive(s) then s[2..] else s
  }

  predicate HasDouble(s: string) {
    exists k :: 0 <= k < |s| - 1 && s[k] == '/' && s[k + 1] == '/'
  }

  /** `Replace("//", "/")`: left to right, without overlaps. */
  function Halved(s: string): string {
    if |s| < 2 then s
    else if s[0] == '/' && s[1] == '/' then "/" + Halved(s[2..])
    else [s[0]] + Halved(s[1..])
  }

  lemma {:induction false} HalvedLength(s: string)
    ensures |Halved(s)| <= |s| && (HasDouble(s) ==> |Halved(s)| < |s|)
    ensures s != "" ==> Halved(s) != "" && Halved(s)[0] == s[0]
    ensures forall c :: c in Halved(s) ==> c in s
  {
    if |s| >= 2 {
      if s[0] == '/' && s[1] == '/' {
        HalvedLength(s[2..]);
        assert s == s[..2] + s[2..];
      } else {
        HalvedLength(s[1..]);
        assert s == [s[0]] + s[1..];
        if HasDouble(s) {
          var k :| 0 <= k < |s| - 1 && s[k] == '/' && s[k + 1] == '/';
          assert s[1..][k - 1] == '/' && s[1..][k] == '/';
        }
      }
    }
  }

  function Collapsed(s: string): string
    decreases |s|
  {
    if HasDouble(s) then HalvedLength(s); Collapsed(Halved(s)) else s
  }

  function Rooted(s: string): string {
    if s == "" || s[0] != '/' then "/" + s else s
  }

  function Normal(path: string): string {
    Collapsed(Rooted(WithoutDrive(Slashed(path))))
  }

  /** None is the exception for a blank path. */
  method ConvertRealPath(remotePath: string) returns (r: Option<string>)
    ensures r == if IsNullOrWhiteSpace(remotePath) then None else Some(Normal(remotePath))
  {
    if IsNullOrWhiteSpace(remotePath) {
      return None;
    }
    var path := Slashed(remotePath);
    if |path| > 2 && path[1] == ':' {
      path := path[2..];
    }
    if path == "" || path[0] != '/' {
      path := "/" + path;
    }
    while HasDouble(path)
      invariant Collapsed(path) == Normal(remotePath)
      decreases |path|
    {
      HalvedLength(path);
      path := Halved(path);
    }
    return Some(path);
  }

  // ----- What is kept -----

  function NonEmpty(levels: seq<string>): seq<string> {
    if levels == [] then [] else (if levels[0] == "" then [] else [levels[0]]) + NonEmpty(levels[1..])
  }

  /** The non-empty components of a path, in order. */
  function Components(s: string): seq<string> {
    NonEmpty(Split(s))
  }

  lemma {:induction false} HalvedKeepsLevels(s: string)
    ensures Split(Halved(s))[0] == Split(s)[0]
    ensures NonEmpty(Split(Halved(s))[1..]) == NonEmpty(Split(s)[1..])
  {
    if |s| >= 2 {
      if s[0] == '/' && s[1] == '/' {
        var rest := s[2..];
        HalvedKeepsLevels(rest);
        assert s[1..][0] == '/' && s[1..][1..] == rest;
        assert Split(s)[1..] == [""] + Split(rest);
        assert ([""] + Split(rest))[1..] == Split(rest);
        assert ("/" + Halved(rest))[1..] == Halved(rest);
        assert Split(Halved(s))[1..] == Split(Halved(rest));
      } else {
        var rest := s[1..];
        HalvedKeepsLevels(rest);
        assert ([s[0]] + Halved(rest))[1..] == Halved(rest);
        if s[0] == '/' {
          assert Split(s)[1..] == Split(rest);
          assert Split(Halved(s))[1..] == Split(Halved(rest));
        } else {
          assert Split(s)[1..] == Split(rest)[1..];
          assert Split(Halved(s))[1..] == Split(Halved(rest))[1..];
        }
      }
    }
  }

  lemma {:induction false} CollapsedKeeps(s: string)
    requires s != "" && s[0] == '/' && '\\' !in s
    ensures var r := Collapsed(s);
            r != "" && r[0] == '/' && '\\' !in r && !HasDouble(r) && |r| <= |s| && Components(r) == Components(s)
    decreases |s|
  {
    if HasDouble(s) {
      HalvedLength(s);
      HalvedKeepsLevels(s);
      CollapsedKeeps(Halved(s));
    }
  }

  lemma {:induction false} HalvedKeepsEnd(s: string)
    requires s != ""
    ensures Halved(s) != "" && Halved(s)[|Halved(s)| - 1] == s[|s| - 1]
  {
    if |s| >= 2 {
      if s[0] == '/' && s[1] == '/' {
        if |s| > 2 {
          HalvedKeepsEnd(s[2..]);
        }
      } else {
        HalvedKeepsEnd(s[1..]);
      }
    }
  }

  lemma {:induction false} CollapsedKeepsEnd(s: string)
    requires s != ""
    ensures Collapsed(s) != "" && Collapsed(s)[|Collapsed(s)| - 1] == s[|s| - 1]
    decreases |s|
  {
    HalvedKeepsEnd(s);
    if HasDouble(s) {
      HalvedLength(s);
      CollapsedKeepsEnd(Halved(s));
    }
  }

  /** The parts between slashes and backslashes. */
  function SplitAtBoth(s: string): (parts: seq<string>)
    ensures |parts| >= 1
  {
    if s == "" then [""]
    else if s[0] == '/' || s[0] == '\\' then [""] + SplitAtBoth(s[1..])
    else var rest := SplitAtBoth(s[1..]); [[s[0]] + rest[0]] + rest[1..]
  }

  lemma {:induction false} SlashedSplits(s: string)
    ensures Split(Slashed(s)) == SplitAtBoth(s)
  {
    if s != "" {
      SlashedSplits(s[1..]);
      assert Slashed(s)[1..] == Slashed(s[1..]);
    }
  }

  lemma SlashedDrive(path: string)
    ensures WithoutDrive(Slashed(path)) == Slashed(if |path| > 2 && path[1] == ':' then path[2..] else path)
  {}

  /** Every path is turned into one that starts with a slash, has no backslash and no double slash,
      and whose components are the non-empty parts of the path between slashes and backslashes, after
      the drive prefix, in order. It ends with a slash exactly when there is nothing, or such a
      separator, at the end. */
  lemma NormalForm(path: string)
    ensures var r, p := Normal(path), if |path| > 2 && path[1] == ':' then path[2..] else path;
            && r != "" && r[0] == '/' && '\\' !in r && !HasDouble(r)
            && Components(r) == NonEmpty(SplitAtBoth(p))
            && (r[|r| - 1] == '/' <==> p == "" || p[|p| - 1] == '/' || p[|p| - 1] == '\\')
  {
    var p := if |path| > 2 && path[1] == ':' then path[2..] else path;
    SlashedDrive(path);
    SlashedSplits(p);
    RootedForm(Slashed(p));
  }

  lemma RootedForm(s: string)
    requires '\\' !in s
    ensures var r := Collapsed(Rooted(s));
            && r != "" && r[0] == '/' && '\\' !in r && !HasDouble(r) && Components(r) == Components(s)
            && (r[|r| - 1] == '/' <==> s == "" || s[|s| - 1] == '/')
  {
    RootedKeeps(s);
    CollapsedForm(Rooted(s), Components(s), s == "" || s[|s| - 1] == '/');
  }

  lemma CollapsedForm(t: string, components: seq<string>, slashed: bool)
    requires t != "" && t[0] == '/' && '\\' !in t && Components(t) == components
    requires t[|t| - 1] == '/' <==> slashed
    ensures var r := Collapsed(t);
            && r != "" && r[0] == '/' && '\\' !in r && !HasDouble(r) && Components(r) == components
            && (r[|r| - 1] == '/' <==> slashed)
  {
    CollapsedKeeps(t);
    CollapsedKeepsEnd(t);
  }

  lemma RootedKeeps(s: string)
    requires '\\' !in s
    ensures var t := Rooted(s);
            && t != "" && t[0] == '/' && '\\' !in t && Components(t) == Components(s)
            && (t[|t| - 1] == '/' <==> s == "" || s[|s| - 1] == '/')
  {
    if Rooted(s) != s {
      assert ("/" + s)[1..] == s;
      assert ([""] + Split(s))[1..] == Split(s);
    }
  }

  /** Normalising again changes nothing exactly when the result does not look like a drive path. */
  lemma StableIff(path: string)
    ensures Normal(Normal(path)) == Normal(path) <==> !HasDrive(Normal(path))
  {
    var r := Normal(path);
    NormalForm(path);
    if HasDrive(r) {
      DriveIsCut(r);
    } else {
      NormalStays(r);
    }
  }

  lemma NormalStays(r: string)
    requires r != "" && r[0] == '/' && '\\' !in r && !HasDouble(r) && !HasDrive(r)
    ensures Normal(r) == r
  {
    assert Slashed(r) == r;
  }

  lemma DriveIsCut(r: string)
    requires '\\' !in r && HasDrive(r)
    ensures |Normal(r)| < |r|
  {
    assert Slashed(r) == r;
    var s := Rooted(r[2..]);
    assert '\\' !in s;
    CollapsedKeeps(s);
  }

  function Unrooted(s: string): string {
    if s != "" && s[0] == '/' then Unrooted(s[1..]) else s
  }

  /** After its leading slashes the path has a colon and something behind it. */
  predicate ColonFirst(s: string) {
    var u := Unrooted(s);
    |u| >= 2 && u[0] == ':'
  }

  lemma {:induction false} HalvedKeepsColon(s: string)
    ensures Unrooted(s) == "" <==> Unrooted(Halved(s)) == ""
    ensures Unrooted(s) != "" ==> Unrooted(s)[0] == Unrooted(Halved(s))[0] &&
                                  (|Unrooted(s)| == 1 <==> |Unrooted(Halved(s))| == 1)
  {
    if |s| >= 2 {
      if s[0] == '/' && s[1] == '/' {
        var rest := s[2..];
        HalvedKeepsColon(rest);
        assert s[1..][1..] == rest && ("/" + Halved(rest))[1..] == Halved(rest);
        assert Unrooted(s) == Unrooted(s[1..]) == Unrooted(rest);
      } else if s[0] == '/' {
        HalvedKeepsColon(s[1..]);
        assert ("/" + Halved(s[1..]))[1..] == Halved(s[1..]);
      } else {
        HalvedLength(s[1..]);
        assert Halved(s)[0] == s[0];
      }
    }
  }

  lemma {:induction false} CollapsedKeepsColon(s: string)
    ensures ColonFirst(Collapsed(s)) <==> ColonFirst(s)
    decreases |s|
  {
    if HasDouble(s) {
      HalvedLength(s);
      HalvedKeepsColon(s);
      CollapsedKeepsColon(Halved(s));
    }
  }

  lemma DriveIsColonFirst(r: string)
    requires r != "" && r[0] == '/' && !HasDouble(r)
    ensures HasDrive(r) <==> ColonFirst(r)
  {
    if |r| > 1 {
      assert r[1] != '/';
      assert Unrooted(r) == Unrooted(r[1..]) == r[1..];
    } else {
      assert r[1..] == "" && Unrooted(r) == "";
    }
  }

  function WithoutSeparators(s: string): string {
    if s != "" && (s[0] == '/' || s[0] == '\\') then WithoutSeparators(s[1..]) else s
  }

  lemma {:induction false} SlashedUnrooted(s: string)
    ensures Unrooted(Slashed(s)) == Slashed(WithoutSeparators(s))
  {
    if s != "" {
      SlashedUnrooted(s[1..]);
      assert Slashed(s)[1..] == Slashed(s[1..]);
    }
  }

  /** Normalising is idempotent on a path if and only if, after its drive prefix and its leading
      slashes and backslashes, it does not go on with a colon and something behind it. */
  lemma IdempotentIff(path: string)
    ensures var p := if |path| > 2 && path[1] == ':' then path[2..] else path;
            var u := WithoutSeparators(p);
            Normal(Normal(path)) == Normal(path) <==> !(|u| >= 2 && u[0] == ':')
  {
    var s := WithoutDrive(Slashed(path));
    SlashedDrive(path);
    SlashedUnrooted(if |path| > 2 && path[1] == ':' then path[2..] else path);
    StableIff(path);
    NormalForm(path);
    DriveIsColonFirst(Normal(path));
    CollapsedKeepsColon(Rooted(s));
    if Rooted(s) != s {
      assert ("/" + s)[1..] == s;
    }
  }

  /** Such results exist: a colon in first place moves to the second, where a drive's would be. */
  lemma NotIdempotent()
    ensures Normal(":ab") == "/:ab" && Normal(Normal(":ab")) != Normal(":ab")
  {
    assert Slashed(":ab") == ":ab" && Rooted(":ab") == "/:ab";
    assert !HasDouble("/:ab");
    IdempotentIff(":ab");
  }
}
