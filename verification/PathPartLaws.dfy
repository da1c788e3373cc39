/** How the parts of a path fit together again. */
module PathPartLaws {
  import opened PathSegments
  import opened PathResolve
  import opened PathLaws
  import opened PathParts

  /** Slashes at the end of a path lead nowhere. */
  lemma {:induction false} TrailingSlashes(path: string, slashes: string)
    requires AllSlashes(slashes)
    ensures Normal(path + slashes, false) == Normal(path, false)
    decreases |slashes|
  {
    hide Walk, Segments;
    if slashes == "" {
      assert path + slashes == path;
    } else {
      var fewer := slashes[..|slashes| - 1];
      assert slashes == fewer + "/";
      assert path + slashes == (path + fewer) + "/" + "";
      TrailingSlashes(path, fewer);
      WalkConcat([], path + fewer, "", false);
      WalkNothing(Normal(path + fewer, false), false);
    }
  }

  /** A path is what precedes its last part, the part, and slashes. */
  lemma Decompose(path: string)
    ensures var start, end := PartStart(path), PartEnd(path);
            && start <= end && path == path[..start] + Base(path) + path[end..] && AllSlashes(path[end..])
            && (Base(path) == "" <==> end == 0) && '/' !in Base(path)
            && (start > 0 ==> path[..start] == path[..start - 1] + "/")
            && (end == 0 ==> start == 0)
  {
    if PartEnd(path) > 0 {
      PartBounds(path);
      var base := Base(path);
      assert forall i :: 0 <= i < |base| ==> base[i] == path[PartStart(path) + i];
    }
  }

  lemma NormalOfSlash()
    ensures Normal("", false) == [] && Normal("/", false) == [] && Normal("//", false) == []
  {
    WalkNothing([], false);
    TrailingSlashes("", "/");
    TrailingSlashes("", "//");
    assert "" + "/" == "/" && "" + "//" == "//";
  }

  lemma NormalOfDir(path: string)
    ensures Cd([], Dir(path)) ==
            if PartStart(path) >= 2 then Normal(path[..PartStart(path) - 1], false) else []
  {
    hide Walk, Segments, PartStart;
    NormalOfSlash();
    NormalOfDot(false);
    if PartStart(path) == 2 && IsAbsolute(path) {
      assert path[..1] == "/";
    }
  }

  /** `dirname` and `basename` together still lead to the path. */
  lemma DirnameBasename(path: string)
    ensures Resolved([if path == "" then "." else Dir(path), Base(path)]) == Resolved([path])
  {
    hide Walk, Segments, Text, PartStart, PartEnd, Dir;
    var start, end, base := PartStart(path), PartEnd(path), Base(path);
    Decompose(path);
    NormalOfDir(path);
    NormalOfDot(false);
    NormalOfSlash();
    EmptyDir();
    CdTwo(if path == "" then "." else Dir(path), base);
    CdOne([], path);
    TrailingSlashes(path[..start] + base, path[end..]);
    assert !IsAbsolute(base);
    if start > 0 {
      WalkConcat([], path[..start - 1], base, false);
      if start == 1 { assert path[..0] == ""; }
    } else {
      assert path[..start] + base == base;
    }
  }

  lemma EmptyDir()
    ensures Dir("") == "."
  {
  }

  lemma UpFromRootMeans(path: string)
    ensures UpFromRoot(path) <==> PartStart(path) == 1 && Base(path) == ".."
  {
    hide PartStart, PartEnd;
    Decompose(path);
    if UpFromRoot(path) {
      assert path[0] == path[..3][0] && path[1] == path[..3][1] && path[2] == path[..3][2];
      assert forall j :: 3 <= j < |path| ==> path[j] == path[3..][j - 3];
      PartFound(path, 0, 3);
      assert path[1..3] == "..";
    }
    if PartStart(path) == 1 && Base(path) == ".." {
      assert path[..1] == path[..0] + "/" == "/";
      assert path[..3] == path[..1] + Base(path);
    }
  }

  /** `parse` agrees with `basename` and cuts it in two; it agrees with `extname` except on `/..`. */
  lemma ParseAgrees(path: string)
    ensures var p := ParsedPath(path);
            && p.base == Base(path)
            && p.name + p.ext == p.base
            && (p.ext == Ext(Base(path)) <==> !UpFromRoot(path))
  {
    hide PartStart, PartEnd;
    UpFromRootMeans(path);
    if Base(path) == ".." { assert ".."[1..] == "." && ".."[2..] == ""; }
  }

  lemma EndIsLength(path: string)
    ensures PartEnd(path) == |path| <==> !EndsWithSlash(path)
  {
  }

  /** The paths `format` can rebuild: no slash at the end, and no bare `//` in front of the only part. */
  predicate Rebuildable(path: string) {
    path == "/" || (!EndsWithSlash(path) && !(|path| >= 2 && path[..2] == "//" && '/' !in path[2..]))
  }

  lemma DoubleRoot(path: string)
    requires !EndsWithSlash(path)
    ensures (|path| >= 2 && path[..2] == "//" && '/' !in path[2..]) <==> (PartStart(path) == 2 && IsAbsolute(path))
  {
    hide PartStart, PartEnd;
    Decompose(path);
    var start, end := PartStart(path), PartEnd(path);
    EndIsLength(path);
    assert path[|path|..] == "";
    if |path| >= 2 && path[..2] == "//" && '/' !in path[2..] {
      assert path[..2][0] == path[0] && path[..2][1] == path[1];
      assert forall j :: 2 <= j < |path| ==> path[j] == path[2..][j - 2];
      PartFound(path, 1, |path|);
    }
    if start == 2 && IsAbsolute(path) {
      assert path[..2] == path[..1] + "/" && path[..1] == "/";
      assert path[2..] == Base(path);
    }
  }

  /** `format` undoes `parse` exactly on the rebuildable paths. */
  lemma FormatParse(path: string)
    ensures Format(ParsedPath(path)) == path <==> Rebuildable(path)
  {
    hide PartStart, PartEnd, NameLength, Rebuildable;
    Decompose(path);
    RebuildCases(path);
    var start, end, base := PartStart(path), PartEnd(path), Base(path);
    var p := ParsedPath(path);
    assert Or(p.base, p.name + p.ext) == base by { ParseAgrees(path); }
    if start >= 2 {
      assert |path[..start - 1]| > 0;
      if start == 2 && IsAbsolute(path) {
        assert path[..1] == "/";
        assert Format(p) == "/" + base;
        assert |path| >= 2 + |base|;
      } else {
        assert IsAbsolute(path) ==> |p.dir| != |p.root|;
        assert Format(p) == path[..start - 1] + "/" + base == path[..start] + base;
      }
    } else if IsAbsolute(path) {
      assert Format(p) == "/" + base;
      if start == 1 { assert path[..1] == "/"; }
    } else {
      assert start == 0;
      assert Format(p) == base == path[..start] + base;
    }
  }

  lemma RebuildCases(path: string)
    ensures var start, end := PartStart(path), PartEnd(path);
            Rebuildable(path) <==>
              path == "/" || (end == |path| && !(start == 2 && IsAbsolute(path)))
  {
    hide PartStart, PartEnd;
    Decompose(path);
    EndIsLength(path);
    if !EndsWithSlash(path) { DoubleRoot(path); }
  }

  /** Exactly when `basename(path, ext)` is not the last part less a proper suffix. */
  predicate SuffixQuirk(path: string, ext: string) {
    && 0 < |ext| <= |path|
    && if ext == path then Base(path) != ""
       else |Base(path)| < |ext| && HasSuffix(ext, Base(path)) && EndsWithSlash(path)
  }

  lemma BasenameSuffix(path: string, ext: string)
    ensures BaseWithout(path, ext) == WithoutSuffix(Base(path), ext) <==> !SuffixQuirk(path, ext)
  {
    hide PartStart, PartEnd, HasSuffix;
    Decompose(path);
    var end, base := PartEnd(path), Base(path);
    EndIsLength(path);
    SuffixLengths(base, ext);
    SuffixLengths(ext, base);
    assert path[PartStart(path)..] == base + path[end..];
    assert end < |path| ==> |base + path[end..]| > |base|;
    assert end == |path| ==> base + path[end..] == base;
    assert ext == "" ==> base[..|base| - |ext|] == base;
  }

  lemma SuffixLengths(s: string, suffix: string)
    ensures HasSuffix(s, suffix) ==> |suffix| <= |s|
    ensures HasSuffix(s, suffix) && |suffix| == |s| ==> s == suffix
    ensures suffix == "" ==> HasSuffix(s, suffix)
  {
    assert s[0..] == s && s[|s|..] == "";
  }

  // ---- where the two sides part ----

  /** `parse("/..")` reports an extension where `extname` reports none. */
  lemma DotDotUnderRoot()
    ensures ParsedPath("/..").ext == "." && ParsedPath("/..").name == "." && Ext(Base("/..")) == ""
  {
    var path := "/..";
    PartFound(path, 0, 3);
    assert path[1..3] == "..";
    UpFromRootMeans(path);
    ParseAgrees(path);
  }

  /** `format(parse("//a"))` loses a slash. */
  lemma DoubleSlash()
    ensures Format(ParsedPath("//a")) == "/a"
  {
    var path := "//a";
    PartFound(path, 1, 3);
    assert path[2..3] == "a" && path[..1] == "/";
    ParseAgrees(path);
    FormatParse(path);
  }

  /** `basename("a//", "xa")` keeps the slashes. */
  lemma SuffixOfSuffix()
    ensures BaseWithout("a//", "xa") == "a//" && Base("a//") == "a" && WithoutSuffix(Base("a//"), "xa") == "a"
  {
    var path := "a//";
    PartFound(path, -1, 1);
    assert path[0..1] == "a";
    assert "xa"[1..] == "a";
  }
}
