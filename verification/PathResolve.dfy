/** `resolve`, `normalize` and `join`, and what they mean as changes of directory. */
module PathResolve {
  import opened Splitting
  import opened PathSegments
  import opened PathNormalize

  predicate IsAbsolute(path: string) { path != "" && path[0] == '/' }

  predicate EndsWithSlash(path: string) { path != "" && path[|path| - 1] == '/' }

  /** Changing directory: an absolute path starts over, and nothing climbs above the root. */
  function Cd(stack: seq<string>, path: string): seq<string> {
    Walk(if IsAbsolute(path) then [] else stack, Segments(path), false)
  }

  function CdAll(stack: seq<string>, paths: seq<string>): seq<string>
    decreases |paths|
  {
    if paths == [] then stack else CdAll(Cd(stack, paths[0]), paths[1..])
  }

  /** What `resolve` answers: the directory reached from the root by one `cd` per argument. */
  function Resolved(paths: seq<string>): string { "/" + Text(CdAll([], paths)) }

  /** What `normalize` answers. */
  function Normalized(path: string): string {
    if path == "" then "."
    else
      var text := Text(Normal(path, !IsAbsolute(path)));
      var core := if text == "" && !IsAbsolute(path) then "." else text;
      var closed := if core != "" && EndsWithSlash(path) then core + "/" else core;
      if IsAbsolute(path) then "/" + closed else closed
  }

  function NonEmpty(paths: seq<string>): seq<string> {
    if paths == [] then []
    else (if paths[0] == "" then [] else [paths[0]]) + NonEmpty(paths[1..])
  }

  /** What `join` answers. */
  function Joined(paths: seq<string>): string {
    if NonEmpty(paths) == [] then "." else Normalized(Text(NonEmpty(paths)))
  }

  // ---- the methods ----

  lemma {:induction false} CdAppend(stack: seq<string>, a: seq<string>, b: seq<string>)
    ensures CdAll(stack, a + b) == CdAll(CdAll(stack, a), b)
    decreases |a|
  {
    if a == [] {
      assert a + b == b;
    } else {
      assert (a + b)[1..] == a[1..] + b;
      CdAppend(Cd(stack, a[0]), a[1..], b);
    }
  }

  /** Walking `path + "/" + rest` is walking `path`, then `rest`. */
  lemma WalkConcat(stack: seq<string>, path: string, rest: string, allow: bool)
    ensures Walk(stack, Segments(path + "/" + rest), allow)
            == Walk(Walk(stack, Segments(path), allow), Segments(rest), allow)
  {
    hide Walk;
    SplitAt(path, '/', rest);
    WalkAppend(stack, Segments(path), Segments(rest), allow);
  }

  lemma WalkNothing(stack: seq<string>, allow: bool)
    ensures Walk(stack, Segments(""), allow) == stack
  {
    SplitWhole("", '/');
    assert Segments("")[1..] == [];
  }

  /** Prepending one more argument to the pending text. */
  lemma CdPrepend(stack: seq<string>, path: string, pending: string, later: seq<string>)
    requires forall s :: Walk(s, Segments(pending), false) == CdAll(s, later)
    ensures !IsAbsolute(path) ==>
              Walk(stack, Segments(path + "/" + pending), false) == CdAll(stack, [path] + later)
    ensures IsAbsolute(path) ==> Normal(path + "/" + pending, false) == CdAll(stack, [path] + later)
  {
    hide Walk;
    assert ([path] + later)[1..] == later;
    WalkConcat(stack, path, pending, false);
    WalkConcat([], path, pending, false);
  }

  lemma CdPrependAll(path: string, pending: string, later: seq<string>)
    requires forall s :: Walk(s, Segments(pending), false) == CdAll(s, later)
    ensures !IsAbsolute(path) ==>
              forall s :: Walk(s, Segments(path + "/" + pending), false) == CdAll(s, [path] + later)
    ensures IsAbsolute(path) ==>
              forall s :: Normal(path + "/" + pending, false) == CdAll(s, [path] + later)
  {
    hide *;
    forall s
      ensures !IsAbsolute(path) ==> Walk(s, Segments(path + "/" + pending), false) == CdAll(s, [path] + later)
      ensures IsAbsolute(path) ==> Normal(path + "/" + pending, false) == CdAll(s, [path] + later)
    {
      CdPrepend(s, path, pending, later);
    }
  }

  /** The text gathered from `paths[i..]`: not yet anchored, or anchored at an absolute path. */
  ghost predicate Gathered(paths: seq<string>, i: int, text: string, anchored: bool) {
    if anchored then Normal(text, false) == CdAll([], paths)
    else 0 <= i <= |paths| && forall s :: Walk(s, Segments(text), false) == CdAll(s, paths[i..])
  }

  lemma GatherNothing(paths: seq<string>)
    ensures Gathered(paths, |paths|, "", false)
  {
    forall s ensures Walk(s, Segments(""), false) == CdAll(s, paths[|paths|..]) {
      WalkNothing(s, false);
    }
  }

  lemma CdAllSkip(stack: seq<string>, paths: seq<string>, i: int)
    requires 0 < i <= |paths| && paths[i - 1] == ""
    ensures CdAll(stack, paths[i - 1..]) == CdAll(stack, paths[i..])
  {
    WalkNothing(stack, false);
    assert paths[i - 1..][1..] == paths[i..];
  }

  lemma GatherEmpty(paths: seq<string>, i: int, text: string)
    requires Gathered(paths, i, text, false) && i > 0 && paths[i - 1] == ""
    ensures Gathered(paths, i - 1, text, false)
  {
    hide Walk, CdAll, Segments;
    forall s ensures Walk(s, Segments(text), false) == CdAll(s, paths[i - 1..]) {
      CdAllSkip(s, paths, i);
    }
  }

  lemma GatherMore(paths: seq<string>, i: int, text: string)
    requires Gathered(paths, i, text, false) && i > 0
    ensures Gathered(paths, i - 1, paths[i - 1] + "/" + text, IsAbsolute(paths[i - 1]))
  {
    hide Walk, CdAll, Segments, Normal, IsAbsolute;
    var path := paths[i - 1];
    CdPrependAll(path, text, paths[i..]);
    assert [path] + paths[i..] == paths[i - 1..];
    if IsAbsolute(path) {
      CdAppend([], paths[..i - 1], paths[i - 1..]);
      assert paths[..i - 1] + paths[i - 1..] == paths;
    }
  }

  lemma GatherRoot(paths: seq<string>, text: string)
    requires Gathered(paths, 0, text, false)
    ensures Gathered(paths, -1, "/" + "/" + text, true)
  {
    CdPrepend([], "/", text, paths);
    assert paths[0..] == paths;
    SplitAt("", '/', "");
    WalkConcat([], "", "", false);
    assert "" + "/" + "" == "/";
    WalkNothing([], false);
    assert Cd([], "/") == [];
    assert ([""] + paths)[1..] == paths;
    assert (["/"] + paths)[1..] == paths;
  }

  method Resolve(paths: seq<string>) returns (r: string)
    ensures r == Resolved(paths)
  {
    hide *;
    var resolvedPath, resolvedAbsolute := "", false;
    GatherNothing(paths);
    var i := |paths| - 1;
    while i >= -1 && !resolvedAbsolute
      invariant -2 <= i < |paths|
      invariant Gathered(paths, i + 1, resolvedPath, resolvedAbsolute)
      invariant i == -2 ==> resolvedAbsolute
    {
      var path := if i >= 0 then paths[i] else "/";
      if |path| == 0 {
        GatherEmpty(paths, i + 1, resolvedPath);
        i := i - 1;
        continue;
      }
      if i >= 0 {
        GatherMore(paths, i + 1, resolvedPath);
        AbsoluteFirst(path);
      } else {
        GatherRoot(paths, resolvedPath);
      }
      resolvedPath, resolvedAbsolute := path + "/" + resolvedPath, path[0] == '/';
      i := i - 1;
    }
    GatheredFacts(paths, i + 1, resolvedPath);
    resolvedPath := NormalizeString(resolvedPath, !resolvedAbsolute);
    if resolvedAbsolute {
      if |resolvedPath| > 0 { return "/" + resolvedPath; } else { return "/"; }
    } else {
      assert false;  // the root stands in for the working directory, so some piece is absolute
    }
  }

  lemma AbsoluteFirst(path: string)
    requires path != ""
    ensures IsAbsolute(path) <==> path[0] == '/'
  {
  }

  lemma GatheredFacts(paths: seq<string>, i: int, text: string)
    requires Gathered(paths, i, text, true)
    ensures Resolved(paths) == "/" + Text(Normal(text, false))
  {
  }

  method Normalize(path0: string) returns (r: string)
    ensures r == Normalized(path0)
  {
    var path := path0;
    if |path| == 0 { return "."; }
    var isAbsolute, trailingSeparator := path[0] == '/', path[|path| - 1] == '/';
    path := NormalizeString(path, !isAbsolute);
    if |path| == 0 && !isAbsolute { path := "."; }
    if |path| > 0 && trailingSeparator { path := path + "/"; }
    if isAbsolute { return "/" + path; }
    return path;
  }

  lemma NonEmptyStep(paths: seq<string>, i: nat)
    requires i < |paths|
    ensures NonEmpty(paths[..i + 1]) ==
            if paths[i] == "" then NonEmpty(paths[..i]) else NonEmpty(paths[..i]) + [paths[i]]
  {
    assert paths[..i + 1] == paths[..i] + [paths[i]];
    NonEmptyAppend(paths[..i], paths[i]);
  }

  lemma {:induction false} NonEmptyAppend(paths: seq<string>, last: string)
    ensures NonEmpty(paths + [last]) == NonEmpty(paths) + if last == "" then [] else [last]
  {
    if paths == [] {
      assert paths + [last] == [last];
    } else {
      assert (paths + [last])[1..] == paths[1..] + [last];
      NonEmptyAppend(paths[1..], last);
    }
  }

  method JoinPaths(paths: seq<string>) returns (r: string)
    ensures r == Joined(paths)
  {
    hide NonEmpty, Text, Normalized;
    assert NonEmpty([]) == [] by { EmptyJoin(); }
    if |paths| == 0 { return "."; }
    var joined, defined := "", false;
    for i := 0 to |paths|
      invariant defined <==> NonEmpty(paths[..i]) != []
      invariant defined ==> joined == Text(NonEmpty(paths[..i]))
    {
      var arg := paths[i];
      NonEmptyStep(paths, i);
      TextPush(NonEmpty(paths[..i]), arg);
      if |arg| > 0 {
        if !defined { joined, defined := arg, true; } else { joined := joined + "/" + arg; }
      }
    }
    assert paths[..|paths|] == paths;
    if !defined { return "."; }
    r := Normalize(joined);
  }

  lemma EmptyJoin()
    ensures NonEmpty([]) == []
  {
  }
}
