/** What `normalize` and `join` write, told without them. */
module PathJoin {
  import opened Splitting
  import opened PathSegments
  import opened PathResolve
  import opened PathLaws

  // ---- the form of a normalized path ----

  /** A stack written out as a path. */
  function Written(absolute: bool, stack: seq<string>, slash: bool): string {
    if stack == [] then if absolute then "/" else if slash then "./" else "."
    else (if absolute then "/" else "") + Text(stack) + (if slash then "/" else "")
  }

  /** A normalized path is a reduced stack written out, with the root and the trailing slash of the path it was made
      from; nothing is left of `.`, of empty segments, and of any `..` that has a segment to take back. */
  lemma NormalizedForm(path: string) returns (stack: seq<string>)
    requires path != ""
    ensures Reduced(stack) && (IsAbsolute(path) ==> Directory(stack))
    ensures Normalized(path) == Written(IsAbsolute(path), stack, EndsWithSlash(path))
  {
    hide Normal, Text;
    stack := Normal(path, !IsAbsolute(path));
    NormalReduced(path, !IsAbsolute(path));
    NormalizedShape(path);
    TextEmpty(stack);
    TextIsEmpty();
    assert "" + Text(stack) == Text(stack) && Text(stack) + "" == Text(stack);
    assert ("/" + Text(stack)) + "/" == "/" + Text(stack) + "/" && ("/" + Text(stack)) + "" == "/" + Text(stack);
  }

  /** The trailing slash is kept, and only the root gains one. */
  lemma NormalizedSlash(path: string)
    requires path != ""
    ensures EndsWithSlash(Normalized(path)) <==> EndsWithSlash(path) || Normalized(path) == "/"
    ensures IsAbsolute(Normalized(path)) <==> IsAbsolute(path)
  {
    hide Normal, Text;
    var stack := Normal(path, !IsAbsolute(path));
    NormalReduced(path, !IsAbsolute(path));
    NormalizedShape(path);
    TextEmpty(stack);
    TextIsEmpty();
    TextNoTrailing(stack);
    var text := Text(stack);
    if text != "" {
      assert ("/" + text)[|text|] == text[|text| - 1];
      assert ("/" + text + "/")[|text| + 1] == '/' && (text + "/")[|text|] == '/' && (text + "/")[0] == text[0];
    }
  }

  // ---- join ----

  /** The arguments followed one after the other, each from where the one before it led. */
  function FollowAll(stack: seq<string>, paths: seq<string>): seq<string>
    decreases |paths|
  {
    if paths == [] then stack else FollowAll(Walk(stack, Segments(paths[0]), false), paths[1..])
  }

  /** The first argument that is not empty is absolute. */
  predicate StartsAtRoot(paths: seq<string>) {
    paths != [] && if paths[0] == "" then StartsAtRoot(paths[1..]) else IsAbsolute(paths[0])
  }

  /** The last argument that is not empty ends in a slash. */
  predicate EndsInSlash(paths: seq<string>) {
    && paths != []
    && var last := paths[|paths| - 1];
    if last == "" then EndsInSlash(paths[..|paths| - 1]) else EndsWithSlash(last)
  }

  lemma {:induction false} FollowNonEmpty(stack: seq<string>, paths: seq<string>)
    ensures FollowAll(stack, NonEmpty(paths)) == FollowAll(stack, paths)
    ensures NonEmpty(paths) != [] && IsAbsolute(NonEmpty(paths)[0]) <==> StartsAtRoot(paths)
    decreases |paths|
  {
    if paths != [] {
      hide Walk, Segments;
      FollowNonEmpty(Walk(stack, Segments(paths[0]), false), paths[1..]);
      WalkNothing(stack, false);
      if paths[0] != "" {
        assert ([paths[0]] + NonEmpty(paths[1..]))[1..] == NonEmpty(paths[1..]);
      } else {
        assert [] + NonEmpty(paths[1..]) == NonEmpty(paths[1..]);
      }
    }
  }

  /** Joined with slashes, the arguments are one walk. */
  lemma {:induction false} FollowText(stack: seq<string>, paths: seq<string>)
    requires paths != []
    ensures FollowAll(stack, paths) == Walk(stack, Segments(Text(paths)), false)
    decreases |paths|
  {
    hide Walk, Segments;
    if |paths| == 1 {
      assert paths == [paths[0]] && paths[1..] == [];
      TextOne(paths[0]);
    } else {
      var rest := paths[1..];
      FollowText(Walk(stack, Segments(paths[0]), false), rest);
      WalkConcat(stack, paths[0], Text(rest), false);
      assert Text(paths) == paths[0] + "/" + Text(rest) by { TextFirst(paths); }
    }
  }

  lemma TextFirst(paths: seq<string>)
    requires |paths| > 1
    ensures Text(paths) == paths[0] + "/" + Text(paths[1..])
  {
    assert paths[0] + ['/'] == paths[0] + "/";
  }

  lemma TextStart(paths: seq<string>)
    requires paths != [] && paths[0] != ""
    ensures Text(paths) != "" && Text(paths)[0] == paths[0][0]
  {
    if |paths| == 1 { assert paths == [paths[0]]; TextOne(paths[0]); } else { TextFirst(paths); }
  }

  lemma TextEnd(paths: seq<string>)
    requires paths != [] && paths[|paths| - 1] != ""
    ensures Text(paths) != "" && EndsWithSlash(Text(paths)) <==> EndsWithSlash(paths[|paths| - 1])
  {
    var last := paths[|paths| - 1];
    assert paths == paths[..|paths| - 1] + [last];
    TextPush(paths[..|paths| - 1], last);
  }

  lemma {:induction false} NonEmptyGiven(paths: seq<string>)
    ensures forall i :: 0 <= i < |NonEmpty(paths)| ==> NonEmpty(paths)[i] != ""
  {
    if paths != [] { NonEmptyGiven(paths[1..]); }
  }

  lemma {:induction false} NonEmptyLast(paths: seq<string>)
    ensures NonEmpty(paths) != [] && EndsWithSlash(NonEmpty(paths)[|NonEmpty(paths)| - 1]) <==> EndsInSlash(paths)
    decreases |paths|
  {
    if paths != [] {
      var last := paths[|paths| - 1];
      assert paths == paths[..|paths| - 1] + [last];
      NonEmptyLast(paths[..|paths| - 1]);
      NonEmptyAppend(paths[..|paths| - 1], last);
    }
  }

  /**
   * `join` answers a normal path. From any directory it leads to where the arguments lead, followed one after the
   * other, whatever slashes they begin with; only a slash at the start of the first argument that is not empty leads to
   * the root. Its trailing slash is that of the last argument that is not empty.
   */
  lemma JoinLeads(stack: seq<string>, paths: seq<string>)
    requires Directory(stack)
    ensures Normalized(Joined(paths)) == Joined(paths)
    ensures Cd(stack, Joined(paths)) == FollowAll(if StartsAtRoot(paths) then [] else stack, paths)
    ensures IsAbsolute(Joined(paths)) <==> StartsAtRoot(paths)
    ensures EndsWithSlash(Joined(paths)) <==> EndsInSlash(paths) || Joined(paths) == "/"
  {
    hide Walk, Segments, Normalized, Text, NonEmpty;
    var given := NonEmpty(paths);
    FollowNonEmpty(if StartsAtRoot(paths) then [] else stack, paths);
    NonEmptyGiven(paths);
    NonEmptyLast(paths);
    if given == [] {
      DotStays(stack);
      NormalizedDot();
    } else {
      var text := Text(given);
      TextStart(given);
      TextEnd(given);
      NormalizeIdempotent(text);
      NormalizeKeepsMeaning(stack, text);
      NormalizedSlash(text);
      FollowText(if IsAbsolute(text) then [] else stack, given);
    }
  }

  lemma NormalizedDot()
    ensures Normalized(".") == "."
  {
    NormalOfDot(true);
    TextIsEmpty();
  }
}
