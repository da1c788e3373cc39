/** Laws of `resolve`, `normalize` and `join`. */
module PathLaws {
  import opened Splitting
  import opened PathSegments
  import opened PathResolve

  /** A fully reduced stack: leading `..` segments, then proper ones. */
  predicate Reduced(stack: seq<string>) {
    && AllPlain(stack)
    && forall i, j :: 0 <= i < j < |stack| && stack[j] == UP ==> stack[i] == UP
  }

  /** The directory stacks reachable from the root. */
  predicate Directory(stack: seq<string>) { AllPlain(stack) && NoUps(stack) }

  lemma {:induction false} WalkReduced(stack: seq<string>, segs: seq<string>, allow: bool)
    requires Reduced(stack) && forall i :: 0 <= i < |segs| ==> '/' !in segs[i]
    ensures Reduced(Walk(stack, segs, allow))
    decreases |segs|
  {
    if segs != [] {
      WalkReduced(Enter(stack, segs[0], allow), segs[1..], allow);
    }
  }

  lemma NormalReduced(path: string, allow: bool)
    ensures Reduced(Normal(path, allow))
    ensures !allow ==> Directory(Normal(path, allow))
  {
    hide Walk, Segments;
    PiecesHoldNoSeparator(path, '/');
    SegmentsSplit(path);
    WalkReduced([], Segments(path), allow);
    NormalPlain(path, allow);
  }

  lemma SegmentsSplit(path: string)
    ensures Segments(path) == Split(path, '/')
  {
  }

  /** A reduced stack walks to itself. */
  lemma {:induction false} WalkReducedIdentity(done: seq<string>, segs: seq<string>, allow: bool)
    requires Reduced(done + segs) && (allow || NoUps(done + segs))
    ensures Walk(done, segs, allow) == done + segs
    decreases |segs|
  {
    if segs == [] {
      assert done + segs == done;
    } else {
      assert (done + segs)[|done|] == segs[0];
      if segs[0] == UP && done != [] {
        assert (done + segs)[|done| - 1] == Top(done);
      }
      assert Enter(done, segs[0], allow) == done + [segs[0]];
      assert done + [segs[0]] + segs[1..] == done + segs;
      WalkReducedIdentity(done + [segs[0]], segs[1..], allow);
    }
  }

  /** Reading a reduced stack's text, with or without a slash on either side, gives the stack back. */
  lemma NormalOfText(stack: seq<string>, allow: bool)
    requires Reduced(stack) && (allow || NoUps(stack))
    ensures Normal(Text(stack), allow) == stack
    ensures Normal("/" + Text(stack), allow) == stack
    ensures Normal(Text(stack) + "/", allow) == stack
    ensures Normal("/" + Text(stack) + "/", allow) == stack
  {
    hide Walk, Segments;
    var text := Text(stack);
    WalkNothing([], allow);
    WalkNothing(stack, allow);
    if stack != [] {
      TextSegments(stack);
      WalkReducedIdentity([], stack, allow);
      assert [] + stack == stack;
    }
    assert Walk([], Segments(text), allow) == stack;
    WalkConcat([], "", text, allow);
    assert "" + "/" + text == "/" + text;
    WalkConcat([], text, "", allow);
    assert text + "/" + "" == text + "/";
    WalkConcat([], "/" + text, "", allow);
    assert ("/" + text) + "/" + "" == "/" + text + "/";
  }

  lemma NormalOfDot(allow: bool)
    ensures Normal(".", allow) == [] && Normal("./", allow) == []
  {
    SplitWhole(".", '/');
    WalkNothing([], allow);
    WalkConcat([], ".", "", allow);
    assert "." + "/" + "" == "./";
  }

  /** The four shapes of a normalized path. */
  lemma NormalizedShape(path: string)
    ensures var text, slash := Text(Normal(path, !IsAbsolute(path))), EndsWithSlash(path);
            && (IsAbsolute(path) && text == "" ==> Normalized(path) == "/")
            && (IsAbsolute(path) && text != "" ==>
                  Normalized(path) == if slash then "/" + text + "/" else "/" + text)
            && (!IsAbsolute(path) && text == "" ==> Normalized(path) == if slash then "./" else ".")
            && (!IsAbsolute(path) && text != "" ==> Normalized(path) == if slash then text + "/" else text)
  {
    NormalOfNothing();
    hide Normal, Text;
    var text := Text(Normal(path, !IsAbsolute(path)));
    assert "/" + "" == "/" && "." + "/" == "./" && "/" + (text + "/") == "/" + text + "/";
  }

  lemma NormalOfNothing()
    ensures Text(Normal("", true)) == ""
  {
    WalkNothing([], true);
  }

  /** Normalizing twice is normalizing once. */
  lemma NormalizeIdempotent(path: string)
    ensures Normalized(Normalized(path)) == Normalized(path)
  {
    hide Normal, Text;
    var allow := !IsAbsolute(path);
    var stack := Normal(path, allow);
    var text := Text(stack);
    NormalReduced(path, allow);
    NormalOfText(stack, allow);
    NormalOfDot(allow);
    TextEmpty(stack);
    TextNoTrailing(stack);
    TextIsEmpty();
    NormalizedShape(path);
    var once := Normalized(path);
    NormalizedShape(once);
    if stack != [] {
      assert allow ==> once[0] == text[0];
      assert !EndsWithSlash(path) ==> once[|once| - 1] == text[|text| - 1];
    }
  }

  lemma TextIsEmpty()
    ensures Text([]) == ""
  {
  }

  lemma TextNoTrailing(stack: seq<string>)
    requires AllPlain(stack)
    ensures !EndsWithSlash(Text(stack))
  {
    if stack != [] {
      TextPop(stack);
      var text, top := Text(stack), Top(stack);
      assert text[|text| - |top|..] == top;
      assert text[|text| - 1] == top[|top| - 1] && top[|top| - 1] in top;
    }
  }

  // ---- normalizing keeps the meaning of a path ----

  lemma WalkOne(stack: seq<string>, seg: string, allow: bool)
    ensures Walk(stack, [seg], allow) == Enter(stack, seg, allow)
  {
    assert [seg][1..] == [];
  }

  lemma EnterCommutes(stack: seq<string>, pending: seq<string>, seg: string)
    requires Directory(stack) && Reduced(pending)
    ensures Walk(stack, Enter(pending, seg, true), false) == Enter(Walk(stack, pending, false), seg, false)
  {
    hide Walk;
    if seg == "" || seg == "." {
    } else if seg == UP && pending != [] && Top(pending) != UP {
      assert pending == Rest(pending) + [Top(pending)];
      WalkAppend(stack, Rest(pending), [Top(pending)], false);
      WalkOne(Walk(stack, Rest(pending), false), Top(pending), false);
      var under := Walk(stack, Rest(pending), false);
      assert Walk(stack, pending, false) == under + [Top(pending)];
      assert (under + [Top(pending)])[..|under|] == under;
    } else {
      WalkAppend(stack, pending, [seg], false);
      WalkOne(Walk(stack, pending, false), seg, false);
    }
  }

  /** Reducing a relative walk first and applying it later ends in the same directory. */
  lemma {:induction false} WalkLater(stack: seq<string>, pending: seq<string>, segs: seq<string>)
    requires Directory(stack) && Reduced(pending) && forall i :: 0 <= i < |segs| ==> '/' !in segs[i]
    ensures Walk(stack, Walk(pending, segs, true), false) == Walk(Walk(stack, pending, false), segs, false)
    decreases |segs|
  {
    if segs != [] {
      EnterCommutes(stack, pending, segs[0]);
      assert Reduced(Enter(pending, segs[0], true)) by { EnterReduced(pending, segs[0], true); }
      WalkLater(stack, Enter(pending, segs[0], true), segs[1..]);
    }
  }

  lemma EnterReduced(stack: seq<string>, seg: string, allow: bool)
    requires Reduced(stack) && '/' !in seg
    ensures Reduced(Enter(stack, seg, allow))
  {
  }

  /** `normalize` never changes which directory a path leads to, from anywhere. */
  lemma NormalizeKeepsMeaning(stack: seq<string>, path: string)
    requires Directory(stack)
    ensures Cd(stack, Normalized(path)) == Cd(stack, path)
  {
    hide Walk, Segments, Text;
    var allow := !IsAbsolute(path);
    var reduced := Normal(path, allow);
    var text := Text(reduced);
    NormalReduced(path, allow);
    TextEmpty(reduced);
    TextIsEmpty();
    WalkNothing(stack, false);
    DotStays(stack);
    PiecesHoldNoSeparator(path, '/');
    SegmentsSplit(path);
    NormalizedShape(path);
    if IsAbsolute(path) {
      NormalOfText(reduced, false);
      WalkNothing([], false);
    } else {
      WalkLater(stack, [], Segments(path));
      WalkEmpty(stack);
      if reduced != [] {
        TextSegments(reduced);
        WalkConcat(stack, text, "", false);
        WalkNothing(Walk(stack, Segments(text), false), false);
        assert text + "/" + "" == text + "/";
        assert (text + "/")[0] == text[0];
      }
    }
  }

  lemma WalkEmpty(stack: seq<string>)
    ensures Walk(stack, [], false) == stack
  {
  }

  lemma DotStays(stack: seq<string>)
    ensures Walk(stack, Segments("."), false) == stack && Walk(stack, Segments("./"), false) == stack
  {
    SplitWhole(".", '/');
    WalkOne(stack, ".", false);
    WalkConcat(stack, ".", "", false);
    WalkNothing(stack, false);
    assert "." + "/" + "" == "./";
  }

  lemma {:induction false} CdAllDirectory(stack: seq<string>, paths: seq<string>)
    requires Directory(stack)
    ensures Directory(CdAll(stack, paths))
    decreases |paths|
  {
    if paths != [] {
      CdDirectory(stack, paths[0]);
      CdAllDirectory(Cd(stack, paths[0]), paths[1..]);
    }
  }

  lemma CdDirectory(stack: seq<string>, path: string)
    requires Directory(stack)
    ensures Directory(Cd(stack, path))
  {
    hide Walk;
    PiecesHoldNoSeparator(path, '/');
    WalkPlain(if IsAbsolute(path) then [] else stack, Segments(path), false);
  }

  lemma CdOne(stack: seq<string>, a: string)
    ensures CdAll(stack, [a]) == Cd(stack, a)
  {
    assert [a][1..] == [];
  }

  lemma CdTwo(a: string, b: string)
    ensures CdAll([], [a, b]) == Cd(Cd([], a), b)
  {
    assert [a, b][1..] == [b];
    CdOne(Cd([], a), b);
  }

  /** A resolved path is absolute, already normal, and resolves to itself from anywhere. */
  lemma ResolvedIsCanonical(paths: seq<string>, base: string)
    ensures var r := Resolved(paths);
            IsAbsolute(r) && Normalized(r) == r && Resolved([base, r]) == r && (r == "/" || !EndsWithSlash(r))
  {
    hide Walk, Segments, Text;
    var stack := CdAll([], paths);
    var r := Resolved(paths);
    CdAllDirectory([], paths);
    NormalOfText(stack, false);
    TextNoTrailing(stack);
    assert Text(stack) != "" ==> r[|r| - 1] == Text(stack)[|Text(stack)| - 1];
    CdTwo(base, r);
  }

  function StripTrailing(path: string): string {
    if |path| > 1 && EndsWithSlash(path) then path[..|path| - 1] else path
  }

  /** With an absolute first part and a relative second, `resolve` is `join` without the trailing slash. */
  lemma ResolveIsJoin(a: string, b: string)
    requires IsAbsolute(a) && !IsAbsolute(b)
    ensures Resolved([a, b]) == StripTrailing(Joined([a, b]))
  {
    hide Walk, Segments, Text;
    CdTwo(a, b);
    var stack := Cd(Cd([], a), b);
    NonEmptyTwo(a, b);
    var joined := if b == "" then a else a + "/" + b;
    TextOne(a);
    TextPush([a], b);
    assert [a] + [b] == [a, b];
    WalkConcat([], a, b, false);
    WalkNothing(Cd([], a), false);
    assert Normal(joined, false) == stack;
    CdDirectory([], a);
    CdDirectory(Cd([], a), b);
    TextNoTrailing(stack);
    var text := Text(stack);
    assert joined != "" && joined[0] == a[0];
    NormalizedShape(joined);
    if text != "" {
      assert ("/" + text)[|text|] == text[|text| - 1];
      assert ("/" + text + "/")[..|text| + 1] == "/" + text;
    }
  }

  lemma NonEmptyTwo(a: string, b: string)
    requires a != ""
    ensures b == "" ==> NonEmpty([a, b]) == [a]
    ensures b != "" ==> NonEmpty([a, b]) == [a, b]
  {
    assert [a, b][1..] == [b];
    NonEmptyAppend([], b);
    assert [] + [b] == [b];
  }

  lemma TextOne(a: string)
    ensures Text([a]) == a
  {
  }
}
