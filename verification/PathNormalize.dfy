/** The single-pass scanner behind every path function of the shim. */
module PathNormalize {
  import opened Splitting
  import opened PathSegments

  predicate AllDots(s: string) { forall i :: 0 <= i < |s| ==> s[i] == '.' }

  /** What the `dots` counter holds after a partial segment: its length if all dots, else -1. */
  function DotCount(s: string): int { if AllDots(s) then |s| else -1 }

  lemma DotCountStep(s: string, c: char)
    ensures DotCount(s + [c]) == if c == '.' && DotCount(s) != -1 then DotCount(s) + 1 else -1
  {
    assert AllDots(s + [c]) ==> AllDots(s) && c == '.' by {
      assert (s + [c])[|s|] == c;
      assert forall i :: 0 <= i < |s| ==> (s + [c])[i] == s[i];
    }
  }

  lemma DotCountNames(s: string)
    ensures DotCount(s) == 0 <==> s == ""
    ensures DotCount(s) == 1 <==> s == "."
    ensures DotCount(s) == 2 <==> s == UP
  {
    if DotCount(s) == 1 { assert s == "."; }
    if DotCount(s) == 2 { assert s == UP; }
  }

  /** The test on the text that tells whether its top segment can be popped. */
  predicate Poppable(res: string, topLength: int) {
    |res| < 2 || topLength != 2 || res[|res| - 1] != '.' || res[|res| - 2] != '.'
  }

  lemma PoppableMeans(stack: seq<string>)
    requires AllPlain(stack)
    ensures var n := if stack == [] then 0 else |Top(stack)|;
            Poppable(Text(stack), n) <==> stack == [] || Top(stack) != UP
    ensures |Text(stack)| <= 2 ==> |stack| <= 1
    ensures Text(stack) == "" <==> stack == []
  {
    TextEmpty(stack);
    if stack != [] {
      TextPop(stack);
      TextEmpty(Rest(stack));
      var text, top := Text(stack), Top(stack);
      assert |top| == 2 ==> text[|text| - 2..] == top;
      assert |top| == 2 && top[0] == '.' && top[1] == '.' ==> top == UP;
    }
  }

  /** The piece that ends at the slash at `i` (or at the end of the path). */
  lemma NextSegment(path: string, start: nat, i: nat)
    requires start <= i <= |path| && '/' !in path[start..i]
    requires i < |path| ==> path[i] == '/'
    ensures Segments(path[start..]) == [path[start..i]] + (if i < |path| then Segments(path[i + 1..]) else [])
  {
    var seg := path[start..i];
    if i < |path| {
      assert path[start..] == seg + ['/'] + path[i + 1..];
      SplitFirst(seg, '/', path[i + 1..]);
    } else {
      assert path[start..] == seg;
      SplitWhole(seg, '/');
    }
  }

  lemma WalkNext(stack: seq<string>, path: string, start: nat, i: nat, allow: bool)
    requires start <= i <= |path| && '/' !in path[start..i]
    requires i < |path| ==> path[i] == '/'
    ensures var next := Enter(stack, path[start..i], allow);
            Walk(stack, Segments(path[start..]), allow) ==
            if i < |path| then Walk(next, Segments(path[i + 1..]), allow) else next
  {
    NextSegment(path, start, i);
    var segs := Segments(path[start..]);
    assert segs[1..] == if i < |path| then Segments(path[i + 1..]) else [];
  }

  function TopLength(stack: seq<string>): nat { if stack == [] then 0 else |Top(stack)| }

  lemma NothingWalked()
    ensures AllPlain([]) && Text([]) == "" && TopLength([]) == 0
  {
  }

  /** What the scanner does with `res` at a slash, for the segment `seg` that ends there. */
  method CloseSegment(res0: string, length0: int, seg: string, dots: int, allow: bool, ghost stack: seq<string>)
    returns (res: string, lastSegmentLength: int)
    requires AllPlain(stack) && res0 == Text(stack) && length0 == TopLength(stack)
    requires dots == DotCount(seg)
    ensures var next := Enter(stack, seg, allow);
            res == Text(next) && lastSegmentLength == TopLength(next)
  {
    hide Text, LastIndexOf;
    NothingWalked();
    res, lastSegmentLength := res0, length0;
    DotCountNames(seg);
    PoppableMeans(stack);
    if seg == "" || dots == 1 {
    } else if dots == 2 {
      if Poppable(res, lastSegmentLength) {
        if |res| > 2 {
          TextPop(stack);
          var lastSlashIndex := LastIndexOf(res, '/');
          if lastSlashIndex != |res| - 1 {
            if lastSlashIndex == -1 {
              res, lastSegmentLength := "", 0;
            } else {
              res := res[..lastSlashIndex];
              lastSegmentLength := |res| - 1 - LastIndexOf(res, '/');
              assert Rest(stack) != [];
              TextPop(Rest(stack));
            }
            return;
          }
        } else if |res| == 2 || |res| == 1 {
          return "", 0;
        }
      }
      if allow {
        TextPush(stack, UP);
        if |res| > 0 { res := res + "/.."; } else { res := ".."; }
        lastSegmentLength := 2;
      }
    } else {
      TextPush(stack, seg);
      if |res| > 0 { res := res + "/" + seg; } else { res := seg; }
      lastSegmentLength := |seg|;
    }
  }

  lemma EnterPlain(stack: seq<string>, seg: string, allow: bool)
    requires AllPlain(stack) && '/' !in seg
    ensures AllPlain(Enter(stack, seg, allow))
  {
  }

  /** The scanner stands at `i`, inside the segment that began at `start`, with `stack` walked so far. */
  ghost predicate Scanning(path: string, allow: bool, stack: seq<string>, start: int, i: int, dots: int) {
    && 0 <= start <= i <= |path|
    && '/' !in path[start..i]
    && dots == DotCount(path[start..i])
    && AllPlain(stack)
    && Walk(stack, Segments(path[start..]), allow) == Normal(path, allow)
  }

  lemma ScanFacts(path: string, allow: bool, stack: seq<string>, start: int, i: int, dots: int)
    requires Scanning(path, allow, stack, start, i, dots)
    ensures 0 <= start <= i <= |path| && dots == DotCount(path[start..i]) && AllPlain(stack)
  {
  }

  lemma ScanStart(path: string, allow: bool)
    ensures Scanning(path, allow, [], 0, 0, 0)
    ensures Text([]) == "" && TopLength([]) == 0
  {
    assert path[0..] == path;
  }

  lemma ScanChar(path: string, allow: bool, stack: seq<string>, start: int, i: int, dots: int)
    requires Scanning(path, allow, stack, start, i, dots) && i < |path| && path[i] != '/'
    ensures Scanning(path, allow, stack, start, i + 1, if path[i] == '.' && dots != -1 then dots + 1 else -1)
  {
    DotCountStep(path[start..i], path[i]);
    assert path[start..i + 1] == path[start..i] + [path[i]];
  }

  lemma ScanSlash(path: string, allow: bool, stack: seq<string>, start: int, i: int, dots: int)
    requires Scanning(path, allow, stack, start, i, dots)
    requires i < |path| ==> path[i] == '/'
    ensures var next := Enter(stack, path[start..i], allow);
            if i < |path| then Scanning(path, allow, next, i + 1, i + 1, 0) else next == Normal(path, allow)
  {
    hide Walk, Segments, Split, AllPlain, Enter;
    WalkNext(stack, path, start, i, allow);
    EnterPlain(stack, path[start..i], allow);
    if i < |path| { assert path[i + 1..i + 1] == ""; }
  }

  lemma ScanTrailing(path: string, allow: bool, stack: seq<string>, start: int, dots: int)
    requires Scanning(path, allow, stack, start, |path|, dots)
    requires path != "" && path[|path| - 1] == '/'
    ensures stack == Normal(path, allow)
  {
    hide Walk, Segments, Split, AllPlain;
    WalkNext(stack, path, start, |path|, allow);
    assert path[start..|path|] == "";
  }

  /** The scanner is the segment walk: one pass over characters, no list of segments. */
  method NormalizeString(path: string, allowAboveRoot: bool) returns (res: string)
    ensures res == Text(Normal(path, allowAboveRoot))
  {
    hide *;
    res := "";
    var lastSegmentLength, lastSlash, dots, code := 0, -1, 0, ' ';
    ghost var stack: seq<string> := [];
    ScanStart(path, allowAboveRoot);
    var i := 0;
    while i <= |path|
      invariant 0 <= i <= |path| + 1
      invariant i <= |path| ==> code == if i == 0 then ' ' else path[i - 1]
      invariant res == Text(stack) && lastSegmentLength == TopLength(stack)
      invariant i <= |path| ==> Scanning(path, allowAboveRoot, stack, lastSlash + 1, i, dots)
      invariant i > |path| ==> stack == Normal(path, allowAboveRoot)
    {
      if i < |path| {
        code := path[i];
      } else if code == '/' {
        ScanTrailing(path, allowAboveRoot, stack, lastSlash + 1, dots);
        break;
      } else {
        code := '/';
      }
      if code == '/' {
        ScanFacts(path, allowAboveRoot, stack, lastSlash + 1, i, dots);
        var seg := path[lastSlash + 1..i];
        ScanSlash(path, allowAboveRoot, stack, lastSlash + 1, i, dots);
        res, lastSegmentLength := CloseSegment(res, lastSegmentLength, seg, dots, allowAboveRoot, stack);
        stack := Enter(stack, seg, allowAboveRoot);
        lastSlash, dots := i, 0;
      } else {
        ScanChar(path, allowAboveRoot, stack, lastSlash + 1, i, dots);
        if code == '.' && dots != -1 { dots := dots + 1; } else { dots := -1; }
      }
      i := i + 1;
    }
  }
}
