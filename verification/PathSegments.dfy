/** The meaning of a path: a stack of segments, walked one segment at a time. */
module PathSegments {
  import opened Splitting

  const UP := ".."

  function Segments(path: string): (segs: seq<string>)
    ensures |segs| > 0
  {
    Split(path, '/')
  }

  function Text(segs: seq<string>): string { Join(segs, '/') }

  /** One step of a walk: skip empty and `.`, let `..` go up, enter anything else. */
  function Enter(stack: seq<string>, seg: string, allowAboveRoot: bool): seq<string> {
    if seg == "" || seg == "." then stack
    else if seg == UP then
      if |stack| > 0 && stack[|stack| - 1] != UP then stack[..|stack| - 1]
      else if allowAboveRoot then stack + [UP]
      else stack
    else stack + [seg]
  }

  function Walk(stack: seq<string>, segs: seq<string>, allowAboveRoot: bool): seq<string>
    decreases |segs|
  {
    if segs == [] then stack else Walk(Enter(stack, segs[0], allowAboveRoot), segs[1..], allowAboveRoot)
  }

  /** The stack a path walks to from nothing. */
  function Normal(path: string, allowAboveRoot: bool): seq<string> {
    Walk([], Segments(path), allowAboveRoot)
  }

  /** A segment that can stay on a stack. */
  predicate Plain(seg: string) { seg != "" && seg != "." && '/' !in seg }

  predicate AllPlain(segs: seq<string>) { forall i :: 0 <= i < |segs| ==> Plain(segs[i]) }

  predicate NoUps(segs: seq<string>) { forall i :: 0 <= i < |segs| ==> segs[i] != UP }

  function Top(stack: seq<string>): string
    requires stack != []
  {
    stack[|stack| - 1]
  }

  function Rest(stack: seq<string>): seq<string>
    requires stack != []
  {
    stack[..|stack| - 1]
  }

  /** Position of the last `c` before `n`, or -1. */
  function LastBefore(s: string, c: char, n: nat): (k: int)
    requires n <= |s|
    ensures -1 <= k < n
    ensures k >= 0 ==> s[k] == c
    ensures forall i :: k < i < n ==> s[i] != c
  {
    if n == 0 then -1 else if s[n - 1] == c then n - 1 else LastBefore(s, c, n - 1)
  }

  function LastIndexOf(s: string, c: char): (k: int)
    ensures -1 <= k < |s|
    ensures k >= 0 ==> s[k] == c
    ensures forall i :: k < i < |s| ==> s[i] != c
  {
    LastBefore(s, c, |s|)
  }

  lemma {:induction false} WalkAppend(stack: seq<string>, a: seq<string>, b: seq<string>, allow: bool)
    ensures Walk(stack, a + b, allow) == Walk(Walk(stack, a, allow), b, allow)
    decreases |a|
  {
    if a == [] {
      assert a + b == b;
    } else {
      assert (a + b)[1..] == a[1..] + b;
      WalkAppend(Enter(stack, a[0], allow), a[1..], b, allow);
    }
  }

  /** Walking never leaves an empty or `.` segment behind, and no `..` unless it is allowed. */
  lemma {:induction false} WalkPlain(stack: seq<string>, segs: seq<string>, allow: bool)
    requires AllPlain(stack)
    requires forall i :: 0 <= i < |segs| ==> '/' !in segs[i]
    ensures AllPlain(Walk(stack, segs, allow))
    ensures !allow && NoUps(stack) ==> NoUps(Walk(stack, segs, allow))
    decreases |segs|
  {
    if segs != [] {
      WalkPlain(Enter(stack, segs[0], allow), segs[1..], allow);
    }
  }

  lemma NormalPlain(path: string, allow: bool)
    ensures AllPlain(Normal(path, allow))
    ensures !allow ==> NoUps(Normal(path, allow))
  {
    PiecesHoldNoSeparator(path, '/');
    WalkPlain([], Segments(path), allow);
  }

  /** Proper segments are simply entered one after the other. */
  lemma {:induction false} WalkDown(stack: seq<string>, segs: seq<string>, allow: bool)
    requires AllPlain(segs) && NoUps(segs)
    ensures Walk(stack, segs, allow) == stack + segs
    decreases |segs|
  {
    if segs == [] {
      assert stack + segs == stack;
    } else {
      WalkDown(stack + [segs[0]], segs[1..], allow);
      assert stack + [segs[0]] + segs[1..] == stack + segs;
    }
  }

  lemma TextPush(stack: seq<string>, seg: string)
    ensures Text(stack + [seg]) == if stack == [] then seg else Text(stack) + "/" + seg
  {
    if stack == [] {
      assert stack + [seg] == [seg];
    } else {
      JoinAppend(stack, [seg], '/');
    }
  }

  lemma TextEmpty(stack: seq<string>)
    requires AllPlain(stack)
    ensures Text(stack) == "" <==> stack == []
    ensures stack != [] ==> Text(stack)[0] != '/'
  {
    if stack != [] {
      assert stack[0][0] in stack[0];
    }
  }

  lemma LastIndexIs(s: string, c: char, k: nat)
    requires k < |s| && s[k] == c
    requires forall i :: k < i < |s| ==> s[i] != c
    ensures LastIndexOf(s, c) == k
  {
  }

  lemma LastIndexAppend(a: string, b: string)
    requires '/' !in b
    ensures LastIndexOf(a + "/" + b, '/') == |a|
  {
    var head := a + "/";
    assert (head + b)[|a|] == head[|a|] == '/';
    forall i | |a| < i < |head + b| ensures (head + b)[i] != '/' {
      assert (head + b)[i] == b[i - |head|];
      assert b[i - |head|] in b;
    }
    LastIndexIs(head + b, '/', |a|);
  }

  /** Where the top segment of a joined stack starts, and what popping it leaves. */
  lemma TextPop(stack: seq<string>)
    requires AllPlain(stack) && stack != []
    ensures var text, top, cut := Text(stack), Top(stack), LastIndexOf(Text(stack), '/');
            && cut == |text| - 1 - |top|
            && text[cut + 1..] == top
            && (|stack| == 1 <==> cut == -1)
            && (|stack| > 1 ==> text[..cut] == Text(Rest(stack)))
  {
    var text, top := Text(stack), Top(stack);
    assert stack == Rest(stack) + [top];
    TextPush(Rest(stack), top);
    if |stack| > 1 {
      assert text == Text(Rest(stack)) + "/" + top;
      LastIndexAppend(Text(Rest(stack)), top);
    } else {
      assert text == top;
      assert forall i :: 0 <= i < |text| ==> text[i] in top;
    }
  }

  /** A joined stack reads back as its own segments. */
  lemma TextSegments(stack: seq<string>)
    requires AllPlain(stack) && stack != []
    ensures Segments(Text(stack)) == stack
  {
    SplitJoin(stack, '/');
  }
}
