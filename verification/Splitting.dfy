/** Cutting a sequence at a separator and joining the pieces again. */
module Splitting {

  /** Index of the first `c` at or after `i`, or the length when there is none. */
  function FindFrom<T(==)>(s: seq<T>, c: T, i: nat): (k: nat)
    requires i <= |s|
    ensures i <= k <= |s|
    ensures forall j :: i <= j < k ==> s[j] != c
    ensures k < |s| ==> s[k] == c
    decreases |s| - i
  {
    if i == |s| || s[i] == c then i else FindFrom(s, c, i + 1)
  }

  function Find<T(==)>(s: seq<T>, c: T): (k: nat)
    ensures k <= |s|
    ensures forall j :: 0 <= j < k ==> s[j] != c
    ensures k < |s| ==> s[k] == c
  {
    FindFrom(s, c, 0)
  }

  /** The pieces between separators: always at least one, possibly empty ones. */
  function Split<T(==)>(s: seq<T>, c: T): (parts: seq<seq<T>>)
    ensures |parts| > 0
    decreases |s|
  {
    var k := Find(s, c);
    if k == |s| then [s] else [s[..k]] + Split(s[k + 1..], c)
  }

  function Join<T>(parts: seq<seq<T>>, c: T): seq<T> {
    if |parts| == 0 then []
    else if |parts| == 1 then parts[0]
    else parts[0] + [c] + Join(parts[1..], c)
  }

  lemma FindIs<T>(s: seq<T>, c: T, k: nat)
    requires k <= |s| && c !in s[..k] && (k < |s| ==> s[k] == c)
    ensures Find(s, c) == k
  {
    assert forall i :: 0 <= i < k ==> s[i] == s[..k][i];
  }

  lemma SplitFirst<T>(head: seq<T>, c: T, tail: seq<T>)
    requires c !in head
    ensures Split(head + [c] + tail, c) == [head] + Split(tail, c)
  {
    var s := head + [c] + tail;
    assert s[..|head|] == head;
    FindIs(s, c, |head|);
    assert s[|head| + 1..] == tail;
  }

  lemma SplitWhole<T>(s: seq<T>, c: T)
    requires c !in s
    ensures Split(s, c) == [s]
  {
    assert s[..|s|] == s;
    FindIs(s, c, |s|);
  }

  /** A separator anywhere splits the pieces into those before and those after. */
  lemma {:induction false} SplitAt<T>(a: seq<T>, c: T, b: seq<T>)
    ensures Split(a + [c] + b, c) == Split(a, c) + Split(b, c)
    decreases |a|
  {
    var k := Find(a, c);
    if k == |a| {
      assert c !in a;
      SplitFirst(a, c, b);
    } else {
      var head, rest := a[..k], a[k + 1..];
      calc {
        Split(a + [c] + b, c);
        { assert a + [c] + b == head + [c] + (rest + [c] + b); }
        Split(head + [c] + (rest + [c] + b), c);
        { SplitFirst(head, c, rest + [c] + b); }
        [head] + Split(rest + [c] + b, c);
        { SplitAt(rest, c, b); }
        [head] + (Split(rest, c) + Split(b, c));
        ([head] + Split(rest, c)) + Split(b, c);
        Split(a, c) + Split(b, c);
      }
    }
  }

  lemma {:induction false} JoinAppend<T>(a: seq<seq<T>>, b: seq<seq<T>>, c: T)
    requires |a| > 0 && |b| > 0
    ensures Join(a + b, c) == Join(a, c) + [c] + Join(b, c)
  {
    if |a| == 1 {
      assert (a + b)[1..] == b;
    } else {
      assert (a + b)[1..] == a[1..] + b;
      JoinAppend(a[1..], b, c);
    }
  }

  lemma {:induction false} PiecesHoldNoSeparator<T>(s: seq<T>, c: T)
    ensures forall i :: 0 <= i < |Split(s, c)| ==> c !in Split(s, c)[i]
    decreases |s|
  {
    var k := Find(s, c);
    if k < |s| {
      PiecesHoldNoSeparator(s[k + 1..], c);
    }
  }

  /** Joining the pieces gives the sequence back. */
  lemma {:induction false} JoinSplit<T>(s: seq<T>, c: T)
    ensures Join(Split(s, c), c) == s
    decreases |s|
  {
    var k := Find(s, c);
    if k < |s| {
      var rest := Split(s[k + 1..], c);
      calc {
        Join(Split(s, c), c);
        Join([s[..k]] + rest, c);
        { JoinAppend([s[..k]], rest, c); }
        s[..k] + [c] + Join(rest, c);
        { JoinSplit(s[k + 1..], c); }
        s[..k] + [c] + s[k + 1..];
        s;
      }
    }
  }

  /** Splitting joined pieces gives the pieces back when none holds a separator. */
  lemma {:induction false} SplitJoin<T>(parts: seq<seq<T>>, c: T)
    requires |parts| > 0
    requires forall i :: 0 <= i < |parts| ==> c !in parts[i]
    ensures Split(Join(parts, c), c) == parts
  {
    if |parts| == 1 {
      SplitWhole(parts[0], c);
    } else {
      SplitJoin(parts[1..], c);
      SplitFirst(parts[0], c, Join(parts[1..], c));
    }
  }
}
