/** `relative`: a character scan that must come out right segment by segment. */
module PathRelative {
  import opened Splitting
  import opened PathSegments
  import opened PathResolve
  import opened PathLaws

  /** The number of leading segments two stacks share. */
  function CommonPrefix(a: seq<string>, b: seq<string>): (k: nat)
    ensures k <= |a| && k <= |b| && a[..k] == b[..k]
    ensures k == |a| || k == |b| || a[k] != b[k]
  {
    if a == [] || b == [] || a[0] != b[0] then 0 else 1 + CommonPrefix(a[1..], b[1..])
  }

  function Ups(n: nat): (ups: seq<string>)
    ensures |ups| == n && forall i :: 0 <= i < n ==> ups[i] == UP
  {
    seq(n, _ => UP)
  }

  /** One `..` per segment of `a` past the common prefix, then what is left of `b`. */
  function RelativeSegments(a: seq<string>, b: seq<string>): seq<string> {
    var k := CommonPrefix(a, b);
    Ups(|a| - k) + b[k..]
  }

  function Related(from: string, to: string): string {
    Text(RelativeSegments(Cd([], from), Cd([], to)))
  }

  // ---- the law ----

  lemma {:induction false} WalkUps(stack: seq<string>, n: nat)
    requires NoUps(stack) && n <= |stack|
    ensures Walk(stack, Ups(n), false) == stack[..|stack| - n]
  {
    if n > 0 {
      assert Ups(n)[1..] == Ups(n - 1);
      WalkUps(Rest(stack), n - 1);
      assert Rest(stack)[..|stack| - n] == stack[..|stack| - n];
    }
  }

  /** Following the relative path from `from` arrives exactly where `to` resolves. */
  lemma ResolveRelative(from: string, to: string)
    ensures Resolved([from, Related(from, to)]) == Resolved([to])
  {
    hide Walk, Text, Segments, CommonPrefix, Ups;
    var a, b := Cd([], from), Cd([], to);
    var k, r := CommonPrefix(a, b), RelativeSegments(a, b);
    CdDirectory([], from);
    CdDirectory([], to);
    CdTwo(from, Text(r));
    CdOne([], to);
    TextEmpty(r);
    if r == [] {
      assert |r| == |a| - k + |b| - k;
      assert a[..k] == a && b[..k] == b;
      WalkNothing(a, false);
    } else {
      TextSegments(r);
      WalkAppend(a, Ups(|a| - k), b[k..], false);
      WalkUps(a, |a| - k);
      WalkDown(a[..k], b[k..], false);
      assert b[..k] + b[k..] == b;
    }
  }

  // ---- the scan ----

  lemma CommonPrefixIs(a: seq<string>, b: seq<string>, k: nat)
    requires k <= |a| && k <= |b| && a[..k] == b[..k]
    requires k == |a| || k == |b| || a[k] != b[k]
    ensures CommonPrefix(a, b) == k
  {
    hide CommonPrefix;
    var j := CommonPrefix(a, b);
    assert forall i :: 0 <= i < k ==> a[i] == a[..k][i] == b[..k][i] == b[i];
    assert forall i :: 0 <= i < j ==> a[i] == a[..j][i] == b[..j][i] == b[i];
  }

  lemma FirstSegment(s: string)
    ensures Segments(s)[0] == s[..Find(s, '/')]
  {
  }

  /** Texts that part inside their first segment have different first segments. */
  lemma FirstSegmentsDiffer(f: string, t: string, m: nat)
    requires m <= |f| && m <= |t| && forall i :: 0 <= i < m ==> f[i] == t[i] != '/'
    requires m < |f| || m < |t|
    requires m < |f| && m < |t| ==> f[m] != t[m]
    requires m == |f| ==> t[m] != '/'
    requires m == |t| ==> f[m] != '/'
    ensures Segments(f)[0] != Segments(t)[0]
  {
    hide Segments, Find;
    FirstSegment(f);
    FirstSegment(t);
    var j, k := Find(f, '/'), Find(t, '/');
    assert j >= m && k >= m;
    if j == k && m < j {
      assert f[..j][m] != t[..k][m];
    }
  }

  function SlashesFrom(s: string, i: nat): nat
    decreases |s| - i
  {
    if i >= |s| then 0 else (if s[i] == '/' then 1 else 0) + SlashesFrom(s, i + 1)
  }

  lemma SplitCons(c: char, s: string)
    ensures |Segments([c] + s)| == |Segments(s)| + if c == '/' then 1 else 0
  {
    hide Split, Find;
    if c == '/' {
      SplitAt("", '/', s);
      SplitWhole("", '/');
      assert "" + ['/'] + s == [c] + s;
    } else {
      var k := Find(s, '/');
      SplitWhole(s[..k], '/');
      SplitWhole([c] + s[..k], '/');
      if k < |s| {
        SplitAt(s[..k], '/', s[k + 1..]);
        assert s[..k] + ['/'] + s[k + 1..] == s;
        SplitAt([c] + s[..k], '/', s[k + 1..]);
        assert [c] + s[..k] + ['/'] + s[k + 1..] == [c] + s;
      } else {
        assert s[..k] == s;
      }
    }
  }

  lemma {:induction false} SlashesAreSegments(s: string, i: nat)
    requires i <= |s|
    ensures |Segments(s[i..])| == SlashesFrom(s, i) + 1
    decreases |s| - i
  {
    hide Segments;
    if i == |s| {
      assert s[i..] == "";
      SegmentsSplit("");
      SplitWhole("", '/');
    } else {
      assert s[i..] == [s[i]] + s[i + 1..];
      SplitCons(s[i], s[i + 1..]);
      SlashesAreSegments(s, i + 1);
    }
  }

  /** Where the scan stops: the number of `..` still due, and the text that follows them. */
  ghost predicate Parted(a: seq<string>, b: seq<string>, ups: int, tail: string) {
    var k := CommonPrefix(a, b);
    && ups == |a| - k > 0
    && tail == if k == |b| then "" else "/" + Text(b[k..])
  }

  lemma TextAppend(a: seq<string>, b: seq<string>)
    requires a != [] && b != []
    ensures Text(a + b) == Text(a) + "/" + Text(b)
  {
    JoinAppend(a, b, '/');
  }

  lemma PartedText(a: seq<string>, b: seq<string>, ups: int, tail: string)
    requires Parted(a, b, ups, tail)
    ensures ups > 0 && Text(Ups(ups)) + tail == Text(RelativeSegments(a, b))
  {
    hide CommonPrefix, Ups, Text;
    var k := CommonPrefix(a, b);
    if k == |b| {
      assert Ups(ups) + b[k..] == Ups(ups);
      assert Text(Ups(ups)) + "" == Text(Ups(ups));
    } else {
      TextAppend(Ups(ups), b[k..]);
      assert Text(Ups(ups)) + "/" + Text(b[k..]) == Text(Ups(ups)) + ("/" + Text(b[k..]));
    }
  }

  /** The texts part after a slash at `s` that ends a whole common segment. */
  lemma PartAtSlash(a: seq<string>, b: seq<string>, s: nat)
    requires Directory(a) && Directory(b)
    requires var f, t := Text(a), Text(b);
             && s < |f| && s <= |t| && f[..s] == t[..s] && f[s] == '/' && (s < |t| ==> t[s] == '/')
             && (s < |t| ==> Segments(f[s + 1..])[0] != Segments(t[s + 1..])[0])
    ensures Parted(a, b, |Segments(Text(a)[s + 1..])|, Text(b)[s..])
  {
    hide Segments, Text, CommonPrefix;
    var f, t := Text(a), Text(b);
    TextEmpty(a);
    TextEmpty(b);
    TextSegments(a);
    var p, q := Segments(f[..s]), Segments(f[s + 1..]);
    assert f == f[..s] + "/" + f[s + 1..];
    SegmentsAt(f[..s], f[s + 1..]);
    assert f[0] != '/';
    assert t[..s] != "";
    TextSegments(b);
    if s == |t| {
      assert t[..s] == t;
      CommonPrefixIs(a, b, |p|);
      assert t[s..] == "";
    } else {
      var r := Segments(t[s + 1..]);
      assert t == t[..s] + "/" + t[s + 1..];
      SegmentsAt(t[..s], t[s + 1..]);
      CommonPrefixIs(a, b, |p|);
      assert b[|p|..] == r;
      SegmentsText(t[s + 1..]);
      assert t[s..] == "/" + t[s + 1..];
    }
  }

  lemma SegmentsAt(x: string, y: string)
    ensures Segments(x + "/" + y) == Segments(x) + Segments(y)
  {
    SplitAt(x, '/', y);
  }

  lemma SegmentsText(x: string)
    ensures Text(Segments(x)) == x
  {
    JoinSplit(x, '/');
  }

  lemma PartAtStart(a: seq<string>, b: seq<string>)
    requires Directory(a) && Directory(b) && a != [] && b != []
    requires Segments(Text(a))[0] != Segments(Text(b))[0]
    ensures Parted(a, b, |Segments(Text(a))|, "/" + Text(b))
  {
    hide Segments, Text, CommonPrefix;
    TextSegments(a);
    TextSegments(b);
    CommonPrefixIs(a, b, 0);
    assert b[0..] == b;
  }

  lemma PartAtRoot(a: seq<string>)
    requires Directory(a) && a != []
    ensures Parted(a, [], |a|, "") && SlashesFrom(Text(a), 1) + 1 == |a|
  {
    hide Text, Segments;
    CommonPrefixIs(a, [], 0);
    TextEmpty(a);
    TextSegments(a);
    SlashesAreSegments(Text(a), 0);
    assert Text(a)[0..] == Text(a);
  }

  /** `b` continues below `a`: only its own remaining segments are left. */
  lemma ContinuesBelow(a: seq<string>, b: seq<string>)
    requires Directory(a) && Directory(b)
    requires var f, t := Text(a), Text(b); |f| < |t| && t[..|f|] == f && (t[|f|] == '/' || f == "")
    ensures var f, t := Text(a), Text(b);
            Text(RelativeSegments(a, b)) == if f == "" then t else t[|f| + 1..]
  {
    hide Segments, Text, CommonPrefix;
    var f, t := Text(a), Text(b);
    TextEmpty(a);
    TextEmpty(b);
    if f == "" {
      CommonPrefixIs(a, b, 0);
      assert Ups(0) + b[0..] == b;
    } else {
      TextSegments(a);
      TextSegments(b);
      assert t == f + "/" + t[|f| + 1..];
      SegmentsAt(f, t[|f| + 1..]);
      assert b[..|a|] == a;
      CommonPrefixIs(a, b, |a|);
      assert Ups(0) + b[|a|..] == Segments(t[|f| + 1..]);
      SegmentsText(t[|f| + 1..]);
    }
  }

  /** The scan has matched the first `i` characters, the last of their slashes standing at `s`. */
  ghost predicate Matched(f: string, t: string, i: int, s: int) {
    0 <= i <= |f| && i <= |t| && f[..i] == t[..i] && s == LastBefore(f, '/', i)
  }

  lemma MatchedStep(f: string, t: string, i: int, s: int)
    requires Matched(f, t, i, s) && i < |f| && i < |t| && f[i] == t[i]
    ensures Matched(f, t, i + 1, if f[i] == '/' then i else s)
  {
    assert f[..i + 1] == f[..i] + [f[i]] && t[..i + 1] == t[..i] + [t[i]];
  }

  /** The scan stops at `i`, the last matched slash at `s`: what follows `s` parts inside its first segment. */
  lemma TailsDiffer(f: string, t: string, i: int, s: int)
    requires Matched(f, t, i, s) && (i < |f| || i < |t|) && (i < |f| && i < |t| ==> f[i] != t[i])
    requires (i == |f| ==> t[i] != '/') && (i == |t| ==> f[i] != '/')
    ensures 0 <= s + 1 <= i <= |f| && i <= |t|
    ensures Segments(f[s + 1..])[0] != Segments(t[s + 1..])[0]
    ensures s >= 0 ==> f[..s] == t[..s] && f[s] == t[s] == '/'
  {
    hide *;
    MatchedBounds(f, t, i, s);
    MatchedTails(f, t, i, s);
    var x, y, m := f[s + 1..], t[s + 1..], i - s - 1;
    TailsAgree(f, t, s + 1, m);
    assert m < |x| ==> x[m] == f[i];
    assert m < |y| ==> y[m] == t[i];
    FirstSegmentsDiffer(x, y, m);
  }

  lemma TailsAgree(f: string, t: string, d: nat, m: nat)
    requires d + m <= |f| && d + m <= |t| && forall j :: d <= j < d + m ==> f[j] == t[j] != '/'
    ensures forall j :: 0 <= j < m ==> f[d..][j] == t[d..][j] != '/'
  {
  }

  /** It stops in the first segment. */
  lemma PartInFirst(a: seq<string>, b: seq<string>, i: int)
    requires Directory(a) && Directory(b)
    requires var f, t := Text(a), Text(b);
             && Matched(f, t, i, -1) && (i < |f| || i < |t|) && (i < |f| && i < |t| ==> f[i] != t[i])
             && (i == |f| ==> t[i] != '/' && i > 0) && (i == |t| ==> f[i] != '/' && i > 0)
    ensures Parted(a, b, SlashesFrom(Text(a), 0) + 1, "/" + Text(b))
  {
    hide Segments, Parted, Text, Directory, SlashesFrom;
    var f, t := Text(a), Text(b);
    MatchedBounds(f, t, i, -1);
    TailsDiffer(f, t, i, -1);
    assert f[0..] == f && t[0..] == t;
    SlashesAreSegments(f, 0);
    NotEmpty(a);
    NotEmpty(b);
    PartAtStart(a, b);
  }

  lemma MatchedBounds(f: string, t: string, i: int, s: int)
    requires Matched(f, t, i, s)
    ensures -1 <= s < i <= |f| && i <= |t|
  {
  }

  lemma NotEmpty(a: seq<string>)
    ensures Text(a) != "" ==> a != []
  {
  }

  /** It stops in a later one. */
  lemma PartInLater(a: seq<string>, b: seq<string>, i: int, s: nat)
    requires Directory(a) && Directory(b)
    requires var f, t := Text(a), Text(b);
             && Matched(f, t, i, s) && (i < |f| || i < |t|) && (i < |f| && i < |t| ==> f[i] != t[i])
             && (i == |f| ==> t[i] != '/') && (i == |t| ==> f[i] != '/')
    ensures s <= |Text(b)| && Parted(a, b, SlashesFrom(Text(a), s + 1) + 1, Text(b)[s..])
  {
    hide Segments, Parted, Text, Directory, SlashesFrom, Matched;
    var f, t := Text(a), Text(b);
    TailsDiffer(f, t, i, s);
    SlashesAreSegments(f, s + 1);
    PartAtSlash(a, b, s);
  }

  lemma MatchedTails(f: string, t: string, i: int, s: int)
    requires Matched(f, t, i, s)
    ensures -1 <= s < i
    ensures forall j :: s < j < i ==> f[j] == t[j] != '/'
    ensures s >= 0 ==> f[..s] == t[..s] && f[s] == t[s] == '/'
  {
    hide LastBefore;
    assert forall j :: 0 <= j < i ==> f[j] == f[..i][j] == t[..i][j] == t[j];
  }

  /** The scan stopped with its last whole common segment ending at `s`, in two resolved paths. */
  ghost predicate Stopped(a: seq<string>, b: seq<string>, from: string, to: string, s: int) {
    && -1 <= s < |to| && s + 1 < |from|
    && Parted(a, b, SlashesFrom(from, s + 2) + 1, to[s + 1..])
  }

  lemma {:induction false} SlashesShift(f: string, i: nat)
    ensures SlashesFrom("/" + f, i + 1) == SlashesFrom(f, i)
    decreases |f| - i
  {
    if i < |f| { SlashesShift(f, i + 1); }
  }

  lemma StopInside(a: seq<string>, b: seq<string>, i: int, s: int)
    requires Directory(a) && Directory(b)
    requires var f, t := Text(a), Text(b);
             && Matched(f, t, i, s) && (i < |f| || i < |t|) && (i < |f| && i < |t| ==> f[i] != t[i])
             && (i == |f| ==> t[i] != '/' && i > 0) && (i == |t| ==> f[i] != '/' && i > 0)
    ensures Stopped(a, b, "/" + Text(a), "/" + Text(b), s)
  {
    hide Parted, SlashesFrom, Text, LastBefore, Directory;
    var f, t := Text(a), Text(b);
    MatchedBounds(f, t, i, s);
    SlashesShift(f, s + 1);
    if s == -1 {
      PartInFirst(a, b, i);
      assert ("/" + t)[0..] == "/" + t;
    } else {
      PartInLater(a, b, i, s);
      assert ("/" + t)[s + 1..] == t[s..];
    }
  }

  /** `b` ends exactly where a segment of `a` does. */
  lemma StopAbove(a: seq<string>, b: seq<string>)
    requires Directory(a) && Directory(b)
    requires var f, t := Text(a), Text(b); |t| < |f| && f[..|t|] == t && (f[|t|] == '/' || t == "")
    ensures Stopped(a, b, "/" + Text(a), "/" + Text(b), |Text(b)|)
  {
    hide Parted, SlashesFrom, Text;
    var f, t := Text(a), Text(b);
    TextEmpty(a);
    TextEmpty(b);
    if t == "" {
      PartAtRoot(a);
      SlashesShift(f, 1);
      assert ("/" + t)[1..] == "";
    } else {
      assert t[..|t|] == t;
      PartAtSlash(a, b, |t|);
      SlashesAreSegments(f, |t| + 1);
      SlashesShift(f, |t| + 1);
      assert ("/" + t)[|t| + 1..] == t[|t|..];
    }
  }

  /** Skips the slashes after the root of a path. */
  method SkipSlashes(path: string) returns (start: nat)
    requires path != ""
    ensures 1 <= start <= |path|
    ensures start > 1 ==> path[1] == '/'
    ensures |path| > 1 && path[1] == '/' ==> start > 1
  {
    start := 1;
    while start < |path|
      invariant 1 <= start <= |path|
      invariant start > 1 ==> path[1] == '/'
    {
      if path[start] != '/' { break; }
      start := start + 1;
    }
  }

  /** One `..` per segment that ends at or after `start`. */
  method UpText(from: string, start: nat) returns (out: string)
    requires start <= |from|
    ensures out == Text(Ups(SlashesFrom(from, start) + 1)) && |out| > 0
  {
    hide Text, Ups;
    UpsText(0);
    out := "";
    ghost var n := 0;
    var i := start;
    while i <= |from|
      invariant start <= i <= |from| + 1
      invariant out == Text(Ups(n)) && (out == "" <==> n == 0)
      invariant n + (if i <= |from| then SlashesFrom(from, i) + 1 else 0) == SlashesFrom(from, start) + 1
    {
      if i == |from| || from[i] == '/' {
        UpsText(n);
        if |out| == 0 { out := out + ".."; } else { out := out + "/.."; }
        n := n + 1;
      }
      i := i + 1;
    }
  }

  lemma UpsText(n: nat)
    ensures Text(Ups(0)) == ""
    ensures Text(Ups(n + 1)) == if n == 0 then ".." else Text(Ups(n)) + "/.."
  {
    hide Text;
    assert Ups(0) == [];
    TextIsEmpty();
    assert Ups(n + 1) == Ups(n) + [UP];
    TextPush(Ups(n), UP);
  }

  /** `relative` as the two scans of the source: match characters, then count the segments left. */
  method Relative(from0: string, to0: string) returns (r: string)
    ensures r == Related(from0, to0)
  {
    hide *;
    if from0 == to0 {
      RelatedSame(from0, to0);
      return "";
    }
    var from := Resolve([from0]);
    var to := Resolve([to0]);
    ResolvedOne(from0);
    ResolvedOne(to0);
    if from == to {
      assert from[1..] == Text(Cd([], from0)) && to[1..] == Text(Cd([], to0));
      RelatedSame(from0, to0);
      return "";
    }
    var fromStart := SkipSlashes(from);
    var toStart := SkipSlashes(to);
    r := Scan(Cd([], from0), Cd([], to0), from, to, fromStart, toStart);
    RelatedIs(from0, to0);
  }

  /** The scans over two different resolved paths. */
  method Scan(ghost a: seq<string>, ghost b: seq<string>, from: string, to: string, fromStart: nat, toStart: nat)
    returns (r: string)
    requires Directory(a) && Directory(b) && a != b
    requires from == "/" + Text(a) && to == "/" + Text(b)
    requires 1 <= fromStart <= |from| && (fromStart > 1 ==> from[1] == '/')
    requires 1 <= toStart <= |to| && (toStart > 1 ==> to[1] == '/')
    ensures r == Text(RelativeSegments(a, b))
  {
    hide *;
    ghost var f, t := Text(a), Text(b);
    ScanFacts(a, b);
    assert fromStart == 1 && toStart == 1;
    var fromLen, toLen := |from| - fromStart, |to| - toStart;
    var length := if fromLen < toLen then fromLen else toLen;
    var lastCommonSep, i := -1, 0;
    while i <= length
      invariant 0 <= i <= length
      invariant Matched(f, t, i, lastCommonSep)
      decreases length - i
    {
      MatchedPrefix(f, t, i, lastCommonSep);
      if i == length {
        if toLen > length {
          if to[toStart + i] == '/' {
            ContinuesBelow(a, b);
            return to[toStart + i + 1..];
          } else if i == 0 {
            ContinuesBelow(a, b);
            return to[toStart + i..];
          }
          StopInside(a, b, i, lastCommonSep);
        } else if fromLen > length {
          if from[fromStart + i] == '/' {
            StopAbove(a, b);
            lastCommonSep := i;
          } else if i == 0 {
            StopAbove(a, b);
            lastCommonSep := 0;
          } else {
            StopInside(a, b, i, lastCommonSep);
          }
        }
        break;
      }
      var fromCode, toCode := from[fromStart + i], to[toStart + i];
      if fromCode != toCode {
        StopInside(a, b, i, lastCommonSep);
        break;
      } else {
        MatchedStep(f, t, i, lastCommonSep);
        if fromCode == '/' { lastCommonSep := i; }
      }
      i := i + 1;
    }
    StoppedFacts(a, b, from, to, lastCommonSep);
    var out := UpText(from, fromStart + lastCommonSep + 1);
    if |out| > 0 {
      return out + to[toStart + lastCommonSep..];
    } else {
      assert false;  // at least one segment of `from` is left
    }
  }

  lemma ScanFacts(a: seq<string>, b: seq<string>)
    requires Directory(a) && Directory(b) && a != b
    ensures var f, t := Text(a), Text(b);
            && (f != "" ==> f[0] != '/') && (t != "" ==> t[0] != '/') && f != t && Matched(f, t, 0, -1)
  {
    hide Text;
    TextEmpty(a);
    TextEmpty(b);
    if Text(a) == Text(b) { TextInjective(a, b); }
  }

  lemma MatchedPrefix(f: string, t: string, i: int, s: int)
    requires Matched(f, t, i, s)
    ensures i <= |f| && i <= |t| && f[..i] == t[..i] && (i == |f| ==> t[..i] == f) && (i == |t| ==> f[..i] == t)
    ensures i == |f| == |t| ==> f == t
  {
    assert f[..|f|] == f && t[..|t|] == t;
  }

  lemma StoppedFacts(a: seq<string>, b: seq<string>, from: string, to: string, s: int)
    requires Stopped(a, b, from, to, s)
    ensures -1 <= s < |to| && s + 2 <= |from|
    ensures Text(Ups(SlashesFrom(from, s + 2) + 1)) + to[s + 1..] == Text(RelativeSegments(a, b))
  {
    PartedText(a, b, SlashesFrom(from, s + 2) + 1, to[s + 1..]);
  }

  lemma RelatedSame(from: string, to: string)
    requires from == to || Text(Cd([], from)) == Text(Cd([], to))
    ensures Related(from, to) == ""
  {
    hide Walk;
    var a, b := Cd([], from), Cd([], to);
    CdDirectory([], from);
    CdDirectory([], to);
    if from != to { TextInjective(a, b); }
    CommonPrefixIs(a, a, |a|);
    assert Ups(0) + a[|a|..] == [];
  }

  lemma ResolvedOne(path: string)
    ensures Resolved([path]) == "/" + Text(Cd([], path))
    ensures Directory(Cd([], path))
  {
    CdOne([], path);
    CdDirectory([], path);
  }

  lemma RelatedIs(from: string, to: string)
    ensures Related(from, to) == Text(RelativeSegments(Cd([], from), Cd([], to)))
  {
  }

  lemma TextInjective(a: seq<string>, b: seq<string>)
    requires Directory(a) && Directory(b) && Text(a) == Text(b)
    ensures a == b
  {
    NormalOfText(a, false);
    NormalOfText(b, false);
  }
}
