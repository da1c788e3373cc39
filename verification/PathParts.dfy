/** `dirname`, `basename`, `extname`, `parse` and `format`: right-to-left scans for the last part of a path. */
module PathParts {
  import opened PathSegments
  import opened PathResolve

  predicate AllSlashes(s: string) { forall i :: 0 <= i < |s| ==> s[i] == '/' }

  /** End of the last part before `n`: just past its last character that is not a slash, or 0. */
  function EndBefore(path: string, n: nat): (e: nat)
    requires n <= |path|
    ensures e <= n
    ensures e > 0 ==> path[e - 1] != '/'
    ensures forall i :: e <= i < n ==> path[i] == '/'
  {
    if n == 0 || path[n - 1] != '/' then n else EndBefore(path, n - 1)
  }

  function PartEnd(path: string): (end: nat)
    ensures end <= |path|
  {
    EndBefore(path, |path|)
  }

  function PartStart(path: string): (start: nat)
    ensures start <= PartEnd(path)
  {
    LastBefore(path, '/', PartEnd(path)) + 1
  }

  /** The last part of a path, what `basename` answers. */
  function Base(path: string): string { path[PartStart(path)..PartEnd(path)] }

  /** What `dirname` answers. */
  function Dir(path: string): string {
    var start := PartStart(path);
    if start >= 2 then if IsAbsolute(path) && start == 2 then "//" else path[..start - 1]
    else if IsAbsolute(path) then "/"
    else "."
  }

  /** Position of the dot that starts the extension of `base`, or its length when it has none. */
  function ExtAt(base: string): (at: nat)
    ensures at <= |base|
  {
    var dot := LastIndexOf(base, '.');
    if dot <= 0 || base == ".." then |base| else dot
  }

  function Ext(base: string): string { base[ExtAt(base)..] }

  predicate HasSuffix(s: string, suffix: string) { |suffix| <= |s| && s[|s| - |suffix|..] == suffix }

  /** What `basename(path, ext)` answers. */
  function BaseWithout(path: string, ext: string): string {
    var base := Base(path);
    if ext == "" || |ext| > |path| then base
    else if ext == path then ""
    else if HasSuffix(base, ext) then if base == ext then base else base[..|base| - |ext|]
    else if HasSuffix(ext, base) then path[PartStart(path)..]
    else base
  }

  /** What `basename(path, ext)` is documented to answer: the last part, less a proper suffix `ext`. */
  function WithoutSuffix(base: string, ext: string): string {
    if HasSuffix(base, ext) && base != ext then base[..|base| - |ext|] else base
  }

  datatype Parsed = Parsed(root: string, dir: string, base: string, ext: string, name: string)

  /** `/..`, perhaps with slashes behind it: the one path whose dots `parse` splits. */
  predicate UpFromRoot(path: string) { |path| >= 3 && path[..3] == "/.." && AllSlashes(path[3..]) }

  function NameLength(path: string): (n: nat)
    ensures n <= |Base(path)|
  {
    if PartStart(path) == 1 && Base(path) == ".." then 1 else ExtAt(Base(path))
  }

  /** What `parse` answers. */
  function ParsedPath(path: string): Parsed {
    var start, base := PartStart(path), Base(path);
    Parsed(
      if IsAbsolute(path) then "/" else "",
      if start >= 2 then path[..start - 1] else if IsAbsolute(path) then "/" else "",
      base,
      base[NameLength(path)..],
      base[..NameLength(path)])
  }

  function Or(a: string, b: string): string { if a != "" then a else b }

  function Format(p: Parsed): string {
    var dir, base := Or(p.dir, p.root), Or(p.base, p.name + p.ext);
    if dir == "" then base
    else if dir == p.root then dir + base
    else dir + "/" + base
  }

  // ---- the scans ----

  /** The last part, once the scan has come down to index `i`. */
  lemma PartFound(path: string, i: int, end: int)
    requires -1 <= i && i + 1 < end <= |path| && path[end - 1] != '/' && AllSlashes(path[end..])
    requires forall j :: i < j < end ==> path[j] != '/'
    requires i >= 0 ==> path[i] == '/'
    ensures PartEnd(path) == end && PartStart(path) == i + 1
  {
    assert forall j :: end <= j < |path| ==> path[j] == path[end..][j - end];
  }

  lemma NoPart(path: string)
    requires AllSlashes(path)
    ensures PartEnd(path) == 0 && PartStart(path) == 0 && Base(path) == ""
  {
  }

  method Dirname(path: string) returns (r: string)
    ensures r == if path == "" then "." else Dir(path)
  {
    if |path| == 0 { return "."; }
    var code := path[0];
    var hasRoot, end, matchedSlash := code == '/', -1, true;
    var i := |path| - 1;
    ghost var stop := -1;
    while i >= 1
      invariant 0 <= i < |path| && end == -1
      invariant matchedSlash ==> AllSlashes(path[i + 1..])
      invariant !matchedSlash ==> i + 1 < stop <= |path| && path[stop - 1] != '/' && AllSlashes(path[stop..])
      invariant !matchedSlash ==> forall j :: i < j < stop ==> path[j] != '/'
    {
      code := path[i];
      if code == '/' {
        if !matchedSlash {
          end := i;
          PartFound(path, i, stop);
          break;
        }
      } else {
        if matchedSlash { stop := i + 1; }
        matchedSlash := false;
      }
      i := i - 1;
    }
    if end == -1 {
      if matchedSlash && hasRoot {
        assert forall j :: 1 <= j < |path| ==> path[j] == path[1..][j - 1];
        NoPart(path);
      } else if matchedSlash {
        assert AllSlashes(path[1..]);
        PartFound(path, -1, 1);
      } else {
        PartFound(path, if hasRoot then 0 else -1, stop);
      }
      return if hasRoot then "/" else ".";
    }
    if hasRoot && end == 1 { return "//"; }
    return path[..end];
  }

  /** `basename` with no second argument. */
  method Basename(path: string) returns (r: string)
    ensures r == Base(path)
  {
    var start, end, matchedSlash := 0, -1, true;
    var i := |path| - 1;
    while i >= 0
      invariant -1 <= i < |path| && start == 0 && matchedSlash == (end == -1)
      invariant end == -1 ==> AllSlashes(path[i + 1..])
      invariant end != -1 ==> PartOpen(path, i, end)
    {
      if path[i] == '/' {
        if !matchedSlash {
          start := i + 1;
          break;
        }
      } else if end == -1 {
        matchedSlash, end := false, i + 1;
      }
      i := i - 1;
    }
    if end == -1 {
      assert path[0..] == path;
      NoPart(path);
      return "";
    }
    PartFound(path, start - 1, end);
    return path[start..end];
  }

  /** The scan is inside the last part, which ends at `end`; the next index to look at is `i`. */
  predicate PartOpen(path: string, i: int, end: int) {
    && -1 <= i && i + 1 < end <= |path|
    && path[end - 1] != '/' && AllSlashes(path[end..])
    && forall j :: i < j < end ==> path[j] != '/'
  }

  lemma OpenFacts(path: string, i: int, end: int)
    requires PartOpen(path, i, end)
    ensures -1 <= i && i + 1 < end <= |path|
  {
  }

  lemma OpenStart(path: string, i: int)
    requires 0 <= i < |path| && path[i] != '/' && AllSlashes(path[i + 1..])
    ensures PartOpen(path, i - 1, i + 1)
  {
  }

  lemma OpenStep(path: string, i: int, end: int)
    requires PartOpen(path, i, end) && i >= 0 && path[i] != '/'
    ensures PartOpen(path, i - 1, end)
  {
  }

  lemma OpenEnd(path: string, i: int, end: int)
    requires PartOpen(path, i, end) && (i >= 0 ==> path[i] == '/')
    ensures PartEnd(path) == end && PartStart(path) == i + 1
  {
    PartFound(path, i, end);
  }

  lemma SlashesMore(path: string, i: int)
    requires 0 <= i < |path| && path[i] == '/' && AllSlashes(path[i + 1..])
    ensures AllSlashes(path[i..])
  {
    assert path[i..] == [path[i]] + path[i + 1..];
  }

  lemma SlashesAll(path: string)
    ensures AllSlashes(path[|path|..])
    ensures AllSlashes(path[0..]) ==> AllSlashes(path)
  {
    assert path[0..] == path;
  }

  /** How far the suffix comparison has come: still matching, matched, or failed. */
  predicate Comparing(path: string, ext: string, i: int, stop: int, extIdx: int, end: int)
    requires 0 <= i + 1 <= stop <= |path|
  {
    var seen := path[i + 1..stop];
    if extIdx >= 0 then extIdx == |ext| - 1 - |seen| && end == -1 && HasSuffix(ext, seen)
    else extIdx == -1 && |seen| > 0
         && if HasSuffix(seen, ext) then end == stop - |ext| else end == stop && !HasSuffix(ext, seen)
  }

  lemma CompareStep(path: string, ext: string, i: int, stop: int, extIdx: int, end: int)
    requires 0 <= i < stop <= |path| && 0 < |ext|
    requires Comparing(path, ext, i, stop, extIdx, end)
    ensures var matches := extIdx >= 0 && path[i] == ext[extIdx];
            Comparing(path, ext, i - 1, stop,
                      if extIdx < 0 || !matches then -1 else extIdx - 1,
                      if extIdx < 0 then end else if !matches then stop else if extIdx == 0 then i else -1)
  {
    var seen, more := path[i + 1..stop], path[i..stop];
    assert more == [path[i]] + seen;
    SuffixStep(seen, path[i], ext);
    if extIdx >= 0 && path[i] == ext[extIdx] && extIdx > 0 {
      assert ext[extIdx..] == [ext[extIdx]] + ext[extIdx + 1..];
    }
    if extIdx == 0 && path[i] == ext[0] {
      assert ext == [ext[0]] + ext[1..];
    }
  }

  /** Extending a text to the left: when it has, or is, a suffix. */
  lemma SuffixStep(seen: string, c: char, ext: string)
    ensures HasSuffix(seen, ext) ==> HasSuffix([c] + seen, ext)
    ensures HasSuffix([c] + seen, ext) && |ext| <= |seen| ==> HasSuffix(seen, ext)
    ensures HasSuffix(ext, [c] + seen) ==> HasSuffix(ext, seen) && ext[|ext| - 1 - |seen|] == c
    ensures |ext| == |seen| + 1 ==> (HasSuffix([c] + seen, ext) <==> ext == [c] + seen)
  {
    var more := [c] + seen;
    if |ext| <= |seen| {
      assert more[|more| - |ext|..] == seen[|seen| - |ext|..];
    }
    if HasSuffix(ext, more) {
      assert ext[|ext| - |more|..] == more;
      assert ext[|ext| - |seen|..] == ext[|ext| - |more|..][1..];
      assert ext[|ext| - 1 - |seen|] == ext[|ext| - |more|..][0];
    }
    if |ext| == |more| { assert more[0..] == more; }
  }

  lemma CompareStart(path: string, ext: string, i: int)
    requires 0 <= i <= |path| && ext != ""
    ensures Comparing(path, ext, i - 1, i, |ext| - 1, -1)
  {
    assert path[i..i] == "" && ext[|ext|..] == "";
  }

  /** The answer read off a finished comparison. */
  lemma CompareEnd(path: string, ext: string, start: int, stop: int, extIdx: int, end: int)
    requires 0 <= start < stop <= |path| && Comparing(path, ext, start - 1, stop, extIdx, end)
    requires PartEnd(path) == stop && PartStart(path) == start && 0 < |ext| <= |path| && ext != path
    ensures var last := if start == end then stop else if end == -1 then |path| else end;
            start <= last <= |path| && BaseWithout(path, ext) == path[start..last]
  {
    hide PartStart, PartEnd;
    var base := path[start..stop];
    assert Base(path) == base;
    if HasSuffix(base, ext) {
      assert |ext| == |base| ==> base[0..] == base;
      assert base[..|base| - |ext|] == path[start..stop - |ext|];
    }
  }

  lemma NoPartWithout(path: string, ext: string)
    requires AllSlashes(path) && 0 < |ext| <= |path| && ext != path
    ensures BaseWithout(path, ext) == path[0..|path|]
  {
    NoPart(path);
    assert ext[|ext|..] == "" && path[0..] == path[0..|path|];
  }

  /** `basename` with a suffix to drop. */
  method BasenameWithout(path: string, ext: string) returns (r: string)
    ensures r == BaseWithout(path, ext)
  {
    hide *;
    var start, end, matchedSlash := 0, -1, true;
    WithoutEdge(path, ext);
    SlashesAll(path);
    if |ext| > 0 && |ext| <= |path| {
      if |ext| == |path| && ext == path { return ""; }
      var extIdx, firstNonSlashEnd := |ext| - 1, -1;
      var i := |path| - 1;
      while i >= 0
        invariant -1 <= i < |path| && start == 0 && matchedSlash == (firstNonSlashEnd == -1)
        invariant matchedSlash ==> AllSlashes(path[i + 1..]) && extIdx == |ext| - 1 && end == -1
        invariant !matchedSlash ==> 0 <= i + 1 < firstNonSlashEnd <= |path| && PartOpen(path, i, firstNonSlashEnd)
        invariant !matchedSlash ==> Comparing(path, ext, i, firstNonSlashEnd, extIdx, end)
      {
        var code := path[i];
        if code == '/' {
          if !matchedSlash {
            start := i + 1;
            break;
          }
          SlashesMore(path, i);
        } else {
          if firstNonSlashEnd == -1 {
            matchedSlash, firstNonSlashEnd := false, i + 1;
            CompareStart(path, ext, i + 1);
            OpenStart(path, i);
          } else {
            OpenStep(path, i, firstNonSlashEnd);
          }
          CompareStep(path, ext, i, firstNonSlashEnd, extIdx, end);
          CompareFacts(path, ext, i, firstNonSlashEnd, extIdx, end);
          if extIdx >= 0 {
            if code == ext[extIdx] {
              extIdx := extIdx - 1;
              if extIdx == -1 { end := i; }
            } else {
              extIdx, end := -1, firstNonSlashEnd;
            }
          }
        }
        i := i - 1;
      }
      if matchedSlash {
        NoPartWithout(path, ext);
      } else {
        OpenEnd(path, start - 1, firstNonSlashEnd);
        CompareEnd(path, ext, start, firstNonSlashEnd, extIdx, end);
      }
      if start == end { end := firstNonSlashEnd; }
      else if end == -1 { end := |path|; }
      return path[start..end];
    } else {
      r := Basename(path);
    }
  }

  lemma WithoutEdge(path: string, ext: string)
    ensures ext == "" || |ext| > |path| ==> BaseWithout(path, ext) == Base(path)
    ensures ext != "" && ext == path ==> BaseWithout(path, ext) == ""
  {
  }

  lemma CompareFacts(path: string, ext: string, i: int, stop: int, extIdx: int, end: int)
    requires 0 <= i + 1 <= stop <= |path| && Comparing(path, ext, i, stop, extIdx, end)
    ensures -1 <= extIdx < |ext| && (extIdx >= 0 ==> end == -1)
  {
  }

  /** What the `preDotState` counter says of a part in which the last dot is at `dot`, seen down to `i + 1`. */
  function PreDot(path: string, i: int, dot: int): int
    requires -1 <= i && i + 1 < |path|
  {
    if dot == -1 || dot == i + 1 then 0 else if path[i + 1] == '.' then 1 else -1
  }

  /** The dots seen in `path[i + 1..end]`. */
  predicate DotsSeen(path: string, i: int, end: int, startDot: int, preDotState: int) {
    && -1 <= i && i + 1 < end <= |path|
    && (startDot == -1 || (i < startDot < end && path[startDot] == '.'))
    && (forall j :: (if startDot == -1 then i else startDot) < j < end ==> path[j] != '.')
    && preDotState == PreDot(path, i, startDot)
  }

  lemma DotsStart(path: string, i: int)
    requires 0 <= i < |path|
    ensures DotsSeen(path, i - 1, i + 1, if path[i] == '.' then i else -1, 0)
  {
  }

  lemma DotsStep(path: string, i: int, end: int, startDot: int, preDotState: int)
    requires DotsSeen(path, i, end, startDot, preDotState) && i >= 0
    ensures preDotState == 0 || startDot != -1
    ensures DotsSeen(path, i - 1, end,
                     if path[i] == '.' && startDot == -1 then i else startDot,
                     if startDot == -1 then preDotState else if path[i] == '.' then 1 else -1)
  {
  }

  /** What the scan notes at a character `c` of the part. */
  method NoteDot(path: string, i: int, end0: int, startDot0: int, preDotState0: int)
    returns (end: int, startDot: int, preDotState: int)
    requires 0 <= i < |path| && path[i] != '/'
    requires end0 == -1 ==> AllSlashes(path[i + 1..]) && startDot0 == -1 && preDotState0 == 0
    requires end0 != -1 ==> PartOpen(path, i, end0) && DotsSeen(path, i, end0, startDot0, preDotState0)
    ensures end > 0 && PartOpen(path, i - 1, end) && DotsSeen(path, i - 1, end, startDot, preDotState)
  {
    hide *;
    end, startDot, preDotState := end0, startDot0, preDotState0;
    if end == -1 {
      end := i + 1;
      OpenStart(path, i);
      DotsStart(path, i);
    } else {
      OpenStep(path, i, end);
      DotsStep(path, i, end, startDot, preDotState);
      OpenFacts(path, i, end);
    }
    if path[i] == '.' {
      if startDot == -1 { startDot := i; }
      else if preDotState != 1 { preDotState := 1; }
    } else if startDot != -1 {
      preDotState := -1;
    }
  }

  /** The loop that `extname` and `parse` share; `parse` keeps it off the root slash. */
  method ScanPart(path: string, lowest: nat) returns (startDot: int, startPart: int, end: int, preDotState: int)
    requires lowest <= 1 && (lowest == 1 ==> path != "" && path[0] == '/')
    ensures PartEnd(path) == (if end == -1 then 0 else end) && (end == -1 ==> startDot == -1) && end >= -1
    ensures startPart == PartStart(path) || (startPart == 0 && PartStart(path) == lowest == 1)
    ensures lowest == 1 ==> startPart != 1
    ensures end != -1 ==> DotsSeen(path, PartStart(path) - 1, end, startDot, preDotState) && end != 0
  {
    hide *;
    startDot, startPart, end, preDotState := -1, 0, -1, 0;
    var matchedSlash := true;
    SlashesAll(path);
    var i := |path| - 1;
    while i >= lowest
      invariant lowest - 1 <= i < |path| && startPart == 0 && matchedSlash == (end == -1)
      invariant end == -1 ==> AllSlashes(path[i + 1..]) && startDot == -1 && preDotState == 0
      invariant end != -1 ==> end > 0 && PartOpen(path, i, end) && DotsSeen(path, i, end, startDot, preDotState)
    {
      if path[i] == '/' {
        if !matchedSlash {
          startPart := i + 1;
          OpenEnd(path, i, end);
          return;
        }
        SlashesMore(path, i);
        i := i - 1;
        continue;
      }
      end, startDot, preDotState := NoteDot(path, i, end, startDot, preDotState);
      matchedSlash := false;
      i := i - 1;
    }
    if end == -1 {
      if lowest == 1 { SlashesMore(path, 0); }
      NoPart(path);
    } else {
      OpenEnd(path, lowest - 1, end);
    }
  }

  /** What the two scanners test before they report an extension. */
  predicate NoExtension(startDot: int, startPart: int, end: int, preDotState: int) {
    startDot == -1 || end == -1 || preDotState == 0
    || (preDotState == 1 && startDot == end - 1 && startDot == startPart + 1)
  }

  /** The dots seen in a part say where its extension starts. */
  lemma DotsSay(path: string, start: int, end: int, startDot: int, preDotState: int)
    requires 0 <= start < end <= |path| && DotsSeen(path, start - 1, end, startDot, preDotState)
    ensures var base := path[start..end];
            && (NoExtension(startDot, start, end, preDotState) ==> ExtAt(base) == |base|)
            && (!NoExtension(startDot, start, end, preDotState) ==> startDot > start && ExtAt(base) == startDot - start)
            && (start == 1 ==> (NoExtension(startDot, 0, end, preDotState) <==>
                                NoExtension(startDot, 1, end, preDotState) && base != ".."))
            && (base == ".." ==> startDot == start + 1)
  {
    var base := path[start..end];
    assert forall j :: 0 <= j < |base| ==> base[j] == path[start + j];
    DotAt(base, if startDot == -1 then -1 else startDot - start);
    if startDot == start + 1 && startDot == end - 1 && preDotState == 1 {
      assert base == "..";
    }
  }

  lemma DotAt(base: string, dot: int)
    requires -1 <= dot < |base| && (dot >= 0 ==> base[dot] == '.')
    requires forall j :: dot < j < |base| ==> base[j] != '.'
    ensures LastIndexOf(base, '.') == dot
  {
  }

  lemma NoBase(path: string)
    requires PartEnd(path) == 0
    ensures Base(path) == "" && Ext("") == "" && PartStart(path) == 0 && NameLength(path) == 0
  {
  }

  method Extname(path: string) returns (r: string)
    ensures r == Ext(Base(path))
  {
    hide PartEnd, PartStart, DotsSeen, NoExtension, ExtAt;
    var startDot, startPart, end, preDotState := ScanPart(path, 0);
    if end == -1 {
      NoBase(path);
    } else {
      PartBounds(path);
      DotsSay(path, startPart, end, startDot, preDotState);
    }
    if end == -1 || NoExtension(startDot, startPart, end, preDotState) { return ""; }
    ghost var base := Base(path);
    assert base[startDot - startPart..] == path[startDot..end];
    return path[startDot..end];
  }

  lemma PartBounds(path: string)
    requires PartEnd(path) > 0
    ensures PartStart(path) < PartEnd(path) <= |path|
    ensures PartStart(path) > 0 ==> path[PartStart(path) - 1] == '/'
    ensures forall j :: PartStart(path) <= j < PartEnd(path) ==> path[j] != '/'
    ensures AllSlashes(path[PartEnd(path)..])
  {
  }

  /** The pieces `parse` slices out of the path, once the dots have been counted. */
  lemma ParsedSlices(path: string, startDot: int, startPart: int, end: int, preDotState: int)
    requires PartEnd(path) == end > 0 && DotsSeen(path, PartStart(path) - 1, end, startDot, preDotState)
    requires startPart == PartStart(path) || (startPart == 0 && PartStart(path) == 1 && IsAbsolute(path))
    requires IsAbsolute(path) ==> startPart != 1
    ensures var p, start := ParsedPath(path), PartStart(path);
            && start < end && p.base == path[start..end]
            && (NoExtension(startDot, startPart, end, preDotState) ==> p.name == path[start..end] && p.ext == "")
            && (!NoExtension(startDot, startPart, end, preDotState) ==>
                  start < startDot < end && p.name == path[start..startDot] && p.ext == path[startDot..end])
  {
    hide PartEnd, PartStart, DotsSeen, NoExtension, ExtAt;
    PartBounds(path);
    var start, base := PartStart(path), Base(path);
    DotsSay(path, start, end, startDot, preDotState);
    DotBounds(path, PartStart(path) - 1, end, startDot, preDotState);
    RootIsSlash(path);
    var n := NameLength(path);
    assert base[..n] == path[start..start + n] && base[n..] == path[start + n..end];
    assert NoExtension(startDot, startPart, end, preDotState) ==> n == |base|;
  }

  lemma DotBounds(path: string, i: int, end: int, startDot: int, preDotState: int)
    requires DotsSeen(path, i, end, startDot, preDotState)
    ensures startDot == -1 || i < startDot < end
    ensures startDot == -1 ==> NoExtension(startDot, i + 1, end, preDotState)
  {
  }

  lemma RootIsSlash(path: string)
    ensures PartStart(path) == 1 ==> IsAbsolute(path)
    ensures IsAbsolute(path) && PartEnd(path) > 0 ==> PartStart(path) > 0
    ensures path != "" ==> (IsAbsolute(path) <==> path[0] == '/')
  {
  }

  lemma ParsedSides(path: string)
    ensures var p := ParsedPath(path);
            && p.root == (if IsAbsolute(path) then "/" else "")
            && (PartStart(path) >= 2 ==> p.dir == path[..PartStart(path) - 1])
            && (PartStart(path) < 2 ==> p.dir == if IsAbsolute(path) then "/" else "")
  {
    hide PartStart, PartEnd, NameLength, IsAbsolute;
  }

  lemma ParsedNothing(path: string)
    requires PartEnd(path) == 0
    ensures var p := ParsedPath(path);
            PartStart(path) == 0 && p.base == "" && p.name == "" && p.ext == ""
  {
    hide PartStart, PartEnd, NameLength, IsAbsolute;
    NoBase(path);
  }

  method Parse(path: string) returns (ret: Parsed)
    ensures ret == ParsedPath(path)
  {
    hide *;
    ret := Parsed("", "", "", "", "");
    if |path| == 0 {
      NothingParsed();
      return;
    }
    ParsedSides(path);
    RootIsSlash(path);
    var isAbsolute, start := path[0] == '/', 0;
    if isAbsolute { ret, start := ret.(root := "/"), 1; }
    var startDot, startPart, end, preDotState := ScanPart(path, start);
    if end == -1 { ParsedNothing(path); } else { ParsedSlices(path, startDot, startPart, end, preDotState); }
    if end == -1 || NoExtension(startDot, startPart, end, preDotState) {
      if end != -1 {
        var base := if startPart == 0 && isAbsolute then path[1..end] else path[startPart..end];
        ret := ret.(base := base, name := base);
      }
    } else {
      var from := if startPart == 0 && isAbsolute then 1 else startPart;
      ret := ret.(name := path[from..startDot], base := path[from..end], ext := path[startDot..end]);
    }
    if startPart > 0 { ret := ret.(dir := path[..startPart - 1]); }
    else if isAbsolute { ret := ret.(dir := "/"); }
  }

  lemma NothingParsed()
    ensures ParsedPath("") == Parsed("", "", "", "", "")
  {
  }
}
