/** The parts of a path, told by how the path is written. */
module PathWritten {
  import opened PathSegments
  import opened PathResolve
  import opened PathParts
  import opened PathPartLaws

  /** A part, what stands before it, which ends in a slash if it is anything, and slashes behind it. */
  predicate Parts(path: string, head: string, part: string, tail: string) {
    && path == head + part + tail && part != "" && '/' !in part
    && (head == "" || EndsWithSlash(head)) && AllSlashes(tail)
  }

  lemma PartsFound(path: string, head: string, part: string, tail: string)
    requires Parts(path, head, part, tail)
    ensures PartStart(path) == |head| && PartEnd(path) == |head| + |part| && Base(path) == part
    ensures path[..|head|] == head && path[|head|..] == part + tail
    ensures IsAbsolute(path) <==> IsAbsolute(head)
  {
    var i, end := |head| - 1, |head| + |part|;
    assert forall j :: |head| <= j < end ==> path[j] == part[j - |head|];
    assert forall j :: 0 <= j < |head| ==> path[j] == head[j];
    assert forall j :: end <= j < |path| ==> path[j] == tail[j - end];
    assert path[end - 1] == part[|part| - 1] && part[|part| - 1] in part;
    assert forall j :: |head| <= j < end ==> path[j] in part;
    PartFound(path, i, end);
    assert path[|head|..end] == part;
  }

  /** Every path is made like that, or of slashes alone. */
  lemma PartsOf(path: string) returns (head: string, part: string, tail: string)
    ensures AllSlashes(path) || Parts(path, head, part, tail)
  {
    hide PartStart, PartEnd;
    Decompose(path);
    var start, end := PartStart(path), PartEnd(path);
    head, part, tail := path[..start], Base(path), path[end..];
    if end == 0 { assert path[0..] == path; }
  }

  /** A path of slashes alone has no part. */
  lemma OnlySlashes(path: string)
    requires AllSlashes(path)
    ensures PartStart(path) == PartEnd(path) == 0 && Base(path) == ""
    ensures Dir(path) == if path == "" then "." else "/"
    ensures ParsedPath(path) == if path == "" then Parsed("", "", "", "", "") else Parsed("/", "/", "", "", "")
  {
    NoPart(path);
    assert LastBefore(path, '/', 0) == -1;
    assert path[0..0] == "" && LastIndexOf("", '.') == -1;
  }

  /** `dirname` is what stands before the last part, without its last slash, but for a relative path of one part and
      for one or two slashes. */
  lemma DirWritten(path: string, head: string, part: string, tail: string)
    requires Parts(path, head, part, tail)
    ensures Base(path) == part
    ensures Dir(path) == if head == "" then "." else if head == "/" || head == "//" then head else head[..|head| - 1]
  {
    hide PartStart, PartEnd;
    PartsFound(path, head, part, tail);
    if head != "" {
      assert path[..|head| - 1] == head[..|head| - 1];
      if |head| == 2 && IsAbsolute(head) { assert head == "//"; }
      if |head| == 1 { assert head == "/"; }
    }
  }

  // ---- extensions ----

  /** What follows the last dot, the dot included, if anything stands before it, and the whole is not `..`. */
  lemma ExtWritten(stem: string, ext: string)
    requires '.' !in ext
    ensures stem != "" && stem + "." + ext != ".." ==> Ext(stem + "." + ext) == "." + ext
    ensures Ext("." + ext) == "" && Ext(ext) == "" && Ext("..") == ""
  {
    var base := stem + "." + ext;
    assert base[|stem|] == '.';
    assert forall i :: |stem| < i < |base| ==> base[i] == ext[i - |stem| - 1];
    LastIndexIs(base, '.', |stem|);
    assert base[|stem|..] == "." + ext;
    var bare := "." + ext;
    assert bare[0] == '.' && forall i :: 0 < i < |bare| ==> bare[i] == ext[i - 1];
    LastIndexIs(bare, '.', 0);
    if LastIndexOf(ext, '.') >= 0 { assert false; }
  }

  /** Every text is made like that. */
  lemma ExtCases(base: string) returns (stem: string, ext: string)
    ensures '.' !in ext && (base == stem + "." + ext || (base == ext && stem == ""))
  {
    var dot := LastIndexOf(base, '.');
    if dot < 0 {
      stem, ext := "", base;
    } else {
      stem, ext := base[..dot], base[dot + 1..];
      assert forall i :: 0 <= i < |ext| ==> ext[i] == base[dot + 1 + i];
    }
  }

  lemma UpFromRootNamed(path: string)
    requires PartStart(path) == 1 && Base(path) == ".."
    ensures ParsedPath(path).ext == "."
  {
    hide PartStart, PartEnd, ExtAt;
    assert ".."[1..] == ".";
  }

  lemma RootWritten(path: string, head: string, part: string, tail: string)
    requires Parts(path, head, part, tail)
    ensures var p := ParsedPath(path);
            && p.root == (if IsAbsolute(head) then "/" else "") && p.base == part
            && p.dir == (if |head| >= 2 then head[..|head| - 1] else head)
  {
    PartsFound(path, head, part, tail);
    hide PartStart, PartEnd, NameLength, Base;
    if head != "" { assert path[..|head| - 1] == head[..|head| - 1]; }
    if |head| == 1 { assert head == "/"; }
  }

  lemma NamesWritten(path: string, head: string, part: string, tail: string)
    requires Parts(path, head, part, tail)
    ensures var p := ParsedPath(path);
            p.name + p.ext == part && p.ext == if head == "/" && part == ".." then "." else Ext(part)
  {
    PartsFound(path, head, part, tail);
    ParseAgrees(path);
    UpFromRootMeans(path);
    if PartStart(path) == 1 && part == ".." { UpFromRootNamed(path); }
    hide PartStart, PartEnd, Ext, ParsedPath, Base, UpFromRoot;
    if |head| == 1 { assert head == "/"; }
  }

  /** `parse` tells the root, the directory, the part, and its name and extension, which it gets wrong only for
      `/..`. */
  lemma ParseWritten(path: string, head: string, part: string, tail: string)
    requires Parts(path, head, part, tail)
    ensures var p := ParsedPath(path);
            && p.root == (if IsAbsolute(head) then "/" else "") && p.base == part
            && p.dir == (if |head| >= 2 then head[..|head| - 1] else head)
            && p.name + p.ext == part && p.ext == if head == "/" && part == ".." then "." else Ext(part)
  {
    hide Parts, ParsedPath, Ext;
    RootWritten(path, head, part, tail);
    NamesWritten(path, head, part, tail);
  }

  /** `format` takes the base, or else the name and the extension, and puts it behind the directory, or else the root;
      with a slash between them unless the directory is the root, or there is none. */
  lemma FormatWritten(p: Parsed)
    ensures p.base == "" ==> Format(p) == Format(p.(base := p.name + p.ext))
    ensures p.base != "" ==>
              && (p.dir == "" ==> Format(p) == p.root + p.base)
              && (p.dir != "" && p.dir == p.root ==> Format(p) == p.dir + p.base)
              && (p.dir != "" && p.dir != p.root ==> Format(p) == p.dir + "/" + p.base)
    ensures p.base == "" && p.name == "" && p.ext == "" ==>
              Format(p) == if p.dir == "" then p.root else if p.dir == p.root then p.dir else p.dir + "/"
  {
  }

  /** What `basename` answers where it is not the last part less a proper suffix. */
  lemma QuirkWritten(path: string, head: string, part: string, tail: string, ext: string)
    requires Parts(path, head, part, tail) && SuffixQuirk(path, ext)
    ensures BaseWithout(path, ext) == if ext == path then "" else part + tail
  {
    hide PartStart, PartEnd;
    PartsFound(path, head, part, tail);
  }
}
