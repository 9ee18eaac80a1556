/** POSIX path helpers after Node's `path.extname` and the build tool's
    `changeExtension` (dirname + basename without its extension + the new
    extension), for normalized paths with '/' as the only separator. */
module Paths {

  /** The last index of `c` in `s`, or -1. */
  function LastIndexOfChar(s: string, c: char): (r: int)
    ensures -1 <= r < |s|
    ensures r >= 0 ==> s[r] == c
    ensures forall k :: r < k < |s| ==> s[k] != c
  {
    if |s| == 0 then -1
    else if s[|s| - 1] == c then |s| - 1
    else LastIndexOfChar(s[..|s| - 1], c)
  }

  /** Appending text without `c` does not move the last `c`. */
  lemma LastIndexOfCharAppend(s: string, t: string, c: char)
    requires c !in t
    ensures LastIndexOfChar(s + t, c) == LastIndexOfChar(s, c)
  {
    var r1, r2 := LastIndexOfChar(s + t, c), LastIndexOfChar(s, c);
    if r2 >= 0 {
      assert (s + t)[r2] == s[r2];
    }
    if r1 >= 0 && r1 < |s| {
      assert (s + t)[r1] == s[r1];
    }
  }

  /** The index where the last path segment starts. */
  function SegmentStart(p: string): (r: nat)
    ensures r <= |p|
  {
    LastIndexOfChar(p, '/') + 1
  }

  /** The last segment of `p` is "..". */
  predicate DotDotSegment(p: string)
  {
    var s := SegmentStart(p);
    |p| - s == 2 && p[s] == '.' && p[s + 1] == '.'
  }

  /** The last segment of `p` has no '.' after its first character. */
  predicate NoInnerDot(p: string)
  {
    forall k :: SegmentStart(p) < k < |p| ==> p[k] != '.'
  }

  /** Where `path.extname(p)` starts: the last '.' of the last segment, or
      |p| when that segment has no '.', starts with its last '.', or is "..". */
  function ExtStart(p: string): (d: nat)
    ensures d <= |p|
    ensures d < |p| ==> p[d] == '.' && SegmentStart(p) < d
    ensures forall k :: d < k < |p| ==> p[k] != '.' && p[k] != '/'
    ensures d == |p| ==> NoInnerDot(p) || DotDotSegment(p)
    ensures DotDotSegment(p) ==> d == |p|
  {
    var seg := SegmentStart(p);
    var dot := LastIndexOfChar(p, '.');
    if dot <= seg || DotDotSegment(p) then |p|
    else dot
  }

  /** `path.extname(p)`. */
  function Extname(p: string): (e: string)
    ensures |e| <= |p| && e == p[|p| - |e|..]
    ensures e != "" ==> e[0] == '.' && forall k :: 0 < k < |e| ==> e[k] != '.' && e[k] != '/'
    ensures e == "" ==> NoInnerDot(p) || DotDotSegment(p)
    ensures e != "" ==> SegmentStart(p) < |p| - |e|
    ensures DotDotSegment(p) ==> e == ""
  {
    p[ExtStart(p)..]
  }

  /** `changeExtension(p, ext)`: the path with its extension replaced by `ext`. */
  function ChangeExtension(p: string, ext: string): (r: string)
    ensures |r| >= |ext| && r[|r| - |ext|..] == ext
    ensures r[..|r| - |ext|] + Extname(p) == p
    ensures Extname(p) == "" ==> r == p + ext
  {
    p[..ExtStart(p)] + ext
  }

  /** Appending text without '.' or '/' to a path that has an extension
      keeps the extension's start. */
  lemma ExtStartAppend(p: string, t: string)
    requires ExtStart(p) < |p|
    requires '.' !in t && '/' !in t
    ensures ExtStart(p + t) == ExtStart(p)
  {
    LastIndexOfCharAppend(p, t, '/');
    LastIndexOfCharAppend(p, t, '.');
    var seg := SegmentStart(p);
    if t != "" {
      assert |p + t| - seg > 2;
    } else {
      assert p + t == p;
    }
  }

  /** Appending text without '.' or '/' to a path that has an extension
      extends that extension. */
  lemma ExtnameAppend(p: string, t: string)
    requires Extname(p) != ""
    requires '.' !in t && '/' !in t
    ensures Extname(p + t) == Extname(p) + t
  {
    ExtStartAppend(p, t);
    var d := ExtStart(p);
    assert (p + t)[d..] == p[d..] + t;
  }

  /** Replacing an extension by one of at least two characters starting with
      '.' yields a path whose extension is exactly that one. */
  lemma ExtnameOfChanged(p: string, ext: string)
    requires Extname(p) != ""
    requires |ext| >= 2 && ext[0] == '.' && '.' !in ext[1..] && '/' !in ext
    ensures Extname(ChangeExtension(p, ext)) == ext
  {
    var d := ExtStart(p);
    var stem := p[..d];
    assert p == stem + p[d..];
    LastIndexOfCharAppend(stem, p[d..], '/');
    var seg := SegmentStart(p);
    assert SegmentStart(stem) == seg;
    var q := stem + ext;
    LastIndexOfCharAppend(stem, ext, '/');
    assert SegmentStart(q) == seg;
    assert q[d] == '.';
    assert forall k :: d < k < |q| ==> q[k] == ext[k - d];
    assert LastIndexOfChar(q, '.') == d;
    assert |q| - seg > 2;
    assert ExtStart(q) == d;
    assert q[d..] == ext;
  }

  /** The shadow key of a `.ts` path has the extension `.tsoriginal`, and
      changing that extension back to `.ts` recovers the path. */
  lemma ShadowOfTs(p: string, suffix: string)
    requires Extname(p) == ".ts"
    requires '.' !in suffix && '/' !in suffix
    ensures Extname(p + suffix) == ".ts" + suffix
    ensures ChangeExtension(p + suffix, ".ts") == p
  {
    ExtnameAppend(p, suffix);
    ExtStartAppend(p, suffix);
    var d := ExtStart(p);
    assert (p + suffix)[..d] == p[..d];
    assert p[..d] + p[d..] == p;
  }

  /** Conversely, only a `.ts` path gets a `.ts` + suffix extension by
      appending the suffix. */
  lemma ShadowOfTsConverse(p: string, suffix: string)
    requires Extname(p + suffix) == ".ts" + suffix
    requires '.' !in suffix && '/' !in suffix
    ensures Extname(p) == ".ts"
  {
    var q := p + suffix;
    var d := ExtStart(q);
    assert q[d..] == ".ts" + suffix;
    assert d == |p| - 3;
    LastIndexOfCharAppend(p, suffix, '/');
    LastIndexOfCharAppend(p, suffix, '.');
    assert q[d] == '.';
    assert p[d] == '.';
    assert LastIndexOfChar(p, '.') == d;
    assert ExtStart(p) == d;
    assert p[d..] == q[d..|p|];
  }

  /** A `.ts` + suffix path is the shadow of its own `.ts` path. */
  lemma RestoreOfShadow(s: string, suffix: string)
    requires Extname(s) == ".ts" + suffix
    ensures ChangeExtension(s, ".ts") + suffix == s
    ensures Extname(ChangeExtension(s, ".ts")) == ".ts"
  {
    var d := ExtStart(s);
    assert s[d..] == ".ts" + suffix;
    assert s[..d] + ".ts" + suffix == s;
    ExtnameOfChanged(s, ".ts");
  }

  /** The three keys a successful single-file update writes for a `.ts` path
      are pairwise distinct. */
  lemma UpdateKeysDistinct(p: string)
    requires Extname(p) == ".ts"
    ensures ChangeExtension(p, ".js") != p
    ensures ChangeExtension(p, ".js") + ".map" != p
    ensures ChangeExtension(p, ".js") + ".map" != ChangeExtension(p, ".js")
  {
    var js := ChangeExtension(p, ".js");
    assert |js| == |p|;
    assert js[|js| - 2] == 'j' && p[|p| - 2] == 't';
    assert |js + ".map"| == |p| + 4;
  }
}
