/** The POSIX path helpers of Python's `os.path` that the harness uses:
    `join` with two arguments, `basename` and the root half of `splitext`. */
module PyPath {

  /** Index of the last occurrence of `c` in `s`, or -1 when there is none
      (Python's `str.rfind` for one character). */
  function LastIndexOf(s: string, c: char): (r: int)
    ensures -1 <= r < |s|
    ensures r >= 0 ==> s[r] == c
    ensures forall k :: r < k < |s| ==> s[k] != c
  {
    if s == [] then -1
    else if s[|s| - 1] == c then |s| - 1
    else LastIndexOf(s[..|s| - 1], c)
  }

  /** `os.path.join(a, b)`: an absolute `b` replaces `a`; otherwise `b` is appended,
      with a separating '/' unless `a` is empty or already ends in '/'. */
  function Join(a: string, b: string): (r: string)
    ensures |b| > 0 && b[0] == '/' ==> r == b
    ensures !(|b| > 0 && b[0] == '/') ==>
      && |a| + |b| <= |r| <= |a| + |b| + 1
      && r[..|a|] == a && r[|r| - |b|..] == b
      && (|r| == |a| + |b| + 1 <==> a != [] && a[|a| - 1] != '/')
      && (|r| == |a| + |b| + 1 ==> r[|a|] == '/')
  {
    if |b| > 0 && b[0] == '/' then b
    else if a == [] || a[|a| - 1] == '/' then a + b
    else a + "/" + b
  }

  /** `os.path.basename(p)`: everything after the last '/'. */
  function Basename(p: string): (r: string)
    ensures |r| <= |p| && r == p[|p| - |r|..]
    ensures '/' !in r
    ensures |r| == |p| || p[|p| - |r| - 1] == '/'
  {
    var i := LastIndexOf(p, '/');
    var r := p[i + 1..];
    assert |r| == |p| || p[|p| - |r| - 1] == p[i] == '/';
    assert '/' !in r by {
      forall k | 0 <= k < |r| ensures r[k] != '/' {
        assert r[k] == p[i + 1 + k];
      }
    }
    r
  }

  /** The first half of `os.path.splitext(p)`: `p` cut before its last '.', provided that
      dot lies in the last path component and is preceded there by a character other
      than '.' (so ".bashrc" and "..." keep their names); otherwise `p` itself. */
  function SplitextRoot(p: string): (r: string)
    ensures |r| <= |p| && r == p[..|r|]
    ensures r != p ==> ExtensionDot(p, |r|)
    ensures r == p ==> forall d :: 0 <= d < |p| ==> !ExtensionDot(p, d)
  {
    var sep := LastIndexOf(p, '/');
    var dot := LastIndexOf(p, '.');
    if dot > sep && exists k | sep + 1 <= k < dot :: p[k] != '.' then
      assert ExtensionDot(p, dot) by {
        var k :| sep + 1 <= k < dot && p[k] != '.';
        assert forall j :: k <= j < dot ==> p[j] != '/';
      }
      p[..dot]
    else
      assert forall d :: 0 <= d < |p| ==> !ExtensionDot(p, d) by {
        forall d | 0 <= d < |p| && ExtensionDot(p, d) ensures false {
          LastDotCuts(p, d);
        }
      }
      p
  }

  /** `d` is where `splitext` cuts: the last '.' of `p`, with no '/' after it, and
      preceded in the last path component by a character other than '.'. */
  predicate ExtensionDot(p: string, d: int) {
    && 0 <= d < |p| && p[d] == '.'
    && (forall j :: d < j < |p| ==> p[j] != '.' && p[j] != '/')
    && exists k :: 0 <= k < d && p[k] != '.' && forall j :: k <= j < d ==> p[j] != '/'
  }

  /** A cut point is found by the two `rfind`s that `splitext` performs. */
  lemma LastDotCuts(p: string, d: int)
    requires ExtensionDot(p, d)
    ensures var sep := LastIndexOf(p, '/');
      && LastIndexOf(p, '.') == d && sep < d
      && exists k | sep + 1 <= k < d :: p[k] != '.'
  {
    var sep := LastIndexOf(p, '/');
    var k :| 0 <= k < d && p[k] != '.' && forall j :: k <= j < d ==> p[j] != '/';
    assert sep + 1 <= k;
  }

  /** A file name without a directory part stays without one when its extension is cut. */
  lemma SplitextRootNoSlash(p: string)
    requires '/' !in p
    ensures '/' !in SplitextRoot(p)
  {
    var r := SplitextRoot(p);
    forall k | 0 <= k < |r| ensures r[k] != '/' {
      assert r[k] == p[k];
    }
  }

  /** Joining a directory with a plain file name (non-empty, no '/') puts the name
      last, right after `dir` and at most one separator, so that `basename` of the
      result is the name again. */
  lemma JoinPlainName(dir: string, name: string)
    requires |name| > 0 && '/' !in name
    ensures var p := Join(dir, name);
      && (p == dir + name || p == dir + "/" + name)
      && p[|p| - |name|..] == name
      && Basename(p) == name
  {
    var p := Join(dir, name);
    assert name[0] != '/' by { assert name[0] in name; }
    var d := if dir == [] || dir[|dir| - 1] == '/' then dir else dir + "/";
    assert p == d + name;
    assert p[|p| - |name|..] == name;
    assert d == [] || d[|d| - 1] == '/';
    var i := LastIndexOf(p, '/');
    forall k | |d| <= k < |p| ensures p[k] != '/' {
      assert p[k] == name[k - |d|];
    }
    assert i == |d| - 1;
    assert Basename(p) == p[|d|..];
  }
}
