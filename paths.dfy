/**
 * The three POSIX path operations the program relies on: joining a
 * directory and a file name, taking a path's directory part and taking its
 * extension, with the rules of Python's `posixpath` (`/` as the separator).
 */
module Paths {

  /** The index of the last `c` in `s`, or -1 when there is none (`str.rfind`). */
  function LastIndexOf(s: string, c: char): (r: int)
    ensures -1 <= r < |s|
    ensures r == -1 <==> c !in s
    ensures r >= 0 ==> s[r] == c
    ensures forall k :: r < k < |s| ==> s[k] != c
  {
    if s == [] then -1
    else if s[|s| - 1] == c then |s| - 1
    else LastIndexOf(s[..|s| - 1], c)
  }

  predicate AllSlashes(s: string) {
    forall k :: 0 <= k < |s| ==> s[k] == '/'
  }

  /** `s.rstrip('/')`. */
  function StripTrailingSlashes(s: string): (r: string)
    ensures |r| <= |s| && r == s[..|r|]
    ensures r == [] || r[|r| - 1] != '/'
    ensures forall k :: |r| <= k < |s| ==> s[k] == '/'
  {
    if s != [] && s[|s| - 1] == '/' then StripTrailingSlashes(s[..|s| - 1]) else s
  }

  /** `os.path.join(a, b)` for two components. */
  function Join(a: string, b: string): string {
    if b != [] && b[0] == '/' then b
    else if a == [] || a[|a| - 1] == '/' then a + b
    else a + "/" + b
  }

  /**
   * `os.path.dirname(p)`: everything up to the last `/`, with trailing
   * slashes removed unless it consists of slashes only.
   */
  function Dirname(p: string): (r: string)
    ensures |r| <= |p| && r == p[..|r|]
    ensures r == [] <==> '/' !in p
    ensures DirShape(r)
    ensures var head := p[..LastIndexOf(p, '/') + 1];
      |r| <= |head| && r == head[..|r|] && AllSlashes(head[|r|..])
    ensures var head := p[..LastIndexOf(p, '/') + 1]; AllSlashes(head) ==> r == head
  {
    var i := LastIndexOf(p, '/');
    var head := p[..i + 1];
    if head != [] && !AllSlashes(head) then
      var r := StripTrailingSlashes(head);
      assert r != [] by {
        var k :| 0 <= k < |head| && head[k] != '/';
      }
      assert AllSlashes(head[|r|..]) by {
        forall k | 0 <= k < |head| - |r| ensures head[|r|..][k] == '/' { assert head[|r|..][k] == head[|r| + k]; }
      }
      assert '/' in p by { assert p[i] == '/'; }
      r
    else
      assert head == [] <==> '/' !in p by { if i >= 0 { assert p[i] == '/'; } }
      assert head[|head|..] == [];
      head
  }

  /** The shapes `Dirname` returns: empty, slashes only, or not ending in `/`. */
  predicate DirShape(d: string) {
    d == [] || AllSlashes(d) || d[|d| - 1] != '/'
  }

  /** `os.path.splitext(p)[1]`: from the last dot of the last component, unless that component is all dots before it. */
  function Extension(p: string): string {
    var sep := LastIndexOf(p, '/');
    var dot := LastIndexOf(p, '.');
    if dot > sep && HasNonDot(p[sep + 1..dot]) then p[dot..] else []
  }

  /** An extension is empty, or a dot followed by neither dots nor slashes, and ends the path. */
  lemma ExtensionShape(p: string)
    ensures var r := Extension(p);
      && |r| <= |p| && r == p[|p| - |r|..]
      && (r == [] || (r[0] == '.' && '.' !in r[1..] && '/' !in r))
  {
    var sep := LastIndexOf(p, '/');
    var dot := LastIndexOf(p, '.');
    if dot > sep && HasNonDot(p[sep + 1..dot]) {
      SuffixAfterLastDot(p, dot, sep);
    }
  }

  /** The suffix from the last dot, past the last `/`, holds no further dot and no `/`. */
  lemma SuffixAfterLastDot(p: string, dot: int, sep: int)
    requires -1 <= sep < dot < |p| && p[dot] == '.'
    requires forall k :: dot < k < |p| ==> p[k] != '.'
    requires forall k :: sep < k < |p| ==> p[k] != '/'
    ensures var r := p[dot..]; r[0] == '.' && '.' !in r[1..] && '/' !in r
  {
    var r := p[dot..];
    forall k | 0 <= k < |r| - 1 ensures r[1..][k] != '.' { assert r[1..][k] == p[dot + 1 + k]; }
    forall k | 0 <= k < |r| ensures r[k] != '/' { assert r[k] == p[dot + k]; }
  }

  predicate HasNonDot(s: string) {
    exists k :: 0 <= k < |s| && s[k] != '.'
  }

  /** A file name joined onto a directory is what `Dirname` gives back. */
  lemma DirnameOfJoin(d: string, f: string)
    requires DirShape(d) && '/' !in f
    ensures Dirname(Join(d, f)) == d
  {
    var j := Join(d, f);
    var i := LastIndexOf(j, '/');
    if d == [] {
      assert j == f;
    } else if d[|d| - 1] == '/' {
      assert j == d + f;
      assert j[|d| - 1] == '/';
      forall k | |d| <= k < |j| ensures j[k] != '/' { assert j[k] == f[k - |d|]; }
      assert i == |d| - 1;
      assert j[..i + 1] == d;
    } else {
      assert j == d + "/" + f;
      assert j[|d|] == '/';
      forall k | |d| < k < |j| ensures j[k] != '/' { assert j[k] == f[k - |d| - 1]; }
      assert i == |d|;
      var head := j[..i + 1];
      assert head == d + "/";
      assert !AllSlashes(head) by { assert head[|d| - 1] != '/'; }
      var r := StripTrailingSlashes(head);
      assert head[|d|] == '/' && head[|d| - 1] != '/';
      assert |r| == |d|;
    }
  }

  /** Joining a file name leaves it as the part after the last `/`. */
  lemma JoinEndsWithName(d: string, f: string)
    requires f != [] && '/' !in f
    ensures var j := Join(d, f); j[LastIndexOf(j, '/') + 1..] == f
  {
    var j := Join(d, f);
    var pre := j[..|j| - |f|];
    assert j == pre + f;
    assert pre == [] || pre[|pre| - 1] == '/';
    forall k | |pre| <= k < |j| ensures j[k] != '/' { assert j[k] == f[k - |pre|]; }
    if pre != [] {
      assert j[|pre| - 1] == '/';
    }
  }

  /** Appending text without `c` does not move the last `c`. */
  lemma LastIndexOfAppend(q: string, t: string, c: char)
    requires c !in t
    ensures LastIndexOf(q + t, c) == LastIndexOf(q, c)
  {
    var p := q + t;
    forall k | |q| <= k < |p| ensures p[k] != c { assert p[k] == t[k - |q|]; }
    var i := LastIndexOf(q, c);
    if i >= 0 { assert p[i] == c; }
  }

  /** A dot followed by no other dot is the last dot. */
  lemma LastDotOfExtension(q: string, ext: string)
    requires ext != [] && ext[0] == '.' && '.' !in ext[1..]
    ensures LastIndexOf(q + ext, '.') == |q|
  {
    var p := q + ext;
    forall k | |q| < k < |p| ensures p[k] != '.' { assert p[k] == ext[1..][k - |q| - 1]; }
    assert p[|q|] == '.';
  }

  /** The extension read off from where the last `/` and the last dot are. */
  lemma ExtensionAt(p: string, sep: int, dot: int)
    requires LastIndexOf(p, '/') == sep && LastIndexOf(p, '.') == dot && sep < dot
    requires HasNonDot(p[sep + 1..dot])
    ensures Extension(p) == p[dot..]
  {
  }

  /**
   * Appending an extension to a name with a non-dot character keeps it as
   * the extension of the joined path.
   */
  lemma ExtensionOfJoin(d: string, stem: string, ext: string)
    requires stem != [] && '/' !in stem && HasNonDot(stem)
    requires ext != [] && ext[0] == '.' && '.' !in ext[1..] && '/' !in ext
    ensures Extension(Join(d, stem + ext)) == ext
  {
    var q := Join(d, stem);
    var p := q + ext;
    assert Join(d, stem + ext) == p by { assert (stem + ext)[0] == stem[0]; }
    var sep := LastIndexOf(q, '/');
    assert q[sep + 1..] == stem by { JoinEndsWithName(d, stem); }
    assert LastIndexOf(p, '/') == sep by { LastIndexOfAppend(q, ext, '/'); }
    assert LastIndexOf(p, '.') == |q| by { LastDotOfExtension(q, ext); }
    assert p[sep + 1..|q|] == stem;
    assert p[|q|..] == ext;
    ExtensionAt(p, sep, |q|);
  }
}
