/** The `posixpath` functions the trackers use, on strings. */
module Paths {

  /** A path with its trailing separator: what `join` puts before a relative name. */
  function AsDir(p: string): (r: string)
    ensures p <= r && |r| <= |p| + 1
    ensures r == "" || r[|r| - 1] == '/'
  {
    if p == "" || p[|p| - 1] == '/' then p else p + "/"
  }

  /** `os.path.join(a, b)`: an absolute `b` replaces `a`; otherwise `b` follows `a` and one separator. */
  function Join(a: string, b: string): string {
    if b != "" && b[0] == '/' then b else AsDir(a) + b
  }

  /** `os.path.basename(p)`: what follows the last separator. */
  function Basename(p: string): (r: string)
    ensures '/' !in r
    ensures |r| <= |p| && p[|p| - |r|..] == r
    ensures |r| < |p| ==> p[|p| - |r| - 1] == '/'
  {
    if p == "" || p[|p| - 1] == '/' then ""
    else Basename(p[..|p| - 1]) + [p[|p| - 1]]
  }

  /** A relative name that names one entry: non-empty and without separators. */
  predicate IsName(n: string) {
    n != "" && '/' !in n
  }

  /** Joining a directory and an entry name gives a path that does not end in a separator. */
  lemma AsDirJoin(a: string, n: string)
    requires IsName(n)
    ensures Join(a, n) == AsDir(a) + n
    ensures AsDir(Join(a, n)) == AsDir(a) + n + "/"
  {
  }

  /** `q` lies strictly below directory `p`. */
  predicate IsAncestor(p: string, q: string) {
    AsDir(p) < q
  }

  /** The base name of a directory path followed by an entry name is that name. */
  lemma {:induction false} BasenameOfChild(dir: string, n: string)
    requires dir == "" || dir[|dir| - 1] == '/'
    requires '/' !in n
    ensures Basename(dir + n) == n
    decreases |n|
  {
    if n != [] {
      var m := n[..|n| - 1];
      assert dir + n == (dir + m) + [n[|n| - 1]];
      assert (dir + n)[..|dir + n| - 1] == dir + m;
      BasenameOfChild(dir, m);
      assert m + [n[|n| - 1]] == n;
    } else {
      assert dir + n == dir;
    }
  }
}
