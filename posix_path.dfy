/**
 * The parts of Python's `posixpath` (`os.path` on POSIX) that the tools use
 * to derive names: `basename`, `splitext` and `join`.
 */
module PosixPath {
  import opened Text

  /** `s.rfind(c)`: the index of the last `c` in `s`, or -1 when there is none. */
  function LastIndexOf(s: string, c: char): (r: int)
    ensures -1 <= r < |s|
    ensures r >= 0 ==> s[r] == c
    ensures forall i :: r < i < |s| ==> s[i] != c
  {
    LastIndexBelow(s, c, |s|)
  }

  /** The index of the last `c` in `s[..hi]`, or -1. */
  function LastIndexBelow(s: string, c: char, hi: nat): (r: int)
    requires hi <= |s|
    ensures -1 <= r < hi
    ensures r >= 0 ==> s[r] == c
    ensures forall i :: r < i < hi ==> s[i] != c
  {
    if hi == 0 then -1
    else if s[hi - 1] == c then hi - 1
    else LastIndexBelow(s, c, hi - 1)
  }

  /** Text appended after the last `c` does not move it. */
  lemma {:induction false} LastIndexOfAppend(a: string, b: string, c: char)
    requires c !in b
    ensures LastIndexOf(a + b, c) == LastIndexOf(a, c)
    decreases |b|
  {
    if b == [] {
      assert a + b == a;
    } else {
      var b' := b[..|b| - 1];
      assert (a + b)[..|a + b| - 1] == a + b';
      assert (a + b)[|a + b| - 1] == b[|b| - 1];
      LastIndexOfAppend(a, b', c);
    }
  }

  /** `os.path.basename(p)`: what follows the last `/`. */
  function Basename(p: string): (r: string)
    ensures '/' !in r
  {
    p[LastIndexOf(p, '/') + 1..]
  }

  /** The base name is the suffix of `p` after its last `/`. */
  lemma BasenameSuffix(p: string)
    ensures var r := Basename(p);
      && |r| <= |p| && r == p[|p| - |r|..]
      && (|p| - |r| == 0 || p[|p| - |r| - 1] == '/')
  {
  }

  /**
   * `os.path.splitext(p)` as `genericpath._splitext` computes it: the
   * extension runs from the last `.` after the last `/`, unless everything
   * between that `/` and the dot is itself dots, in which case there is none.
   */
  function SplitExt(p: string): (r: (string, string))
    ensures r.1 == [] || r.1[0] == '.'
    ensures forall i :: 0 <= i < |r.1| ==> r.1[i] != '/'
    ensures forall i :: 0 < i < |r.1| ==> r.1[i] != '.'
  {
    var sep := LastIndexOf(p, '/');
    var dot := LastIndexOf(p, '.');
    if dot > sep && exists j | sep + 1 <= j < dot :: p[j] != '.' then
      assert forall i :: 0 <= i < |p[dot..]| ==> p[dot..][i] == p[dot + i];
      (p[..dot], p[dot..])
    else
      (p, [])
  }

  /** Root and extension together give back the path. */
  lemma SplitExtConcat(p: string)
    ensures SplitExt(p).0 + SplitExt(p).1 == p
  {
  }

  /** `os.path.join(a, b)` on POSIX. */
  function Join(a: string, b: string): (r: string)
    ensures |b| <= |r| && r[|r| - |b|..] == b
  {
    if StartsWith(b, "/") then b
    else if a == [] || a[|a| - 1] == '/' then a + b
    else a + "/" + b
  }

  /** `os.path.join(*parts)`: `Join` folded from the left; Python rejects an empty argument list. */
  function JoinAll(parts: seq<string>): string
    requires |parts| > 0
  {
    if |parts| == 1 then parts[0] else Join(JoinAll(parts[..|parts| - 1]), parts[|parts| - 1])
  }
}
