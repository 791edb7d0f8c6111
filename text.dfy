/**
 * Character and string helpers that stand in for Python's built-in string
 * operations and for the regular-expression classes the tools use.
 */
module Text {

  /**
   * Python's `str.isspace`, which is also the class `\s` matches in a `str`
   * pattern and the set `str.strip()` removes.
   */
  predicate IsSpace(c: char) {
    || c == ' '
    || ('\t' <= c <= '\r')
    || ('\U{1C}' <= c <= '\U{1F}')
    || c == '\U{85}' || c == '\U{A0}' || c == '\U{1680}'
    || ('\U{2000}' <= c <= '\U{200A}')
    || c == '\U{2028}' || c == '\U{2029}' || c == '\U{202F}' || c == '\U{205F}' || c == '\U{3000}'
  }

  /** An ASCII decimal digit, the part of `\d` the model covers. */
  predicate IsDigit(c: char) {
    '0' <= c <= '9'
  }

  /** The number of copies of `c` that `s` starts with. */
  function LeadingCount(s: string, c: char): (k: nat)
    ensures k <= |s|
    ensures forall i :: 0 <= i < k ==> s[i] == c
    ensures k == |s| || s[k] != c
  {
    if s != [] && s[0] == c then 1 + LeadingCount(s[1..], c) else 0
  }

  /** The number of ASCII digits `s` starts with. */
  function LeadingDigits(s: string): (k: nat)
    ensures k <= |s|
    ensures forall i :: 0 <= i < k ==> IsDigit(s[i])
    ensures k == |s| || !IsDigit(s[k])
  {
    if s != [] && IsDigit(s[0]) then 1 + LeadingDigits(s[1..]) else 0
  }

  predicate StartsWith(s: string, prefix: string) {
    |prefix| <= |s| && s[..|prefix|] == prefix
  }

  /** The number of whitespace characters `s` starts with. */
  function LeadingSpaces(s: string): (k: nat)
    ensures k <= |s|
    ensures k == |s| || !IsSpace(s[k])
  {
    if s != [] && IsSpace(s[0]) then 1 + LeadingSpaces(s[1..]) else 0
  }

  /** The number of whitespace characters `s` ends with. */
  function TrailingSpaces(s: string): (k: nat)
    ensures k <= |s|
    ensures k == |s| || !IsSpace(s[|s| - k - 1])
  {
    if s != [] && IsSpace(s[|s| - 1]) then 1 + TrailingSpaces(s[..|s| - 1]) else 0
  }

  /** `str.lstrip()`: the suffix of `s` that starts at its first non-space character. */
  function LStrip(s: string): (r: string)
    ensures r == [] || !IsSpace(r[0])
  {
    s[LeadingSpaces(s)..]
  }

  /** `str.rstrip()`: the prefix of `s` that ends at its last non-space character. */
  function RStrip(s: string): (r: string)
    ensures r == [] || !IsSpace(r[|r| - 1])
  {
    s[..|s| - TrailingSpaces(s)]
  }

  /** `str.strip()`. */
  function Strip(s: string): string {
    RStrip(LStrip(s))
  }

  /**
   * `re.match(r'^\s*$', s.strip())`: every character of `s` is whitespace
   * (lemma `BlankIffStripEmpty`).
   */
  predicate IsBlank(s: string) {
    s == [] || (IsSpace(s[0]) && IsBlank(s[1..]))
  }

  /** A line is blank exactly when its whitespace prefix is all of it. */
  lemma {:induction false} BlankIffAllLeading(s: string)
    ensures IsBlank(s) <==> LeadingSpaces(s) == |s|
  {
    if s != [] {
      BlankIffAllLeading(s[1..]);
    }
  }

  /** A line that is all trailing whitespace starts with whitespace, unless it is empty. */
  lemma {:induction false} AllTrailingStartsWithSpace(s: string)
    requires s != [] && TrailingSpaces(s) == |s|
    ensures IsSpace(s[0])
  {
    if |s| > 1 {
      AllTrailingStartsWithSpace(s[..|s| - 1]);
    }
  }

  /** The test the source writes, on the stripped line, agrees with `IsBlank`. */
  lemma BlankIffStripEmpty(s: string)
    ensures IsBlank(s) <==> Strip(s) == []
  {
    BlankIffAllLeading(s);
    var r := LStrip(s);
    if r != [] && RStrip(r) == [] {
      AllTrailingStartsWithSpace(r);
    }
  }

  /** A line is blank exactly when every character of it is whitespace. */
  lemma {:induction false} BlankIffAllSpace(s: string)
    ensures IsBlank(s) <==> forall i :: 0 <= i < |s| ==> IsSpace(s[i])
  {
    if s != [] {
      BlankIffAllSpace(s[1..]);
      assert forall i :: 1 <= i < |s| ==> s[i] == s[1..][i - 1];
    }
  }

  /** A line whose first non-space character exists is not blank. */
  lemma NotBlankWhenLStripNonEmpty(s: string)
    requires LStrip(s) != []
    ensures !IsBlank(s)
  {
  }

  /** `w` occurs in `s` starting at index `q`. */
  predicate OccursAt(w: string, s: string, q: nat) {
    q + |w| <= |s| && s[q..q + |w|] == w
  }

  /** `w in s` for Python strings: `w` occurs as a contiguous substring of `s`. */
  predicate Occurs(w: string, s: string) {
    exists q: nat | q <= |s| :: OccursAt(w, s, q)
  }

  /** A text that lacks the first character of `w` has no occurrence of `w`. */
  lemma NoOccursWithoutFirstChar(w: string, s: string)
    requires w != [] && w[0] !in s
    ensures !Occurs(w, s)
  {
    forall q: nat | q <= |s| ensures !OccursAt(w, s, q) {
      if q + |w| <= |s| {
        assert s[q..q + |w|][0] == s[q];
      }
    }
  }

  /**
   * An occurrence of `w` in `x + y` lies in `x`, in `y`, or straddles the
   * seam; a seam character that `w` does not contain rules the last case out.
   */
  lemma NoOccursConcat(w: string, x: string, y: string)
    requires !Occurs(w, x) && !Occurs(w, y)
    requires x == [] || y == [] || x[|x| - 1] !in w || y[0] !in w
    ensures !Occurs(w, x + y)
  {
    var s := x + y;
    forall q: nat | q <= |s| && q + |w| <= |s| ensures !OccursAt(w, s, q) {
      var t := s[q..q + |w|];
      if q + |w| <= |x| {
        assert t == x[q..q + |w|];
        assert !OccursAt(w, x, q);
      } else if q >= |x| {
        assert s[|x|..] == y;
        assert t == s[|x|..][q - |x|..q - |x| + |w|];
        assert !OccursAt(w, y, q - |x|);
      } else {
        assert t[|x| - 1 - q] == x[|x| - 1];
        assert t[|x| - q] == y[0];
      }
    }
  }

  /** The character of a single decimal digit. */
  function DigitChar(d: nat): (c: char)
    requires d < 10
    ensures IsDigit(c)
  {
    ('0' as int + d) as char
  }

  /** `str(n)` for a non-negative integer: its decimal digits, without leading zeros. */
  function NatToString(n: nat): (r: string)
    ensures |r| > 0
    ensures forall i :: 0 <= i < |r| ==> IsDigit(r[i])
    ensures n >= 10 ==> |r| >= 2
  {
    if n < 10 then [DigitChar(n)] else NatToString(n / 10) + [DigitChar(n % 10)]
  }

  /** Different numbers have different decimal spellings. */
  lemma {:induction false} NatToStringInjective(a: nat, b: nat)
    requires NatToString(a) == NatToString(b)
    ensures a == b
  {
    if a >= 10 && b >= 10 {
      var sa, sb := NatToString(a), NatToString(b);
      assert sa[..|sa| - 1] == NatToString(a / 10);
      assert sb[..|sb| - 1] == NatToString(b / 10);
      NatToStringInjective(a / 10, b / 10);
      assert DigitChar(a % 10) == sa[|sa| - 1] == sb[|sb| - 1] == DigitChar(b % 10);
    }
  }
}
