/**
 * The path handling of the Word-conversion driver: every part of a document's
 * path relative to the markdown root has its square brackets (full-width and
 * half-width) turned into parentheses and its spaces removed, and the `.docx`
 * output path is derived from the processed relative path.
 */
module MarkdownToWord {
  import opened Text
  import opened PosixPath

  /** FULLWIDTH LEFT SQUARE BRACKET and FULLWIDTH RIGHT SQUARE BRACKET. */
  const FullWidthOpen: char := '\U{FF3B}'
  const FullWidthClose: char := '\U{FF3D}'

  /** The directory the Word documents are written under. */
  function ConvertedPath(markdownPath: string): string {
    markdownPath + ".converted"
  }

  /** `s.replace(a, b)` for single characters `a` and `b`. */
  function Replace(s: string, a: char, b: char): (r: string)
    ensures |r| == |s|
    ensures forall i :: 0 <= i < |s| ==> r[i] == (if s[i] == a then b else s[i])
  {
    if s == [] then [] else [if s[0] == a then b else s[0]] + Replace(s[1..], a, b)
  }

  /** `s.replace(c, '')`: `s` with every `c` deleted. */
  function Remove(s: string, c: char): (r: string)
    ensures |r| == |s| - multiset(s)[c]
    ensures c !in r
    ensures forall x :: x in r ==> x in s
  {
    if s == [] then []
    else
      assert s == [s[0]] + s[1..];
      (if s[0] == c then [] else [s[0]]) + Remove(s[1..], c)
  }

  /** The replace chain applied to one path part. */
  function NormalisePart(part: string): string {
    var fullWidth := Replace(Replace(part, FullWidthOpen, '('), FullWidthClose, ')');
    var halfWidth := Replace(Replace(fullWidth, '[', '('), ']', ')');
    Remove(halfWidth, ' ')
  }

  /** What one character of a part becomes: nothing, a parenthesis, or itself. */
  function CharImage(c: char): string {
    if c == ' ' then []
    else if c == '[' || c == FullWidthOpen then "("
    else if c == ']' || c == FullWidthClose then ")"
    else [c]
  }

  /** A one-pass reference definition of the normalisation, character by character. */
  function MapChars(s: string): string {
    if s == [] then [] else CharImage(s[0]) + MapChars(s[1..])
  }

  /** A part the normalisation leaves nothing to do in. */
  predicate IsClean(s: string) {
    forall i :: 0 <= i < |s| ==> s[i] !in {' ', '[', ']', FullWidthOpen, FullWidthClose}
  }

  /**
   * The replace chain maps every character independently and keeps the order:
   * each space disappears, each bracket becomes one parenthesis, and every
   * other character stays where it was relative to the others.
   */
  lemma {:induction false} NormaliseIsCharwise(part: string)
    ensures NormalisePart(part) == MapChars(part)
  {
    if part != [] {
      var c, rest := part[0], part[1..];
      var r1 := Replace(part, FullWidthOpen, '(');
      var r2 := Replace(r1, FullWidthClose, ')');
      var r3 := Replace(r2, '[', '(');
      var r4 := Replace(r3, ']', ')');
      var t1 := Replace(rest, FullWidthOpen, '(');
      var t2 := Replace(t1, FullWidthClose, ')');
      var t3 := Replace(t2, '[', '(');
      var t4 := Replace(t3, ']', ')');
      assert r1 == [r1[0]] + t1;
      assert r2 == [r2[0]] + t2;
      assert r3 == [r3[0]] + t3;
      assert r4 == [r4[0]] + t4;
      assert Remove(r4, ' ') == (if r4[0] == ' ' then [] else [r4[0]]) + Remove(t4, ' ');
      NormaliseIsCharwise(rest);
    }
  }

  /** A processed part contains no bracket of either width and no space. */
  lemma NormalisedIsClean(part: string)
    ensures IsClean(NormalisePart(part))
  {
    var r1 := Replace(part, FullWidthOpen, '(');
    var r2 := Replace(r1, FullWidthClose, ')');
    var r3 := Replace(r2, '[', '(');
    var r4 := Replace(r3, ']', ')');
    assert forall x :: x in r4 ==> x !in {'[', ']', FullWidthOpen, FullWidthClose} by {
      forall x | x in r4 ensures x !in {'[', ']', FullWidthOpen, FullWidthClose} {
        var i :| 0 <= i < |r4| && r4[i] == x;
        assert r4[i] == (if r3[i] == ']' then ')' else r3[i]);
        assert r3[i] == (if r2[i] == '[' then '(' else r2[i]);
        assert r2[i] == (if r1[i] == FullWidthClose then ')' else r1[i]);
      }
    }
    var n := NormalisePart(part);
    forall i | 0 <= i < |n| ensures n[i] !in {' ', '[', ']', FullWidthOpen, FullWidthClose} {
      assert n[i] in n;
    }
  }

  /** Only the spaces are lost: the processed part is shorter by their number. */
  lemma {:induction false} NormalisedLength(part: string)
    ensures |NormalisePart(part)| == |part| - multiset(part)[' ']
  {
    NormaliseIsCharwise(part);
    MapCharsLength(part);
  }

  lemma {:induction false} MapCharsLength(s: string)
    ensures |MapChars(s)| == |s| - multiset(s)[' ']
  {
    if s != [] {
      assert s == [s[0]] + s[1..];
      assert multiset(s) == multiset{s[0]} + multiset(s[1..]);
      MapCharsLength(s[1..]);
    }
  }

  lemma {:induction false} MapCharsOfClean(s: string)
    requires IsClean(s)
    ensures MapChars(s) == s
  {
    if s != [] {
      assert IsClean(s[1..]) by {
        forall i | 0 <= i < |s[1..]| ensures s[1..][i] !in {' ', '[', ']', FullWidthOpen, FullWidthClose} {
          assert s[1..][i] == s[i + 1];
        }
      }
      MapCharsOfClean(s[1..]);
      assert s[0] !in {' ', '[', ']', FullWidthOpen, FullWidthClose};
      assert s == [s[0]] + s[1..];
    }
  }

  /** Normalising an already processed part returns it unchanged. */
  lemma NormaliseIdempotent(part: string)
    ensures NormalisePart(NormalisePart(part)) == NormalisePart(part)
  {
    var n := NormalisePart(part);
    NormalisedIsClean(part);
    NormaliseIsCharwise(n);
    MapCharsOfClean(n);
  }

  /** `s.split(sep)` with an explicit one-character separator. */
  function Split(s: string, sep: char): (r: seq<string>)
    ensures |r| > 0
    ensures forall i :: 0 <= i < |r| ==> sep !in r[i]
  {
    if s == [] then [[]]
    else
      var rest := Split(s[1..], sep);
      if s[0] == sep then [[]] + rest else [[s[0]] + rest[0]] + rest[1..]
  }

  /** `sep.join(parts)`. */
  function JoinWith(parts: seq<string>, sep: char): string
    requires |parts| > 0
  {
    if |parts| == 1 then parts[0] else parts[0] + [sep] + JoinWith(parts[1..], sep)
  }

  /** Splitting loses nothing: joining the parts with the separator gives the path back. */
  lemma {:induction false} SplitJoinRoundTrip(s: string, sep: char)
    ensures JoinWith(Split(s, sep), sep) == s
  {
    if s != [] {
      var rest := Split(s[1..], sep);
      SplitJoinRoundTrip(s[1..], sep);
      if s[0] == sep {
        assert Split(s, sep)[1..] == rest;
      } else {
        var r := Split(s, sep);
        if |rest| == 1 {
          assert r == [[s[0]] + rest[0]];
        } else {
          assert r[1..] == rest[1..];
          assert JoinWith(rest, sep) == rest[0] + [sep] + JoinWith(rest[1..], sep);
        }
      }
    }
  }

  /** The path reached by joining `parts` one by one onto `root`. */
  function JoinFrom(root: string, parts: seq<string>): string {
    if parts == [] then root else Join(JoinFrom(root, parts[..|parts| - 1]), parts[|parts| - 1])
  }

  /**
   * The loop over the relative path's parts: each part is normalised, the
   * running `current_path` moves into it and the processed part is collected.
   */
  method ProcessParts(markdownPath: string, relPathParts: seq<string>)
    returns (processedParts: seq<string>, currentPath: string)
    ensures |processedParts| == |relPathParts|
    ensures forall i :: 0 <= i < |relPathParts| ==> processedParts[i] == NormalisePart(relPathParts[i])
    ensures currentPath == JoinFrom(markdownPath, processedParts)
  {
    currentPath := markdownPath;
    processedParts := [];
    for i := 0 to |relPathParts|
      invariant |processedParts| == i
      invariant forall j :: 0 <= j < i ==> processedParts[j] == NormalisePart(relPathParts[j])
      invariant currentPath == JoinFrom(markdownPath, processedParts)
    {
      var processed := NormalisePart(relPathParts[i]);
      var newPath := Join(currentPath, processed);
      JoinFromAppend(markdownPath, processedParts, processed);
      currentPath := newPath;
      processedParts := processedParts + [processed];
    }
  }

  lemma JoinFromAppend(root: string, parts: seq<string>, part: string)
    ensures JoinFrom(root, parts + [part]) == Join(JoinFrom(root, parts), part)
  {
    assert (parts + [part])[..|parts|] == parts;
  }

  /** The `.docx` file a processed relative path is converted to. */
  function OutputFile(markdownPath: string, processedRelPath: string): string {
    Join(ConvertedPath(markdownPath), SplitExt(processedRelPath).0 + ".docx")
  }

  /**
   * The output file name ends in `.docx`; before that comes the processed
   * relative path with its last extension removed, placed under the
   * converted directory.
   */
  lemma OutputFileShape(markdownPath: string, processedRelPath: string)
    ensures var out, root, ext := OutputFile(markdownPath, processedRelPath), SplitExt(processedRelPath).0, SplitExt(processedRelPath).1;
      && root + ext == processedRelPath
      && (ext == [] || ext[0] == '.')
      && (forall i :: 0 <= i < |ext| ==> ext[i] != '/')
      && |root| + 5 <= |out| && out[|out| - |root| - 5..] == root + ".docx"
      && (!StartsWith(root, "/") ==> out == ConvertedPath(markdownPath) + "/" + root + ".docx")
  {
    var root := SplitExt(processedRelPath).0;
    var conv := ConvertedPath(markdownPath);
    assert conv[|conv| - 1] == 'd';
    assert StartsWith(root, "/") <== StartsWith(root + ".docx", "/") by {
      if root == [] { assert (root + ".docx")[0] == '.'; } else { assert (root + ".docx")[0] == root[0]; }
    }
  }

  /**
   * One iteration of the driver's loop, with the renames and the conversion
   * left out: split the relative path on `/`, normalise its parts, then derive
   * the processed full path and the `.docx` output path.
   */
  method ConversionPaths(markdownPath: string, relPath: string)
    returns (processedParts: seq<string>, processedFullPath: string, outputFile: string)
    ensures |processedParts| == |Split(relPath, '/')| && |processedParts| > 0
    ensures forall i :: 0 <= i < |processedParts| ==> processedParts[i] == NormalisePart(Split(relPath, '/')[i])
    ensures processedFullPath == Join(markdownPath, JoinAll(processedParts))
    ensures outputFile == OutputFile(markdownPath, JoinAll(processedParts))
  {
    var relPathParts := Split(relPath, '/');
    var currentPath;
    processedParts, currentPath := ProcessParts(markdownPath, relPathParts);
    var processedRelPath := JoinAll(processedParts);
    processedFullPath := Join(markdownPath, processedRelPath);
    outputFile := Join(ConvertedPath(markdownPath), SplitExt(processedRelPath).0 + ".docx");
  }
}
