/**
 * The image-line handling that `Yuque._handle_markdown` and
 * `YuqueImageDownloder._download_images` share: the two regular expressions
 * they match a line against, the local name they derive for an image and
 * the link they write in place of the line.
 */
module ImageLinks {
  import opened Wrappers
  import opened Text
  import opened PosixPath

  /** The index of the first newline in `s` at `i` or later, or `|s|` when there is none. */
  function NewlineFrom(s: string, i: nat): (k: nat)
    requires i <= |s|
    ensures i <= k <= |s|
    ensures k == |s| || s[k] == '\n'
    decreases |s| - i
  {
    if i == |s| || s[i] == '\n' then i else NewlineFrom(s, i + 1)
  }

  /** No newline comes between `i` and `NewlineFrom(s, i)`. */
  lemma {:induction false} NewlineFromFirst(s: string, i: nat)
    requires i <= |s|
    ensures forall j :: i <= j < NewlineFrom(s, i) ==> s[j] != '\n'
    decreases |s| - i
  {
    if i < |s| && s[i] != '\n' {
      NewlineFromFirst(s, i + 1);
    }
  }

  /** `yuque` occurs in `s` at index `q`, spelled out character by character. */
  predicate YuqueAt(s: string, q: nat) {
    q + 5 <= |s| && s[q] == 'y' && s[q + 1] == 'u' && s[q + 2] == 'q' && s[q + 3] == 'u' && s[q + 4] == 'e'
  }

  lemma YuqueAtOccurs(s: string, q: nat)
    ensures YuqueAt(s, q) <==> OccursAt("yuque", s, q)
  {
    if q + 5 <= |s| {
      var t := s[q..q + 5];
      assert forall i :: 0 <= i < 5 ==> t[i] == s[q + i];
      if YuqueAt(s, q) {
        assert forall i :: 0 <= i < 5 ==> t[i] == "yuque"[i];
      }
    }
  }

  /**
   * `re.match(r"!\[(.*?)\].*yuque", line)`: the line starts with `![`, and
   * before its first newline a `]` at index 2 or later is followed,
   * somewhere later, by `yuque`.
   */
  predicate IsImageLine(line: string) {
    var k := NewlineFrom(line, 0);
    && 2 <= k && line[0] == '!' && line[1] == '['
    && exists j, q | 2 <= j < q && q + 5 <= k :: line[j] == ']' && YuqueAt(line, q)
  }

  /** The alternatives of `(jpeg|jpg|gif|png|svg|webp)`. */
  datatype ImageFormat = Jpeg | Jpg | Gif | Png | Svg | Webp

  function Spelling(f: ImageFormat): string {
    match f
    case Jpeg => "jpeg"
    case Jpg => "jpg"
    case Gif => "gif"
    case Png => "png"
    case Svg => "svg"
    case Webp => "webp"
  }

  /** No spelling holds a dot, a slash or any letter of `yuque`. */
  lemma SpellingChars(f: ImageFormat)
    ensures 3 <= |Spelling(f)| <= 4
    ensures '.' !in Spelling(f) && '/' !in Spelling(f) && 'y' !in Spelling(f)
  {
  }

  /** The alternative `f` occurs in `s` at index `q`, spelled out character by character. */
  predicate SpelledAt(s: string, q: nat, f: ImageFormat) {
    match f
    case Jpeg => q + 4 <= |s| && s[q] == 'j' && s[q + 1] == 'p' && s[q + 2] == 'e' && s[q + 3] == 'g'
    case Jpg => q + 3 <= |s| && s[q] == 'j' && s[q + 1] == 'p' && s[q + 2] == 'g'
    case Gif => q + 3 <= |s| && s[q] == 'g' && s[q + 1] == 'i' && s[q + 2] == 'f'
    case Png => q + 3 <= |s| && s[q] == 'p' && s[q + 1] == 'n' && s[q + 2] == 'g'
    case Svg => q + 3 <= |s| && s[q] == 's' && s[q + 1] == 'v' && s[q + 2] == 'g'
    case Webp => q + 4 <= |s| && s[q] == 'w' && s[q + 1] == 'e' && s[q + 2] == 'b' && s[q + 3] == 'p'
  }

  /** `SpelledAt` is an occurrence of the alternative's spelling. */
  lemma SpelledAtOccurs(s: string, q: nat, f: ImageFormat)
    ensures SpelledAt(s, q, f) <==> OccursAt(Spelling(f), s, q)
  {
    var w := Spelling(f);
    SpellingChars(f);
    if q + |w| <= |s| {
      var t := s[q..q + |w|];
      assert t[0] == s[q] && t[1] == s[q + 1] && t[2] == s[q + 2];
      assert |w| == 4 ==> t[3] == s[q + 3];
      if SpelledAt(s, q, f) {
        forall i | 0 <= i < |w|
          ensures t[i] == w[i]
        {
          assert i == 0 || i == 1 || i == 2 || i == 3;
        }
      }
    }
  }

  /** The first alternative, in the order the pattern tries them, that occurs in `s` at index `q`. */
  function FormatAt(s: string, q: nat): (r: Option<ImageFormat>)
    ensures r.Some? ==> SpelledAt(s, q, r.value)
    ensures r.None? ==> forall f: ImageFormat :: !SpelledAt(s, q, f)
  {
    if SpelledAt(s, q, Jpeg) then Some(Jpeg)
    else if SpelledAt(s, q, Jpg) then Some(Jpg)
    else if SpelledAt(s, q, Gif) then Some(Gif)
    else if SpelledAt(s, q, Png) then Some(Png)
    else if SpelledAt(s, q, Svg) then Some(Svg)
    else if SpelledAt(s, q, Webp) then Some(Webp)
    else None
  }

  /** At most one alternative fits at a position, so the order they are tried in does not matter. */
  lemma FormatsExclusive(s: string, q: nat, f1: ImageFormat, f2: ImageFormat)
    requires SpelledAt(s, q, f1) && SpelledAt(s, q, f2)
    ensures f1 == f2
  {
  }

  /** `https://` occurs in `line` at index `s`, spelled out character by character. */
  predicate HttpsAt(line: string, s: nat) {
    && s + 8 <= |line|
    && line[s] == 'h' && line[s + 1] == 't' && line[s + 2] == 't' && line[s + 3] == 'p'
    && line[s + 4] == 's' && line[s + 5] == ':' && line[s + 6] == '/' && line[s + 7] == '/'
  }

  /** `\.(jpeg|jpg|gif|png|svg|webp)` matches at `d`. */
  predicate DotAt(line: string, d: nat) {
    d < |line| && line[d] == '.' && FormatAt(line, d + 1).Some?
  }

  /**
   * `https://.*?\.(jpeg|…)` matches from `s` with its `\.` at `d`: `.*?`
   * covers `line[s + 8..d]`, which holds no newline.
   */
  predicate UrlMatch(line: string, s: nat, d: nat) {
    HttpsAt(line, s) && s + 8 <= d <= NewlineFrom(line, s + 8) && DotAt(line, d)
  }

  /** The first `d' >= d` before the next newline at which `\.` and an alternative match. */
  function FirstDot(line: string, d: nat): (r: Option<nat>)
    requires d <= |line|
    ensures r.Some? ==> d <= r.value <= NewlineFrom(line, d) && DotAt(line, r.value)
    ensures r.Some? ==> forall e :: d <= e < r.value ==> !DotAt(line, e)
    ensures r.None? ==> forall e :: d <= e <= NewlineFrom(line, d) ==> !DotAt(line, e)
    decreases |line| - d
  {
    if d == |line| || line[d] == '\n' then None
    else if DotAt(line, d) then Some(d)
    else FirstDot(line, d + 1)
  }

  /** Where the search matched: the start of `https://`, the dot, and the alternative after it. */
  datatype Span = Span(start: nat, dot: nat, format: ImageFormat)

  /** `find_pattern.search(line)` tried from index `s` on: the leftmost start, then the shortest match from it. */
  function SearchFrom(line: string, s: nat): (r: Option<Span>)
    ensures r.Some? ==> s <= r.value.start && UrlMatch(line, r.value.start, r.value.dot)
    ensures r.Some? ==> FormatAt(line, r.value.dot + 1) == Some(r.value.format)
    ensures r.Some? ==> forall t: nat, e: nat :: s <= t < r.value.start ==> !UrlMatch(line, t, e)
    ensures r.Some? ==> forall e: nat :: e < r.value.dot ==> !UrlMatch(line, r.value.start, e)
    ensures r.None? ==> forall t: nat, e: nat :: s <= t ==> !UrlMatch(line, t, e)
    decreases |line| - s
  {
    if s + 8 > |line| then None
    else if HttpsAt(line, s) && FirstDot(line, s + 8).Some? then
      var d := FirstDot(line, s + 8).value;
      Some(Span(s, d, FormatAt(line, d + 1).value))
    else SearchFrom(line, s + 1)
  }

  /** `find_pattern.search(line)` over the whole line. */
  function Search(line: string): (r: Option<Span>)
    ensures r.Some? ==> UrlMatch(line, r.value.start, r.value.dot)
    ensures r.Some? ==> FormatAt(line, r.value.dot + 1) == Some(r.value.format)
    ensures r.Some? ==> forall t: nat, e: nat :: t < r.value.start ==> !UrlMatch(line, t, e)
    ensures r.Some? ==> forall e: nat :: e < r.value.dot ==> !UrlMatch(line, r.value.start, e)
    ensures r.None? ==> forall t: nat, e: nat :: !UrlMatch(line, t, e)
  {
    SearchFrom(line, 0)
  }

  /** A slice that runs over a dot and the word after it splits there. */
  lemma SliceAtDot(line: string, start: nat, dot: nat, w: string)
    requires start <= dot && OccursAt(['.'] + w, line, dot)
    ensures line[start..dot + 1 + |w|] == line[start..dot] + "." + w
  {
    var u := line[start..dot + 1 + |w|];
    assert u[..dot - start] == line[start..dot];
    assert u[dot - start..] == line[dot..dot + 1 + |w|];
    assert u == u[..dot - start] + u[dot - start..];
  }

  /** `match.group()`: the matched text, from `https://` to the end of the alternative. */
  function Url(line: string, m: Span): (url: string)
    requires UrlMatch(line, m.start, m.dot) && FormatAt(line, m.dot + 1) == Some(m.format)
    ensures HttpsAt(url, 0)
    ensures url == line[m.start..m.dot] + "." + Spelling(m.format)
  {
    var w := Spelling(m.format);
    SpellingChars(m.format);
    SpelledAtOccurs(line, m.dot + 1, m.format);
    assert line[m.dot..m.dot + 1 + |w|] == [line[m.dot]] + line[m.dot + 1..m.dot + 1 + |w|];
    SliceAtDot(line, m.start, m.dot, w);
    line[m.start..m.dot + 1 + |w|]
  }

  /** An image line from which the search extracts no URL; `match.group()` raises on it. */
  predicate Broken(line: string) {
    IsImageLine(line) && Search(line).None?
  }

  /** `os.path.splitext(os.path.basename(image_url))[1]`. */
  function ImageExt(url: string): (ext: string)
    ensures ext == [] || ext[0] == '.'
  {
    SplitExt(Basename(url)).1
  }

  /** `os.path.splitext(os.path.basename(md_path))[0]`. */
  function Stem(mdPath: string): (stem: string)
  {
    SplitExt(Basename(mdPath)).0
  }

  /** `"%s-%s%s" % (md_basename, str(index), image_extname)`. */
  function ImageName(stem: string, index: nat, ext: string): (name: string)
    ensures StartsWith(name, stem)
  {
    stem + "-" + NatToString(index) + ext
  }

  /** `"![%s](%s/%s)\n\n" % (image_name, "./" + image_download_dir, image_name)`. */
  function ImageLink(name: string, dir: string): (link: string)
    ensures StartsWith(link, "![")
  {
    "![" + name + "](./" + dir + "/" + name + ")\n\n"
  }

  predicate AllDots(s: string) {
    forall i :: 0 <= i < |s| ==> s[i] == '.'
  }

  /**
   * The extension of a matched URL is the matched alternative with its dot,
   * except when the last path segment before the dot is empty or all dots,
   * where `splitext` finds no extension at all.
   */
  lemma UrlExtension(head: string, f: ImageFormat)
    ensures ImageExt(head + "." + Spelling(f)) == if AllDots(Basename(head)) then [] else "." + Spelling(f)
  {
    var alt := Spelling(f);
    SpellingChars(f);
    BasenameAppend(head, "." + alt);
    assert head + "." + alt == head + ("." + alt);
    assert Basename(head) + ("." + alt) == Basename(head) + "." + alt;
    SplitExtDotted(Basename(head), alt);
  }

  /** Text without a slash appended to a path extends its last segment. */
  lemma BasenameAppend(p: string, tail: string)
    requires '/' !in tail
    ensures Basename(p + tail) == Basename(p) + tail
  {
    LastIndexOfAppend(p, tail, '/');
    var k := LastIndexOf(p, '/') + 1;
    assert (p + tail)[k..] == p[k..] + tail;
  }

  /** `splitext` of a segment ending in a dot and a dot-free suffix. */
  lemma SplitExtDotted(seg: string, alt: string)
    requires '/' !in seg && '/' !in alt && '.' !in alt
    ensures SplitExt(seg + "." + alt).1 == if AllDots(seg) then [] else "." + alt
  {
    var b := seg + "." + alt;
    assert b == (seg + ".") + alt;
    LastIndexOfAppend(seg, "." + alt, '/');
    assert b == seg + ("." + alt);
    assert LastIndexOf(seg, '/') == -1;
    LastIndexOfAppend(seg + ".", alt, '.');
    assert LastIndexOf(seg + ".", '.') == |seg|;
    assert forall j :: 0 <= j < |seg| ==> b[j] == seg[j];
    if !AllDots(seg) {
      var j :| 0 <= j < |seg| && seg[j] != '.';
      assert b[j] != '.';
      assert b[|seg|..] == "." + alt;
    } else {
      assert !exists j | 0 <= j < |seg| :: b[j] != '.';
    }
  }

  /** The length of the decimal index inside a name, when the extension does not start with a digit. */
  lemma {:induction false} DigitsBeforeExt(digits: string, ext: string)
    requires forall i :: 0 <= i < |digits| ==> IsDigit(digits[i])
    requires ext == [] || !IsDigit(ext[0])
    ensures LeadingDigits(digits + ext) == |digits|
  {
    if digits == [] {
      assert digits + ext == ext;
    } else {
      assert (digits + ext)[1..] == digits[1..] + ext;
      DigitsBeforeExt(digits[1..], ext);
    }
  }

  /**
   * Names are positional: two image names of one document are equal only
   * when they come from the same line index with the same extension.
   */
  lemma ImageNamesDistinct(stem: string, i: nat, j: nat, e1: string, e2: string)
    requires e1 == [] || e1[0] == '.'
    requires e2 == [] || e2[0] == '.'
    requires ImageName(stem, i, e1) == ImageName(stem, j, e2)
    ensures i == j && e1 == e2
  {
    var n1, n2 := ImageName(stem, i, e1), ImageName(stem, j, e2);
    var k := |stem| + 1;
    assert n1[k..] == NatToString(i) + e1;
    assert n2[k..] == NatToString(j) + e2;
    DigitsBeforeExt(NatToString(i), e1);
    DigitsBeforeExt(NatToString(j), e2);
    var si, sj := NatToString(i), NatToString(j);
    assert |si| == |sj|;
    assert si == n1[k..][..|si|];
    assert sj == n2[k..][..|sj|];
    NatToStringInjective(i, j);
    assert e1 == n1[k + |si|..];
  }

  /** A line that nowhere contains `yuque` is not an image line. */
  lemma NoYuqueNoImageLine(line: string)
    requires !Occurs("yuque", line)
    ensures !IsImageLine(line)
  {
    var k := NewlineFrom(line, 0);
    if IsImageLine(line) {
      var j, q :| 2 <= j < q && q + 5 <= k && line[j] == ']' && YuqueAt(line, q);
      YuqueAtOccurs(line, q);
    }
  }

  /** The extension a matched URL yields contains no `yuque`. */
  lemma UrlExtensionNoYuque(head: string, f: ImageFormat)
    ensures !Occurs("yuque", ImageExt(head + "." + Spelling(f)))
  {
    UrlExtension(head, f);
    SpellingChars(f);
    var ext := ImageExt(head + "." + Spelling(f));
    if ext != [] {
      assert ext == ['.'] + Spelling(f);
    }
    NoOccursWithoutFirstChar("yuque", ext);
  }

  /** A name built from a stem and an extension without `yuque` contains no `yuque`. */
  lemma ImageNameNoYuque(stem: string, index: nat, ext: string)
    requires !Occurs("yuque", stem) && !Occurs("yuque", ext)
    requires ext == [] || ext[0] == '.'
    ensures !Occurs("yuque", ImageName(stem, index, ext))
  {
    var digits := NatToString(index);
    NoOccursWithoutFirstChar("yuque", "-");
    assert 'y' !in digits by {
      forall i | 0 <= i < |digits| ensures digits[i] != 'y' {
        assert IsDigit(digits[i]);
      }
    }
    NoOccursWithoutFirstChar("yuque", digits);
    NoOccursConcat("yuque", stem, "-");
    NoOccursConcat("yuque", stem + "-", digits);
    NoOccursConcat("yuque", stem + "-" + digits, ext);
  }

  /**
   * The replacement link does not match the image-line pattern again when
   * neither the name nor the directory contains `yuque`.
   */
  lemma LinkIsNotImageLine(name: string, dir: string)
    requires !Occurs("yuque", name) && !Occurs("yuque", dir)
    ensures !IsImageLine(ImageLink(name, dir))
  {
    var open, mid, slash, close := "![", "](./", "/", ")\n\n";
    NoOccursWithoutFirstChar("yuque", open);
    NoOccursWithoutFirstChar("yuque", mid);
    NoOccursWithoutFirstChar("yuque", slash);
    NoOccursWithoutFirstChar("yuque", close);
    var a := open + name;
    NoOccursConcat("yuque", open, name);
    var b := a + mid;
    NoOccursConcat("yuque", a, mid);
    var c := b + dir;
    assert b[|b| - 1] == '/';
    NoOccursConcat("yuque", b, dir);
    var d := c + slash;
    NoOccursConcat("yuque", c, slash);
    var e := d + name;
    assert d[|d| - 1] == '/';
    NoOccursConcat("yuque", d, name);
    NoOccursConcat("yuque", e, close);
    assert ImageLink(name, dir) == e + close;
    NoYuqueNoImageLine(e + close);
  }

  /**
   * `lines[index]` after the image step of either pass. `kept` is what the
   * entry holds before that step and keeps when the line is no image line
   * or the fetch does not return 200; a missing URL is the exception
   * `match.group()` raises, reported with the line's index. An image line
   * is recognised, and its URL taken, from the line as read.
   */
  function RewriteImage(stem: string, dir: string, fetch: string -> int, line: string, index: nat, kept: string): (r: Result<string, nat>)
    ensures r.Failure? <==> Broken(line)
    ensures r.Failure? ==> r.error == index
    ensures r.Success? && r.value != kept ==> IsImageLine(line)
  {
    if !IsImageLine(line) then Success(kept)
    else match Search(line)
      case None => Failure(index)
      case Some(m) =>
        var url := Url(line, m);
        if fetch(url) == 200 then Success(ImageLink(ImageName(stem, index, ImageExt(url)), dir))
        else Success(kept)
  }

  /** A downloaded image line becomes the link to its positional local name, which carries the URL's alternative. */
  lemma ImageLineLinked(stem: string, dir: string, fetch: string -> int, line: string, index: nat, kept: string)
    requires IsImageLine(line) && Search(line).Some?
    ensures var m := Search(line).value;
      var url := Url(line, m);
      var ext := ImageExt(url);
      && (ext == "." + Spelling(m.format) || ext == [])
      && (fetch(url) == 200 ==> RewriteImage(stem, dir, fetch, line, index, kept) == Success(ImageLink(ImageName(stem, index, ext), dir)))
      && (fetch(url) != 200 ==> RewriteImage(stem, dir, fetch, line, index, kept) == Success(kept))
  {
    var m := Search(line).value;
    UrlExtension(line[m.start..m.dot], m.format);
  }

  /**
   * The image step as the loops of both passes run it on the line at
   * `index`: the new line, or the index when `match.group()` raises.
   */
  method ImageStep(stem: string, dir: string, fetch: string -> int, line: string, index: nat, kept: string) returns (r: Result<string, nat>)
    ensures r == RewriteImage(stem, dir, fetch, line, index, kept)
  {
    r := Success(kept);
    if IsImageLine(line) {
      var m := Search(line);
      if m.None? {
        return Failure(index);
      }
      var url := Url(line, m.value);
      var name := ImageName(stem, index, ImageExt(url));
      if fetch(url) == 200 {
        r := Success(ImageLink(name, dir));
      }
    }
  }

  /**
   * A line replaced by a link is left alone by any later image step,
   * whatever the fetch answers: the link is no image line.
   */
  lemma RewriteSettles(stem: string, dir: string, fetch: string -> int, fetch2: string -> int, line: string, index: nat, kept: string)
    requires !Occurs("yuque", stem) && !Occurs("yuque", dir)
    requires IsImageLine(line) && Search(line).Some?
    requires fetch(Url(line, Search(line).value)) == 200
    ensures var out := RewriteImage(stem, dir, fetch, line, index, kept).value;
      !IsImageLine(out) && RewriteImage(stem, dir, fetch2, out, index, out) == Success(out)
  {
    var m := Search(line).value;
    var url := Url(line, m);
    var ext := ImageExt(url);
    UrlExtensionNoYuque(line[m.start..m.dot], m.format);
    ImageNameNoYuque(stem, index, ext);
    var out := ImageLink(ImageName(stem, index, ext), dir);
    LinkIsNotImageLine(ImageName(stem, index, ext), dir);
    assert RewriteImage(stem, dir, fetch, line, index, kept) == Success(out);
    assert RewriteImage(stem, dir, fetch2, out, index, out) == Success(out);
  }

  /** The first line at index `i` or later on which the image step raises. */
  function FirstBrokenFrom(lines: seq<string>, i: nat): (r: Option<nat>)
    requires i <= |lines|
    ensures r.Some? ==> i <= r.value < |lines| && Broken(lines[r.value])
    ensures r.Some? ==> forall j :: i <= j < r.value ==> !Broken(lines[j])
    ensures r.None? ==> forall j :: i <= j < |lines| ==> !Broken(lines[j])
    decreases |lines| - i
  {
    if i == |lines| then None
    else if Broken(lines[i]) then Some(i)
    else FirstBrokenFrom(lines, i + 1)
  }

  /** The first broken line is the one with no broken line before it. */
  lemma FirstBrokenAt(lines: seq<string>, k: nat)
    requires k < |lines| && Broken(lines[k])
    requires forall j :: 0 <= j < k ==> !Broken(lines[j])
    ensures FirstBroken(lines) == Some(k)
  {
  }

  /** The index at which a pass over `lines` raises, if it does. */
  function FirstBroken(lines: seq<string>): (r: Option<nat>)
    ensures r.Some? ==> r.value < |lines| && Broken(lines[r.value])
    ensures r.Some? ==> forall j :: 0 <= j < r.value ==> !Broken(lines[j])
    ensures r.None? <==> forall j :: 0 <= j < |lines| ==> !Broken(lines[j])
  {
    FirstBrokenFrom(lines, 0)
  }

  /** The image step over every line, line `i` keeping `kept[i]` when it is not replaced. */
  function RewriteAll(stem: string, dir: string, fetch: string -> int, lines: seq<string>, kept: seq<string>): (out: seq<string>)
    requires |kept| == |lines| && FirstBroken(lines).None?
    ensures |out| == |lines|
    ensures forall i :: 0 <= i < |lines| ==> RewriteImage(stem, dir, fetch, lines[i], i, kept[i]) == Success(out[i])
  {
    seq(|lines|, i requires 0 <= i < |lines| => RewriteImage(stem, dir, fetch, lines[i], i, kept[i]).value)
  }

  /** `out` is what the image step makes of the first `|out|` lines. */
  ghost predicate RewrittenPrefix(stem: string, dir: string, fetch: string -> int, lines: seq<string>, kept: seq<string>, out: seq<string>)
    requires |out| <= |lines| == |kept|
    decreases |out|
  {
    var n := |out| - 1;
    out == [] ||
    (RewrittenPrefix(stem, dir, fetch, lines, kept, out[..n]) &&
     RewriteImage(stem, dir, fetch, lines[n], n, kept[n]) == Success(out[n]))
  }

  /** Each line of a processed prefix is its line's image step. */
  lemma {:induction false} RewrittenPrefixMeans(stem: string, dir: string, fetch: string -> int, lines: seq<string>, kept: seq<string>, out: seq<string>)
    requires |out| <= |lines| == |kept|
    requires RewrittenPrefix(stem, dir, fetch, lines, kept, out)
    ensures forall i :: 0 <= i < |out| ==> RewriteImage(stem, dir, fetch, lines[i], i, kept[i]) == Success(out[i])
    decreases |out|
  {
    if out != [] {
      RewrittenPrefixMeans(stem, dir, fetch, lines, kept, out[..|out| - 1]);
    }
  }

  /** A processed prefix grows by the image step of the next line. */
  lemma RewrittenPrefixExtend(stem: string, dir: string, fetch: string -> int, lines: seq<string>, kept: seq<string>, out: seq<string>, line: string)
    requires |out| < |lines| == |kept| && RewrittenPrefix(stem, dir, fetch, lines, kept, out)
    requires RewriteImage(stem, dir, fetch, lines[|out|], |out|, kept[|out|]) == Success(line)
    ensures RewrittenPrefix(stem, dir, fetch, lines, kept, out + [line])
  {
    assert (out + [line])[..|out|] == out;
  }

  /** A pass that has processed `out` and raises on the next line raises at the first broken line. */
  lemma RewrittenPrefixBroken(stem: string, dir: string, fetch: string -> int, lines: seq<string>, kept: seq<string>, out: seq<string>)
    requires |out| < |lines| == |kept| && RewrittenPrefix(stem, dir, fetch, lines, kept, out)
    requires RewriteImage(stem, dir, fetch, lines[|out|], |out|, kept[|out|]).Failure?
    ensures FirstBroken(lines) == Some(|out|)
    ensures forall i :: 0 <= i < |out| ==> RewriteImage(stem, dir, fetch, lines[i], i, kept[i]) == Success(out[i])
  {
    RewrittenPrefixMeans(stem, dir, fetch, lines, kept, out);
    FirstBrokenAt(lines, |out|);
  }

  /** A prefix as long as the input is the whole pass, which then raises nowhere. */
  lemma RewrittenPrefixWhole(stem: string, dir: string, fetch: string -> int, lines: seq<string>, kept: seq<string>, out: seq<string>)
    requires |out| == |lines| == |kept| && RewrittenPrefix(stem, dir, fetch, lines, kept, out)
    ensures FirstBroken(lines).None?
    ensures out == RewriteAll(stem, dir, fetch, lines, kept)
  {
    RewrittenPrefixMeans(stem, dir, fetch, lines, kept, out);
  }
}
