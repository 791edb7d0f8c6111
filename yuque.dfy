/**
 * `Yuque._handle_markdown`: one pass over the lines of an exported
 * document that appends a newline to content lines, driven by two flags,
 * and replaces each remote image line whose fetch succeeds by a link to a
 * positionally named local copy.
 */
module YuqueMarkdown {
  import opened Wrappers
  import opened Text
  import opened ImageLinks

  /** The two locals the loop carries from line to line. */
  datatype Flags = Flags(codeStart: bool, addNewline: bool)

  /**
   * `re.match(r"^\s*```", line) or re.match(r"^\s*---", line)`: after its
   * leading whitespace the line starts with three backticks or three dashes.
   */
  predicate TogglesCode(line: string) {
    var k := LeadingSpaces(line);
    && k + 3 <= |line|
    && ((line[k] == '`' && line[k + 1] == '`' && line[k + 2] == '`') ||
        (line[k] == '-' && line[k + 1] == '-' && line[k + 2] == '-'))
  }

  /** `TogglesCode` is the prefix test on the left-stripped line. */
  lemma TogglesCodeIffStripPrefix(line: string)
    ensures TogglesCode(line) <==> StartsWith(LStrip(line), "```") || StartsWith(LStrip(line), "---")
  {
    var t := LStrip(line);
    if |t| >= 3 {
      assert t[..3] == [t[0], t[1], t[2]];
    }
  }

  /**
   * `re.match(r"^\s*$", line.strip()) or re.match(r"^\>", line)`: the line
   * is all whitespace (see `BlankIffStripEmpty`) or starts with `>`.
   */
  predicate SkipsNewline(line: string) {
    IsBlank(line) || (line != [] && line[0] == '>')
  }

  /** A line that toggles the code flag is never a skipped line. */
  lemma ToggleNotSkipped(line: string)
    requires TogglesCode(line)
    ensures !SkipsNewline(line)
  {
    var k := LeadingSpaces(line);
    BlankIffAllLeading(line);
    if k > 0 {
      assert IsSpace(line[0]);
    }
  }

  /**
   * The flags after one line: a toggling line flips `codeStart` first; a
   * skipped line clears `addNewline`; any other line sets it when it is
   * outside code after the flip and otherwise leaves it as it was.
   */
  function NextFlags(f: Flags, line: string): (g: Flags)
    ensures g.codeStart == (f.codeStart != TogglesCode(line))
    ensures SkipsNewline(line) ==> !g.addNewline
    ensures !SkipsNewline(line) && !g.codeStart ==> g.addNewline
    ensures !SkipsNewline(line) && g.codeStart ==> g.addNewline == f.addNewline
  {
    var code := if TogglesCode(line) then !f.codeStart else f.codeStart;
    var add := if SkipsNewline(line) then false else if !code then true else f.addNewline;
    Flags(code, add)
  }

  /** The flags after the first `n` lines, both starting out false. */
  function FlagsAfter(lines: seq<string>, n: nat): Flags
    requires n <= |lines|
  {
    if n == 0 then Flags(false, false) else NextFlags(FlagsAfter(lines, n - 1), lines[n - 1])
  }

  /** The number of toggling lines among the first `n`. */
  function ToggleCount(lines: seq<string>, n: nat): nat
    requires n <= |lines|
  {
    if n == 0 then 0 else ToggleCount(lines, n - 1) + (if TogglesCode(lines[n - 1]) then 1 else 0)
  }

  /** After `n` lines the pass is inside code exactly when an odd number of them toggled it. */
  lemma {:induction false} CodeParity(lines: seq<string>, n: nat)
    requires n <= |lines|
    ensures FlagsAfter(lines, n).codeStart <==> ToggleCount(lines, n) % 2 == 1
  {
    if n > 0 {
      CodeParity(lines, n - 1);
    }
  }

  /** Line `j` is a content line outside code, which sets `addNewline`. */
  predicate SetsNewline(lines: seq<string>, j: nat)
    requires j < |lines|
  {
    !SkipsNewline(lines[j]) && !FlagsAfter(lines, j + 1).codeStart
  }

  /** None of the lines strictly after `j` and before `n` is skipped. */
  predicate NoSkipBetween(lines: seq<string>, j: nat, n: nat)
    requires n <= |lines|
  {
    forall k :: j < k < n ==> !SkipsNewline(lines[k])
  }

  /**
   * `addNewline` holds after `n` lines exactly when some earlier content
   * line outside code set it and no skipped line has come since.
   */
  lemma {:induction false} AddNewlineIff(lines: seq<string>, n: nat)
    requires n <= |lines|
    ensures FlagsAfter(lines, n).addNewline <==> exists j: nat :: j < n && SetsNewline(lines, j) && NoSkipBetween(lines, j, n)
  {
    if n > 0 {
      AddNewlineIff(lines, n - 1);
      var line := lines[n - 1];
      if SkipsNewline(line) {
        forall j: nat | j < n && SetsNewline(lines, j)
          ensures !NoSkipBetween(lines, j, n)
        {
          assert j != n - 1;
        }
      } else if !FlagsAfter(lines, n).codeStart {
        assert SetsNewline(lines, n - 1) && NoSkipBetween(lines, n - 1, n);
      } else {
        assert !SetsNewline(lines, n - 1);
        forall j: nat | j < n - 1
          ensures NoSkipBetween(lines, j, n) <==> NoSkipBetween(lines, j, n - 1)
        {
        }
      }
    }
  }

  /** `lines[index]` after the newline step: the line with `"\n"` appended when `addNewline` holds after it. */
  function NewlineStep(lines: seq<string>, i: nat): string
    requires i < |lines|
  {
    if FlagsAfter(lines, i + 1).addNewline then lines[i] + "\n" else lines[i]
  }

  /** A blank line or a line starting with `>` comes out of the newline step unchanged and clears the flag. */
  lemma SkippedLineUntouched(lines: seq<string>, i: nat)
    requires i < |lines| && SkipsNewline(lines[i])
    ensures !FlagsAfter(lines, i + 1).addNewline && NewlineStep(lines, i) == lines[i]
  {
  }

  /** Any other line outside code gets a newline. */
  lemma ContentLineGetsNewline(lines: seq<string>, i: nat)
    requires i < |lines| && !SkipsNewline(lines[i]) && !FlagsAfter(lines, i + 1).codeStart
    ensures NewlineStep(lines, i) == lines[i] + "\n"
  {
  }

  /** Inside code a content line inherits the flag the line before it left. */
  lemma NewlineStickyInCode(lines: seq<string>, i: nat)
    requires i < |lines| && !SkipsNewline(lines[i]) && FlagsAfter(lines, i + 1).codeStart
    ensures i > 0 ==> NewlineStep(lines, i) == if FlagsAfter(lines, i).addNewline then lines[i] + "\n" else lines[i]
    ensures i == 0 ==> NewlineStep(lines, i) == lines[i]
  {
  }

  /** A toggling line that closes a code region always gets a newline. */
  lemma ClosingLineGetsNewline(lines: seq<string>, i: nat)
    requires i < |lines| && TogglesCode(lines[i]) && FlagsAfter(lines, i).codeStart
    ensures NewlineStep(lines, i) == lines[i] + "\n"
  {
    ToggleNotSkipped(lines[i]);
  }

  /** The newline step of every line. */
  function NewlineSteps(lines: seq<string>): (out: seq<string>)
    ensures |out| == |lines|
    ensures forall i :: 0 <= i < |lines| ==> out[i] == NewlineStep(lines, i)
  {
    seq(|lines|, i requires 0 <= i < |lines| => NewlineStep(lines, i))
  }

  /** The list the pass leaves when no line raises: each line after its newline step and then its image step. */
  function Handled(stem: string, dir: string, fetch: string -> int, lines: seq<string>): (out: seq<string>)
    requires FirstBroken(lines).None?
    ensures |out| == |lines|
    ensures forall i :: 0 <= i < |lines| ==> RewriteImage(stem, dir, fetch, lines[i], i, NewlineStep(lines, i)) == Success(out[i])
  {
    RewriteAll(stem, dir, fetch, lines, NewlineSteps(lines))
  }

  /** A line that is no image line ends up as the newline step made it. */
  lemma HandledPlainLine(stem: string, dir: string, fetch: string -> int, lines: seq<string>, i: nat)
    requires FirstBroken(lines).None? && i < |lines|
    requires !IsImageLine(lines[i])
    ensures Handled(stem, dir, fetch, lines)[i] == NewlineStep(lines, i)
  {
  }

  /**
   * An image line becomes the link to `<stem>-<i><ext>` when its fetch
   * returns 200, whatever the newline step made of it; otherwise it keeps
   * what the newline step made of it.
   */
  lemma HandledImageLine(stem: string, dir: string, fetch: string -> int, lines: seq<string>, i: nat)
    requires FirstBroken(lines).None? && i < |lines|
    requires IsImageLine(lines[i])
    ensures Search(lines[i]).Some?
    ensures var m := Search(lines[i]).value;
      var url := Url(lines[i], m);
      var ext := ImageExt(url);
      && (ext == "." + Spelling(m.format) || ext == [])
      && Handled(stem, dir, fetch, lines)[i] == if fetch(url) == 200 then ImageLink(ImageName(stem, i, ext), dir) else NewlineStep(lines, i)
  {
    ImageLineLinked(stem, dir, fetch, lines[i], i, NewlineStep(lines, i));
  }

  /** A pass that has processed all lines leaves `Handled`. */
  lemma HandledWhole(stem: string, dir: string, fetch: string -> int, lines: seq<string>, out: seq<string>)
    requires |out| == |lines| && RewrittenPrefix(stem, dir, fetch, lines, NewlineSteps(lines), out)
    ensures FirstBroken(lines).None?
    ensures out == Handled(stem, dir, fetch, lines)
  {
    RewrittenPrefixWhole(stem, dir, fetch, lines, NewlineSteps(lines), out);
  }

  /** A pass that has processed `out` and raises on the next line raises at the first broken line. */
  lemma HandledBroken(stem: string, dir: string, fetch: string -> int, lines: seq<string>, out: seq<string>)
    requires |out| < |lines| && RewrittenPrefix(stem, dir, fetch, lines, NewlineSteps(lines), out)
    requires RewriteImage(stem, dir, fetch, lines[|out|], |out|, NewlineStep(lines, |out|)).Failure?
    ensures FirstBroken(lines) == Some(|out|)
    ensures forall i :: 0 <= i < |out| ==> RewriteImage(stem, dir, fetch, lines[i], i, NewlineStep(lines, i)) == Success(out[i])
  {
    RewrittenPrefixBroken(stem, dir, fetch, lines, NewlineSteps(lines), out);
  }

  /** `Yuque`: the directory of documents and the name of the image directory beside each. */
  class Yuque {
    const markdownDir: string
    const imageDownloadDir: string

    constructor (markdownDir: string, imageDownloadDir: string)
      ensures this.markdownDir == markdownDir && this.imageDownloadDir == imageDownloadDir
    {
      this.markdownDir := markdownDir;
      this.imageDownloadDir := imageDownloadDir;
    }

    /**
     * The newline step of the loop body on one line: the flags after it,
     * from the flags before it, and what `lines[index]` holds after it.
     */
    static method NewlineLine(line: string, isCodeStart: bool, isAddNewline: bool) returns (codeStart: bool, addNewline: bool, newLine: string)
      ensures Flags(codeStart, addNewline) == NextFlags(Flags(isCodeStart, isAddNewline), line)
      ensures newLine == if addNewline then line + "\n" else line
    {
      codeStart, addNewline, newLine := isCodeStart, isAddNewline, line;
      if TogglesCode(line) {
        codeStart := !codeStart;
      }
      if SkipsNewline(line) {
        addNewline := false;
      } else if !codeStart {
        addNewline := true;
      }
      if addNewline {
        newLine := line + "\n";
      }
    }

    /** One iteration of the loop of `_handle_markdown`, on the line at `index`. */
    method HandleLine(stem: string, lines: array<string>, index: nat, fetch: string -> int, isCodeStart: bool, isAddNewline: bool, ghost orig: seq<string>)
      returns (codeStart: bool, addNewline: bool, r: Result<string, nat>)
      requires index < lines.Length == |orig|
      requires Flags(isCodeStart, isAddNewline) == FlagsAfter(orig, index)
      requires RewrittenPrefix(stem, imageDownloadDir, fetch, orig, NewlineSteps(orig), lines[..index])
      requires forall i :: index <= i < lines.Length ==> lines[i] == orig[i]
      modifies lines
      ensures Flags(codeStart, addNewline) == FlagsAfter(orig, index + 1)
      ensures forall i :: index < i < lines.Length ==> lines[i] == orig[i]
      ensures r.Success? ==> RewrittenPrefix(stem, imageDownloadDir, fetch, orig, NewlineSteps(orig), lines[..index + 1])
      ensures r.Failure? ==> RewriteImage(stem, imageDownloadDir, fetch, orig[index], index, NewlineStep(orig, index)).Failure?
      ensures r.Failure? ==> r.error == index && lines[..index] == old(lines[..index]) && lines[index] == NewlineStep(orig, index)
    {
      var line := lines[index];
      assert line == orig[index];
      ghost var done := lines[..index];
      var newLine;
      codeStart, addNewline, newLine := NewlineLine(line, isCodeStart, isAddNewline);
      assert newLine == NewlineSteps(orig)[index];
      r := ImageStep(stem, imageDownloadDir, fetch, line, index, newLine);
      if r.Failure? {
        lines[index] := newLine;
        return;
      }
      lines[index] := r.value;
      RewrittenPrefixExtend(stem, imageDownloadDir, fetch, orig, NewlineSteps(orig), done, r.value);
      assert lines[..index] == done;
      assert lines[..index + 1] == lines[..index] + [lines[index]];
    }

    /**
     * `_handle_markdown(md_path)` on the lines read from `md_path`, in
     * place. `fetch` answers the status code of a GET of a URL. The pass
     * stops with the index of the first image line without a URL, where
     * `match.group()` raises after that line's newline step, and leaves
     * the lines after it as they were.
     */
    method HandleMarkdown(mdPath: string, lines: array<string>, fetch: string -> int) returns (outcome: Outcome<nat>)
      modifies lines
      ensures outcome == match FirstBroken(old(lines[..])) case None => Pass case Some(k) => Fail(k)
      ensures outcome.Pass? ==> lines[..] == Handled(Stem(mdPath), imageDownloadDir, fetch, old(lines[..]))
      ensures outcome.Fail? ==> forall i :: 0 <= i < outcome.error ==>
        RewriteImage(Stem(mdPath), imageDownloadDir, fetch, old(lines[i]), i, NewlineStep(old(lines[..]), i)) == Success(lines[i])
      ensures outcome.Fail? ==> lines[outcome.error] == NewlineStep(old(lines[..]), outcome.error)
      ensures outcome.Fail? ==> forall i :: outcome.error < i < lines.Length ==> lines[i] == old(lines[i])
    {
      var stem := Stem(mdPath);
      ghost var orig := lines[..];
      var isAddNewline := false;
      var isCodeStart := false;
      var index := 0;
      while index < lines.Length
        invariant index <= lines.Length
        invariant Flags(isCodeStart, isAddNewline) == FlagsAfter(orig, index)
        invariant RewrittenPrefix(stem, imageDownloadDir, fetch, orig, NewlineSteps(orig), lines[..index])
        invariant forall i :: index <= i < lines.Length ==> lines[i] == orig[i]
      {
        var r;
        isCodeStart, isAddNewline, r := HandleLine(stem, lines, index, fetch, isCodeStart, isAddNewline, orig);
        if r.Failure? {
          HandledBroken(stem, imageDownloadDir, fetch, orig, lines[..index]);
          return Fail(index);
        }
        index := index + 1;
      }
      assert lines[..index] == lines[..];
      HandledWhole(stem, imageDownloadDir, fetch, orig, lines[..]);
      return Pass;
    }
  }
}
