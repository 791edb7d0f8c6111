/**
 * The blank-line normaliser. `MarkdownFormatter.format` reads a markdown
 * file's lines, walks them once building a new list by appending, inserts
 * `'\n'` entries around titles, underlines, `---` separators, code fences and
 * paragraphs, joins the list and collapses every run of three or more newline
 * characters to exactly two.
 *
 * The specification of one pass is `Step`: each input line is emitted as
 * `Before + [line] + After`, where the two paddings consist of `'\n'`
 * entries only. `Formatted` and `InCode` fold it over the input (their pair
 * is `FormatPrefix`); the class methods below are proved to compute exactly
 * that fold.
 */
module MarkdownFormat {
  import opened Text

  // ---------------------------------------------------------------------------
  // Line classification (the regular expressions of `_process_line`, applied to
  // the stripped line, tried in the source's order)
  // ---------------------------------------------------------------------------

  datatype LineKind = CodeFence | ListItem | TitleOrUnderline | Separator | BlankLine | Paragraph

  /** `^\s*[-*]\s` or `^\s*\d+\.\s` on a stripped line. */
  predicate IsListItem(st: string) {
    || (|st| >= 2 && (st[0] == '-' || st[0] == '*') && IsSpace(st[1]))
    || (var k := LeadingDigits(st); 1 <= k && k + 1 < |st| && st[k] == '.' && IsSpace(st[k + 1]))
  }

  /** `^#+\s`: one or more `#`, then whitespace. No upper bound on the number of `#`. */
  predicate IsTitle(st: string) {
    var k := LeadingCount(st, '#');
    1 <= k < |st| && IsSpace(st[k])
  }

  /** `^\s*[-=]+$` on a stripped line: nothing but `-` and `=`. */
  predicate IsUnderline(st: string) {
    |st| > 0 && forall i :: 0 <= i < |st| ==> st[i] == '-' || st[i] == '='
  }

  function Classify(line: string): LineKind {
    var st := Strip(line);
    if StartsWith(st, "```") then CodeFence
    else if IsListItem(st) then ListItem
    else if IsTitle(st) || IsUnderline(st) then TitleOrUnderline
    else if StartsWith(st, "---") then Separator
    else if st == [] then BlankLine
    else Paragraph
  }

  // ---------------------------------------------------------------------------
  // Specification of one pass
  //
  // The fold below runs over classified lines: each input line paired with
  // its kind. The formatter classifies with `Classify` (see `Classified`);
  // every lemma about the fold holds whatever the kinds are, so its proofs
  // never need to look inside the classifier.
  // ---------------------------------------------------------------------------

  /** An input line together with its kind. */
  datatype Line = Line(kind: LineKind, text: string)

  /** The input lines, each paired with the kind `_process_line` gives it. */
  function Classified(lines: seq<string>): (ls: seq<Line>)
    ensures |ls| == |lines|
    ensures forall i :: 0 <= i < |lines| ==> ls[i] == Line(Classify(lines[i]), lines[i])
  {
    if lines == [] then [] else [Line(Classify(lines[0]), lines[0])] + Classified(lines[1..])
  }

  /** The list being built and the formatter's `in_code_block` field. */
  datatype FormatState = FormatState(formatted: seq<string>, inCodeBlock: bool)

  /** The output so far ends in an entry that is not blank. */
  predicate EndsNonBlank(out: seq<string>) {
    |out| > 0 && !IsBlank(out[|out| - 1])
  }

  /**
   * What `_add_blank_lines(lines, len(lines))` adds: when the last entry is
   * non-blank it inserts a `'\n'` at the end and then, since the index now
   * names the last entry, appends a second one.
   */
  function Spacer(out: seq<string>): seq<string> {
    if EndsNonBlank(out) then ["\n", "\n"] else []
  }

  /** The `'\n'` before a fence: only for an opening fence after a non-blank entry. */
  function FenceBefore(st: FormatState): seq<string> {
    if !st.inCodeBlock && EndsNonBlank(st.formatted) then ["\n"] else []
  }

  /**
   * The `'\n'` after a closing fence. The source tests the entry of the OUTPUT
   * list at the INPUT position `index + 1`, once the fence has been appended.
   */
  function FenceAfter(st: FormatState, line: string, index: nat): seq<string> {
    var withFence := st.formatted + FenceBefore(st) + [line];
    if st.inCodeBlock && index + 1 < |withFence| && !IsBlank(withFence[index + 1]) then ["\n"] else []
  }

  /** The entries emitted before a line of the given kind. */
  function Before(st: FormatState, kind: LineKind): seq<string> {
    match kind
    case CodeFence => FenceBefore(st)
    case TitleOrUnderline => Spacer(st.formatted)
    case Separator => Spacer(st.formatted)
    case Paragraph => if st.inCodeBlock then [] else Spacer(st.formatted)
    case ListItem => []
    case BlankLine => []
  }

  /** The entries emitted after a line of the given kind. */
  function After(st: FormatState, kind: LineKind, line: string, index: nat): seq<string> {
    match kind
    case CodeFence => FenceAfter(st, line, index)
    case TitleOrUnderline => ["\n"]
    case Separator => ["\n"]
    case _ => []
  }

  /** The entries one call of `_process_line` appends for input line `index`. */
  function Emit(st: FormatState, kind: LineKind, line: string, index: nat): (e: seq<string>)
    ensures 1 <= |e| <= 4
  {
    Before(st, kind) + [line] + After(st, kind, line, index)
  }

  /** One call of `_process_line` on input line `index`, of kind `kind`. */
  function Step(st: FormatState, kind: LineKind, line: string, index: nat): FormatState {
    FormatState(
      st.formatted + Emit(st, kind, line, index),
      if kind == CodeFence then !st.inCodeBlock else st.inCodeBlock)
  }

  /**
   * The state after the first `k` input lines: the output list and
   * `in_code_block`. Each line appends its `Block`; only fences flip the flag.
   */
  function Pass(inCode0: bool, ls: seq<Line>, k: nat): FormatState
    requires k <= |ls|
    decreases k, 0
  {
    if k == 0 then FormatState([], inCode0)
    else
      var prev := Pass(inCode0, ls, k - 1);
      FormatState(
        prev.formatted + Block(inCode0, ls, k - 1),
        if ls[k - 1].kind == CodeFence then !prev.inCodeBlock else prev.inCodeBlock)
  }

  /** The entries appended for input line `k`. */
  function Block(inCode0: bool, ls: seq<Line>, k: nat): (e: seq<string>)
    requires k < |ls|
    ensures 1 <= |e| <= 4
    decreases k, 1
  {
    Emit(Pass(inCode0, ls, k), ls[k].kind, ls[k].text, k)
  }

  /** The output list after the first `k` input lines. */
  function Formatted(inCode0: bool, ls: seq<Line>, k: nat): seq<string>
    requires k <= |ls|
  {
    Pass(inCode0, ls, k).formatted
  }

  /** `in_code_block` after the first `k` input lines. */
  function InCode(inCode0: bool, ls: seq<Line>, k: nat): bool
    requires k <= |ls|
  {
    Pass(inCode0, ls, k).inCodeBlock
  }

  /** The state after the first `k` input lines, rebuilt from its two parts. */
  function FormatPrefix(inCode0: bool, ls: seq<Line>, k: nat): FormatState
    requires k <= |ls|
  {
    FormatState(Formatted(inCode0, ls, k), InCode(inCode0, ls, k))
  }

  /** The fold advances by `Step`, one input line at a time. */
  lemma PrefixStep(inCode0: bool, ls: seq<Line>, k: nat)
    requires k < |ls|
    ensures FormatPrefix(inCode0, ls, k + 1) == Step(FormatPrefix(inCode0, ls, k), ls[k].kind, ls[k].text, k)
  {
    assert Block(inCode0, ls, k) == Emit(FormatPrefix(inCode0, ls, k), ls[k].kind, ls[k].text, k);
  }

  /** Where input line `i` lands in the output list. */
  function Position(inCode0: bool, ls: seq<Line>, i: nat): nat
    requires i < |ls|
  {
    var st := FormatPrefix(inCode0, ls, i);
    |st.formatted| + |Before(st, ls[i].kind)|
  }

  // ---------------------------------------------------------------------------
  // The final `re.sub(r'\n{3,}', '\n\n', ''.join(formatted_lines))`
  // ---------------------------------------------------------------------------

  /** `''.join(lines)`. */
  function Concat(lines: seq<string>): string {
    if lines == [] then [] else Concat(lines[..|lines| - 1]) + lines[|lines| - 1]
  }

  /**
   * `re.sub(r'\n{3,}', '\n\n', s)`: scanning from the left, every maximal run
   * of three or more newline characters becomes exactly two; shorter runs and
   * everything else are copied. Text inside code fences is not exempt.
   */
  function Collapse(s: string): string
    decreases |s|
  {
    if s == [] then []
    else if s[0] != '\n' then [s[0]] + Collapse(s[1..])
    else
      var k := LeadingCount(s, '\n');
      (if k >= 3 then "\n\n" else s[..k]) + Collapse(s[k..])
  }

  predicate NoTripleNewline(s: string) {
    forall i :: 0 <= i && i + 2 < |s| ==> !(s[i] == '\n' && s[i + 1] == '\n' && s[i + 2] == '\n')
  }

  /** `s` with every newline character deleted. */
  function DropNewlines(s: string): string {
    if s == [] then [] else (if s[0] == '\n' then [] else [s[0]]) + DropNewlines(s[1..])
  }

  /** The text `format` writes back to the file. */
  function FormatText(inCode0: bool, lines: seq<string>): (text: string)
    ensures NoTripleNewline(text)
    ensures DropNewlines(text) == DropNewlines(Concat(Formatted(inCode0, Classified(lines), |lines|)))
  {
    var joined := Concat(Formatted(inCode0, Classified(lines), |lines|));
    CollapseHasNoTripleNewline(joined);
    CollapseKeepsText(joined);
    Collapse(joined)
  }

  // ---------------------------------------------------------------------------
  // The formatter object
  // ---------------------------------------------------------------------------

  class MarkdownFormatter {
    const mdPath: string
    var inCodeBlock: bool

    constructor (mdPath: string)
      ensures this.mdPath == mdPath && !inCodeBlock
    {
      this.mdPath := mdPath;
      inCodeBlock := false;
    }

    /**
     * `_add_blank_lines`: a `'\n'` before entry `index` when its predecessor is
     * non-blank, then one after it (appended when `index` names the last
     * entry). The result is `lines` with at most two `'\n'` entries spliced in
     * at one place no earlier than `index`. The callers pass `len(lines)`,
     * where this is `Spacer`, and `len(lines) - 1` right after appending a
     * line to a list that did not end non-blank, where it is one `'\n'`.
     */
    method AddBlankLines(lines: seq<string>, index: int) returns (res: seq<string>)
      requires 0 <= index <= |lines|
      ensures exists k, m :: index <= k <= |lines| && m <= 2 && res == Splice(lines, k, m)
      ensures index == |lines| ==> res == lines + Spacer(lines)
      ensures index == |lines| - 1 && !EndsNonBlank(lines[..index]) ==> res == lines + ["\n"]
    {
      res := lines;
      ghost var k, m := index, 0;
      SpliceNothing(lines, k);
      if index > 0 && !IsBlank(res[index - 1]) {
        InsertNewline(lines, k, m, index);
        res := res[..index] + ["\n"] + res[index..];
        m := 1;
      }
      if index == |res| - 1 {
        if m == 0 {
          k := |lines|;
          SpliceNothing(lines, k);
        }
        AppendNewline(lines, m);
        res := res + ["\n"];
        m := m + 1;
      } else if index < |res| - 1 && !IsBlank(res[index + 1]) {
        if m == 0 {
          k := index + 1;
          SpliceNothing(lines, k);
        }
        InsertNewline(lines, k, m, index + 1);
        res := res[..index + 1] + ["\n"] + res[index + 1..];
        m := m + 1;
      }
      assert res == Splice(lines, k, m);
      if index == |lines| && m == 2 {
        assert NewlineEntries(2) == ["\n", "\n"];
      }
    }

    /** `_handle_code_block`: pad and append a fence line, then flip `in_code_block`. */
    method HandleCodeBlock(lines: seq<string>, line: string, index: nat) returns (res: seq<string>)
      modifies this
      ensures res == lines + FenceBefore(FormatState(lines, old(inCodeBlock))) + [line]
                           + FenceAfter(FormatState(lines, old(inCodeBlock)), line, index)
      ensures inCodeBlock == !old(inCodeBlock)
    {
      res := lines;
      if !inCodeBlock {
        if |res| > 0 && !IsBlank(res[|res| - 1]) {
          res := res + ["\n"];
        }
      }
      res := res + [line];
      if inCodeBlock {
        if index + 1 < |res| && !IsBlank(res[index + 1]) {
          res := res + ["\n"];
        }
      }
      inCodeBlock := !inCodeBlock;
    }

    /** The title and separator branch: `Spacer`, the line, one `'\n'`. */
    method PadBothSides(lines: seq<string>, line: string) returns (res: seq<string>)
      ensures res == lines + Spacer(lines) + [line] + ["\n"]
    {
      res := AddBlankLines(lines, |lines|);
      ghost var spaced := res;
      res := res + [line];
      assert res[..|res| - 1] == spaced;
      res := AddBlankLines(res, |res| - 1);
    }

    /** `_process_line`: classify the stripped line and emit it with its padding. */
    method ProcessLine(lines: seq<string>, line: string, index: nat) returns (res: seq<string>)
      modifies this
      ensures FormatState(res, inCodeBlock) == Step(FormatState(lines, old(inCodeBlock)), Classify(line), line, index)
    {
      var strippedLine := Strip(line);
      if StartsWith(strippedLine, "```") {
        res := HandleCodeBlock(lines, line, index);
      } else if IsListItem(strippedLine) {
        res := lines + [line];
      } else if IsTitle(strippedLine) || IsUnderline(strippedLine) {
        res := PadBothSides(lines, line);
      } else if StartsWith(strippedLine, "---") {
        res := PadBothSides(lines, line);
      } else if strippedLine == [] {
        res := lines + [line];
      } else {
        res := lines;
        if !inCodeBlock {
          res := AddBlankLines(res, |res|);
        }
        res := res + [line];
      }
    }

    /**
     * `format`, with the file read and write abstracted away: `lines` is what
     * `readlines` returned and `text` is what is written back. Writing the
     * `splitlines(keepends=True)` pieces with `writelines` writes exactly the
     * collapsed text. `in_code_block` is not reset first.
     */
    method Format(lines: seq<string>) returns (text: string)
      modifies this
      ensures text == FormatText(old(inCodeBlock), lines)
      ensures inCodeBlock == InCode(old(inCodeBlock), Classified(lines), |lines|)
    {
      ghost var ls := Classified(lines);
      var formattedLines: seq<string> := [];
      for i := 0 to |lines|
        invariant FormatState(formattedLines, inCodeBlock) == FormatPrefix(old(inCodeBlock), ls, i)
      {
        formattedLines := ProcessLine(formattedLines, lines[i], i);
        PrefixStep(old(inCodeBlock), ls, i);
      }
      text := Collapse(Concat(formattedLines));
    }
  }

  /** `m` entries, each the one-character line `'\n'`. */
  function NewlineEntries(m: nat): (r: seq<string>)
    ensures |r| == m && forall i :: 0 <= i < m ==> r[i] == "\n"
  {
    if m == 0 then [] else NewlineEntries(m - 1) + ["\n"]
  }

  /** `lines` with `m` `'\n'` entries inserted before position `k`. */
  function Splice(lines: seq<string>, k: nat, m: nat): seq<string>
    requires k <= |lines|
  {
    lines[..k] + NewlineEntries(m) + lines[k..]
  }

  lemma SpliceNothing(lines: seq<string>, k: nat)
    requires k <= |lines|
    ensures Splice(lines, k, 0) == lines
  {
    assert lines[..k] + lines[k..] == lines;
  }

  /** Inserting a `'\n'` inside or at either edge of the inserted run lengthens the run. */
  lemma InsertNewline(lines: seq<string>, k: nat, m: nat, pos: nat)
    requires k <= |lines| && k <= pos <= k + m
    ensures var res := Splice(lines, k, m);
      pos <= |res| && res[..pos] + ["\n"] + res[pos..] == Splice(lines, k, m + 1)
  {
    var res := Splice(lines, k, m);
    var ins := res[..pos] + ["\n"] + res[pos..];
    var want := Splice(lines, k, m + 1);
    assert |ins| == |want|;
    forall q | 0 <= q < |want| ensures ins[q] == want[q] {
      if q < k {
        assert ins[q] == res[q] == lines[q];
      } else if q < k + m + 1 {
        assert want[q] == NewlineEntries(m + 1)[q - k];
        if q < pos {
          assert ins[q] == res[q] == NewlineEntries(m)[q - k];
        } else if q > pos {
          assert ins[q] == res[q - 1] == NewlineEntries(m)[q - 1 - k];
        }
      } else {
        assert ins[q] == res[q - 1] == lines[q - 1 - m];
      }
    }
  }

  /** Appending a `'\n'` to a list whose inserted run is at its end lengthens the run. */
  lemma AppendNewline(lines: seq<string>, m: nat)
    ensures Splice(lines, |lines|, m) + ["\n"] == Splice(lines, |lines|, m + 1)
  {
    assert lines[|lines|..] == [];
  }

  lemma NewlineIsBlank()
    ensures IsBlank("\n")
  {
    assert LeadingSpaces("\n") == 1;
  }

  // ---------------------------------------------------------------------------
  // Properties of the pass, for any classifier
  // ---------------------------------------------------------------------------

  /** The output only grows. */
  lemma {:induction false} LengthGrows(inCode0: bool, ls: seq<Line>, i: nat, j: nat)
    requires i <= j <= |ls|
    ensures |Formatted(inCode0, ls, i)| <= |Formatted(inCode0, ls, j)|
  {
    if i < j {
      LengthGrows(inCode0, ls, i, j - 1);
    }
  }

  /** Later steps only append: an entry present after `i` lines is still there, unchanged, after `j`. */
  lemma {:induction false} Persists(inCode0: bool, ls: seq<Line>, i: nat, j: nat, p: nat)
    requires i <= j <= |ls| && p < |Formatted(inCode0, ls, i)|
    ensures p < |Formatted(inCode0, ls, j)|
    ensures Formatted(inCode0, ls, j)[p] == Formatted(inCode0, ls, i)[p]
  {
    if i < j {
      Persists(inCode0, ls, i, j - 1, p);
    }
  }

  /**
   * The padding around a line is made of `'\n'` entries only: at most two
   * before the line and at most one after it.
   */
  lemma EmitShape(st: FormatState, kind: LineKind, line: string, index: nat)
    ensures var b, a := Before(st, kind), After(st, kind, line, index);
      && |b| <= 2 && |a| <= 1
      && (forall j :: 0 <= j < |b| ==> b[j] == "\n")
      && (forall j :: 0 <= j < |a| ==> a[j] == "\n")
  {
  }

  /**
   * Handling input line `i` appends one block to the output: the line itself,
   * at `Position`, with at most two `'\n'` entries before it and at most one
   * after it, and nothing else.
   */
  lemma BlockShape(inCode0: bool, ls: seq<Line>, i: nat)
    requires i < |ls|
    ensures var a, b, p := |Formatted(inCode0, ls, i)|, Formatted(inCode0, ls, i + 1), Position(inCode0, ls, i);
      && a <= p < |b| <= a + 4 && p <= a + 2
      && b[p] == ls[i].text
      && forall q :: a <= q < |b| && q != p ==> b[q] == "\n"
  {
    PrefixStep(inCode0, ls, i);
    var st := FormatPrefix(inCode0, ls, i);
    var kind := ls[i].kind;
    EmitShape(st, kind, ls[i].text, i);
    var before, after := Before(st, kind), After(st, kind, ls[i].text, i);
    var b := Formatted(inCode0, ls, i + 1);
    assert b == st.formatted + before + [ls[i].text] + after;
    var a, p := |st.formatted|, Position(inCode0, ls, i);
    forall q | a <= q < |b| && q != p ensures b[q] == "\n" {
      if q < p {
        assert b[q] == before[q - a];
      } else {
        assert b[q] == after[q - p - 1];
      }
    }
  }

  /**
   * The final output list is the blocks of the input lines in input order:
   * block `i` runs from `|Formatted(i)|` to `|Formatted(i + 1)|`, holds
   * `ls[i].text` at `Position` and `'\n'` everywhere else.
   */
  lemma LineInOutput(inCode0: bool, ls: seq<Line>, i: nat)
    requires i < |ls|
    ensures var out, a, b, p := Formatted(inCode0, ls, |ls|), |Formatted(inCode0, ls, i)|,
                                |Formatted(inCode0, ls, i + 1)|, Position(inCode0, ls, i);
      && a <= p < b <= |out|
      && out[p] == ls[i].text
      && forall q :: a <= q < b && q != p ==> out[q] == "\n"
  {
    BlockShape(inCode0, ls, i);
    var p := Position(inCode0, ls, i);
    LengthGrows(inCode0, ls, i + 1, |ls|);
    Persists(inCode0, ls, i + 1, |ls|, p);
    var a, b := |Formatted(inCode0, ls, i)|, |Formatted(inCode0, ls, i + 1)|;
    forall q | a <= q < b && q != p ensures Formatted(inCode0, ls, |ls|)[q] == "\n" {
      Persists(inCode0, ls, i + 1, |ls|, q);
    }
  }

  /** Input lines keep their order in the output. */
  lemma PositionsIncrease(inCode0: bool, ls: seq<Line>, i: nat, j: nat)
    requires i < j < |ls|
    ensures Position(inCode0, ls, i) < Position(inCode0, ls, j)
  {
    BlockShape(inCode0, ls, i);
    BlockShape(inCode0, ls, j);
    LengthGrows(inCode0, ls, i + 1, j);
  }

  /**
   * Right after a title, an underline or a `---` separator has been handled it
   * is followed by one `'\n'` entry and preceded by a blank entry, unless it
   * is the first entry.
   */
  lemma TitleStep(inCode0: bool, ls: seq<Line>, i: nat)
    requires i < |ls|
    requires ls[i].kind == TitleOrUnderline || ls[i].kind == Separator
    ensures var next, p := Formatted(inCode0, ls, i + 1), Position(inCode0, ls, i);
      && |next| == p + 2 && next[p] == ls[i].text && next[p + 1] == "\n"
      && (p == 0 || IsBlank(next[p - 1]))
  {
    PrefixStep(inCode0, ls, i);
    NewlineIsBlank();
  }

  /** The same holds of the final output list. */
  lemma TitleIsSurrounded(inCode0: bool, ls: seq<Line>, i: nat)
    requires i < |ls|
    requires ls[i].kind == TitleOrUnderline || ls[i].kind == Separator
    ensures var out, p := Formatted(inCode0, ls, |ls|), Position(inCode0, ls, i);
      && p + 1 < |out| && out[p] == ls[i].text && out[p + 1] == "\n"
      && (p == 0 || IsBlank(out[p - 1]))
  {
    TitleStep(inCode0, ls, i);
    var p := Position(inCode0, ls, i);
    Persists(inCode0, ls, i + 1, |ls|, p);
    Persists(inCode0, ls, i + 1, |ls|, p + 1);
    if p > 0 {
      Persists(inCode0, ls, i + 1, |ls|, p - 1);
    }
  }

  /** List items and blank lines are appended unchanged, with nothing inserted around them. */
  lemma ListAndBlankUntouched(inCode0: bool, ls: seq<Line>, i: nat)
    requires i < |ls|
    requires ls[i].kind == ListItem || ls[i].kind == BlankLine
    ensures var before := Formatted(inCode0, ls, i);
      && Position(inCode0, ls, i) == |before|
      && Formatted(inCode0, ls, i + 1) == before + [ls[i].text]
  {
    PrefixStep(inCode0, ls, i);
  }

  /**
   * Right after a paragraph line has been handled: inside a code block it was
   * appended with nothing inserted; outside one it is the first entry or
   * directly preceded by a blank entry.
   */
  lemma ParagraphStep(inCode0: bool, ls: seq<Line>, i: nat)
    requires i < |ls| && ls[i].kind == Paragraph
    ensures var st, next, p := FormatPrefix(inCode0, ls, i), Formatted(inCode0, ls, i + 1), Position(inCode0, ls, i);
      && |next| == p + 1 && next[p] == ls[i].text
      && (st.inCodeBlock ==> next == st.formatted + [ls[i].text])
      && (!st.inCodeBlock ==> p == 0 || IsBlank(next[p - 1]))
  {
    PrefixStep(inCode0, ls, i);
    NewlineIsBlank();
  }

  /** Outside a code block, a paragraph line is the first entry of the output or directly follows a blank one. */
  lemma ParagraphSpacing(inCode0: bool, ls: seq<Line>, i: nat)
    requires i < |ls| && ls[i].kind == Paragraph && !InCode(inCode0, ls, i)
    ensures var out, p := Formatted(inCode0, ls, |ls|), Position(inCode0, ls, i);
      p < |out| && out[p] == ls[i].text && (p == 0 || IsBlank(out[p - 1]))
  {
    ParagraphStep(inCode0, ls, i);
    var p := Position(inCode0, ls, i);
    Persists(inCode0, ls, i + 1, |ls|, p);
    if p > 0 {
      Persists(inCode0, ls, i + 1, |ls|, p - 1);
    }
  }

  /**
   * An opening fence is preceded by an inserted `'\n'` exactly when the output
   * so far ends in a non-blank entry; nothing is inserted after it, and the
   * pass is then inside a code block.
   */
  lemma OpeningFence(inCode0: bool, ls: seq<Line>, i: nat)
    requires i < |ls| && ls[i].kind == CodeFence
    requires !InCode(inCode0, ls, i)
    ensures var st, next := FormatPrefix(inCode0, ls, i), FormatPrefix(inCode0, ls, i + 1);
      && (EndsNonBlank(st.formatted) ==> next.formatted == st.formatted + ["\n", ls[i].text])
      && (!EndsNonBlank(st.formatted) ==> next.formatted == st.formatted + [ls[i].text])
      && next.inCodeBlock
  {
    PrefixStep(inCode0, ls, i);
  }

  /**
   * Nothing is inserted before a closing fence; a `'\n'` is appended after it
   * exactly when `index + 1` is a position of the output list (fence
   * included) whose entry is non-blank. The pass is then outside a code block.
   */
  lemma ClosingFence(inCode0: bool, ls: seq<Line>, i: nat)
    requires i < |ls| && ls[i].kind == CodeFence
    requires InCode(inCode0, ls, i)
    ensures var st := FormatPrefix(inCode0, ls, i);
      var withFence := st.formatted + [ls[i].text];
      var next := FormatPrefix(inCode0, ls, i + 1);
      && (i + 1 < |withFence| && !IsBlank(withFence[i + 1]) ==> next.formatted == withFence + ["\n"])
      && (!(i + 1 < |withFence| && !IsBlank(withFence[i + 1])) ==> next.formatted == withFence)
      && !next.inCodeBlock
  {
    PrefixStep(inCode0, ls, i);
  }

  /** The number of fence lines among `ls`. */
  function CountFences(ls: seq<Line>): nat {
    if ls == [] then 0
    else CountFences(ls[..|ls| - 1]) + (if ls[|ls| - 1].kind == CodeFence then 1 else 0)
  }

  /**
   * Each fence line flips `in_code_block` and nothing else touches it, so after
   * `k` lines it is its initial value exactly when an even number of fences
   * has been seen.
   */
  lemma {:induction false} FenceParity(inCode0: bool, ls: seq<Line>, k: nat)
    requires k <= |ls|
    ensures InCode(inCode0, ls, k) == (inCode0 != (CountFences(ls[..k]) % 2 == 1))
  {
    if k > 0 {
      FenceParity(inCode0, ls, k - 1);
      assert ls[..k][..k - 1] == ls[..k - 1];
    }
  }

  // ---------------------------------------------------------------------------
  // Properties of the collapse
  // ---------------------------------------------------------------------------

  lemma CollapseHead(s: string)
    requires s != []
    ensures Collapse(s) != [] && Collapse(s)[0] == s[0]
  {
  }

  /** After the collapse no three consecutive newline characters remain. */
  lemma {:induction false} CollapseHasNoTripleNewline(s: string)
    ensures NoTripleNewline(Collapse(s))
    decreases |s|
  {
    if s != [] {
      var r := Collapse(s);
      if s[0] != '\n' {
        var tail := Collapse(s[1..]);
        CollapseHasNoTripleNewline(s[1..]);
        assert r == [s[0]] + tail;
        forall i | 0 <= i && i + 2 < |r| ensures !(r[i] == '\n' && r[i + 1] == '\n' && r[i + 2] == '\n') {
          if i > 0 {
            assert r[i] == tail[i - 1] && r[i + 1] == tail[i] && r[i + 2] == tail[i + 1];
          }
        }
      } else {
        var k := LeadingCount(s, '\n');
        var run := if k >= 3 then "\n\n" else s[..k];
        var rest := s[k..];
        var tail := Collapse(rest);
        CollapseHasNoTripleNewline(rest);
        assert r == run + tail;
        assert |run| <= 2;
        if rest != [] {
          CollapseHead(rest);
          assert tail[0] != '\n';
        }
        forall i | 0 <= i && i + 2 < |r| ensures !(r[i] == '\n' && r[i + 1] == '\n' && r[i + 2] == '\n') {
          if i < |run| {
            assert r[|run|] == tail[0];
          } else {
            var j := i - |run|;
            assert r[i] == tail[j] && r[i + 1] == tail[j + 1] && r[i + 2] == tail[j + 2];
          }
        }
      }
    }
  }

  lemma {:induction false} DropNewlinesConcat(a: string, b: string)
    ensures DropNewlines(a + b) == DropNewlines(a) + DropNewlines(b)
    decreases |a|
  {
    if a != [] {
      assert (a + b)[0] == a[0] && (a + b)[1..] == a[1..] + b;
      DropNewlinesConcat(a[1..], b);
    } else {
      assert a + b == b;
    }
  }

  lemma {:induction false} DropNewlinesOfRun(s: string)
    requires forall i :: 0 <= i < |s| ==> s[i] == '\n'
    ensures DropNewlines(s) == []
    decreases |s|
  {
    if s != [] {
      DropNewlinesOfRun(s[1..]);
    }
  }

  /** Deleting every newline gives the same text before and after the collapse. */
  lemma {:induction false} CollapseKeepsText(s: string)
    ensures DropNewlines(Collapse(s)) == DropNewlines(s)
    decreases |s|
  {
    if s != [] {
      if s[0] != '\n' {
        CollapseKeepsText(s[1..]);
        DropNewlinesConcat([s[0]], Collapse(s[1..]));
      } else {
        var k := LeadingCount(s, '\n');
        var run := if k >= 3 then "\n\n" else s[..k];
        CollapseKeepsText(s[k..]);
        DropNewlinesConcat(run, Collapse(s[k..]));
        DropNewlinesOfRun(run);
        assert s == s[..k] + s[k..];
        DropNewlinesConcat(s[..k], s[k..]);
        DropNewlinesOfRun(s[..k]);
      }
    }
  }

  /** Text without a triple newline is left as it is, so collapsing twice changes nothing. */
  lemma {:induction false} CollapseFixesClean(s: string)
    requires NoTripleNewline(s)
    ensures Collapse(s) == s
    decreases |s|
  {
    if s != [] {
      if s[0] != '\n' {
        assert NoTripleNewline(s[1..]) by {
          forall i | 0 <= i && i + 2 < |s[1..]| ensures !(s[1..][i] == '\n' && s[1..][i + 1] == '\n' && s[1..][i + 2] == '\n') {
            assert s[1..][i] == s[i + 1] && s[1..][i + 1] == s[i + 2] && s[1..][i + 2] == s[i + 3];
          }
        }
        CollapseFixesClean(s[1..]);
        assert s == [s[0]] + s[1..];
      } else {
        var k := LeadingCount(s, '\n');
        assert 2 < |s| ==> !(s[0] == '\n' && s[1] == '\n' && s[2] == '\n');
        assert k < 3;
        var rest := s[k..];
        assert NoTripleNewline(rest) by {
          forall i | 0 <= i && i + 2 < |rest| ensures !(rest[i] == '\n' && rest[i + 1] == '\n' && rest[i + 2] == '\n') {
            assert rest[i] == s[k + i] && rest[i + 1] == s[k + i + 1] && rest[i + 2] == s[k + i + 2];
          }
        }
        CollapseFixesClean(rest);
        assert s == s[..k] + rest;
      }
    }
  }

  lemma CollapseIdempotent(s: string)
    ensures Collapse(Collapse(s)) == Collapse(s)
  {
    CollapseHasNoTripleNewline(s);
    CollapseFixesClean(Collapse(s));
  }
}
