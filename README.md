# yuque-tools, modelled in Dafny

yuque-tools post-processes markdown documents exported from Yuque. This
project models its four line-oriented transformations and proves what each
of them does to a document.

- **`MarkdownFormatter`** (`yuque_tools/utils/markdown_formatter.py`) normalises blank lines.
  - It walks the lines once, building a new list by appending.
  - It inserts `'\n'` entries around titles, `-`/`=` underlines, `---` separators, code fences and paragraphs.
  - It flips its `in_code_block` field on every fence.
  - Finally it collapses every run of three or more newline characters in the joined text to two.
- **`Yuque._handle_markdown`** (`yuque_tools/yuque.py`) rewrites the lines of a document in place.
  - Two flags decide whether each line receives a trailing `"\n"`.
  - Each remote image line whose download succeeds becomes a link to a local copy named after its position in the document.
- **`YuqueImageDownloder._download_images`** (`yuque_tools/utils/image_downloader.py`) is the same image rewrite on its own.
- **The path handling of the Word converter** (`yuque_tools/markdown_to_word.py:80-104`) does two things.
  - It turns brackets into parentheses and drops spaces in every part of a document's relative path.
  - It derives the `.docx` output path.

The project is laid out as follows:

- Modules:
  - `Wrappers` holds Option, Result and Outcome.
  - `Text` covers whitespace, `strip`, substring occurrence and `str(int)`.
  - `PosixPath` covers `basename`, `splitext` and `join`.
  - `MarkdownFormat` is the formatter.
  - `ImageLinks` holds the image-line matching, naming and rewriting that both image passes share.
  - `ImageDownloader` and `YuqueMarkdown` are the two passes.
  - `MarkdownToWord` is the path handling.
- Regular expressions are written as string predicates. Each predicate's doc comment names the pattern it stands for.
- The passes that work in place are methods on an `array<string>`. Each is proved against a specification function, and the properties the code promises are lemmas about those functions.
- The HTTP GET is a parameter `fetch: string -> int`, the status code the server answers for a URL.
- An image line from which no URL can be extracted makes `match.group()` raise. The passes report this as `Fail(index)`, with the index of that line.

## Model

| member | source | states |
|---|---|---|
| Text.BlankIffStripEmpty | yuque_tools/utils/markdown_formatter.py:32 | a line counts as blank exactly when `strip()` leaves nothing, which is the test `re.match(r'^\s*$', s.strip())` performs |
| Text.BlankIffAllSpace | yuque_tools/yuque.py:58 | a line is blank exactly when every character of it is whitespace |
| Text.NatToStringInjective | yuque_tools/utils/image_downloader.py:47-49 | two different indices never have the same `str()` spelling |
| PosixPath.LastIndexOf | yuque_tools/utils/image_downloader.py:42-45 | the result is -1 or the index of a `c`, and no `c` comes after it |
| PosixPath.BasenameSuffix | yuque_tools/utils/image_downloader.py:42-45 | `basename` is the suffix of the path that follows its last `/`, or the whole path when it has none |
| PosixPath.Basename | yuque_tools/utils/image_downloader.py:42-45 | a base name never contains `/` |
| PosixPath.SplitExt | yuque_tools/utils/image_downloader.py:42-45 | the extension is empty or starts with its only dot, and contains no `/` |
| PosixPath.SplitExtConcat | yuque_tools/markdown_to_word.py:103 | root and extension concatenated give back the path |
| PosixPath.Join | yuque_tools/markdown_to_word.py:86-87 | `os.path.join(a, b)` always ends with `b` |
| MarkdownFormat.Classified | yuque_tools/utils/markdown_formatter.py:54-80 | each input line is paired with the branch of `_process_line` its stripped form takes, tried in the source's order |
| MarkdownFormat.Emit | yuque_tools/utils/markdown_formatter.py:45-102 | one call of `_process_line` appends between one and four entries |
| MarkdownFormat.MarkdownFormatter.constructor | yuque_tools/utils/markdown_formatter.py:10-18 | a new formatter starts outside a code block |
| MarkdownFormat.MarkdownFormatter.AddBlankLines | yuque_tools/utils/markdown_formatter.py:20-43 | at most two `'\n'` entries are spliced in at one place no earlier than `index`; at `len(lines)` that is two entries exactly when the last entry is non-blank (the insert makes `index` the last position, so the append fires too); right after a line appended behind a blank entry it is one entry |
| MarkdownFormat.MarkdownFormatter.HandleCodeBlock | yuque_tools/utils/markdown_formatter.py:82-102 | an opening fence gets a `'\n'` before it behind a non-blank entry, a closing fence gets one after it as `FenceAfter` says, and the field flips |
| MarkdownFormat.MarkdownFormatter.PadBothSides | yuque_tools/utils/markdown_formatter.py:63-72 | a title or separator is appended with the spacer before it and exactly one `'\n'` after it |
| MarkdownFormat.MarkdownFormatter.ProcessLine | yuque_tools/utils/markdown_formatter.py:45-80 | the new list and field are one `Step` of the specification fold, for the line's class |
| MarkdownFormat.MarkdownFormatter.Format | yuque_tools/utils/markdown_formatter.py:104-119 | the text written back is the collapse of the joined fold over all lines, and the field ends as the fold leaves it; it is not reset before the pass |
| MarkdownFormat.FormatText | yuque_tools/utils/markdown_formatter.py:116 | the text written back has no three consecutive newlines and, with newlines deleted, equals the joined list |
| MarkdownFormat.PrefixStep | yuque_tools/utils/markdown_formatter.py:111-113 | the loop advances the fold by exactly one `Step` per input line |
| MarkdownFormat.LengthGrows | yuque_tools/utils/markdown_formatter.py:111-113 | the output list never shrinks |
| MarkdownFormat.Persists | yuque_tools/utils/markdown_formatter.py:111-113 | an entry, once in the output list, stays there unchanged |
| MarkdownFormat.EmitShape | yuque_tools/utils/markdown_formatter.py:20-43 | the padding around a line is `'\n'` entries only, at most two before and one after |
| MarkdownFormat.BlockShape | yuque_tools/utils/markdown_formatter.py:45-102 | handling a line appends the line itself once, at `Position`, and `'\n'` entries around it, nothing else |
| MarkdownFormat.LineInOutput | yuque_tools/utils/markdown_formatter.py:111-113 | every input line appears in the final list, in its own block whose other entries are all `'\n'` |
| MarkdownFormat.PositionsIncrease | yuque_tools/utils/markdown_formatter.py:111-113 | input lines keep their order in the output |
| MarkdownFormat.TitleStep | yuque_tools/utils/markdown_formatter.py:63-72 | a title, underline or separator is followed by one `'\n'` and preceded by a blank entry, unless it is the first entry |
| MarkdownFormat.TitleIsSurrounded | yuque_tools/utils/markdown_formatter.py:32-43 | the same holds in the final output list |
| MarkdownFormat.ListAndBlankUntouched | yuque_tools/utils/markdown_formatter.py:60-62 | list items and blank lines are appended unchanged with nothing inserted around them |
| MarkdownFormat.ParagraphStep | yuque_tools/utils/markdown_formatter.py:76-80 | inside a code block a paragraph line is appended with nothing inserted; outside one it is first or directly follows a blank entry |
| MarkdownFormat.ParagraphSpacing | yuque_tools/utils/markdown_formatter.py:76-80 | outside a code block, a paragraph line is first in the final list or follows a blank entry there |
| MarkdownFormat.OpeningFence | yuque_tools/utils/markdown_formatter.py:91-96 | an opening fence gets a `'\n'` before it exactly when the list so far ends in a non-blank entry, nothing after it, and the pass enters a code block |
| MarkdownFormat.ClosingFence | yuque_tools/utils/markdown_formatter.py:97-101 | a closing fence gets a `'\n'` after it exactly when the OUTPUT entry at the INPUT position `index + 1` exists and is non-blank, and the pass leaves the code block |
| MarkdownFormat.FenceParity | yuque_tools/utils/markdown_formatter.py:102 | after `k` lines `in_code_block` is its initial value XOR an odd number of fences seen |
| MarkdownFormat.CollapseHasNoTripleNewline | yuque_tools/utils/markdown_formatter.py:116 | after `re.sub(r'\n{3,}', '\n\n', …)` no three consecutive newlines remain |
| MarkdownFormat.CollapseKeepsText | yuque_tools/utils/markdown_formatter.py:116 | deleting every newline gives the same text before and after the collapse |
| MarkdownFormat.CollapseFixesClean | yuque_tools/utils/markdown_formatter.py:116 | text without a triple newline is left unchanged by the collapse |
| MarkdownFormat.CollapseIdempotent | yuque_tools/utils/markdown_formatter.py:116 | collapsing twice is collapsing once |
| MarkdownToWord.Replace | yuque_tools/markdown_to_word.py:82-83 | `str.replace` of one character maps each position independently and keeps the length |
| MarkdownToWord.Remove | yuque_tools/markdown_to_word.py:84 | deleting every space shortens the part by the number of spaces, leaves none and adds no character |
| MarkdownToWord.NormaliseIsCharwise | yuque_tools/markdown_to_word.py:82-84 | the replace chain equals the character-by-character map: spaces vanish, each bracket of either width becomes one parenthesis, every other character stays in order |
| MarkdownToWord.NormalisedIsClean | yuque_tools/markdown_to_word.py:82-84 | a processed part contains no `[`, `]`, `［`, `］` or space |
| MarkdownToWord.NormalisedLength | yuque_tools/markdown_to_word.py:82-84 | a processed part is shorter than the original by exactly its number of spaces |
| MarkdownToWord.MapCharsOfClean | yuque_tools/markdown_to_word.py:82-84 | the character map leaves a clean part unchanged |
| MarkdownToWord.NormaliseIdempotent | yuque_tools/markdown_to_word.py:82-84 | processing a processed part returns it unchanged |
| MarkdownToWord.Split | yuque_tools/markdown_to_word.py:74 | `split` yields at least one part and no part contains the separator |
| MarkdownToWord.SplitJoinRoundTrip | yuque_tools/markdown_to_word.py:74 | joining the parts with the separator gives the path back |
| MarkdownToWord.ProcessParts | yuque_tools/markdown_to_word.py:77-95 | one processed part per input part, part `i` the normalisation of input part `i`, and `current_path` the root joined with all processed parts |
| MarkdownToWord.OutputFileShape | yuque_tools/markdown_to_word.py:97-104 | the output name ends in `.docx` preceded by the processed relative path without its last extension, placed under the `.converted` directory |
| MarkdownToWord.ConversionPaths | yuque_tools/markdown_to_word.py:73-104 | the processed parts, full path and output path of one document, from its relative path split on `/` |
| ImageLinks.YuqueAtOccurs | yuque_tools/yuque.py:73 | the spelled-out test for `yuque` at an index is an occurrence of the word there |
| ImageLinks.SpelledAtOccurs | yuque_tools/yuque.py:74-75 | the spelled-out test for an alternative is an occurrence of its spelling |
| ImageLinks.FormatAt | yuque_tools/yuque.py:74-75 | the chosen alternative occurs at the position, and none occurs when there is no choice |
| ImageLinks.FormatsExclusive | yuque_tools/yuque.py:74-75 | at most one of `jpeg|jpg|gif|png|svg|webp` fits at a position, so their order does not matter |
| ImageLinks.FirstDot | yuque_tools/yuque.py:74-76 | the nearest dot before the next newline that is followed by an alternative, or none up to that newline |
| ImageLinks.SearchFrom | yuque_tools/yuque.py:74-76 | the leftmost start at or after `s` with a match, and its shortest match |
| ImageLinks.Search | yuque_tools/yuque.py:74-76 | the match starts at the first `https://` that has one and ends at the first dot-and-alternative after it; no match means no `https://…\.(alt)` anywhere |
| ImageLinks.Url | yuque_tools/yuque.py:77 | the matched URL starts with `https://` and is the text up to the dot, a dot and the alternative |
| ImageLinks.ImageExt | yuque_tools/yuque.py:81-82 | the extension is empty or starts with a dot |
| ImageLinks.ImageName | yuque_tools/yuque.py:84-85 | the name starts with the document stem |
| ImageLinks.ImageLink | yuque_tools/yuque.py:101-102 | the link starts with `![` |
| ImageLinks.UrlExtension | yuque_tools/utils/image_downloader.py:44-45 | the extension of a matched URL is a dot and the matched alternative, except when the last segment before the dot is empty or all dots, where it is empty |
| ImageLinks.ImageNamesDistinct | yuque_tools/utils/image_downloader.py:47-49 | two names of one document are equal only for the same index and extension |
| ImageLinks.NoYuqueNoImageLine | yuque_tools/utils/image_downloader.py:35 | a line without `yuque` is never an image line |
| ImageLinks.UrlExtensionNoYuque | yuque_tools/utils/image_downloader.py:44-45 | no extension taken from a matched URL contains `yuque` |
| ImageLinks.ImageNameNoYuque | yuque_tools/utils/image_downloader.py:47-49 | a name built from a stem and extension without `yuque` contains none |
| ImageLinks.LinkIsNotImageLine | yuque_tools/utils/image_downloader.py:65-66 | the replacement link is no image line when neither name nor directory contains `yuque` |
| ImageLinks.RewriteImage | yuque_tools/utils/image_downloader.py:35-69 | the image step fails exactly on an image line without a URL, reports that line's index, and changes a line only when it is an image line |
| ImageLinks.ImageLineLinked | yuque_tools/utils/image_downloader.py:37-69 | an image line with a URL becomes `![N](./D/N)\n\n`, `N` being stem, `-`, index and extension, when the fetch answers 200, and keeps what it held otherwise |
| ImageLinks.ImageStep | yuque_tools/utils/image_downloader.py:35-69 | the loop body's image step computes `RewriteImage` |
| ImageLinks.RewriteSettles | yuque_tools/utils/image_downloader.py:65-69 | a line replaced by a link is left alone by any later image step, whatever the fetch answers |
| ImageLinks.FirstBrokenFrom | yuque_tools/utils/image_downloader.py:37-40 | the first line at or after `i` on which `match.group()` raises, or none |
| ImageLinks.FirstBroken | yuque_tools/utils/image_downloader.py:37-40 | the first line on which `match.group()` raises; none exactly when no line does |
| ImageLinks.FirstBrokenAt | yuque_tools/utils/image_downloader.py:37-40 | a raising line with no raising line before it is the first one |
| ImageLinks.RewriteAll | yuque_tools/utils/image_downloader.py:32-71 | the image step of every line, by position; the length is kept |
| ImageLinks.RewrittenPrefixMeans | yuque_tools/utils/image_downloader.py:32-69 | each line of a processed prefix is its own line's image step |
| ImageLinks.RewrittenPrefixExtend | yuque_tools/utils/image_downloader.py:32-69 | a processed prefix grows by the next line's image step |
| ImageLinks.RewrittenPrefixBroken | yuque_tools/utils/image_downloader.py:37-40 | a pass that raises right after a processed prefix raises at the first raising line |
| ImageLinks.RewrittenPrefixWhole | yuque_tools/utils/image_downloader.py:32-71 | a prefix as long as the input is the whole pass, which then raises nowhere |
| ImageDownloader.Downloaded | yuque_tools/utils/image_downloader.py:32-71 | the returned list has the input's length, and each entry is its line's image step with the line itself as what it keeps |
| ImageDownloader.NonImageLineKept | yuque_tools/utils/image_downloader.py:32-35 | a line that is no image line is returned unchanged |
| ImageDownloader.ImageLineDownloaded | yuque_tools/utils/image_downloader.py:42-69 | an image line becomes the link to `<stem>-<i><ext>` on a 200 and stays byte for byte the same otherwise |
| ImageDownloader.DownloadIdempotent | yuque_tools/utils/image_downloader.py:35 | after a pass in which every fetch answered 200, a second pass with any fetch raises nowhere and changes nothing, provided neither stem nor directory contains `yuque` |
| ImageDownloader.YuqueImageDownloder.constructor | yuque_tools/utils/image_downloader.py:9-11 | the downloader keeps the document path and the image directory |
| ImageDownloader.YuqueImageDownloder.DownloadImages | yuque_tools/utils/image_downloader.py:23-71 | the pass fails exactly at the first raising line; without one the lines become `Downloaded`; with one, the lines before it are downloaded and it and all after it are untouched |
| YuqueMarkdown.TogglesCodeIffStripPrefix | yuque_tools/yuque.py:48 | the toggle test is "the left-stripped line starts with three backticks or three dashes" |
| YuqueMarkdown.ToggleNotSkipped | yuque_tools/yuque.py:58 | a toggling line is never blank and never starts with `>` |
| YuqueMarkdown.NextFlags | yuque_tools/yuque.py:48-64 | `is_code_start` flips exactly on toggling lines, before the newline decision; a skipped line clears `is_add_newline`; another line sets it outside code and leaves it as it was inside |
| YuqueMarkdown.CodeParity | yuque_tools/yuque.py:48-49 | after `n` lines the pass is inside code exactly when an odd number of them toggled |
| YuqueMarkdown.AddNewlineIff | yuque_tools/yuque.py:58-64 | `is_add_newline` holds exactly when some earlier content line outside code set it and no skipped line has come since |
| YuqueMarkdown.SkippedLineUntouched | yuque_tools/yuque.py:58-60 | a blank line or one starting with `>` clears the flag and is left unchanged by the newline step |
| YuqueMarkdown.ContentLineGetsNewline | yuque_tools/yuque.py:61-69 | any other line outside code becomes `line + "\n"` |
| YuqueMarkdown.NewlineStickyInCode | yuque_tools/yuque.py:61-69 | inside code a content line gets `"\n"` exactly when the line before left the flag set |
| YuqueMarkdown.ClosingLineGetsNewline | yuque_tools/yuque.py:48-69 | a toggling line that closes a code region always gets `"\n"` |
| YuqueMarkdown.NewlineSteps | yuque_tools/yuque.py:66-69 | the newline step of every line, by position |
| YuqueMarkdown.Handled | yuque_tools/yuque.py:42-105 | the list the pass leaves has the input's length, and each entry is its line's image step applied after that line's newline step, the line read before either step |
| YuqueMarkdown.HandledPlainLine | yuque_tools/yuque.py:66-73 | a line that is no image line ends as its newline step made it |
| YuqueMarkdown.HandledImageLine | yuque_tools/yuque.py:73-105 | an image line becomes the link to `<stem>-<i><ext>` on a 200, whatever the newline step did, and keeps the newline step's result otherwise |
| YuqueMarkdown.HandledWhole | yuque_tools/yuque.py:42-105 | a pass that has processed every line raises nowhere and leaves `Handled` |
| YuqueMarkdown.HandledBroken | yuque_tools/yuque.py:73-77 | a pass that raises right after a processed prefix raises at the first raising line |
| YuqueMarkdown.Yuque.constructor | yuque_tools/yuque.py:10-12 | the object keeps the markdown directory and the image directory |
| YuqueMarkdown.Yuque.NewlineLine | yuque_tools/yuque.py:48-69 | the flags after one line are `NextFlags` of the flags before, and the entry gets `"\n"` exactly when the new `is_add_newline` holds |
| YuqueMarkdown.Yuque.HandleLine | yuque_tools/yuque.py:43-105 | one loop iteration writes only `lines[index]`, advances the flags by one line and extends the processed prefix, or raises with the entry holding its newline step |
| YuqueMarkdown.Yuque.HandleMarkdown | yuque_tools/yuque.py:24-105 | the pass fails exactly at the first raising line; without one the lines become `Handled`; with one, the lines before it are handled, it holds its newline step and the lines after it are untouched |

## Left out

- The network. `requests.get` is the oracle `fetch`. Response bodies, the image files written and `os.makedirs` of the image directory are not modelled.
- File reading and writing. Each pass takes what `readlines()` returned and returns what `writelines` would write. When `match.group()` raises, the source writes nothing back. The model reports the `Fail` index together with the state of the in-memory list at that moment.
- Logging throughout.
- `save_path`, `base_file_path` and `image_full_path` serve only to write the image file and do not appear in any line.
- `Yuque.__init__`'s `markdown_path` (`os.path.abspath`), `Yuque.format`, `_find_md_files` and `glob`, and `YuqueImageDownloder.download`. These are file discovery and I/O.
- `os.path.relpath`, `os.path.exists`, `os.rename` and `os.makedirs` in `markdown_to_word.py`, the pandoc conversion and the driver loop over files. The relative path is an input to `MarkdownToWord.ConversionPaths`.
- `os.sep` is `/`: only POSIX paths are modelled.
- `MarkdownFormat.IsListItem`: `\d` is modelled as the ASCII digits. Python also matches other Unicode decimal digits.
- `md_basename` is recomputed on every image line. The model computes `Stem(mdPath)` once per pass, which gives the same value.
- `_handle_markdown` may assign `lines[index]` twice in one iteration: first the newline step, then the link. The model stores once, and the stored value is the final one.
- The source does not skip images already downloaded. It does not exempt code regions from the image rewrite, from the sticky `"\n"` or from the final collapse, and it does not limit titles to six `#`. The model follows the code in all of these.
- The class name `YuqueImageDownloder` keeps the source's spelling.
- `readlines()` in text mode translates `\r\n` to `\n`. This is part of the file read and is not modelled.
- `markdown_handler.py`, `image_converter.py`, both `utils.py` files and the two command-line entry points are not part of this model: they are wrappers over pandoc, PIL, cairosvg, argparse and the environment.
