/**
 * `YuqueImageDownloder._download_images`: one pass over the lines of a
 * document that replaces each remote image line whose fetch succeeds by a
 * link to a positionally named local copy.
 */
module ImageDownloader {
  import opened Wrappers
  import opened Text
  import opened ImageLinks

  /** The list the pass returns when no line raises: each line after its image step. */
  function Downloaded(stem: string, dir: string, fetch: string -> int, lines: seq<string>): (out: seq<string>)
    requires FirstBroken(lines).None?
    ensures |out| == |lines|
    ensures forall i :: 0 <= i < |lines| ==> RewriteImage(stem, dir, fetch, lines[i], i, lines[i]) == Success(out[i])
  {
    RewriteAll(stem, dir, fetch, lines, lines)
  }

  /** A line that is no image line comes back unchanged. */
  lemma NonImageLineKept(stem: string, dir: string, fetch: string -> int, lines: seq<string>, i: nat)
    requires FirstBroken(lines).None? && i < |lines|
    requires !IsImageLine(lines[i])
    ensures Downloaded(stem, dir, fetch, lines)[i] == lines[i]
  {
  }

  /**
   * An image line becomes the link to `<stem>-<i><ext>` when its fetch
   * returns 200, `<ext>` being the matched alternative with its dot (or
   * nothing, see `UrlExtension`); on any other status it is kept byte for
   * byte.
   */
  lemma ImageLineDownloaded(stem: string, dir: string, fetch: string -> int, lines: seq<string>, i: nat)
    requires FirstBroken(lines).None? && i < |lines|
    requires IsImageLine(lines[i])
    ensures Search(lines[i]).Some?
    ensures var m := Search(lines[i]).value;
      var url := Url(lines[i], m);
      var ext := ImageExt(url);
      && (ext == "." + Spelling(m.format) || ext == [])
      && Downloaded(stem, dir, fetch, lines)[i] == if fetch(url) == 200 then ImageLink(ImageName(stem, i, ext), dir) else lines[i]
  {
    ImageLineLinked(stem, dir, fetch, lines[i], i, lines[i]);
  }

  /**
   * With every fetch returning 200, a second pass over the output, with any
   * fetch at all, raises nowhere and changes nothing, provided neither the
   * stem nor the image directory contains `yuque`.
   */
  lemma DownloadIdempotent(stem: string, dir: string, fetch: string -> int, fetch2: string -> int, lines: seq<string>)
    requires FirstBroken(lines).None?
    requires forall u :: fetch(u) == 200
    requires !Occurs("yuque", stem) && !Occurs("yuque", dir)
    ensures FirstBroken(Downloaded(stem, dir, fetch, lines)).None?
    ensures Downloaded(stem, dir, fetch2, Downloaded(stem, dir, fetch, lines)) == Downloaded(stem, dir, fetch, lines)
  {
    var out := Downloaded(stem, dir, fetch, lines);
    forall i | 0 <= i < |lines|
      ensures !Broken(out[i]) && RewriteImage(stem, dir, fetch2, out[i], i, out[i]) == Success(out[i])
    {
      if IsImageLine(lines[i]) {
        RewriteSettles(stem, dir, fetch, fetch2, lines[i], i, lines[i]);
      }
    }
  }

  /** `YuqueImageDownloder`: the document path and the name of its image directory. */
  class YuqueImageDownloder {
    const mdPath: string
    const imageDownloadDir: string

    constructor (mdPath: string, imageDownloadDir: string)
      ensures this.mdPath == mdPath && this.imageDownloadDir == imageDownloadDir
    {
      this.mdPath := mdPath;
      this.imageDownloadDir := imageDownloadDir;
    }

    /**
     * `_download_images` on the lines, in place. `fetch` answers the status
     * code of a GET of a URL. The pass stops with the index of the first
     * image line without a URL, where `match.group()` raises, and leaves the
     * lines from there on as they were.
     */
    method DownloadImages(lines: array<string>, fetch: string -> int) returns (outcome: Outcome<nat>)
      modifies lines
      ensures outcome == match FirstBroken(old(lines[..])) case None => Pass case Some(k) => Fail(k)
      ensures outcome.Pass? ==> lines[..] == Downloaded(Stem(mdPath), imageDownloadDir, fetch, old(lines[..]))
      ensures outcome.Fail? ==> forall i :: 0 <= i < outcome.error ==>
        RewriteImage(Stem(mdPath), imageDownloadDir, fetch, old(lines[i]), i, old(lines[i])) == Success(lines[i])
      ensures outcome.Fail? ==> forall i :: outcome.error <= i < lines.Length ==> lines[i] == old(lines[i])
    {
      var stem := Stem(mdPath);
      ghost var orig := lines[..];
      var index := 0;
      while index < lines.Length
        invariant index <= lines.Length
        invariant RewrittenPrefix(stem, imageDownloadDir, fetch, orig, orig, lines[..index])
        invariant forall i :: index <= i < lines.Length ==> lines[i] == orig[i]
      {
        var line := lines[index];
        assert line == orig[index];
        ghost var done := lines[..index];
        var r := ImageStep(stem, imageDownloadDir, fetch, line, index, line);
        if r.Failure? {
          RewrittenPrefixBroken(stem, imageDownloadDir, fetch, orig, orig, done);
          return Fail(index);
        }
        lines[index] := r.value;
        RewrittenPrefixExtend(stem, imageDownloadDir, fetch, orig, orig, done, r.value);
        assert lines[..index] == done;
        assert lines[..index + 1] == lines[..index] + [lines[index]];
        index := index + 1;
      }
      assert lines[..index] == lines[..];
      RewrittenPrefixWhole(stem, imageDownloadDir, fetch, orig, orig, lines[..]);
      return Pass;
    }
  }
}
