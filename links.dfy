/**
 * Which hrefs of a directory listing the crawler ignores, and how it sorts
 * the rest into PDFs, sub-directories and other files
 * (`should_skip_link` and `classify_link` in scripts/download_pdfs.py).
 */
module Links {

  import opened Strings

  /** The lower-cased prefixes that mark a link to skip: queries, fragments, scripts and mail addresses. */
  const SkipPrefixes: seq<string> := ["?", "#", "javascript:", "mailto:"]

  /** `h` begins with `p` once its ASCII capitals are read as small letters. */
  predicate StartsWithIgnoringCase(h: string, p: string) {
    |p| <= |h| && forall i :: 0 <= i < |p| ==> LowerChar(h[i]) == p[i]
  }

  lemma LowerStartsWith(h: string, p: string)
    ensures StartsWith(Lower(h), p) <==> StartsWithIgnoringCase(h, p)
  {
    if |p| <= |h| && StartsWithIgnoringCase(h, p) {
      assert Lower(h)[..|p|] == p;
    }
  }

  /** `should_skip_link`: the href, lower-cased, starts with one of the skip prefixes. */
  function ShouldSkipLink(href: string): (skip: bool)
    ensures skip <==> exists p :: p in SkipPrefixes && StartsWithIgnoringCase(href, p)
  {
    LowerStartsWith(href, "?");
    LowerStartsWith(href, "#");
    LowerStartsWith(href, "javascript:");
    LowerStartsWith(href, "mailto:");
    var lower := Lower(href);
    StartsWith(lower, "?") || StartsWith(lower, "#") || StartsWith(lower, "javascript:") || StartsWith(lower, "mailto:")
  }

  /** The test ignores case, and anything appended to a skipped href is skipped too. */
  lemma SkipIsCaseInsensitiveAndPrefixClosed(h: string, h': string, tail: string)
    requires Lower(h) == Lower(h')
    ensures ShouldSkipLink(h) == ShouldSkipLink(h')
    ensures ShouldSkipLink(h) ==> ShouldSkipLink(h + tail)
  {
    LowerStartsWith(h, "?");
    LowerStartsWith(h, "#");
    LowerStartsWith(h, "javascript:");
    LowerStartsWith(h, "mailto:");
    LowerStartsWith(h', "?");
    LowerStartsWith(h', "#");
    LowerStartsWith(h', "javascript:");
    LowerStartsWith(h', "mailto:");
    if ShouldSkipLink(h) {
      var p :| p in SkipPrefixes && StartsWithIgnoringCase(h, p);
      assert StartsWithIgnoringCase(h + tail, p) by {
        forall i | 0 <= i < |p| ensures LowerChar((h + tail)[i]) == p[i] {
          assert (h + tail)[i] == h[i];
        }
      }
    }
  }

  /** Any href that begins with a skip prefix written in any mix of cases is skipped, e.g. `MAILTO:x` or `JavaScript:void(0)`. */
  lemma SkippedWhenLowerPrefix(p: string, rest: string)
    requires Lower(p) in SkipPrefixes
    ensures ShouldSkipLink(p + rest)
  {
    assert StartsWithIgnoringCase(p + rest, Lower(p)) by {
      forall i | 0 <= i < |p| ensures LowerChar((p + rest)[i]) == Lower(p)[i] {
        assert (p + rest)[i] == p[i];
      }
    }
  }

  /** An href whose first character cannot begin a skip prefix is kept. */
  lemma KeptByFirstChar(h: string)
    requires h != [] && LowerChar(h[0]) !in "?#jm"
    ensures !ShouldSkipLink(h)
  {
    forall p | p in SkipPrefixes ensures !StartsWithIgnoringCase(h, p) {
      assert p[0] in "?#jm";
    }
  }

  /** The four answers of `classify_link`. */
  datatype LinkKind = Skip | Pdf | Dir | Other

  /** The empty name, `.`, `..` and anything that climbs out through `../`. */
  predicate IsParentOrSelf(d: string) {
    d == "" || d == "." || d == ".." || StartsWith(d, "../")
  }

  /** Ends in `.pdf` with the three letters in any case. */
  predicate HasPdfExtension(d: string) {
    |d| >= 4 && d[|d| - 4] == '.' && d[|d| - 3] in "pP" && d[|d| - 2] in "dD" && d[|d| - 1] in "fF"
  }

  lemma LowerEndsWithPdf(d: string)
    ensures EndsWith(Lower(d), ".pdf") <==> HasPdfExtension(d)
  {
    if |d| >= 4 {
      var n := |d|;
      var l := Lower(d);
      assert l[n - 4..] == [l[n - 4], l[n - 3], l[n - 2], l[n - 1]];
    }
  }

  /**
   * `classify_link` on an already decoded and stripped href. The `skip` rule
   * comes first, so `../a.pdf` is skipped; the PDF test ignores case and comes
   * before the directory tests; the trailing-`/` test is subsumed by the
   * "no `.` in the last piece" test, which is what makes a name a directory.
   */
  function ClassifyDecoded(decoded: string): (kind: LinkKind)
    ensures kind == Skip <==> IsParentOrSelf(decoded)
    ensures kind == Pdf <==> !IsParentOrSelf(decoded) && HasPdfExtension(decoded)
    ensures kind == Dir <==> !IsParentOrSelf(decoded) && !HasPdfExtension(decoded) && NoDotAfterLastSlash(decoded)
  {
    LowerEndsWithPdf(decoded);
    LastSegmentHasNoDot(decoded);
    TrailingSlashNoDot(decoded);
    if decoded in {"", ".", ".."} || StartsWith(decoded, "../") then Skip
    else if EndsWith(Lower(decoded), ".pdf") then Pdf
    else if EndsWith(decoded, "/") then Dir
    else if '.' !in LastSegment(decoded) then Dir
    else Other
  }

  /** The skip rule wins over the PDF rule: everything under `../`, such as `../a.pdf`, is skipped. */
  lemma ParentLinksAreSkipped(rest: string)
    ensures ClassifyDecoded("../" + rest) == Skip
  {
    assert ("../" + rest)[..3] == "../";
  }

  /** A PDF extension stays one when a name is put in front of it. */
  lemma PdfExtensionAfterName(d: string, ext: string)
    requires |ext| == 4 && HasPdfExtension(ext)
    ensures HasPdfExtension(d + ext)
  {
    var s := d + ext;
    assert s[|s| - 4..] == ext;
  }

  /** A name ending in a dot is never `.`, `..` or under `../` once a PDF extension follows it, unless it already was. */
  lemma PdfNameIsNotParent(d: string, ext: string)
    requires |ext| == 4 && ext[0] == '.' && ext[1] != '.' && ext[1] != '/'
    requires !StartsWith(d, "../")
    ensures !IsParentOrSelf(d + ext)
  {
    var s := d + ext;
    if |d| >= 3 {
      assert s[..3] == d[..3];
    } else if |d| == 0 {
      assert s[1] == ext[1];
    } else if |d| == 1 {
      assert s[2] == ext[1];
    } else {
      assert s[2] == ext[0];
    }
  }

  /** The PDF test ignores case: a name ending in `.pdf`, `.PDF`, `.Pdf`, ... is a PDF unless it begins with `../`. */
  lemma PdfInAnyCase(d: string, ext: string)
    requires |ext| == 4 && HasPdfExtension(ext)
    requires !StartsWith(d, "../")
    ensures ClassifyDecoded(d + ext) == Pdf
  {
    PdfExtensionAfterName(d, ext);
    PdfNameIsNotParent(d, ext);
  }

  /** A name with a trailing `/` is a directory unless it is skipped. */
  lemma TrailingSlashIsDir(d: string)
    requires !IsParentOrSelf(d + "/")
    ensures ClassifyDecoded(d + "/") == Dir
  {
    var s := d + "/";
    assert s[|s| - |"/"|..] == "/";
    TrailingSlashNoDot(s);
  }

  /** A non-empty name without any dot is a directory even without a trailing `/`. */
  lemma DotlessNameIsDir(d: string)
    requires d != [] && '.' !in d
    ensures ClassifyDecoded(d) == Dir
  {
    assert forall i :: 0 <= i < |d| ==> d[i] in d;
    assert d[0] != '.';
    assert !IsParentOrSelf(d);
    assert NoDotAfterLastSlash(d);
  }

  /**
   * `classify_link(href)`: decode with `unquote` (percent-decoding, given as a
   * function), strip white space, then classify.
   */
  function ClassifyLink(href: string, unquote: string -> string): LinkKind {
    ClassifyDecoded(Strip(unquote(href)))
  }

  /** White space around the decoded href does not change its class. */
  lemma ClassifyLinkIgnoresPadding(href: string, unquote: string -> string, left: string, d: string, right: string)
    requires unquote(href) == left + d + right
    requires AllSpace(left) && AllSpace(right)
    requires d != [] ==> !IsSpace(d[0]) && !IsSpace(d[|d| - 1])
    ensures ClassifyLink(href, unquote) == ClassifyDecoded(d)
  {
    StripRemovesPadding(left, d, right);
  }
}
