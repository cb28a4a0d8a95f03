/**
 * URL normalisation and scoping: `normalize_directory_url`, `is_same_origin`
 * and `is_within_base_path` of scripts/download_pdfs.py. The components that
 * `urllib.parse.urlparse` extracts (scheme, network location, path) are
 * taken as given.
 */
module Urls {

  import opened Strings

  /** The parts of `urlparse(url)` the crawler reads. */
  datatype UrlParts = UrlParts(scheme: string, netloc: string, path: string)

  /** `urldefrag(url)[0]`: the part of the URL before its first `#`. */
  function Defrag(url: string): string {
    if '#' in url then url[..IndexOf(url, '#')] else url
  }

  /** The fragment-free part is the longest prefix of the URL without `#`: it stops at the first `#`, or runs to the end. */
  lemma DefragSpec(url: string)
    ensures var r := Defrag(url);
      '#' !in r && StartsWith(url, r) && (|r| < |url| ==> url[|r|] == '#')
  {
  }

  /** A URL with no `#` is its own fragment-free part. */
  lemma DefragWithoutFragment(url: string)
    requires '#' !in url
    ensures Defrag(url) == url
  {
  }

  /** `normalize_directory_url`: drop the fragment, then make sure the URL ends in `/`. */
  function NormalizeDirectoryUrl(url: string): string {
    var stripped := Defrag(url);
    if EndsWith(stripped, "/") then stripped else stripped + "/"
  }

  /** A normalised URL ends in `/`, has no `#`, and is the fragment-free part with at most a `/` added. */
  lemma NormalizeSpec(url: string)
    ensures var r := NormalizeDirectoryUrl(url);
      EndsWith(r, "/") && '#' !in r && StartsWith(r, Defrag(url)) && |r| <= |Defrag(url)| + 1
  {
    DefragSpec(url);
  }

  /** Normalising twice gives the same URL as normalising once. */
  lemma NormalizeIdempotent(url: string)
    ensures NormalizeDirectoryUrl(NormalizeDirectoryUrl(url)) == NormalizeDirectoryUrl(url)
  {
    DefragWithoutFragment(NormalizeDirectoryUrl(url));
  }

  /** The URLs normalisation leaves alone are exactly those that end in `/` and have no `#`. */
  lemma NormalizeFixedPoints(url: string)
    ensures NormalizeDirectoryUrl(url) == url <==> EndsWith(url, "/") && '#' !in url
  {
    if EndsWith(url, "/") && '#' !in url {
      DefragWithoutFragment(url);
    }
  }

  /** `is_same_origin`: same scheme and same network location. */
  predicate IsSameOrigin(url: UrlParts, base: UrlParts) {
    url.scheme == base.scheme && url.netloc == base.netloc
  }

  /** Having the same origin is an equivalence between URLs. */
  lemma SameOriginIsEquivalence(a: UrlParts, b: UrlParts, c: UrlParts)
    ensures IsSameOrigin(a, a)
    ensures IsSameOrigin(a, b) ==> IsSameOrigin(b, a)
    ensures IsSameOrigin(a, b) && IsSameOrigin(b, c) ==> IsSameOrigin(a, c)
  {
  }

  /** The base path with a `/` appended when it does not already end in one. */
  function WithTrailingSlash(path: string): string {
    if EndsWith(path, "/") then path else path + "/"
  }

  /** `is_within_base_path` on the two paths: the URL path starts with the slash-terminated base path. */
  predicate IsWithinBasePath(urlPath: string, basePath: string) {
    StartsWith(urlPath, WithTrailingSlash(basePath))
  }

  /**
   * The prefix test only ever accepts at a segment boundary: the URL path
   * starts with the base path, and the base path either ends in `/` or is
   * followed by `/` in the URL path. So base `/images` accepts `/images/a.pdf`
   * but neither `/imagesX/a.pdf` nor `/images`.
   */
  lemma WithinBasePathAtSegmentBoundary(urlPath: string, basePath: string)
    ensures IsWithinBasePath(urlPath, basePath) <==>
      StartsWith(urlPath, basePath) &&
      (EndsWith(basePath, "/") || (|urlPath| > |basePath| && urlPath[|basePath|] == '/'))
  {
    var b := WithTrailingSlash(basePath);
    if !EndsWith(basePath, "/") {
      assert b == basePath + "/";
      if IsWithinBasePath(urlPath, basePath) {
        assert urlPath[..|basePath|] == b[..|basePath|];
        assert urlPath[|basePath|] == b[|basePath|];
      }
      if StartsWith(urlPath, basePath) && |urlPath| > |basePath| && urlPath[|basePath|] == '/' {
        assert urlPath[..|b|] == urlPath[..|basePath|] + [urlPath[|basePath|]];
      }
    }
  }

  /** Without a trailing `/`, the base path itself is not inside the base path. */
  lemma BasePathItselfIsOutside(basePath: string)
    requires !EndsWith(basePath, "/")
    ensures !IsWithinBasePath(basePath, basePath)
    ensures IsWithinBasePath(basePath + "/", basePath)
  {
    WithinBasePathAtSegmentBoundary(basePath, basePath);
    WithinBasePathAtSegmentBoundary(basePath + "/", basePath);
    assert (basePath + "/")[..|basePath|] == basePath;
  }

  /** A path lies inside itself as a base path exactly when it ends in `/`. */
  lemma WithinOwnBasePath(path: string)
    ensures IsWithinBasePath(path, path) <==> EndsWith(path, "/")
  {
    WithinBasePathAtSegmentBoundary(path, path);
    assert path[..|path|] == path;
  }

  /** Base `/images` accepts `/images/a.pdf` and rejects `/imagesX/a.pdf` and `/images`. */
  lemma ImagesExample()
    ensures IsWithinBasePath("/images/a.pdf", "/images")
    ensures !IsWithinBasePath("/imagesX/a.pdf", "/images")
    ensures !IsWithinBasePath("/images", "/images")
  {
    var base, good, bad := "/images", "/images/a.pdf", "/imagesX/a.pdf";
    assert base[|base| - 1] == 's';
    assert good[..8] == base + "/";
    assert bad[7] == 'X';
    BasePathItselfIsOutside(base);
  }
}
