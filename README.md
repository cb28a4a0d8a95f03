# PDF crawler model

A Dafny model of `scripts/download_pdfs.py`. The script crawls an Apache
directory listing from a base URL. It keeps a LIFO worklist of directory
URLs and a set of visited, normalised directory URLs. For every href of
every listing it does the following, in order:

1. applies the skip test;
2. resolves the href against the page and drops its fragment;
3. keeps only URLs with the base URL's origin and inside its base path;
4. classifies the href as `skip`, `pdf`, `dir` or `other`;
5. queues directories, and for PDFs decides whether to skip, report (in a
   dry run) or download the file, at a local path derived from the URL path.

The modules follow the script's parts:

- `Strings` holds the few `str` operations the script relies on (`lower`,
  `startswith`, `endswith`, `split`, `strip`, `lstrip`). Their laws are
  proved as lemmas.
- `Links` holds `should_skip_link` and `classify_link`.
- `Urls` holds `normalize_directory_url`, `is_same_origin` and
  `is_within_base_path`. The parsed URL components are inputs to these.
- `LocalPaths` holds `build_local_path`. A local path is the sequence of
  its `pathlib` parts.
- `Downloads` holds the existence, size and dry-run decision of
  `download_file`, as a pure function returning an action. It also holds
  the size check after a download.
- `Listing` holds `DirectoryListingParser`, a class whose `links` field
  `HandleStartTag` appends to, and `fetch_links` once the page is received.
- `Crawler` holds `crawl`:
  - `Step` and `Run` specify one turn and a bounded number of turns of
    the `while queue` loop.
  - `Crawl` is the loop itself, with `Turn` for its body and `HandleLinks`
    for the inner `for href in links` loop. Each is proved equal to its
    specification function.
  - `CrawlGuarantees` states what any crawl keeps true.

The outside world is an `Env` value:

- the listing fetch, which gives the page's start tags, or `None` for a
  `URLError`;
- `urlparse`, `urljoin` and `unquote`;
- the `HEAD` size probe;
- the file download.

The local files are a map from local path to size. The printed messages
are a log of `Event`s.

## Model

| member | source | states |
|---|---|---|
| Strings.StartsWith | scripts/download_pdfs.py:99 | `str.startswith`, the definition the prefix lemmas are proved against |
| Strings.EndsWith | scripts/download_pdfs.py:108 | `str.endswith`, the definition the suffix lemmas are proved against |
| Strings.IndexOf | scripts/download_pdfs.py:77 | the first position of a character (the `#` of `urldefrag`, the `/` of `split`): it holds the character and no earlier position does |
| Strings.LastSegment | scripts/download_pdfs.py:112 | `split("/")[-1]`; stated by `Strings.LastSegmentHasNoDot` |
| Strings.IsSpace | scripts/download_pdfs.py:103 | the characters `str.isspace` accepts, by code point; used by `Strings.Strip` |
| Strings.TrimStart | scripts/download_pdfs.py:180 | `lstrip(chars)`; stated by `Strings.TrimStartSpec` and `Strings.TrimStartSpaces` |
| Strings.TrimEnd | scripts/download_pdfs.py:103 | the right half of `strip`; stated by `Strings.TrimEndSpec` and `Strings.TrimEndSpaces` |
| Strings.Strip | scripts/download_pdfs.py:103 | `str.strip()`; stated by `Strings.StripRemovesPadding` |
| Strings.Lower | scripts/download_pdfs.py:98 | lower-casing keeps the length and maps each character on its own |
| Strings.Split | scripts/download_pdfs.py:112 | `split("/")` yields at least one piece and no piece contains the separator |
| Strings.JoinSplit | scripts/download_pdfs.py:112 | joining the pieces of a split with the same separator gives back the string |
| Strings.LastSegmentHasNoDot | scripts/download_pdfs.py:112 | the last `/`-piece has no `.` exactly when every `.` of the string is followed later by a `/` |
| Strings.NoDotAfterSlash | scripts/download_pdfs.py:112 | cutting a string just after a `/` keeps the answer of the dot test |
| Strings.TrailingSlashNoDot | scripts/download_pdfs.py:108-113 | a string ending in `/` passes the dot test, so the trailing-slash rule is a special case of the dot rule |
| Strings.NoDotWithoutSlash | scripts/download_pdfs.py:112 | without a `/`, the dot test holds exactly when there is no `.` |
| Strings.TrimStartSpec | scripts/download_pdfs.py:180 | `lstrip` keeps the longest suffix that does not start with a dropped character, and everything removed was dropped |
| Strings.TrimEndSpec | scripts/download_pdfs.py:103 | the right half of `strip` keeps the longest prefix that does not end with white space, and everything removed was white space |
| Strings.TrimStartSpaces | scripts/download_pdfs.py:103 | stripping on the left removes a white-space prefix and stops at the first other character |
| Strings.TrimEndSpaces | scripts/download_pdfs.py:103 | stripping on the right removes a white-space suffix and stops at the last other character |
| Strings.StripRemovesPadding | scripts/download_pdfs.py:103 | `strip` returns exactly the text between white-space padding when that text neither starts nor ends with white space |
| Links.LowerStartsWith | scripts/download_pdfs.py:98-99 | a prefix test on the lower-cased href is a case-insensitive prefix test on the href |
| Links.ShouldSkipLink | scripts/download_pdfs.py:97-99 | an href is skipped exactly when it begins, ignoring case, with `?`, `#`, `javascript:` or `mailto:` |
| Links.SkipIsCaseInsensitiveAndPrefixClosed | scripts/download_pdfs.py:97-99 | hrefs that lower-case alike are treated alike, and extending a skipped href keeps it skipped |
| Links.SkippedWhenLowerPrefix | scripts/download_pdfs.py:97-99 | any mixed-case spelling of a skip prefix, such as `MAILTO:` or `JavaScript:`, is skipped whatever follows |
| Links.KeptByFirstChar | scripts/download_pdfs.py:97-99 | an href whose first character cannot begin a skip prefix is kept |
| Links.LowerEndsWithPdf | scripts/download_pdfs.py:106 | the lower-cased name ends in `.pdf` exactly when it ends in a dot and `p`, `d`, `f` in any case |
| Links.ClassifyDecoded | scripts/download_pdfs.py:104-114 | the rules in order: `skip` exactly for the empty name, `.`, `..` and `../` names; otherwise `pdf` exactly for a case-insensitive `.pdf` ending; otherwise `dir` exactly when every dot is followed by a `/`; otherwise `other` |
| Links.ParentLinksAreSkipped | scripts/download_pdfs.py:104-105 | everything under `../`, including `../a.pdf`, is skipped |
| Links.PdfExtensionAfterName | scripts/download_pdfs.py:106-107 | a PDF extension stays one after any name |
| Links.PdfNameIsNotParent | scripts/download_pdfs.py:104-107 | a name plus a `.x…` extension is never caught by the skip rule unless the name starts with `../` |
| Links.PdfInAnyCase | scripts/download_pdfs.py:106-107 | a name ending in `.pdf`, `.PDF`, `.Pdf`, and so on is `pdf` unless it begins with `../` |
| Links.TrailingSlashIsDir | scripts/download_pdfs.py:108-109 | a name with a trailing `/` that is not skipped is a directory |
| Links.DotlessNameIsDir | scripts/download_pdfs.py:112-113 | a non-empty name without any dot is a directory even without a trailing `/` |
| Links.ClassifyLink | scripts/download_pdfs.py:102-103 | `classify_link`: decode with the given `unquote`, strip, then `Links.ClassifyDecoded`; stated by `Links.ClassifyLinkIgnoresPadding` |
| Links.ClassifyLinkIgnoresPadding | scripts/download_pdfs.py:102-103 | white space around the decoded href does not change its class |
| Urls.Defrag | scripts/download_pdfs.py:77 | `urldefrag(url)[0]` as the part before the first `#`; stated by `Urls.DefragSpec` |
| Urls.NormalizeDirectoryUrl | scripts/download_pdfs.py:76-80 | `normalize_directory_url`; stated by `Urls.NormalizeSpec`, `Urls.NormalizeIdempotent` and `Urls.NormalizeFixedPoints` |
| Urls.IsSameOrigin | scripts/download_pdfs.py:83-86 | `is_same_origin` on the parsed URLs: same scheme and same network location |
| Urls.WithTrailingSlash | scripts/download_pdfs.py:92-93 | the base path with `/` appended when missing |
| Urls.IsWithinBasePath | scripts/download_pdfs.py:89-94 | `is_within_base_path` on the parsed paths; stated by `Urls.WithinBasePathAtSegmentBoundary` |
| Urls.DefragSpec | scripts/download_pdfs.py:77 | the fragment-free part has no `#`, is a prefix of the URL, and ends where the URL's first `#` is |
| Urls.DefragWithoutFragment | scripts/download_pdfs.py:77 | a URL without `#` is unchanged |
| Urls.NormalizeSpec | scripts/download_pdfs.py:76-80 | a normalised URL ends in `/`, has no `#`, and is the fragment-free part with at most one `/` added |
| Urls.NormalizeIdempotent | scripts/download_pdfs.py:76-80 | normalising twice equals normalising once |
| Urls.NormalizeFixedPoints | scripts/download_pdfs.py:76-80 | normalisation leaves a URL unchanged exactly when it ends in `/` and has no `#` |
| Urls.SameOriginIsEquivalence | scripts/download_pdfs.py:83-86 | comparing scheme and network location is reflexive, symmetric and transitive |
| Urls.WithinBasePathAtSegmentBoundary | scripts/download_pdfs.py:89-94 | the base path test accepts exactly the paths that start with the base path at a segment boundary (the base ends in `/`, or a `/` follows it) |
| Urls.BasePathItselfIsOutside | scripts/download_pdfs.py:89-94 | a base path without a trailing `/` is not inside itself, but the path with `/` added is |
| Urls.WithinOwnBasePath | scripts/download_pdfs.py:89-94 | a path is inside itself as a base path exactly when it ends in `/` |
| Urls.ImagesExample | scripts/download_pdfs.py:89-94 | base `/images` accepts `/images/a.pdf` and rejects `/imagesX/a.pdf` and `/images` |
| LocalPaths.KeepNames | scripts/download_pdfs.py:183 | every kept name is a piece that is neither empty nor `.`, and every such piece is kept; order and repetitions are fixed by the two lemmas below |
| LocalPaths.KeepNamesAppend | scripts/download_pdfs.py:183 | dropping works piece by piece: the names of `a + b` are those of `a` followed by those of `b`, so the parts keep the URL's segment order and repetitions |
| LocalPaths.KeepNamesOne | scripts/download_pdfs.py:183 | a single piece is kept exactly when it is neither empty nor `.` |
| LocalPaths.PathParts | scripts/download_pdfs.py:183 | every `pathlib` part is a proper name: not empty, not `.`, no `/` |
| LocalPaths.PathName | scripts/download_pdfs.py:182 | the `name` of a path is empty or a proper name |
| LocalPaths.BuildLocalPath | scripts/download_pdfs.py:171-183 | `build_local_path` on the parsed paths: the local path starts with the destination root and every part after it is a proper name; the three `BuildLocalPath…` lemmas give it exactly |
| LocalPaths.PathPartsAfterSlash | scripts/download_pdfs.py:180 | a leading `/` does not change the parts of a path |
| LocalPaths.PathPartsIgnoreLeadingSlashes | scripts/download_pdfs.py:180-183 | stripping leading slashes never changes the parts of a path |
| LocalPaths.PathPartsOfName | scripts/download_pdfs.py:182-183 | a single proper name is its own only part |
| LocalPaths.TrimSlashesEmpty | scripts/download_pdfs.py:180-181 | the path is empty after `lstrip("/")` exactly when it was all slashes |
| LocalPaths.BuildLocalPathWithinBase | scripts/download_pdfs.py:171-183 | inside the base path, the local path is the destination root followed by the parts of what follows the slash-terminated base path |
| LocalPaths.BuildLocalPathAtBase | scripts/download_pdfs.py:178-182 | when only slashes follow the base path, the local path is the root followed by the URL path's last name, if it has one |
| LocalPaths.BuildLocalPathOutsideBase | scripts/download_pdfs.py:171-183 | outside the base path, the whole URL path is mapped under the destination root |
| Downloads.Decide | scripts/download_pdfs.py:136-153 | skip exactly when the file exists with the known expected size; otherwise fetch exactly when not a dry run; the reported state of the existing file (absent, remote size unknown, size mismatch) matches the inputs |
| Downloads.DryRunOnlyChangesTheLastStep | scripts/download_pdfs.py:136-153 | the skip answer does not depend on the dry-run flag; otherwise a dry run reports what a real run would fetch, with the same note on the existing file |
| Downloads.CheckDownloaded | scripts/download_pdfs.py:161-168 | after a download, the size is reported, with a mismatch warning exactly when a known expected size differs |
| Listing.LookupAttr | scripts/download_pdfs.py:36-37 | `dict(attrs).get(key)` is `None` exactly when no pair has the key, else the value of the last pair with it |
| Listing.AnchorTagNames | scripts/download_pdfs.py:34 | the tag test accepts exactly `a` and `A` |
| Listing.AnchorHref | scripts/download_pdfs.py:33-39 | a start tag contributes at most one link, and does so exactly when it is an anchor with a non-empty href |
| Listing.ExtractLinks | scripts/download_pdfs.py:71-73 | a page yields at most one link per start tag |
| Listing.ExtractLinksAppend | scripts/download_pdfs.py:71-73 | extraction works tag by tag, so it keeps document order across any split of the page |
| Listing.ExtractedLinksAreAnchorHrefs | scripts/download_pdfs.py:33-39 | every extracted link is non-empty and the href of some anchor tag of the page |
| Listing.DirectoryListingParser.constructor | scripts/download_pdfs.py:29-31 | a new parser has no links |
| Listing.DirectoryListingParser.HandleStartTag | scripts/download_pdfs.py:33-39 | `links` grows by exactly the contribution of the tag |
| Listing.DirectoryListingParser.FeedStartTags | scripts/download_pdfs.py:72 | feeding a page appends its extracted links in document order |
| Listing.FetchLinks | scripts/download_pdfs.py:71-73 | the links returned are exactly those extracted from the page |
| Crawler.InScope | scripts/download_pdfs.py:212 | the scope test of the loop: same origin as the base URL and inside its base path |
| Crawler.DownloadFile | scripts/download_pdfs.py:136-168 | `download_file` on the files and the log: decide with `Downloads.Decide`, log it, and transfer only on a fetch; stated by `Crawler.DownloadFileExtends` |
| Crawler.Transfer | scripts/download_pdfs.py:155-168 | the GET and copy and the size check, or the `[WARN]` of a `URLError` (lines 233-234); stated by `Crawler.TransferExtends` |
| Crawler.ProcessLink | scripts/download_pdfs.py:207-210 | one pass of `for href in links`: skip test, then resolve and defragment; stated by `Crawler.ProcessLinkExtends` |
| Crawler.Dispatch | scripts/download_pdfs.py:212-234 | the scope test and the branch on the class: queue a directory, download a PDF at its local path, ignore the rest; stated by `Crawler.DispatchExtends` |
| Crawler.ProcessLinks | scripts/download_pdfs.py:206-234 | the links of a page handled in order; stated by `Crawler.ProcessLinksExtends` and computed by `Crawler.HandleLinks` |
| Crawler.Step | scripts/download_pdfs.py:192-234 | one turn of `while queue`; stated by `Crawler.StepKeepsGood` and computed by `Crawler.Turn` |
| Crawler.Run | scripts/download_pdfs.py:191 | up to `fuel` turns, stopping when the queue is empty; stated by `Crawler.RunKeepsGood` and `Crawler.CrawlGuarantees`, computed by `Crawler.Crawl` |
| Crawler.Start | scripts/download_pdfs.py:187-189 | the queue holding the normalised base URL, nothing visited or logged; stated by `Crawler.StartGood` |
| Crawler.TransferExtends | scripts/download_pdfs.py:155-168 | a download leaves the queue and `visited` alone, logs only sound events, and changes no file but `local`: nothing on a `URLError`, else `local` gets the downloaded size and the log ends with its `Fetched` event |
| Crawler.DownloadFileExtends | scripts/download_pdfs.py:136-168 | handling a PDF leaves the queue and `visited` alone and only logs sound events; it changes no file but `local`, and no file at all unless the decision is to fetch, so in a dry run it writes nothing |
| Crawler.DispatchExtends | scripts/download_pdfs.py:212-234 | a kept link queues only an in-scope directory, or downloads only an in-scope PDF; no file changes unless the URL is an in-scope PDF, and then only the one at its `build_local_path` |
| Crawler.ProcessLinkExtends | scripts/download_pdfs.py:207-234 | the body of `for href in links` only queues in-scope URLs and logs sound, non-visit events |
| Crawler.ProcessLinksExtends | scripts/download_pdfs.py:206-234 | so does the whole `for href in links` loop |
| Crawler.ExtendsTransitive | scripts/download_pdfs.py:206-234 | two such changes in a row are one |
| Crawler.StartGood | scripts/download_pdfs.py:187-189 | the initial queue holds the normalised base URL, nothing is visited, and the invariant holds |
| Crawler.StepKeepsGood | scripts/download_pdfs.py:191-234 | one turn of `while queue` keeps the invariant (queued URLs are the base or in scope, every event sound, `visited` equals the visited URLs, visits distinct, dry run writes nothing) |
| Crawler.RunUnfolds | scripts/download_pdfs.py:191 | one more turn of the loop is one more `Step` |
| Crawler.RunKeeps | scripts/download_pdfs.py:191-192 | any property of states that every turn of the `while queue` loop keeps holds after any number of turns |
| Crawler.RunKeepsGood | scripts/download_pdfs.py:191-234 | any number of turns keeps the invariant |
| Crawler.BaseInScope | scripts/download_pdfs.py:187-213 | the normalised base URL passes the scope test exactly when its parsed path ends in `/`; it is queued and fetched without that test |
| Crawler.VisitedUrlsContainVisits | scripts/download_pdfs.py:196 | every visit adds its normalised URL to `visited` |
| Crawler.VisitsDistinctPairwise | scripts/download_pdfs.py:193-196 | no two visits share a normalised URL |
| Crawler.EventsOkEach | scripts/download_pdfs.py:198-234 | a sound log is sound event by event |
| Crawler.QueueOkEach | scripts/download_pdfs.py:212-218 | a sound queue is sound URL by URL |
| Crawler.CrawlGuarantees | scripts/download_pdfs.py:186-234 | after any crawl: each normalised directory URL is visited at most once and `visited` holds exactly those; only the base and in-scope URLs are queued and fetched; only in-scope URLs are handled as files, with the announced size; a dry run writes no file |
| Crawler.DryRunWritesNothing | scripts/download_pdfs.py:150-153 | a dry run logs no download and no failed download, never decides to fetch, and leaves the files as they were |
| Crawler.HandleLinks | scripts/download_pdfs.py:206-234 | the `for href in links` loop computes `ProcessLinks` |
| Crawler.Turn | scripts/download_pdfs.py:192-204 | the loop body (pop, skip if visited, mark, fetch, handle links) computes `Step` |
| Crawler.Crawl | scripts/download_pdfs.py:186-191 | the `while queue` loop from the normalised base URL computes `Run` for the given number of turns |

## Left out

- Network access is entirely outside the model: the listing `GET`, the
  `HEAD` size probe and the file `GET`. Instead, the `Env` supplies their
  results as functions: `fetchPage`, `remoteSize` and `download`.
  - A `URLError` from the listing fetch or the download is their `None`
    result.
  - The probe's failures (`HTTPError`, `URLError`, `ValueError`) and a
    missing `Content-Length` are the probe's `None`.
  - Response charsets and decoding are not modelled.
- `HTMLParser.feed` tokenisation is a library call. The page is given as
  its start tags in document order, so only `handle_starttag`'s effect on
  `links` is modelled.
- `urlparse`, `urljoin` and `unquote` are abstract functions in `Env`.
  Reference resolution and percent-decoding are not modelled.
- `Urls.Defrag` takes only the prefix before the first `#`. When a URL has
  a `#`, Python's `urldefrag` re-parses it and reassembles it with
  `urlunparse`, which can change it in several ways the model does not
  capture:
  - it drops an empty `?` or `;` before the fragment;
  - it lower-cases the scheme, so `normalize_directory_url("HTTP://h/d/#x")`
    is `http://h/d/` while `Urls.NormalizeDirectoryUrl` gives `HTTP://h/d/`;
  - it strips leading C0 control characters and spaces;
  - it deletes tab, CR and LF characters.

  A URL without `#` is returned untouched in both.
- `str.lower` is modelled on ASCII letters only. The skip test and the
  `.pdf` test give the same answers under full Unicode lowering. Only two
  non-ASCII characters lower to ASCII letters:
  - U+0130 lowers to `i` followed by a combining dot;
  - the Kelvin sign lowers to `k`.

  Neither can complete one of the skip prefixes or the `.pdf` suffix.
- Remote sizes are natural numbers. A negative `Content-Length`, which
  `int()` accepts, cannot be represented.
- The file system is a map from local path to size. No file system
  operation is modelled:
  - directories and `mkdir`;
  - permissions;
  - a destination that is a directory;
  - failures in the middle of a copy or any `OSError`.
- Printing is not modelled. The log of `Event`s stands for the printed
  lines, not their exact text. The probe's `[INFO]` message is not logged.
- `crawl`'s `while queue` loop is unbounded. `Run` and `Crawl` take a number
  of turns (`fuel`), so a crawl that does not finish within it is cut
  short there.
- `Crawler.EventOk` does not restate that a `File` or `Fetched` event's
  local path is the one `build_local_path` gives. `Crawler.Dispatch`
  computes it that way, and its properties are the `LocalPaths` lemmas.
- Only `URLError` is caught, at the listing fetch and the download (lines
  202 and 233). Any other exception ends the whole crawl, and the model
  cannot show this, because `Env.fetchPage`, `parse` and `join` always return
  a value and `Run` never aborts. Examples of such exceptions:
  - a `LookupError` from an unknown response charset (line 69);
  - the `ValueError` that `urlparse` raises inside `urljoin` for an
    unbalanced `[` in a network location (line 209, href `http://[x/`);
  - `http.client` errors raised while reading a response.
- `Crawler.CrawlGuarantees` does not tie the files of a real run to the
  `Fetched` events. The file frame (no file but the link's local path
  changes) is stated per link by `Crawler.DispatchExtends` and per download
  by `Crawler.TransferExtends`, not over a whole crawl.
- `parse_args`, `main` and the destination-root `mkdir` are argparse / CLI
  glue and are not modelled.
