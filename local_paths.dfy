/**
 * Where a downloaded PDF is stored: `build_local_path` of
 * scripts/download_pdfs.py. A local path is the sequence of its parts, as
 * `pathlib` sees it; the destination root is given as its own parts.
 */
module LocalPaths {

  import opened Strings
  import opened Urls

  type LocalPath = seq<string>

  /** A part `pathlib` keeps: not empty, not `.`, no `/` inside. */
  predicate IsPathName(part: string) {
    part != "" && part != "." && '/' !in part
  }

  /** Drop the empty and `.` pieces of a split path, keeping the order of the others. */
  function KeepNames(pieces: seq<string>): (names: seq<string>)
    ensures |names| <= |pieces|
    ensures forall k :: 0 <= k < |names| ==> names[k] in pieces && names[k] != "" && names[k] != "."
    ensures forall k :: 0 <= k < |pieces| && pieces[k] != "" && pieces[k] != "." ==> pieces[k] in names
  {
    if pieces == [] then []
    else if pieces[0] == "" || pieces[0] == "." then KeepNames(pieces[1..])
    else [pieces[0]] + KeepNames(pieces[1..])
  }

  /** Dropping works piece by piece: a split path keeps its proper pieces in order and with their repetitions. */
  lemma {:induction false} KeepNamesAppend(a: seq<string>, b: seq<string>)
    ensures KeepNames(a + b) == KeepNames(a) + KeepNames(b)
    decreases |a|
  {
    if a == [] {
      assert a + b == b;
    } else {
      assert (a + b)[0] == a[0];
      assert (a + b)[1..] == a[1..] + b;
      KeepNamesAppend(a[1..], b);
    }
  }

  /** A single piece is kept exactly when it is neither empty nor `.`. */
  lemma KeepNamesOne(piece: string)
    ensures KeepNames([piece]) == if piece == "" || piece == "." then [] else [piece]
  {
    assert [piece][1..] == [];
  }

  /** `PurePosixPath(p).parts`, leaving out the root: the names between the slashes. */
  function PathParts(p: string): (parts: seq<string>)
    ensures forall k :: 0 <= k < |parts| ==> IsPathName(parts[k])
  {
    KeepNames(Split(p, '/'))
  }

  /** `PurePosixPath(p).name`: the last part, or the empty string when there is none. */
  function PathName(p: string): (name: string)
    ensures name == "" || IsPathName(name)
  {
    var parts := PathParts(p);
    if parts == [] then "" else parts[|parts| - 1]
  }

  predicate AllSlashes(s: string) {
    forall i :: 0 <= i < |s| ==> s[i] == '/'
  }

  /**
   * `build_local_path` on the URL path and the base path: cut the
   * slash-terminated base path off the front when it is there, strip the
   * leading slashes, fall back to the URL path's last name when nothing is
   * left, and append the parts of the result to the destination root.
   */
  function BuildLocalPath(urlPath: string, basePath: string, destRoot: LocalPath): (local: LocalPath)
    ensures |local| >= |destRoot| && local[..|destRoot|] == destRoot
    ensures forall k :: |destRoot| <= k < |local| ==> IsPathName(local[k])
  {
    var base := WithTrailingSlash(basePath);
    var relPath := if StartsWith(urlPath, base) then urlPath[|base|..] else urlPath;
    var stripped := TrimStart(relPath, IsSlash);
    var name := if stripped == "" then PathName(urlPath) else stripped;
    destRoot + PathParts(name)
  }

  /** A leading `/` adds only an empty piece, which `pathlib` drops. */
  lemma PathPartsAfterSlash(s: string)
    ensures PathParts("/" + s) == PathParts(s)
  {
    var t := "/" + s;
    assert t[0] == '/';
    assert IndexOf(t, '/') == 0;
    assert t[1..] == s;
    assert Split(t, '/') == [""] + Split(s, '/');
    assert ([""] + Split(s, '/'))[1..] == Split(s, '/');
  }

  /** So stripping leading slashes never changes the parts of a path. */
  lemma {:induction false} PathPartsIgnoreLeadingSlashes(s: string)
    ensures PathParts(TrimStart(s, IsSlash)) == PathParts(s)
    decreases |s|
  {
    if s != [] && s[0] == '/' {
      PathPartsIgnoreLeadingSlashes(s[1..]);
      assert s == "/" + s[1..];
      PathPartsAfterSlash(s[1..]);
    }
  }

  /** A single name is its own only part. */
  lemma PathPartsOfName(name: string)
    requires IsPathName(name)
    ensures PathParts(name) == [name]
  {
  }

  /** What the lstrip leaves is empty exactly when the string was all slashes. */
  lemma TrimSlashesEmpty(s: string)
    ensures TrimStart(s, IsSlash) == "" <==> AllSlashes(s)
  {
  }

  /**
   * Inside the base path, the local path is the destination root followed by
   * the parts of what comes after the slash-terminated base path.
   */
  lemma BuildLocalPathWithinBase(urlPath: string, basePath: string, destRoot: LocalPath)
    requires IsWithinBasePath(urlPath, basePath)
    requires !AllSlashes(urlPath[|WithTrailingSlash(basePath)|..])
    ensures BuildLocalPath(urlPath, basePath, destRoot) == destRoot + PathParts(urlPath[|WithTrailingSlash(basePath)|..])
  {
    var rest := urlPath[|WithTrailingSlash(basePath)|..];
    TrimSlashesEmpty(rest);
    PathPartsIgnoreLeadingSlashes(rest);
  }

  /**
   * When only slashes follow the base path (the URL is the base directory
   * itself), the local path is the destination root followed by the last
   * name of the URL path, or the root alone when the URL path has no name.
   */
  lemma BuildLocalPathAtBase(urlPath: string, basePath: string, destRoot: LocalPath)
    requires IsWithinBasePath(urlPath, basePath)
    requires AllSlashes(urlPath[|WithTrailingSlash(basePath)|..])
    ensures BuildLocalPath(urlPath, basePath, destRoot) ==
              destRoot + (if PathName(urlPath) == "" then [] else [PathName(urlPath)])
  {
    TrimSlashesEmpty(urlPath[|WithTrailingSlash(basePath)|..]);
    if PathName(urlPath) != "" {
      PathPartsOfName(PathName(urlPath));
    }
  }

  /** Outside the base path, the whole URL path is mapped under the destination root. */
  lemma BuildLocalPathOutsideBase(urlPath: string, basePath: string, destRoot: LocalPath)
    requires !IsWithinBasePath(urlPath, basePath) && !AllSlashes(urlPath)
    ensures BuildLocalPath(urlPath, basePath, destRoot) == destRoot + PathParts(urlPath)
  {
    TrimSlashesEmpty(urlPath);
    PathPartsIgnoreLeadingSlashes(urlPath);
  }
}
